/**
  The file server's routines as they run, over the bitmap in memory, the block cache and the
  struct Files; each is tied to the function of module FsBlocks that describes it. A method
  whose `ok` is false has panicked.
*/
module FsServer {
  import opened Errors
  import opened Mmu
  import Bitmap
  import opened FsBlocks

  class Server {
    const nblocks: nat
    const bitmap: array<bv32>
    var files: map<nat, File>
    var cache: map<nat, Block>
    const disk: seq<Block>
    var pages: nat

    ghost predicate Valid()
      reads this
    {
      nblocks <= bitmap.Length * 32
    }

    ghost function Free(): set<nat>
      requires Valid()
      reads this, bitmap
    {
      set b: nat | b < nblocks && Bitmap.Test(bitmap[..], b)
    }

    ghost function View(): State
      requires Valid()
      reads this, bitmap
    {
      State(nblocks, Free(), files, cache, disk, pages)
    }

    constructor (nblocks: nat, bitmap: array<bv32>, disk: seq<Block>, files: map<nat, File>, pages: nat)
      requires nblocks <= bitmap.Length * 32
      ensures Valid() && this.bitmap == bitmap
      ensures View() == State(
        nblocks, (set b: nat | b < nblocks && Bitmap.Test(bitmap[..], b)), files, map[], disk, pages)
    {
      this.nblocks, this.bitmap, this.disk, this.files, this.pages := nblocks, bitmap, disk, files, pages;
      cache := map[];
    }

    /** block_is_free */
    method BlockIsFree(b: nat) returns (free: bool)
      requires Valid()
      ensures free <==> b in View().free
    {
      if b >= nblocks {
        return false;
      }
      return Bitmap.Bit(bitmap[b / 32], b % 32);
    }

    method FreeBlock(b: nat)
      requires Valid()
      modifies bitmap
      ensures View() == FsBlocks.FreeBlock(old(View()), b)
    {
      if b == 0 || b >= nblocks {
        return;
      }
      Bitmap.OneBit(bitmap[..], b);
      bitmap[b / 32] := Bitmap.MarkBit(bitmap[b / 32], b % 32);
      assert bitmap[..] == Bitmap.Mark(old(bitmap[..]), b);
      hide Bitmap.Test, Bitmap.Mark, Bitmap.MarkBit;
    }

    /** alloc_block_num: the least free block from 3 on, or -E_NO_DISK. */
    method AllocBlockNum() returns (r: int)
      requires Valid()
      modifies bitmap
      ensures match NextFree(old(View()), 3)
              case None => r == -E_NO_DISK && View() == old(View())
              case Some(b) => r == b && View() == old(View()).(free := old(View()).free - {b})
    {
      hide Bitmap.Bit, Bitmap.ClearBit;
      var b := 3;
      while b < nblocks
        invariant b >= 3 && bitmap[..] == old(bitmap[..])
        invariant NextFree(old(View()), 3) == NextFree(old(View()), b)
      {
        if Bitmap.Bit(bitmap[b / 32], b % 32) {
          Bitmap.OneBit(bitmap[..], b);
          bitmap[b / 32] := Bitmap.ClearBit(bitmap[b / 32], b % 32);
          assert bitmap[..] == Bitmap.Clear(old(bitmap[..]), b);
          assert b in old(View()).free;
          return b;
        }
        b := b + 1;
      }
      return -E_NO_DISK;
    }

    /** The kernel's side of syscall_mem_alloc: a page for block b, and one for its page table if there is none. */
    method Take(b: nat) returns (r: int)
      requires Valid()
      modifies this`pages
      ensures r == if old(pages) < Cost(old(View()), b) then -E_NO_MEM else 0
      ensures pages == if r == 0 then old(pages) - Cost(old(View()), b) else 0
    {
      if pages == 0 {
        return -E_NO_MEM;
      }
      pages := pages - 1;
      if exists c :: c in cache && c / ENTRIES == b / ENTRIES {
        return 0;
      }
      if pages == 0 {
        return -E_NO_MEM;
      }
      pages := pages - 1;
      return 0;
    }

    /** map_block */
    method MapPage(b: nat) returns (r: int)
      requires Valid()
      modifies this
      ensures b in old(cache) ==> r == 0 && View() == old(View())
      ensures b !in old(cache) && old(pages) < Cost(old(View()), b) ==>
                r == -E_NO_MEM && View() == old(View()).(pages := 0)
      ensures b !in old(cache) && old(pages) >= Cost(old(View()), b) ==>
                r == 0 && View() == old(View()).(cache := old(cache)[b := Zeros()], pages := old(pages) - Cost(old(View()), b))
    {
      if b in cache {
        return 0;
      }
      r := Take(b);
      if r == 0 {
        cache := cache[b := Zeros()];
      }
    }

    /** alloc_block: a block number, or a negative error. */
    method AllocBlock() returns (r: int)
      requires Valid()
      modifies this, bitmap
      ensures Valid()
      ensures match FsBlocks.AllocBlock(old(View()))
              case Got(t, b) => r == b && View() == t
              case Failed(t, code) => r == code < 0 && View() == t
    {
      r := AllocBlockNum();
      if r < 0 {
        return;
      }
      var b := r;
      r := MapPage(b);
      if r < 0 {
        FreeBlock(b);
        return;
      }
      return b;
    }

    /** read_block */
    method ReadBlock(b: nat) returns (ok: bool)
      requires Valid()
      modifies this
      ensures Valid()
      ensures match FsBlocks.ReadBlock(old(View()), b)
              case None => !ok
              case Some(t) => ok && View() == t
    {
      if b >= nblocks {
        return false;
      }
      var free := BlockIsFree(b);
      if free {
        return false;
      }
      if b !in cache {
        var r := Take(b);
        if r < 0 {
          return false;
        }
        cache := cache[b := if b < |disk| then disk[b] else Zeros()];
      }
      return true;
    }

    method FileBlockWalk(f: nat, n: nat, alloc: bool) returns (ok: bool, code: int, k: Slot)
      requires Valid() && f in files
      modifies this, bitmap
      ensures Valid()
      ensures match Walk(old(View()), f, n, alloc)
              case At(t, l) => ok && code == 0 && k == l && View() == t
              case Miss(t, c) => ok && code == c < 0 && View() == t
              case Panic => !ok
    {
      k := InFile(f, n);
      if n < NDIRECT {
        return true, 0, k;
      } else if n < NINDIRECT {
        if files[f].indirect == 0 {
          if !alloc {
            return true, -E_NOT_FOUND, k;
          }
          code := AllocBlock();
          if code < 0 {
            return true, code, k;
          }
          files := files[f := files[f].(indirect := code)];
        }
        ok := ReadBlock(files[f].indirect);
        return ok, 0, InTable(f, n);
      } else {
        return true, -E_INVAL, k;
      }
    }

    /** A load through the pointer a walk returned. */
    method Load(k: Slot) returns (v: nat)
      requires Valid()
      requires k.InTable? ==> k.f in files && k.i >= NDIRECT && files[k.f].indirect != 0 && files[k.f].indirect in cache
      ensures v == Owner(View(), k)
    {
      match k {
        case InFile(f, i) => return if f in files && i < NDIRECT then files[f].direct[i] else 0;
        case Table(f) => return if f in files then files[f].indirect else 0;
        case InTable(f, i) => return if i < NINDIRECT then cache[files[f].indirect][i] else 0;
      }
    }

    /** A store through the pointer a walk returned. */
    method Store(k: Slot, v: nat)
      requires Valid()
      modifies this
      ensures Valid() && View() == Put(old(View()), k, v)
    {
      match k {
        case InFile(f, i) =>
          if f in files && i < NDIRECT {
            files := files[f := files[f].(direct := files[f].direct[i := v])];
          }
        case Table(f) =>
          if f in files {
            files := files[f := files[f].(indirect := v)];
          }
        case InTable(f, i) =>
          if f in files && i < NINDIRECT && files[f].indirect in cache {
            cache := cache[files[f].indirect := cache[files[f].indirect][i := v]];
          }
      }
    }

    method FileMapBlock(f: nat, n: nat, alloc: bool) returns (ok: bool, code: int, b: nat)
      requires Valid() && f in files
      modifies this, bitmap
      ensures Valid()
      ensures match MapBlock(old(View()), f, n, alloc)
              case Ret(t, c, d) => ok && code == c && b == d && View() == t
              case Halt => !ok
    {
      var k;
      b := 0;
      ok, code, k := FileBlockWalk(f, n, alloc);
      if !ok || code < 0 {
        return;
      }
      b := Load(k);
      if b == 0 {
        if !alloc {
          return true, -E_NOT_FOUND, 0;
        }
        code := AllocBlock();
        if code < 0 {
          return;
        }
        b := code;
        Store(k, b);
      }
      return true, 0, b;
    }

    method FileClearBlock(f: nat, n: nat) returns (ok: bool, code: int)
      requires Valid() && f in files
      modifies this, bitmap
      ensures Valid()
      ensures match ClearBlock(old(View()), f, n)
              case Ret(t, c, _) => ok && code == c && View() == t && f in files
              case Halt => !ok
    {
      var k;
      ok, code, k := FileBlockWalk(f, n, false);
      if !ok || code < 0 {
        return;
      }
      var b := Load(k);
      if b != 0 {
        FreeBlock(b);
        Store(k, 0);
      }
    }

    /** file_truncate; what the loop has left to do is ClearFrom. */
    method FileTruncate(f: nat, size: nat) returns (ok: bool)
      requires Valid() && f in files
      modifies this, bitmap
      ensures Valid()
      ensures match Truncate(old(View()), f, size)
              case None => !ok
              case Some(t) => ok && View() == t
    {
      hide FsBlocks.ClearBlock;
      var oldBlocks := files[f].size / BY2BLK + 1;
      var newBlocks := size / BY2BLK + 1;
      if size == 0 {
        newBlocks := 0;
      }
      ok := ClearLoop(f, newBlocks, oldBlocks);
      if !ok {
        return;
      }
      if newBlocks <= NDIRECT && files[f].indirect != 0 {
        FreeBlock(files[f].indirect);
        Store(Table(f), 0);
      }
      files := files[f := files[f].(size := size)];
    }

    /** The loops of file_truncate. */
    method ClearLoop(f: nat, from: nat, end: nat) returns (ok: bool)
      requires Valid() && f in files
      modifies this, bitmap
      ensures Valid() && (ok ==> f in files)
      ensures match ClearFrom(old(View()), f, from, end)
              case None => !ok
              case Some(t) => ok && View() == t
    {
      hide FsBlocks.ClearBlock;
      var bno, code := from, 0;
      while bno < end
        invariant Valid() && f in files && bno >= from
        invariant ClearFrom(old(View()), f, from, end) == ClearFrom(View(), f, bno, end)
      {
        ok, code := FileClearBlock(f, bno);
        if !ok {
          return;
        }
        bno := bno + 1;
      }
      return true;
    }

    /** file_set_size */
    method FileSetSize(f: nat, size: nat) returns (ok: bool)
      requires Valid() && f in files
      modifies this, bitmap
      ensures Valid()
      ensures match SetSize(old(View()), f, size)
              case None => !ok
              case Some(t) => ok && View() == t
    {
      if files[f].size > size {
        ok := FileTruncate(f, size);
        return;
      }
      files := files[f := files[f].(size := size)];
      return true;
    }
  }
}
