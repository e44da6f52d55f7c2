/**
  fsformat's routines as they run, over the array of blocks and the struct Files in it;
  each is tied to the function of module FsFormat that describes it. A method whose `ok` is
  false has failed its assertion or left the disk.
*/
module FsWriter {
  import opened Mmu
  import Bitmap
  import opened FsBlocks
  import opened FsFormat

  class Writer {
    const disk: array<Block>
    const bitmap: array<bv32> // the words of block 2
    var nextbno: nat
    var files: map<nat, File>

    ghost predicate Valid()
      reads this
    {
      disk.Length == NBLOCK && bitmap.Length == NINDIRECT
    }

    ghost function View(): Image
      reads this, disk
    {
      Image(nextbno, files, disk[..])
    }

    /** The bit of every block of the disk is set, and no other. */
    ghost predicate AllFree()
      reads bitmap
    {
      forall b: nat :: b < bitmap.Length * 32 ==> (Bitmap.Test(bitmap[..], b) <==> b < NBLOCK)
    }

    /** init_disk: the bitmap block is filled with ones and its end, past the disk, with zeros. */
    constructor ()
      ensures Valid() && AllFree() && View() == Init() && fresh(disk) && fresh(bitmap)
    {
      disk := new Block[NBLOCK](_ => Zeros());
      bitmap := new bv32[NINDIRECT](i => if i < NBLOCK % BIT2BLK / 32 then 0xffff_ffff else 0);
      nextbno, files := FIRST_BNO, map[ROOT := NoFile().(dir := true)];
      new;
      assert disk[..] == Init().blocks;
      forall b: nat | b < bitmap.Length * 32 ensures Bitmap.Test(bitmap[..], b) <==> b < NBLOCK {
        Bitmap.ConstBits(b % 32);
      }
    }

    method NextBlock() returns (ok: bool, b: nat)
      requires Valid()
      modifies this`nextbno
      ensures b == old(nextbno) && ok == (b < NBLOCK)
      ensures nextbno == if ok then b + 1 else b
    {
      b, ok := nextbno, nextbno < NBLOCK;
      if ok {
        nextbno := nextbno + 1;
      }
    }

    /** Flush the bitmap: exactly the blocks of the disk from nextbno on are free. */
    method FlushBitmap()
      requires Valid() && AllFree() && nextbno <= NBLOCK
      modifies bitmap
      ensures forall b: nat :: b < bitmap.Length * 32 ==> (Bitmap.Test(bitmap[..], b) <==> nextbno <= b < NBLOCK)
      ensures (set b: nat | b < NBLOCK && Bitmap.Test(bitmap[..], b)) == AsServer(View(), 0).free
    {
      hide Bitmap.Test, Bitmap.Clear, Bitmap.ClearBit;
      var i := 0;
      while i < nextbno
        invariant i <= nextbno
        invariant forall b: nat :: b < bitmap.Length * 32 ==> (Bitmap.Test(bitmap[..], b) <==> i <= b < NBLOCK)
      {
        Bitmap.OneBit(bitmap[..], i);
        ghost var was := bitmap[..];
        bitmap[i % BIT2BLK / 32] := Bitmap.ClearBit(bitmap[i % BIT2BLK / 32], i % 32);
        ClearedWord(was, bitmap[..], i);
        i := i + 1;
      }
    }

    static lemma ClearedWord(was: seq<bv32>, now: seq<bv32>, i: nat)
      requires i < NBLOCK && |was| == NINDIRECT
      requires now == was[i % BIT2BLK / 32 := Bitmap.ClearBit(was[i % BIT2BLK / 32], i % 32)]
      ensures now == Bitmap.Clear(was, i)
    {
      hide Bitmap.ClearBit;
      assert i % BIT2BLK == i;
    }

    method SaveBlockLink(f: nat, n: nat, b: nat) returns (ok: bool)
      requires Valid() && f in files
      modifies this, disk
      ensures ok <==> SaveLink(old(View()), f, n, b).Some?
      ensures ok ==> View() == SaveLink(old(View()), f, n, b).value
    {
      if n >= NINDIRECT {
        return false;
      }
      if n < NDIRECT {
        files := files[f := files[f].(direct := files[f].direct[n := b])];
      } else {
        if files[f].indirect == 0 {
          var t;
          ok, t := NextBlock();
          if !ok {
            return;
          }
          files := files[f := files[f].(indirect := t)];
        }
        if files[f].indirect >= NBLOCK {
          return false;
        }
        disk[files[f].indirect] := disk[files[f].indirect][n := b];
      }
      return true;
    }

    method MakeLinkBlock(d: nat) returns (ok: bool, b: nat)
      requires Valid() && d in files
      modifies this, disk
      ensures b == old(nextbno) && (ok <==> MakeLink(old(View()), d).Some?)
      ensures ok ==> View() == MakeLink(old(View()), d).value
    {
      var n := files[d].size / BY2BLK;
      ok, b := NextBlock();
      if !ok {
        return;
      }
      assert disk[..] == disk[..][b := disk[b]];
      ok := SaveBlockLink(d, n, b);
      if ok {
        files := files[d := files[d].(size := files[d].size + BY2BLK)];
      }
    }

    /** create_file: the first unnamed struct File of the directory, or one in a new block. */
    method CreateFile(d: nat) returns (ok: bool, f: nat)
      requires Valid() && d in files
      requires forall n: nat {:trigger Data(d, n)} :: n < files[d].size / BY2BLK ==> Link(View(), Data(d, n)) != 0
      modifies this, disk
      ensures ok <==> Create(old(View()), d).Some?
      ensures ok ==> Create(old(View()), d).value == (View(), f)
    {
      var nblk := files[d].size / BY2BLK;
      var i := 0;
      while i < nblk
        invariant View() == old(View()) && i <= nblk
        invariant Unused(View(), d, 0, nblk) == Unused(View(), d, i, nblk)
      {
        assert Link(View(), Data(d, i)) != 0;
        var b := if i < NDIRECT then files[d].direct[i]
                 else if files[d].indirect < NBLOCK then disk[files[d].indirect][i] else 0;
        assert b == Link(View(), Data(d, i));
        var k := 0;
        while k < FILE2BLK
          invariant View() == old(View()) && k <= FILE2BLK
          invariant UnusedIn(View(), b, 0) == UnusedIn(View(), b, k)
        {
          if FileAt(b, k) !in files {
            f := FileAt(b, k);
            files := files[f := NoFile()];
            return true, f;
          }
          k := k + 1;
        }
        i := i + 1;
      }
      var b;
      ok, b := MakeLinkBlock(d);
      f := FileAt(b, 0);
      if ok {
        files := files[f := NoFile()];
      }
    }

    /** The loop of write_file. */
    method WriteChunks(f: nat, chunks: seq<Block>) returns (ok: bool)
      requires Valid() && f in files
      modifies this, disk
      ensures ok <==> WriteBlocks(old(View()), f, chunks, 0).Some?
      ensures ok ==> View() == WriteBlocks(old(View()), f, chunks, 0).value
    {
      hide SaveLink;
      var i := 0;
      while i < |chunks|
        invariant i <= |chunks| && f in files
        invariant WriteBlocks(old(View()), f, chunks, 0) == WriteBlocks(View(), f, chunks, i)
      {
        ghost var was := View();
        if nextbno >= NBLOCK {
          return false;
        }
        disk[nextbno] := chunks[i];
        var b;
        ok, b := NextBlock();
        ok := SaveBlockLink(f, i, b);
        if !ok {
          return;
        }
        assert AddBlock(was, f, i, chunks[i]) == Some(View());
        i := i + 1;
      }
      return true;
    }
  }
}
