/**
  The block map of the file server (fs/fs.c, user/include/fs.h): which disk block each
  slot of each file names, which blocks the bitmap says are free, and what the block cache
  holds. Each routine is a function on that state; module FsServer has the loops.
*/
module FsBlocks {
  import opened Errors
  import opened Mmu

  const BY2BLK: nat := BY2PG
  const BIT2BLK: nat := BY2BLK * 8
  const NDIRECT: nat := 10
  const NINDIRECT: nat := BY2BLK / 4

  function Zeros(): (b: seq<nat>)
    ensures |b| == NINDIRECT && forall i :: 0 <= i < NINDIRECT ==> b[i] == 0
  {
    seq(NINDIRECT, _ => 0)
  }

  function NoDirect(): (b: seq<nat>)
    ensures |b| == NDIRECT && forall i :: 0 <= i < NDIRECT ==> b[i] == 0
  {
    seq(NDIRECT, _ => 0)
  }

  /** The 1024 words of a block. */
  type Block = b: seq<nat> | |b| == NINDIRECT witness Zeros()

  type Direct = b: seq<nat> | |b| == NDIRECT witness NoDirect()

  /** The size, block numbers and type in a struct File. */
  datatype File = File(size: nat, direct: Direct, indirect: nat, dir: bool)

  const FILE2BLK: nat := 16

  /** The place of struct File number k of block b. */
  function FileAt(b: nat, k: nat): nat { b * FILE2BLK + k }

  /** The block a struct File lies in. */
  function Home(f: nat): nat { f / FILE2BLK }

  /** The root directory's struct File lies in the super-block. */
  const ROOT: nat := 0

  /**
    `free` is the set of blocks whose bit is set; `files` has every struct File by its
    place on the disk; `cache` has the blocks mapped in memory, and `disk` those on disk.
    `pages` is the number of pages the kernel still has for the server.
  */
  datatype State = State(
    nblocks: nat, free: set<nat>, files: map<nat, File>, cache: map<nat, Block>, disk: seq<Block>, pages: nat)

  /** A place where a block number is kept. */
  datatype Slot =
    | InFile(f: nat, i: nat)     // f_direct[i]
    | Table(f: nat)              // f_indirect
    | InTable(f: nat, i: nat)    // word i of the indirect block

  function Content(s: State, b: nat): Block {
    if b in s.cache then s.cache[b] else if b < |s.disk| then s.disk[b] else Zeros()
  }

  /** The block a slot names, 0 for none. The first NDIRECT words of an indirect block are not used. */
  function Owner(s: State, k: Slot): nat {
    match k
    case InFile(f, i) => if f in s.files && i < NDIRECT then s.files[f].direct[i] else 0
    case Table(f) => if f in s.files then s.files[f].indirect else 0
    case InTable(f, i) =>
      if f in s.files && NDIRECT <= i < NINDIRECT && s.files[f].indirect != 0
      then Content(s, s.files[f].indirect)[i] else 0
  }

  /** The slot of block n of file f. */
  function Data(f: nat, n: nat): Slot {
    if n < NDIRECT then InFile(f, n) else InTable(f, n)
  }

  // ----- single blocks

  /** The pages it takes to map block b: its own, and a page table if it is the first of its 4 MB. */
  function Cost(s: State, b: nat): nat {
    if exists c :: c in s.cache && c / ENTRIES == b / ENTRIES then 1 else 2
  }

  /** free_block */
  function FreeBlock(s: State, b: nat): State {
    if b == 0 || b >= s.nblocks then s else s.(free := s.free + {b})
  }

  /** The block alloc_block_num finds: the least free one from `from` on. */
  function NextFree(s: State, from: nat): (r: Option<nat>)
    ensures r.Some? ==> from <= r.value < s.nblocks && r.value in s.free
    ensures r.Some? ==> forall b :: from <= b < r.value ==> b !in s.free
    ensures r.None? ==> forall b :: from <= b < s.nblocks ==> b !in s.free
    decreases s.nblocks - from
  {
    if from >= s.nblocks then None
    else if from in s.free then Some(from)
    else NextFree(s, from + 1)
  }

  datatype Alloc = Got(s: State, b: nat) | Failed(s: State, code: int)

  /**
    alloc_block: a block still in the cache keeps its old contents. A page that was
    allocated when there was none left for the page table is lost.
  */
  function AllocBlock(s: State): Alloc {
    match NextFree(s, 3)
    case None => Failed(s, -E_NO_DISK)
    case Some(b) =>
      var t := s.(free := s.free - {b});
      if b in s.cache then Got(t, b)
      else if s.pages < Cost(s, b) then Failed(FreeBlock(t, b).(pages := 0), -E_NO_MEM)
      else Got(t.(cache := t.cache[b := Zeros()], pages := s.pages - Cost(s, b)), b)
  }

  /** read_block; None is a panic. */
  function ReadBlock(s: State, b: nat): Option<State> {
    if b >= s.nblocks || b in s.free then None
    else if b in s.cache then Some(s)
    else if s.pages < Cost(s, b) then None
    else Some(s.(cache := s.cache[b := Content(s, b)], pages := s.pages - Cost(s, b)))
  }

  // ----- files

  datatype Walked = At(s: State, k: Slot) | Miss(s: State, code: int) | Panic

  /** file_block_walk; the pointer it returns is the slot. */
  function Walk(s: State, f: nat, n: nat, alloc: bool): Walked
    requires f in s.files
  {
    if n < NDIRECT then At(s, InFile(f, n))
    else if n >= NINDIRECT then Miss(s, -E_INVAL)
    else if s.files[f].indirect != 0 then WalkTable(s, f, n)
    else if !alloc then Miss(s, -E_NOT_FOUND)
    else
      match AllocBlock(s)
      case Failed(t, code) => Miss(t, code)
      case Got(t, b) => WalkTable(t.(files := t.files[f := t.files[f].(indirect := b)]), f, n)
  }

  function WalkTable(s: State, f: nat, n: nat): Walked
    requires f in s.files
  {
    match ReadBlock(s, s.files[f].indirect)
    case None => Panic
    case Some(t) => At(t, InTable(f, n))
  }

  /** A store through the pointer a walk returned. */
  function Put(s: State, k: Slot, v: nat): State {
    match k
    case InFile(f, i) =>
      if f in s.files && i < NDIRECT then s.(files := s.files[f := s.files[f].(direct := s.files[f].direct[i := v])]) else s
    case Table(f) => if f in s.files then s.(files := s.files[f := s.files[f].(indirect := v)]) else s
    case InTable(f, i) =>
      if f in s.files && i < NINDIRECT && s.files[f].indirect in s.cache
      then s.(cache := s.cache[s.files[f].indirect := s.cache[s.files[f].indirect][i := v]]) else s
  }

  datatype Reply = Ret(s: State, code: int, b: nat) | Halt

  /** file_map_block; `b` is *diskbno when the code is 0. */
  function MapBlock(s: State, f: nat, n: nat, alloc: bool): Reply
    requires f in s.files
  {
    match Walk(s, f, n, alloc)
    case Panic => Halt
    case Miss(t, code) => Ret(t, code, 0)
    case At(t, k) => Fill(t, k, alloc)
  }

  /** What the slot holds, or a new block for it. */
  function Fill(s: State, k: Slot, alloc: bool): Reply {
    if Owner(s, k) != 0 then Ret(s, 0, Owner(s, k))
    else if !alloc then Ret(s, -E_NOT_FOUND, 0)
    else
      match AllocBlock(s)
      case Failed(t, code) => Ret(t, code, 0)
      case Got(t, b) => Ret(Put(t, k, b), 0, b)
  }

  /** file_clear_block */
  function ClearBlock(s: State, f: nat, n: nat): (r: Reply)
    requires f in s.files
    ensures r.Ret? ==> f in r.s.files
  {
    match Walk(s, f, n, false)
    case Panic => Halt
    case Miss(t, code) => Ret(t, code, 0)
    case At(t, k) => if Owner(t, k) != 0 then Ret(Put(FreeBlock(t, Owner(t, k)), k, 0), 0, 0) else Ret(t, 0, 0)
  }

  /** The loop of file_truncate: clear blocks bno to end; None is a panic. */
  function ClearFrom(s: State, f: nat, bno: nat, end: nat): (r: Option<State>)
    requires f in s.files
    ensures r.Some? ==> f in r.value.files
    decreases end - bno
  {
    if bno >= end then Some(s)
    else
      match ClearBlock(s, f, bno)
      case Halt => None
      case Ret(t, _, _) => ClearFrom(t, f, bno + 1, end)
  }

  /** The number of blocks file_truncate reckons for a size. */
  function OldBlocks(size: nat): nat { size / BY2BLK + 1 }

  function NewBlocks(size: nat): nat {
    if size == 0 then 0 else size / BY2BLK + 1
  }

  /** The end of file_truncate for a size that needs no indirect block. */
  function DropTable(s: State, f: nat): (t: State)
    requires f in s.files
    ensures f in t.files
  {
    var b := s.files[f].indirect;
    if b == 0 then s else Put(FreeBlock(s, b), Table(f), 0)
  }

  function Resize(s: State, f: nat, size: nat): State
    requires f in s.files
  {
    s.(files := s.files[f := s.files[f].(size := size)])
  }

  /** file_truncate; None is a panic. */
  function Truncate(s: State, f: nat, size: nat): Option<State>
    requires f in s.files
  {
    match ClearFrom(s, f, NewBlocks(size), OldBlocks(s.files[f].size))
    case None => None
    case Some(t) => Some(Resize(if NewBlocks(size) <= NDIRECT then DropTable(t, f) else t, f, size))
  }

  /** file_set_size, without the flush of the directory. */
  function SetSize(s: State, f: nat, size: nat): Option<State>
    requires f in s.files
  {
    if s.files[f].size > size then Truncate(s, f, size) else Some(Resize(s, f, size))
  }
}
