/**
  The image writer (tools/fsformat.c): an independent program that lays out the same disk
  format block by block. What it has written so far is an Image; AsServer is the state in
  which the file server would find it.
*/
module FsFormat {
  import opened Mmu
  import opened FsBlocks
  import opened FsOwners
  import FsMap
  import opened FsFiles
  import opened FsDirs
  import opened FsEntries
  import FsRuns

  const NBLOCK: nat := 1024
  const FIRST_BNO: nat := 3 // boot block, super-block and one bitmap block come first

  /** `files` has the struct Files with a name, by where each is. */
  datatype Image = Image(nextbno: nat, files: map<nat, File>, blocks: seq<Block>)

  predicate IsDir(img: Image, d: nat) { d in img.files && img.files[d].dir }

  function NoFile(): File { File(0, NoDirect(), 0, false) }

  /** init_disk */
  function Init(): Image {
    Image(FIRST_BNO, map[ROOT := NoFile().(dir := true)], seq(NBLOCK, _ => Zeros()))
  }

  predicate Unwritten(b: nat, nextbno: nat) {
    nextbno <= b < NBLOCK
  }

  /** The state of the file server after it read the bitmap that flush_bitmap leaves. */
  function AsServer(img: Image, pages: nat): State {
    State(NBLOCK, (set b: nat | b < NBLOCK && Unwritten(b, img.nextbno)), img.files, map[], img.blocks, pages)
  }

  function Link(img: Image, k: Slot): nat {
    Owner(AsServer(img, 0), k)
  }

  /** save_block_link; None is the failed assertion, or a block past the end of the disk. */
  function SaveLink(img: Image, f: nat, n: nat, b: nat): (r: Option<Image>)
    requires f in img.files && |img.blocks| == NBLOCK
    ensures r.Some? ==> f in r.value.files && |r.value.blocks| == NBLOCK
  {
    if n >= NINDIRECT then None
    else if n < NDIRECT then Some(img.(files := img.files[f := img.files[f].(direct := img.files[f].direct[n := b])]))
    else if img.files[f].indirect != 0 then PutWord(img, img.files[f].indirect, n, b)
    else PutWord(img.(files := img.files[f := img.files[f].(indirect := img.nextbno)], nextbno := img.nextbno + 1),
                 img.nextbno, n, b)
  }

  function PutWord(img: Image, t: nat, n: nat, b: nat): (r: Option<Image>)
    requires n < NINDIRECT && |img.blocks| == NBLOCK
    ensures r.Some? ==> r.value.files == img.files && |r.value.blocks| == NBLOCK
  {
    if t >= NBLOCK then None else Some(img.(blocks := img.blocks[t := img.blocks[t][n := b]]))
  }

  /** next_block, filled with `block`, and the link to it. */
  function AddBlock(img: Image, f: nat, n: nat, block: Block): (r: Option<Image>)
    requires f in img.files && |img.blocks| == NBLOCK
    ensures r.Some? ==> f in r.value.files && |r.value.blocks| == NBLOCK
  {
    if img.nextbno >= NBLOCK then None
    else SaveLink(img.(blocks := img.blocks[img.nextbno := block], nextbno := img.nextbno + 1), f, n, img.nextbno)
  }

  function WithSize(img: Image, f: nat, size: nat): (t: Image)
    requires f in img.files
    ensures f in t.files
  {
    img.(files := img.files[f := img.files[f].(size := size)])
  }

  /** make_link_block: a new block for directory d, as empty as the disk is there. */
  function MakeLink(img: Image, d: nat): (r: Option<Image>)
    requires d in img.files && |img.blocks| == NBLOCK
    ensures r.Some? ==> |r.value.blocks| == NBLOCK
  {
    var size := img.files[d].size;
    if img.nextbno >= NBLOCK then None
    else
      match AddBlock(img, d, size / BY2BLK, img.blocks[img.nextbno])
      case None => None
      case Some(t) => Some(WithSize(t, d, size + BY2BLK))
  }

  /** The first unnamed struct File in block b, from number k on. */
  function UnusedIn(img: Image, b: nat, k: nat): Option<nat>
    decreases FILE2BLK - k
  {
    if k >= FILE2BLK then None
    else if FileAt(b, k) !in img.files then Some(FileAt(b, k))
    else UnusedIn(img, b, k + 1)
  }

  /** The first one in the blocks i to n of directory d. */
  function Unused(img: Image, d: nat, i: nat, n: nat): Option<nat>
    decreases n - i
  {
    if i >= n then None
    else
      var u := UnusedIn(img, Link(img, Data(d, i)), 0);
      if u.Some? then u else Unused(img, d, i + 1, n)
  }

  /** create_file, and the name its caller gives the struct File it returns. */
  function Create(img: Image, d: nat): (r: Option<(Image, nat)>)
    requires d in img.files && |img.blocks| == NBLOCK
    ensures r.Some? ==> r.value.1 in r.value.0.files && |r.value.0.blocks| == NBLOCK
  {
    var u := Unused(img, d, 0, img.files[d].size / BY2BLK);
    if u.Some? then Some((img.(files := img.files[u.value := NoFile()]), u.value))
    else
      match MakeLink(img, d)
      case None => None
      case Some(t) => Some((t.(files := t.files[FileAt(img.nextbno, 0) := NoFile()]), FileAt(img.nextbno, 0)))
  }

  /** The loop of write_file from block i on. */
  function WriteBlocks(img: Image, f: nat, chunks: seq<Block>, i: nat): Option<Image>
    requires f in img.files && |img.blocks| == NBLOCK
    decreases |chunks| - i
  {
    if i >= |chunks| then Some(img)
    else
      match AddBlock(img, f, i, chunks[i])
      case None => None
      case Some(t) => WriteBlocks(t, f, chunks, i + 1)
  }

  datatype Op =
    | Directory(dir: nat)                                   // write_directory, its own entry
    | Regular(dir: nat, size: nat, chunks: seq<Block>)      // write_file, read block by block

  /** The struct File the operation fills in. */
  function Target(img: Image, op: Op): nat
    requires op.dir in img.files && |img.blocks| == NBLOCK
  {
    var c := Create(img, op.dir);
    if c.Some? then c.value.1 else 0
  }

  /** The type FTYPE_DIR is set. */
  function AsDir(img: Image, f: nat): (t: Image)
    requires f in img.files
    ensures f in t.files
  {
    img.(files := img.files[f := img.files[f].(dir := true)])
  }

  function Step(img: Image, op: Op): Option<Image>
    requires op.dir in img.files && |img.blocks| == NBLOCK
  {
    match Create(img, op.dir)
    case None => None
    case Some((t, f)) =>
      match op
      case Directory(_) => Some(AsDir(t, f))
      case Regular(_, size, chunks) => WriteBlocks(WithSize(t, f, size), f, chunks, 0)
  }

  predicate Allowed(img: Image, op: Op) {
    && IsDir(img, op.dir)
    && (op.Regular? ==> |op.chunks| == (op.size + BY2BLK - 1) / BY2BLK)
  }

  // ----- the invariant

  /** A directory has as many blocks as its size says, the first ones. */
  ghost predicate DirOk(img: Image, d: nat) {
    && d in img.files && img.files[d].size % BY2BLK == 0
    && forall n: nat {:trigger Data(d, n)} :: Link(img, Data(d, n)) != 0 <==> n < img.files[d].size / BY2BLK
  }

  /** The blocks handed out so far are owned as the file server wants it, and the rest of the disk is zero. */
  ghost predicate Core(img: Image) {
    && FIRST_BNO <= img.nextbno <= NBLOCK && ZeroFrom(img, img.nextbno)
    && (forall f :: f in img.files ==> f < img.nextbno * FILE2BLK)
    && Sound(AsServer(img, 0))
  }

  ghost predicate Good(img: Image) {
    Core(img) && forall d :: IsDir(img, d) ==> DirOk(img, d)
  }

  /** The link needs an indirect block of its own. */
  predicate NewTable(img: Image, f: nat, n: nat)
    requires f in img.files
  {
    n >= NDIRECT && img.files[f].indirect == 0
  }

  /** What adding block n to file f leaves alone. */
  ghost predicate OnlyFile(img: Image, t: Image, f: nat) {
    && t.files.Keys == img.files.Keys && |t.blocks| == |img.blocks| == NBLOCK
    && (forall g :: g in img.files && g != f ==> t.files[g] == img.files[g])
    && (f in img.files ==> t.files[f].size == img.files[f].size && t.files[f].dir == img.files[f].dir)
  }

  ghost predicate ZeroFrom(img: Image, b: nat) {
    |img.blocks| == NBLOCK && forall c :: b <= c < NBLOCK ==> img.blocks[c] == Zeros()
  }

  ghost predicate SameDirs(img: Image, t: Image) {
    forall g :: g in img.files ==> g in t.files && t.files[g].dir == img.files[g].dir
  }

  /** Tables are blocks that were handed out, each for one file. */
  ghost predicate TablesOut(img: Image) {
    && (forall g :: g in img.files ==> img.files[g].indirect < img.nextbno)
    && (forall g, h :: g in img.files && h in img.files && img.files[g].indirect == img.files[h].indirect != 0 ==> g == h)
  }

  lemma OwnedTables(img: Image)
    requires Owned(AsServer(img, 0)) && img.nextbno >= FIRST_BNO
    ensures TablesOut(img)
  {
    var s := AsServer(img, 0);
    forall g | g in img.files ensures img.files[g].indirect < img.nextbno {
      assert Owner(s, Table(g)) == img.files[g].indirect;
      FsMap.InUse(s);
    }
    forall g, h | g in img.files && h in img.files && img.files[g].indirect == img.files[h].indirect != 0 ensures g == h {
      assert Owner(s, Table(g)) == Owner(s, Table(h));
    }
  }

  /** Adding a block sets its link, and that of a new indirect block if one was needed. */
  lemma AddIs(img: Image, f: nat, n: nat, block: Block)
    requires TablesOut(img) && ZeroFrom(img, img.nextbno) && FIRST_BNO <= img.nextbno && f in img.files
    requires AddBlock(img, f, n, block).Some?
    ensures var t, b := AddBlock(img, f, n, block).value, img.nextbno;
            && n < NINDIRECT && OnlyFile(img, t, f)
            && t.nextbno == (if NewTable(img, f, n) then b + 2 else b + 1) <= NBLOCK && ZeroFrom(t, t.nextbno)
            && (forall l :: Link(t, l) ==
                  if l == Data(f, n) then b else if l == Table(f) && NewTable(img, f, n) then b + 1 else Link(img, l))
            && t.blocks[b] == block
            && (forall c: nat :: c < b && c != img.files[f].indirect ==> t.blocks[c] == img.blocks[c])
  {
    AddBlocks(img, f, n, block);
    AddLinks(img, f, n, block);
    hide AddBlock, Link;
  }

  lemma AddBlocks(img: Image, f: nat, n: nat, block: Block)
    requires TablesOut(img) && ZeroFrom(img, img.nextbno) && FIRST_BNO <= img.nextbno && f in img.files
    requires AddBlock(img, f, n, block).Some?
    ensures var t, b := AddBlock(img, f, n, block).value, img.nextbno;
            && n < NINDIRECT && OnlyFile(img, t, f)
            && t.nextbno == (if NewTable(img, f, n) then b + 2 else b + 1) <= NBLOCK && ZeroFrom(t, t.nextbno)
            && t.blocks[b] == block
            && (forall c: nat :: c < b && c != img.files[f].indirect ==> t.blocks[c] == img.blocks[c])
  {
  }

  lemma AddLinks(img: Image, f: nat, n: nat, block: Block)
    requires TablesOut(img) && ZeroFrom(img, img.nextbno) && FIRST_BNO <= img.nextbno && f in img.files
    requires AddBlock(img, f, n, block).Some?
    ensures var t, b := AddBlock(img, f, n, block).value, img.nextbno;
            forall l :: Link(t, l) ==
              if l == Data(f, n) then b else if l == Table(f) && NewTable(img, f, n) then b + 1 else Link(img, l)
  {
    var t, b := AddBlock(img, f, n, block).value, img.nextbno;
    assert n < NINDIRECT;
    if n >= NDIRECT && img.files[f].indirect == 0 {
      assert t.files[f].indirect == b + 1 && t.blocks[b + 1] == Zeros()[n := b];
    }
    forall l ensures Link(t, l) ==
                  if l == Data(f, n) then b else if l == Table(f) && NewTable(img, f, n) then b + 1 else Link(img, l) {
    }
  }

  lemma AddOwned(img: Image, f: nat, n: nat, block: Block)
    requires Owned(AsServer(img, 0)) && ZeroFrom(img, img.nextbno) && FIRST_BNO <= img.nextbno && f in img.files
    requires AddBlock(img, f, n, block).Some? && Link(img, Data(f, n)) == 0
    ensures Owned(AsServer(AddBlock(img, f, n, block).value, 0))
  {
    hide AddBlock, Owned, Owner;
    OwnedTables(img);
    AddIs(img, f, n, block);
    ServerLinks(img);
    ServerLinks(AddBlock(img, f, n, block).value);
    hide Link;
    var s, t := AsServer(img, 0), AsServer(AddBlock(img, f, n, block).value, 0);
    var b := img.nextbno;
    if NewTable(img, f, n) {
      var m := s.(free := s.free - {b + 1}, files := s.files[f := s.files[f].(indirect := b + 1)]);
      EmptyTable(img, f);
      GainKeeps(s, m, Table(f), b + 1);
      GainKeeps(m, t, Data(f, n), b);
    } else {
      GainKeeps(s, t, Data(f, n), b);
    }
  }

  lemma ServerLinks(img: Image)
    ensures forall l {:trigger Owner(AsServer(img, 0), l)} :: Owner(AsServer(img, 0), l) == Link(img, l)
  {
  }

  /** Half-way: an indirect block that is still zero. */
  lemma EmptyTable(img: Image, f: nat)
    requires ZeroFrom(img, img.nextbno) && f in img.files && img.files[f].indirect == 0 && img.nextbno + 1 < NBLOCK
    ensures var s, b := AsServer(img, 0), img.nextbno + 1;
            Gained(s, s.(free := s.free - {b}, files := s.files[f := s.files[f].(indirect := b)]), Table(f), b)
  {
  }

  /** Blocks once linked stay where they are, with what is in them. */
  ghost predicate Kept(img: Image, t: Image) {
    && |img.blocks| == |t.blocks| == NBLOCK
    && forall g, n {:trigger Data(g, n)} :: Link(img, Data(g, n)) != 0 ==>
         && Link(t, Data(g, n)) == Link(img, Data(g, n)) && Link(img, Data(g, n)) < NBLOCK
         && t.blocks[Link(img, Data(g, n))] == img.blocks[Link(img, Data(g, n))]
  }

  lemma LinkBelow(img: Image, k: Slot)
    requires Owned(AsServer(img, 0)) && Link(img, k) != 0 && img.nextbno <= NBLOCK
    ensures Link(img, k) < img.nextbno
  {
    FsMap.InUse(AsServer(img, 0));
  }

  lemma AddKept(img: Image, f: nat, n: nat, block: Block)
    requires Core(img) && f in img.files && AddBlock(img, f, n, block).Some? && Link(img, Data(f, n)) == 0
    ensures Kept(img, AddBlock(img, f, n, block).value)
  {
    var t := AddBlock(img, f, n, block).value;
    OwnedTables(img);
    AddIs(img, f, n, block);
    assert Link(img, Table(f)) == img.files[f].indirect;
    hide AddBlock, ZeroFrom, Link;
    forall g, k | Link(img, Data(g, k)) != 0
      ensures Link(t, Data(g, k)) == Link(img, Data(g, k)) && Link(img, Data(g, k)) < NBLOCK
              && t.blocks[Link(img, Data(g, k))] == img.blocks[Link(img, Data(g, k))]
    {
      LinkBelow(img, Data(g, k));
      DataNotTable(img, f, g, k);
    }
  }

  lemma DataNotTable(img: Image, f: nat, g: nat, k: nat)
    requires Owned(AsServer(img, 0)) && f in img.files && Link(img, Data(g, k)) != 0
    ensures Link(img, Data(g, k)) != img.files[f].indirect
  {
    assert Link(img, Table(f)) == img.files[f].indirect;
  }

  lemma AddCore(img: Image, f: nat, n: nat, block: Block)
    requires Core(img) && f in img.files && AddBlock(img, f, n, block).Some?
    requires Link(img, Data(f, n)) == 0 && n <= img.files[f].size / BY2BLK
    ensures Core(AddBlock(img, f, n, block).value)
  {
    ServerLinks(img);
    hide AddBlock, Owned, Owner, Link, Bounded, Tree;
    AddSlots(img, f, n, block);
    hide ZeroFrom;
    var t := AddBlock(img, f, n, block).value;
    AddOwned(img, f, n, block);
    AddTree(AsServer(img, 0), AsServer(t, 0), f, n);
    AddBounded(AsServer(img, 0), AsServer(t, 0), f, n);
  }

  /** AddIs in terms of the file server. */
  lemma AddSlots(img: Image, f: nat, n: nat, block: Block)
    requires Core(img) && f in img.files && AddBlock(img, f, n, block).Some?
    ensures var t := AddBlock(img, f, n, block).value;
            && ZeroFrom(t, t.nextbno) && img.nextbno < t.nextbno <= NBLOCK
            && t.files.Keys == img.files.Keys
            && (forall g :: g in img.files ==> t.files[g].size == img.files[g].size && t.files[g].dir == img.files[g].dir)
            && forall l {:trigger Owner(AsServer(t, 0), l)} ::
                 l != Data(f, n) && l != Table(f) ==> Owner(AsServer(t, 0), l) == Owner(AsServer(img, 0), l)
  {
    OwnedTables(img);
    AddIs(img, f, n, block);
    ServerLinks(img);
    ServerLinks(AddBlock(img, f, n, block).value);
    hide AddBlock, Owner, Link, Sound, ZeroFrom;
  }

  lemma AddTree(s: State, t: State, f: nat, n: nat)
    requires Tree(s) && t.files.Keys == s.files.Keys && Owner(s, Data(f, n)) == 0
    requires forall g :: g in s.files ==> t.files[g].dir == s.files[g].dir
    requires forall l :: l != Data(f, n) && l != Table(f) ==> Owner(t, l) == Owner(s, l)
    ensures Tree(t)
  {
    hide Owner, Tree;
    TreeGrows(s, t);
  }

  lemma AddBounded(s: State, t: State, f: nat, n: nat)
    requires Tidy(s) && f in s.files && n <= s.files[f].size / BY2BLK && t.files.Keys == s.files.Keys
    requires forall g :: g in s.files ==> t.files[g].size == s.files[g].size
    requires forall l :: l != Data(f, n) && l != Table(f) ==> Owner(t, l) == Owner(s, l)
    ensures forall g {:trigger Bounded(t, g)} :: Bounded(t, g)
  {
    hide Owner, Owned;
    forall g ensures Bounded(t, g) {
      assert Bounded(s, g);
      assert g in t.files <==> g in s.files.Keys;
      if g in s.files {
        forall k | k > t.files[g].size / BY2BLK ensures Owner(t, Data(g, k)) == 0 {
          assert Owner(s, Data(g, k)) == 0;
        }
      }
    }
  }

  lemma AddDir(img: Image, f: nat, n: nat, block: Block, d: nat)
    requires Core(img) && f in img.files && AddBlock(img, f, n, block).Some? && DirOk(img, d) && d != f
    ensures DirOk(AddBlock(img, f, n, block).value, d)
  {
    OwnedTables(img);
    AddIs(img, f, n, block);
    hide AddBlock, Link, Core;
  }

  /** What adding a block does to a good image, directories apart. */
  lemma AddKeeps(img: Image, f: nat, n: nat, block: Block)
    requires Good(img) && f in img.files && AddBlock(img, f, n, block).Some?
    requires Link(img, Data(f, n)) == 0 && n <= img.files[f].size / BY2BLK
    ensures var t := AddBlock(img, f, n, block).value;
            && Core(t) && Kept(img, t) && OnlyFile(img, t, f) && t.nextbno > img.nextbno
            && (forall d :: IsDir(img, d) && d != f ==> DirOk(t, d))
            && (forall l :: l != Data(f, n) && l != Table(f) ==> Link(t, l) == Link(img, l))
            && Link(t, Data(f, n)) == img.nextbno && t.blocks[img.nextbno] == block
  {
    OwnedTables(img);
    AddIs(img, f, n, block);
    AddKept(img, f, n, block);
    AddCore(img, f, n, block);
    forall d | IsDir(img, d) && d != f ensures DirOk(AddBlock(img, f, n, block).value, d) {
      AddDir(img, f, n, block, d);
    }
    hide AddBlock, Link, Core, Kept, DirOk;
  }

  /** Sizes are no part of links. */
  lemma SizeIs(img: Image, f: nat, size: nat)
    requires f in img.files
    ensures var t := WithSize(img, f, size);
            && t.nextbno == img.nextbno && t.blocks == img.blocks && SameDirs(img, t) && t.files.Keys == img.files.Keys
            && t.files[f].size == size && (forall g :: g in img.files && g != f ==> t.files[g] == img.files[g])
            && forall l :: Link(t, l) == Link(img, l)
  {
    var s, u := AsServer(img, 0), AsServer(WithSize(img, f, size), 0);
    assert forall b: nat :: Content(u, b) == Content(s, b);
  }

  lemma SizeKeeps(img: Image, f: nat, size: nat)
    requires Core(img) && f in img.files && size >= img.files[f].size
    ensures Core(WithSize(img, f, size)) && Kept(img, WithSize(img, f, size))
    ensures forall d :: DirOk(img, d) && d != f ==> DirOk(WithSize(img, f, size), d)
  {
    var t := WithSize(img, f, size);
    SizeIs(img, f, size);
    hide WithSize, Link;
    ServerLinks(img);
    ServerLinks(t);
    hide Owner;
    FsRuns.SameAll(AsServer(img, 0), AsServer(t, 0));
    forall g, k | Link(img, Data(g, k)) != 0 ensures Link(img, Data(g, k)) < NBLOCK {
      LinkBelow(img, Data(g, k));
    }
  }

  /** A directory one block larger, with that block linked. */
  lemma DirGrows(img: Image, a: Image, t: Image, d: nat)
    requires DirOk(img, d) && d in a.files && a.files[d].size == img.files[d].size
    requires forall l :: l != Data(d, img.files[d].size / BY2BLK) && l != Table(d) ==> Link(a, l) == Link(img, l)
    requires Link(a, Data(d, img.files[d].size / BY2BLK)) != 0
    requires t == WithSize(a, d, img.files[d].size + BY2BLK) && forall l :: Link(t, l) == Link(a, l)
    ensures DirOk(t, d)
  {
    hide Link;
    forall n: nat ensures Link(t, Data(d, n)) != 0 <==> n < t.files[d].size / BY2BLK {
    }
  }

  /** make_link_block keeps a directory's blocks and its size in step. */
  lemma MakeLinkKeeps(img: Image, d: nat)
    requires Good(img) && IsDir(img, d) && DirOk(img, d) && MakeLink(img, d).Some?
    ensures var t := MakeLink(img, d).value;
            && Good(t) && Kept(img, t) && t.nextbno > img.nextbno && SameDirs(img, t) && t.files.Keys == img.files.Keys
            && (forall g :: g in img.files && g != d ==> t.files[g] == img.files[g])
            && Link(t, Data(d, img.files[d].size / BY2BLK)) == img.nextbno
  {
    hide Kept, Link, Sound;
    var size := img.files[d].size;
    var n := size / BY2BLK;
    assert Link(img, Data(d, n)) == 0;
    var a := AddBlock(img, d, n, img.blocks[img.nextbno]).value;
    hide AddBlock;
    AddKeeps(img, d, n, img.blocks[img.nextbno]);
    var t := WithSize(a, d, size + BY2BLK);
    hide Core;
    SizeIs(a, d, size + BY2BLK);
    SizeKeeps(a, d, size + BY2BLK);
    DirGrows(img, a, t, d);
    hide DirOk, WithSize;
    KeptTrans(img, a, t);
  }

  lemma KeptTrans(a: Image, b: Image, c: Image)
    requires Kept(a, b) && Kept(b, c)
    ensures Kept(a, c)
  {
    hide Link;
  }

  // ----- create_file

  /** The struct File lies in a block of directory d. */
  ghost predicate LiesIn(img: Image, d: nat, f: nat) {
    exists n :: Link(img, Data(d, n)) == Home(f) != 0
  }

  /** It has no name yet, and its block was handed out. */
  ghost predicate FreeIn(img: Image, d: nat, f: nat) {
    f !in img.files && FILE2BLK <= f < img.nextbno * FILE2BLK && LiesIn(img, d, f)
  }

  lemma {:induction false} UnusedIs(img: Image, d: nat, i: nat, n: nat)
    requires Core(img) && DirOk(img, d) && n <= img.files[d].size / BY2BLK
    ensures var u := Unused(img, d, i, n); u.Some? ==> FreeIn(img, d, u.value)
    decreases n - i
  {
    hide Core, DirOk, Link, UnusedIn, LiesIn, FileAt, Home, FreeIn;
    if i < n {
      var b := Link(img, Data(d, i));
      LinkedBlock(img, d, i);
      UnusedInFound(img, b, 0);
      var u := UnusedIn(img, b, 0);
      assert Unused(img, d, i, n) == if u.Some? then u else Unused(img, d, i + 1, n);
      hide Unused;
      if u.Some? {
        InBlock(img, d, i, u.value);
      } else {
        UnusedIs(img, d, i + 1, n);
      }
    }
  }

  lemma UnusedInFound(img: Image, b: nat, k: nat)
    ensures var u := UnusedIn(img, b, k); u.Some? ==> u.value !in img.files && Home(u.value) == b
    decreases FILE2BLK - k
  {
  }

  lemma LinkedBlock(img: Image, d: nat, i: nat)
    requires Core(img) && DirOk(img, d) && i < img.files[d].size / BY2BLK
    ensures 0 < Link(img, Data(d, i)) < img.nextbno
  {
    CoreOwned(img);
    LinkBelow(img, Data(d, i));
  }

  lemma InBlock(img: Image, d: nat, i: nat, f: nat)
    requires f !in img.files && Link(img, Data(d, i)) == Home(f) != 0 && Home(f) < img.nextbno
    ensures FreeIn(img, d, f)
  {
    hide Link;
  }

  /** A new struct File has no blocks. */
  lemma NewFileKeeps(img: Image, d: nat, f: nat)
    requires Good(img) && f !in img.files && f < img.nextbno * FILE2BLK && IsDir(img, d) && LiesIn(img, d, f)
    ensures var t := img.(files := img.files[f := NoFile()]);
            && Good(t) && Kept(img, t) && LiesIn(t, d, f)
            && (forall l :: Link(t, l) == Link(img, l)) && (forall n :: Link(t, Data(f, n)) == 0)
  {
    hide AsServer, Sound, Kept;
    var t := img.(files := img.files[f := NoFile()]);
    var n :| Link(img, Data(d, n)) == Home(f) != 0;
    NewFileSound(img, d, n, f);
    assert LiesIn(t, d, f);
    hide Link, LiesIn, Home;
    SameLinksKept(img, t);
    assert Core(t);
    forall e | IsDir(t, e) ensures DirOk(t, e) {
      assert IsDir(img, e) && DirOk(img, e);
    }
  }

  /** Nothing moves when the links and blocks are the same. */
  lemma SameLinksKept(img: Image, t: Image)
    requires Core(img) && t.blocks == img.blocks && forall l :: Link(t, l) == Link(img, l)
    ensures Kept(img, t)
  {
    hide Link, Sound;
    forall g, k | Link(img, Data(g, k)) != 0 ensures Link(img, Data(g, k)) < NBLOCK {
      CoreOwned(img);
      LinkBelow(img, Data(g, k));
    }
  }

  lemma CoreOwned(img: Image)
    requires Core(img)
    ensures Owned(AsServer(img, 0))
  {
  }

  lemma NewFileSound(img: Image, d: nat, n: nat, f: nat)
    requires Sound(AsServer(img, 0)) && f !in img.files && IsDir(img, d) && Link(img, Data(d, n)) == Home(f) != 0
    ensures Sound(AsServer(img.(files := img.files[f := NoFile()]), 0))
    ensures forall l :: Link(img.(files := img.files[f := NoFile()]), l) == Link(img, l)
    ensures forall k :: Link(img, Data(f, k)) == 0
  {
    hide Sound, Owned, Tidy, Tree;
    var s, u := AsServer(img, 0), AsServer(img.(files := img.files[f := NoFile()]), 0);
    var b, found := Home(f), map[f % FILE2BLK := NoFile()];
    assert f == FileAt(b, f % FILE2BLK);
    EnterKeepsIff(s, d, n, found);
    PlacedIs(b, found);
    assert Placed(b, found) == map[f := NoFile()];
    assert Enter(s, b, found) == u;
    assert forall c: nat :: Content(u, c) == Content(s, c);
  }

  /** create_file: the struct File is a new one, and no other file notices. */
  lemma CreateKeeps(img: Image, d: nat)
    requires Good(img) && IsDir(img, d) && DirOk(img, d) && Create(img, d).Some?
    ensures var (t, f) := Create(img, d).value;
            && Good(t) && Kept(img, t) && f !in img.files && f in t.files && t.files[f] == NoFile() && SameDirs(img, t)
            && t.files.Keys == img.files.Keys + {f} && (forall g :: g in img.files && g != d ==> t.files[g] == img.files[g])
            && LiesIn(t, d, f) && forall n :: Link(t, Data(f, n)) == 0
  {
    hide Sound, DirOk, Kept, Link, LiesIn, MakeLink, NoFile;
    var n := img.files[d].size / BY2BLK;
    var u := Unused(img, d, 0, n);
    UnusedIs(img, d, 0, n) by { assert Core(img); }
    if u.Some? {
      NewFileKeeps(img, d, u.value);
    } else {
      CreateInNew(img, d);
    }
  }

  /** create_file in a block it had to add. */
  lemma CreateInNew(img: Image, d: nat)
    requires Good(img) && IsDir(img, d) && DirOk(img, d) && MakeLink(img, d).Some?
    ensures var t, f := MakeLink(img, d).value, FileAt(img.nextbno, 0);
            var u := t.(files := t.files[f := NoFile()]);
            && Good(u) && Kept(img, u) && f !in img.files && SameDirs(img, u)
            && u.files.Keys == img.files.Keys + {f} && (forall g :: g in img.files && g != d ==> u.files[g] == img.files[g])
            && LiesIn(u, d, f) && forall n :: Link(u, Data(f, n)) == 0
  {
    hide MakeLink, Link, DirOk, Sound, Kept, NoFile;
    var t, f, n := MakeLink(img, d).value, FileAt(img.nextbno, 0), img.files[d].size / BY2BLK;
    MakeLinkKeeps(img, d);
    assert LiesIn(t, d, f) by {
      assert Link(t, Data(d, n)) == img.nextbno;
    }
    NewFileKeeps(t, d, f);
    KeptTrans(img, t, t.(files := t.files[f := NoFile()]));
  }

  /** write_file's loop: block i of the file on the disk is the i-th block read. */
  lemma {:induction false} WriteBlocksKeeps(img: Image, f: nat, chunks: seq<Block>, i: nat)
    requires Good(img) && f in img.files && !img.files[f].dir && WriteBlocks(img, f, chunks, i).Some?
    requires |chunks| == (img.files[f].size + BY2BLK - 1) / BY2BLK
    requires forall n :: n >= i ==> Link(img, Data(f, n)) == 0
    ensures var t := WriteBlocks(img, f, chunks, i).value;
            && Good(t) && Kept(img, t) && t.files.Keys == img.files.Keys && !t.files[f].dir
            && t.files[f].size == img.files[f].size && (forall g :: g in img.files && g != f ==> t.files[g] == img.files[g])
            && forall n: nat :: i <= n < |chunks| ==> Written(t, f, n, chunks[n])
    decreases |chunks| - i
  {
    hide Link, Good, Kept, Core;
    GoodCore(img);
    if i < |chunks| {
      var t := AddBlock(img, f, i, chunks[i]).value;
      AddNext(img, f, chunks, i);
      hide AddBlock;
      WriteBlocksKeeps(t, f, chunks, i + 1);
      var u := WriteBlocks(t, f, chunks, i + 1).value;
      KeptTrans(img, t, u);
      WrittenStays(t, u, f, i, chunks[i]);
      hide Written;
    } else {
      SameLinksKept(img, img);
    }
  }

  lemma GoodCore(img: Image)
    requires Good(img)
    ensures Core(img) && |img.blocks| == NBLOCK
  {
  }

  lemma WrittenStays(img: Image, t: Image, f: nat, n: nat, block: Block)
    requires Written(img, f, n, block) && Kept(img, t)
    ensures Written(t, f, n, block)
  {
    hide Link;
  }

  /** One turn of the loop. */
  lemma AddNext(img: Image, f: nat, chunks: seq<Block>, i: nat)
    requires Good(img) && f in img.files && !img.files[f].dir && i < |chunks| && AddBlock(img, f, i, chunks[i]).Some?
    requires |chunks| == (img.files[f].size + BY2BLK - 1) / BY2BLK
    requires forall n :: n >= i ==> Link(img, Data(f, n)) == 0
    ensures var t := AddBlock(img, f, i, chunks[i]).value;
            && Good(t) && Kept(img, t) && t.files.Keys == img.files.Keys && !t.files[f].dir
            && t.files[f].size == img.files[f].size && (forall g :: g in img.files && g != f ==> t.files[g] == img.files[g])
            && Written(t, f, i, chunks[i])
            && forall n :: n >= i + 1 ==> Link(t, Data(f, n)) == 0
  {
    AddKeeps(img, f, i, chunks[i]);
    hide AddBlock, Core, Link, DirOk, Kept;
  }

  /** Block n of file f is linked and holds `block`. */
  predicate Written(img: Image, f: nat, n: nat, block: Block) {
    var b := Link(img, Data(f, n));
    b != 0 && b < |img.blocks| && img.blocks[b] == block
  }

  // ----- whole images

  /** Regular files keep their sizes. */
  ghost predicate SameSizes(img: Image, t: Image) {
    forall g :: g in img.files && !img.files[g].dir ==>
      g in t.files && !t.files[g].dir && t.files[g].size == img.files[g].size
  }

  /** write_directory's own entry: a new directory without blocks. */
  lemma DirectoryKeeps(img: Image, op: Op)
    requires Good(img) && op.Directory? && Allowed(img, op) && Step(img, op).Some?
    ensures Good(Step(img, op).value) && Kept(img, Step(img, op).value) && SameSizes(img, Step(img, op).value)
    ensures var t, f := Step(img, op).value, Target(img, op); f !in img.files && IsDir(t, f) && t.files[f].size == 0
  {
    hide Create, Link, Sound, Kept;
    assert DirOk(img, op.dir);
    CreateKeeps(img, op.dir);
    var (t, f) := Create(img, op.dir).value;
    MarkDir(t, f);
    hide DirOk, Core;
    KeptTrans(img, t, AsDir(t, f));
  }

  lemma MarkDir(t: Image, f: nat)
    requires Good(t) && f in t.files && t.files[f] == NoFile() && forall n :: Link(t, Data(f, n)) == 0
    ensures Good(AsDir(t, f)) && Kept(t, AsDir(t, f))
  {
    hide Kept, Sound, Tidy, Tree;
    MarkedLinks(t, f);
    FsRuns.SameAll(AsServer(t, 0), AsServer(AsDir(t, f), 0));
    hide Link, AsServer;
    SameLinksKept(t, AsDir(t, f));
    var u := AsDir(t, f);
    assert Core(u);
    forall e | IsDir(u, e) ensures DirOk(u, e) {
      assert e != f ==> IsDir(t, e) && DirOk(t, e);
    }
  }

  lemma MarkedLinks(t: Image, f: nat)
    requires f in t.files
    ensures forall l :: Link(AsDir(t, f), l) == Link(t, l)
    ensures SameOwners(AsServer(t, 0), AsServer(AsDir(t, f), 0))
  {
    var s, u := AsServer(t, 0), AsServer(AsDir(t, f), 0);
    assert forall b: nat :: Content(u, b) == Content(s, b);
    assert forall l :: Owner(u, l) == Owner(s, l);
  }

  /** write_file: every block read is on the disk, at its index, and stays within the size. */
  lemma RegularKeeps(img: Image, op: Op)
    requires Good(img) && op.Regular? && Allowed(img, op) && Step(img, op).Some?
    ensures var t, f := Step(img, op).value, Target(img, op);
            && Good(t) && Kept(img, t) && SameSizes(img, t) && f in t.files && !t.files[f].dir && t.files[f].size == op.size
            && forall n: nat :: n < |op.chunks| ==> Written(t, f, n, op.chunks[n])
  {
    hide Create, Sound, Link, Kept;
    assert DirOk(img, op.dir);
    CreateKeeps(img, op.dir);
    var (t, f) := Create(img, op.dir).value;
    hide DirOk;
    var u := WithSize(t, f, op.size);
    SizeIs(t, f, op.size);
    SizeKeeps(t, f, op.size);
    hide WithSize;
    WriteBlocksKeeps(u, f, op.chunks, 0);
    KeptTrans(img, t, u);
    KeptTrans(img, u, Step(img, op).value);
  }

  function Run(img: Image, ops: seq<Op>): Option<Image>
    decreases ops
  {
    if ops == [] then Some(img)
    else if ops[0].dir !in img.files || |img.blocks| != NBLOCK then None
    else match Step(img, ops[0]) case None => None case Some(t) => Run(t, ops[1..])
  }

  ghost predicate RunAllowed(img: Image, ops: seq<Op>)
    decreases ops
  {
    ops == [] || (|img.blocks| == NBLOCK && Allowed(img, ops[0])
                  && (Step(img, ops[0]).Some? ==> RunAllowed(Step(img, ops[0]).value, ops[1..])))
  }

  lemma InitGood()
    ensures Good(Init())
  {
    var s := AsServer(Init(), 0);
    forall k ensures Owner(s, k) == 0 {
    }
    hide Owner;
    assert Under(s, ROOT, 0);
    assert Conserved(s) by {
      forall b: nat | b < s.nblocks ensures b !in s.free <==> Reserved(s, b) || Named(s, b) {
        assert b != 0 ==> !Named(s, b);
      }
    }
  }

  /** A run that stays within the disk ends in a good image, with everything written on the way still there. */
  lemma {:induction false} RunKeeps(img: Image, ops: seq<Op>)
    requires Good(img) && RunAllowed(img, ops) && Run(img, ops).Some?
    ensures Good(Run(img, ops).value) && Kept(img, Run(img, ops).value) && SameSizes(img, Run(img, ops).value)
    decreases ops
  {
    if ops != [] {
      var t := Step(img, ops[0]).value;
      if ops[0].Directory? {
        DirectoryKeeps(img, ops[0]);
      } else {
        RegularKeeps(img, ops[0]);
      }
      hide Step, Good, Kept;
      RunKeeps(t, ops[1..]);
      KeptTrans(img, t, Run(img, ops).value);
    }
  }

  /** Whatever fsformat writes, the file server starts in a state where every block has its one owner. */
  lemma ImageIsSound(ops: seq<Op>, pages: nat)
    requires RunAllowed(Init(), ops) && Run(Init(), ops).Some?
    ensures Sound(AsServer(Run(Init(), ops).value, pages))
  {
    InitGood();
    RunKeeps(Init(), ops);
    var img := Run(Init(), ops).value;
    hide Run, Init;
    assert SameOwners(AsServer(img, 0), AsServer(img, pages)) by {
      assert forall b: nat :: Content(AsServer(img, 0), b) == Content(AsServer(img, pages), b);
    }
    FsRuns.SameAll(AsServer(img, 0), AsServer(img, pages));
  }

  /** The file server's file_map_block and read_block find this block at index n. */
  predicate Finds(s: State, f: nat, n: nat, block: Block)
    requires f in s.files
  {
    var m := MapBlock(s, f, n, false);
    && m.Ret? && m.code == 0
    && ReadBlock(m.s, m.b).Some? && Content(ReadBlock(m.s, m.b).value, m.b) == block
  }

  /** file_map_block finds the block number save_block_link stored, and read_block what was written. */
  lemma ServerFinds(img: Image, f: nat, n: nat, block: Block, pages: nat)
    requires Good(img) && f in img.files && Written(img, f, n, block) && pages >= 3
    ensures var s := AsServer(img, pages); Finds(s, f, n, block) && MapBlock(s, f, n, false).b == Link(img, Data(f, n))
  {
    hide Sound, Good, Core, Owned;
    GoodCore(img);
    CoreOwned(img);
    var s := AsServer(img, pages);
    FsMap.InUse(AsServer(img, 0));
    assert Link(img, Table(f)) == img.files[f].indirect;
    GoodBound(img);
    LinkBelow(img, Data(f, n));
  }

  lemma GoodBound(img: Image)
    requires Good(img)
    ensures img.nextbno <= NBLOCK
  {
  }

  /** Every file, whenever it was written, is found by the file server block for block. */
  lemma FileIsFound(img: Image, ops: seq<Op>, n: nat, pages: nat)
    requires Good(img) && ops != [] && RunAllowed(img, ops) && Run(img, ops).Some?
    requires ops[0].Regular? && n < |ops[0].chunks| && pages >= 3
    ensures var f, s := Target(img, ops[0]), AsServer(Run(img, ops).value, pages);
            f in s.files && s.files[f].size == ops[0].size
            && Finds(s, f, n, ops[0].chunks[n])
  {
    RegularKeeps(img, ops[0]);
    var t := Step(img, ops[0]).value;
    RunKeeps(t, ops[1..]);
    var u := Run(t, ops[1..]).value;
    hide Run, Step, Good, Written, Kept, Finds;
    ServerFinds(u, Target(img, ops[0]), n, ops[0].chunks[n], pages);
  }

  // ----- removing a directory on the image

  lemma LiesStill(img: Image, t: Image, d: nat, f: nat)
    requires LiesIn(img, d, f) && Kept(img, t)
    ensures LiesIn(t, d, f)
  {
    hide Link, Home;
    var n :| Link(img, Data(d, n)) == Home(f) != 0;
    assert Link(t, Data(d, n)) == Home(f);
  }

  /** Where write_file puts the struct File. */
  lemma TargetLies(img: Image, op: Op)
    requires Good(img) && op.Regular? && Allowed(img, op) && Step(img, op).Some?
    ensures var t, f := Step(img, op).value, Target(img, op);
            IsDir(t, op.dir) && LiesIn(t, op.dir, f)
  {
    hide Create, Sound, Link, Kept, LiesIn, DirOk;
    assert DirOk(img, op.dir);
    CreateKeeps(img, op.dir);
    var (t, f) := Create(img, op.dir).value;
    var u := WithSize(t, f, op.size);
    SizeIs(t, f, op.size);
    SizeKeeps(t, f, op.size);
    hide WithSize;
    WriteBlocksKeeps(u, f, op.chunks, 0);
    KeptTrans(t, u, Step(img, op).value);
    LiesStill(t, Step(img, op).value, op.dir, f);
  }

  /** Whichever directory a file was written into: the server that removes it loses the file's blocks. */
  lemma RemoveDirectoryLoses(img: Image, op: Op, n: nat, pages: nat)
    requires Good(img) && op.Regular? && Allowed(img, op) && Step(img, op).Some? && n < |op.chunks|
    requires var s := AsServer(Step(img, op).value, pages); op.dir in s.files && Truncate(s, op.dir, 0).Some?
    ensures var s, f := AsServer(Step(img, op).value, pages), Target(img, op);
            var b := Owner(s, Data(f, n));
            && Sound(s) && b != 0 && !FsRuns.Allowed(s, FsRuns.Remove(op.dir))
            && var t := FsRuns.Step(s, FsRuns.Remove(op.dir)).value;
               b !in t.free && !Reserved(t, b) && !Named(t, b)
  {
    var t, f := Step(img, op).value, Target(img, op);
    RegularKeeps(img, op);
    TargetLies(img, op);
    assert Written(t, f, n, op.chunks[n]);
    SameServer(t, pages);
    hide Step, Target, Sound, Link, Home, Truncate, Owner, Kept, Good, Allowed;
    var s := AsServer(t, pages);
    var i :| Link(t, Data(op.dir, i)) == Home(f) != 0;
    assert Holds(s, op.dir, i, f);
    FsRuns.RemoveLoses(s, op.dir, i, f, n);
  }

  /** How much memory the kernel has is no part of an image. */
  lemma SameServer(img: Image, pages: nat)
    requires Good(img)
    ensures Sound(AsServer(img, pages)) && forall l {:trigger Owner(AsServer(img, pages), l)} :: Owner(AsServer(img, pages), l) == Link(img, l)
  {
    hide Sound;
    SamePages(AsServer(img, 0), pages);
    FsRuns.MemoryKeeps(AsServer(img, 0), pages);
    ServerLinks(img);
    hide Link, Owner;
    assert AsServer(img, 0).(pages := pages) == AsServer(img, pages);
  }
}
