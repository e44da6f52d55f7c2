/**
  What fits on a disk (tools/fsformat.c): exactly when the image writer fails, and which struct File and
  how many blocks it takes when it does not.
*/
module FsCapacity {
  import opened Mmu
  import opened FsBlocks
  import opened FsOwners
  import opened FsDirs
  import opened FsFormat

  /** Tables are where there are blocks, and the counter is on the disk. */
  ghost predicate Fresh(img: Image) {
    |img.blocks| == NBLOCK && FIRST_BNO <= img.nextbno <= NBLOCK && TablesOut(img)
  }

  lemma GoodFresh(img: Image)
    requires Good(img)
    ensures Fresh(img)
  {
    CoreOwned(img);
    OwnedTables(img);
  }

  /** The blocks it takes to add block n to file f: its own, and an indirect block if it is the first one to need it. */
  function Takes(img: Image, f: nat, n: nat): nat
    requires f in img.files
  {
    if NewTable(img, f, n) then 2 else 1
  }

  /** next_block and save_block_link fail exactly for an index past the indirect block, or at the end of the disk. */
  lemma AddFailsIff(img: Image, f: nat, n: nat, block: Block)
    requires Fresh(img) && f in img.files
    ensures AddBlock(img, f, n, block).Some? <==> n < NINDIRECT && img.nextbno + Takes(img, f, n) <= NBLOCK
  {
  }

  /** The blocks it takes to write blocks i to n of a file. */
  function Needs(img: Image, f: nat, i: nat, n: nat): nat
    requires f in img.files && i <= n
  {
    n - i + if i < n && n > NDIRECT && img.files[f].indirect == 0 then 1 else 0
  }

  lemma AddTakes(img: Image, f: nat, n: nat, block: Block)
    requires Good(img) && f in img.files && AddBlock(img, f, n, block).Some?
    ensures var t := AddBlock(img, f, n, block).value;
            && t.nextbno == img.nextbno + Takes(img, f, n) && f in t.files
            && (t.files[f].indirect == 0 <==> img.files[f].indirect == 0 && n < NDIRECT)
  {
    GoodFresh(img);
    GoodCore(img);
    AddIs(img, f, n, block);
    var t := AddBlock(img, f, n, block).value;
    assert Link(t, Table(f)) == t.files[f].indirect && Link(img, Table(f)) == img.files[f].indirect;
    hide AddBlock, Link, Good;
  }

  /** write_file's loop gets through exactly if the file has at most 1024 blocks and they fit on the disk, with an indirect block past the tenth. */
  lemma {:induction false} WriteFitsIff(img: Image, f: nat, chunks: seq<Block>, i: nat)
    requires Good(img) && f in img.files && !img.files[f].dir && i <= |chunks|
    requires |chunks| == (img.files[f].size + BY2BLK - 1) / BY2BLK
    requires forall n :: n >= i ==> Link(img, Data(f, n)) == 0
    ensures WriteBlocks(img, f, chunks, i).Some? <==>
              i == |chunks| || (|chunks| <= NINDIRECT && img.nextbno + Needs(img, f, i, |chunks|) <= NBLOCK)
    ensures WriteBlocks(img, f, chunks, i).Some? ==>
              WriteBlocks(img, f, chunks, i).value.nextbno == img.nextbno + Needs(img, f, i, |chunks|)
    decreases |chunks| - i
  {
    hide Good, Link, AddBlock, TablesOut;
    GoodFresh(img);
    if i < |chunks| {
      AddFailsIff(img, f, i, chunks[i]);
      if AddBlock(img, f, i, chunks[i]).Some? {
        var t := AddBlock(img, f, i, chunks[i]).value;
        AddNext(img, f, chunks, i);
        AddTakes(img, f, i, chunks[i]);
        WriteFitsIff(t, f, chunks, i + 1);
        GoodFresh(t);
      }
    }
  }

  // ----- create_file

  /** The struct File k of block i of directory d. */
  function Place(img: Image, d: nat, i: nat, k: nat): nat {
    FileAt(Link(img, Data(d, i)), k)
  }

  lemma {:induction false} UnusedInFirst(img: Image, b: nat, k: nat)
    requires k <= FILE2BLK
    ensures match UnusedIn(img, b, k)
            case Some(u) => exists m: nat :: k <= m < FILE2BLK && u == FileAt(b, m) && u !in img.files
                              && forall j: nat :: k <= j < m ==> FileAt(b, j) in img.files
            case None => forall j: nat :: k <= j < FILE2BLK ==> FileAt(b, j) in img.files
    decreases FILE2BLK - k
  {
    hide FileAt;
    if k < FILE2BLK && FileAt(b, k) in img.files {
      UnusedInFirst(img, b, k + 1);
    }
  }

  /** All struct Files of the blocks i to j have names, and the first m of block j. */
  ghost predicate NamedUpTo(img: Image, d: nat, i: nat, j: nat, m: nat) {
    && (forall h: nat, k: nat :: i <= h < j && k < FILE2BLK ==> Place(img, d, h, k) in img.files)
    && (forall k: nat :: k < m ==> Place(img, d, j, k) in img.files)
  }

  /** create_file's search finds the first struct File without a name, if there is one. */
  lemma {:induction false} UnusedFirst(img: Image, d: nat, i: nat, n: nat)
    requires i <= n
    ensures match Unused(img, d, i, n)
            case Some(u) => exists j: nat, m: nat :: i <= j < n && m < FILE2BLK && u == Place(img, d, j, m) && u !in img.files
                              && NamedUpTo(img, d, i, j, m)
            case None => NamedUpTo(img, d, i, n, 0)
    decreases n - i
  {
    hide Link, UnusedIn, FileAt;
    if i < n {
      var b := Link(img, Data(d, i));
      UnusedInFirst(img, b, 0);
      if UnusedIn(img, b, 0).None? {
        UnusedFirst(img, d, i + 1, n);
        if Unused(img, d, i + 1, n).Some? {
          var u := Unused(img, d, i + 1, n).value;
          var j: nat, m: nat :| i + 1 <= j < n && m < FILE2BLK && u == Place(img, d, j, m) && u !in img.files
                      && NamedUpTo(img, d, i + 1, j, m);
          assert NamedUpTo(img, d, i, j, m);
        }
      } else {
        var m: nat :| m < FILE2BLK && UnusedIn(img, b, 0).value == FileAt(b, m) && FileAt(b, m) !in img.files
                 && forall j: nat :: 0 <= j < m ==> FileAt(b, j) in img.files;
        assert NamedUpTo(img, d, i, i, m) && Place(img, d, i, m) == FileAt(b, m);
      }
    }
  }

  /** Every struct File in the blocks of directory d has a name. */
  ghost predicate FullDir(img: Image, d: nat)
    requires d in img.files
  {
    forall i: nat, k: nat :: i < img.files[d].size / BY2BLK && k < FILE2BLK ==> Place(img, d, i, k) in img.files
  }

  /** f is the first struct File in the blocks of directory d that has no name. */
  ghost predicate FirstUnused(img: Image, d: nat, f: nat)
    requires d in img.files
  {
    exists i: nat, k: nat ::
      i < img.files[d].size / BY2BLK && k < FILE2BLK && f == Place(img, d, i, k) && f !in img.files && NamedUpTo(img, d, 0, i, k)
  }

  /** The directory can have one more block. */
  predicate CanGrow(img: Image, d: nat)
    requires d in img.files
  {
    var n := img.files[d].size / BY2BLK; n < NINDIRECT && img.nextbno + Takes(img, d, n) <= NBLOCK
  }

  /**
    create_file takes the first struct File without a name, and a block only when there is none; it fails
    exactly when the directory is full and cannot grow.
  */
  lemma CreateFailsIff(img: Image, d: nat)
    requires Good(img) && IsDir(img, d)
    ensures Create(img, d).Some? <==> !FullDir(img, d) || CanGrow(img, d)
    ensures Create(img, d).Some? ==>
              var n, t, f := img.files[d].size / BY2BLK, Create(img, d).value.0, Create(img, d).value.1;
              if FullDir(img, d) then t.nextbno == img.nextbno + Takes(img, d, n) && f == FileAt(img.nextbno, 0)
              else t.nextbno == img.nextbno && FirstUnused(img, d, f)
  {
    hide Good, Link, FileAt, Unused, AddBlock, TablesOut;
    GoodFresh(img);
    var n := img.files[d].size / BY2BLK;
    UnusedFirst(img, d, 0, n);
    assert FullDir(img, d) <==> Unused(img, d, 0, n) == None;
    if FullDir(img, d) {
      AddFailsIff(img, d, n, img.blocks[if img.nextbno < NBLOCK then img.nextbno else 0]);
      if CanGrow(img, d) {
        AddTakes(img, d, n, img.blocks[img.nextbno]);
      }
    }
  }

  /** write_file succeeds exactly if there is a struct File for it and, after that, room for its blocks. */
  lemma RegularFitsIff(img: Image, op: Op)
    requires Good(img) && op.Regular? && Allowed(img, op)
    ensures Step(img, op).Some? <==>
              && Create(img, op.dir).Some?
              && var n, t := |op.chunks|, Create(img, op.dir).value.0;
                 n == 0 || (n <= NINDIRECT && t.nextbno + n + (if n > NDIRECT then 1 else 0) <= NBLOCK)
  {
    hide Good, Create, Link, WriteBlocks, WithSize, TablesOut;
    GoodFresh(img);
    if Create(img, op.dir).Some? {
      ReadyToWrite(img, op);
      var (t, f) := Create(img, op.dir).value;
      WriteFitsIff(WithSize(t, f, op.size), f, op.chunks, 0);
      GoodFresh(WithSize(t, f, op.size));
    }
  }

  /** The struct File as write_file fills it in, before the first block. */
  lemma ReadyToWrite(img: Image, op: Op)
    requires Good(img) && op.Regular? && Allowed(img, op) && Create(img, op.dir).Some?
    ensures var (t, f) := Create(img, op.dir).value;
            && f in t.files
            && var u := WithSize(t, f, op.size);
               && Good(u) && u.nextbno == t.nextbno && u.files[f].indirect == 0 && !u.files[f].dir && u.files[f].size == op.size
               && forall n :: Link(u, Data(f, n)) == 0
  {
    hide Create, Sound, Link, Kept;
    assert DirOk(img, op.dir);
    CreateKeeps(img, op.dir);
    var (t, f) := Create(img, op.dir).value;
    hide DirOk;
    SizeIs(t, f, op.size);
    SizeKeeps(t, f, op.size);
  }
}
