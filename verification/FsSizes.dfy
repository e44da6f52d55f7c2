/**
  A file's size and its bytes (fs/fs.c): which blocks file_truncate and file_set_size keep, told in
  bytes and without naming how they count blocks.
*/
module FsSizes {
  import opened Mmu
  import opened FsBlocks
  import opened FsOwners
  import opened FsMap
  import opened FsFiles

  const WORDSIZE: nat := 4

  /** Which word of its block byte p is in. */
  function WordIndex(p: nat): (k: nat)
    ensures k < NINDIRECT
  {
    p % BY2BLK / WORDSIZE
  }

  /** The word that holds byte p of file f, if there is a block for it. */
  function WordOfByte(s: State, f: nat, p: nat): Option<nat> {
    var b := Owner(s, Data(f, p / BY2BLK));
    if b == 0 then None else Some(Content(s, b)[WordIndex(p)])
  }

  /** The file keeps an indirect block: byte `size` lies beyond the direct ones. */
  predicate NeedsTable(size: nat) {
    size >= NDIRECT * BY2BLK
  }

  /**
    file_truncate to a size keeps the blocks up to the one with byte number `size`, with their
    contents, or none at all for size 0; all further ones go, and the indirect block with them unless
    it is needed. Other files' slots and blocks stay.
  */
  ghost predicate Cut(s: State, t: State, f: nat, size: nat)
    requires f in s.files && f in t.files
  {
    && t.files[f].size == size && t.files[f].dir == s.files[f].dir
    && (forall n: nat {:trigger Data(f, n)} :: Owner(t, Data(f, n)) ==
          if size > 0 && n * BY2BLK <= size then Owner(s, Data(f, n)) else 0)
    && t.files[f].indirect == (if NeedsTable(size) then s.files[f].indirect else 0)
    && (forall l: Slot :: l.f != f ==> Owner(t, l) == Owner(s, l))
  }

  lemma TruncateCuts(s: State, f: nat, size: nat)
    requires Owned(s) && f in s.files && Bounded(s, f) && Truncate(s, f, size).Some?
    ensures var t := Truncate(s, f, size).value;
            && f in t.files && Owned(t) && Cut(s, t, f, size)
            && forall n: nat {:trigger Data(f, n)} :: Owner(t, Data(f, n)) != 0 ==>
                 Content(t, Owner(t, Data(f, n))) == Content(s, Owner(s, Data(f, n)))
  {
    hide Truncate, Content;
    StillThere(s, f, size);
    TruncateIs(s, f, size);
    TruncateKeeps(s, f, size);
    var t := Truncate(s, f, size).value;
    assert Owner(s, Table(f)) == s.files[f].indirect && Owner(t, Table(f)) == t.files[f].indirect;
    assert forall n: nat :: n > s.files[f].size / BY2BLK ==> Owner(s, Data(f, n)) == 0;
    hide Owner;
    forall n: nat ensures Owner(t, Data(f, n)) == if size > 0 && n * BY2BLK <= size then Owner(s, Data(f, n)) else 0 {
      InBytes(size, n);
    }
    forall n: nat | Owner(t, Data(f, n)) != 0 ensures Content(t, Owner(t, Data(f, n))) == Content(s, Owner(s, Data(f, n))) {
      assert Data(f, n) != Table(f);
    }
  }

  lemma StillThere(s: State, f: nat, size: nat)
    requires f in s.files && Truncate(s, f, size).Some?
    ensures f in Truncate(s, f, size).value.files
  {
  }

  lemma InBytes(size: nat, n: nat)
    ensures n * BY2BLK <= size <==> n <= size / BY2BLK
  {
  }

  /** What file_set_size changes when the file does not shrink: its size. */
  ghost predicate Grown(s: State, t: State, f: nat, size: nat)
    requires f in s.files && f in t.files
  {
    && t.files[f].size == size && t.files[f].dir == s.files[f].dir
    && SameOwners(s, t) && forall b: nat :: Content(t, b) == Content(s, b)
  }

  /**
    file_set_size makes the file that long. Every byte below both the old size and the new one is read
    as before; no block is mapped past the new size, and nothing else but a shorter file's blocks changes.
  */
  lemma SetSizeIs(s: State, f: nat, size: nat)
    requires Owned(s) && f in s.files && Bounded(s, f) && SetSize(s, f, size).Some?
    ensures var t := SetSize(s, f, size).value;
            && f in t.files && Owned(t) && Bounded(t, f) && t.files[f].size == size
            && (if size < s.files[f].size then Cut(s, t, f, size) else Grown(s, t, f, size))
            && (forall p: nat :: p < size ==> WordOfByte(t, f, p) == WordOfByte(s, f, p))
  {
    var t := SetSize(s, f, size).value;
    if size < s.files[f].size {
      TruncateCuts(s, f, size);
      TruncateKeeps(s, f, size);
      hide SetSize, Truncate, Owner, Content, Owned, Bounded;
      forall p: nat | p < size ensures WordOfByte(t, f, p) == WordOfByte(s, f, p) {
        InBytes(size, p / BY2BLK);
        assert Owner(t, Data(f, p / BY2BLK)) == Owner(s, Data(f, p / BY2BLK));
      }
    } else {
      ResizeIs(s, f, size);
      SameKeeps(s, t);
      BoundedStays(s, t, f);
      hide Owner, Content, Owned, Bounded;
    }
  }
}
