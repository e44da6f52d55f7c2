/**
  Shrinking and growing one file: every block keeps exactly one owner, and a file cut to
  nothing gives back every block it had.
*/
module FsFiles {
  import opened Mmu
  import opened FsBlocks
  import opened FsOwners
  import opened FsMap

  /** k is the slot of one of the blocks lo to hi of file f. */
  predicate Between(k: Slot, f: nat, lo: nat, hi: nat) {
    match k
    case InFile(g, i) => g == f && lo <= i < hi && i < NDIRECT
    case InTable(g, i) => g == f && lo <= i < hi && i >= NDIRECT
    case Table(_) => false
  }

  lemma {:induction false} ClearFromIs(s: State, f: nat, bno: nat, end: nat)
    requires Owned(s) && f in s.files && ClearFrom(s, f, bno, end).Some?
    ensures var t := ClearFrom(s, f, bno, end).value;
            && Owned(t) && Frame(s, t, f) && SameBlocks(s, t, f) && t.files[f].indirect == s.files[f].indirect
            && forall l :: Owner(t, l) == if Between(l, f, bno, end) then 0 else Owner(s, l)
    decreases end - bno
  {
    if bno < end {
      var t := ClearBlock(s, f, bno).s;
      ClearIs(s, f, bno);
      ClearFromIs(t, f, bno + 1, end);
      hide ClearBlock, Owner, Owned, Content;
      assert forall l :: Between(l, f, bno, end) <==> l == Data(f, bno) || Between(l, f, bno + 1, end);
    }
  }

  // ----- truncation

  /** Blocks of f past the end of its old size, in its indirect block: the loop does not visit them. */
  ghost predicate NothingPast(s: State, f: nat)
    requires f in s.files
  {
    forall i :: NDIRECT <= i < NINDIRECT && i >= OldBlocks(s.files[f].size) ==> Owner(s, InTable(f, i)) == 0
  }

  /** What file_truncate drops. */
  predicate Dropped(s: State, f: nat, size: nat, k: Slot)
    requires f in s.files
  {
    Between(k, f, NewBlocks(size), OldBlocks(s.files[f].size)) || (k == Table(f) && NewBlocks(size) <= NDIRECT)
  }

  lemma DropTableIs(s: State, f: nat)
    requires Owned(s) && f in s.files
    ensures var t := DropTable(s, f);
            && Frame(s, t, f) && SameBlocks(s, t, f) && t.files[f].indirect == 0
            && (forall l :: Owner(t, l) == if l == Table(f) || (l.InTable? && l.f == f) then 0 else Owner(s, l))
            && (s.files[f].indirect != 0 ==> t.free == s.free + {s.files[f].indirect})
            && (s.files[f].indirect == 0 ==> t == s)
  {
    assert Owner(s, Table(f)) == s.files[f].indirect;
    hide Owned;
  }

  /** An indirect block may be dropped if, and only if, nothing is left in it. */
  lemma DropKeepsIff(s: State, f: nat)
    requires Owned(s) && f in s.files
    ensures Owned(DropTable(s, f)) <==>
              forall i :: NDIRECT <= i < NINDIRECT ==> Owner(s, InTable(f, i)) == 0
  {
    var t := DropTable(s, f);
    DropTableIs(s, f);
    InUse(s);
    if i :| NDIRECT <= i < NINDIRECT && Owner(s, InTable(f, i)) != 0 {
      var b := Owner(s, InTable(f, i));
      assert Owner(s, Table(f)) == s.files[f].indirect;
      assert b !in t.free;
      forall l ensures Owner(t, l) != b {
      }
      assert !Named(t, b);
      assert b < t.nblocks && !Reserved(t, b);
    } else if s.files[f].indirect != 0 {
      assert forall i :: Owner(s, InTable(f, i)) == 0;
      assert Owner(s, Table(f)) == s.files[f].indirect;
      hide DropTable, Owned;
      LossKeeps(s, t, Table(f));
    }
  }

  lemma ResizeIs(s: State, f: nat, size: nat)
    requires f in s.files
    ensures var t := Resize(s, f, size); SameOwners(s, t) && forall b: nat :: Content(t, b) == Content(s, b)
  {
    assert forall b: nat :: Content(Resize(s, f, size), b) == Content(s, b);
  }

  /** The state file_truncate ends with, but for the size. */
  function Cleared(s: State, f: nat, size: nat): State
    requires f in s.files && Truncate(s, f, size).Some?
  {
    var t := ClearFrom(s, f, NewBlocks(size), OldBlocks(s.files[f].size)).value;
    if NewBlocks(size) <= NDIRECT then DropTable(t, f) else t
  }

  lemma ClearedIs(s: State, f: nat, size: nat)
    requires Owned(s) && f in s.files && Truncate(s, f, size).Some?
    ensures var t := Cleared(s, f, size);
            && Frame(s, t, f) && SameBlocks(s, t, f)
            && (forall l: Slot :: Owner(t, l) ==
                  if Dropped(s, f, size, l) || (l.InTable? && l.f == f && NewBlocks(size) <= NDIRECT) then 0 else Owner(s, l))
    ensures Owned(Cleared(s, f, size)) <==> NewBlocks(size) > NDIRECT || NothingPast(s, f)
  {
    var lo, hi := NewBlocks(size), OldBlocks(s.files[f].size);
    var c := ClearFrom(s, f, lo, hi).value;
    ClearFromIs(s, f, lo, hi);
    if lo <= NDIRECT {
      DropTableIs(c, f);
      DropKeepsIff(c, f);
      hide Content, Owned, ClearFrom, DropTable, Owner;
      assert (forall i :: NDIRECT <= i < NINDIRECT ==> Owner(c, InTable(f, i)) == 0) <==> NothingPast(s, f);
    }
    hide Content, Owned, ClearFrom, DropTable, Owner;
  }

  /** file_truncate empties the slots past the new size and leaves every other slot as it was. */
  lemma TruncateIs(s: State, f: nat, size: nat)
    requires Owned(s) && f in s.files && Truncate(s, f, size).Some?
    ensures var t := Truncate(s, f, size).value;
            && Frame(s, Resize(t, f, s.files[f].size), f) && SameBlocks(s, t, f) && t.files[f].size == size
            && (forall l: Slot :: Owner(t, l) ==
                  if Dropped(s, f, size, l) || (l.InTable? && l.f == f && NewBlocks(size) <= NDIRECT) then 0 else Owner(s, l))
    ensures Owned(Truncate(s, f, size).value) <==> NewBlocks(size) > NDIRECT || NothingPast(s, f)
  {
    hide Owner, Content, ClearFrom, DropTable, Dropped, NothingPast;
    var c := Cleared(s, f, size);
    ClearedIs(s, f, size);
    ResizeIs(c, f, size);
    if Owned(c) {
      SameKeeps(c, Resize(c, f, size));
    }
    if Owned(Resize(c, f, size)) {
      SameKeeps(Resize(c, f, size), c);
    }
    hide Owned;
  }

  /** Within its size a file shrinks without losing a block: exactly the dropped slots are emptied. */
  lemma TruncateKeeps(s: State, f: nat, size: nat)
    requires Owned(s) && f in s.files && Bounded(s, f) && Truncate(s, f, size).Some?
    ensures var t := Truncate(s, f, size).value;
            && Owned(t) && Bounded(t, f)
            && (forall l :: Owner(t, l) == if Dropped(s, f, size, l) then 0 else Owner(s, l))
  {
    TruncateIs(s, f, size);
    var t := Truncate(s, f, size).value;
    hide Truncate, Owned;
    assert NothingPast(s, f) by {
      forall i | NDIRECT <= i < NINDIRECT && i >= OldBlocks(s.files[f].size) ensures Owner(s, InTable(f, i)) == 0 {
        assert Data(f, i) == InTable(f, i);
      }
    }
    PastIsEmpty(s, f);
    hide Owner;
    forall l ensures Owner(t, l) == if Dropped(s, f, size, l) then 0 else Owner(s, l) {
    }
  }

  lemma PastIsEmpty(s: State, f: nat)
    requires f in s.files && Bounded(s, f)
    ensures forall l: Slot :: !l.Table? && l.f == f && l.i >= OldBlocks(s.files[f].size) ==> Owner(s, l) == 0
  {
    forall l: Slot | !l.Table? && l.f == f && l.i >= OldBlocks(s.files[f].size) ensures Owner(s, l) == 0 {
      assert Owner(s, Data(f, l.i)) == 0;
    }
  }

  /** A file cut to nothing gives back exactly the blocks it had. */
  lemma EmptiedReclaims(s: State, f: nat)
    requires Owned(s) && f in s.files && Bounded(s, f) && Truncate(s, f, 0).Some?
    ensures var t := Truncate(s, f, 0).value;
            && (forall l: Slot :: Owner(t, l) == if l.f == f then 0 else Owner(s, l))
            && (forall b: nat :: b in t.free <==> b in s.free || exists l: Slot :: l.f == f && Owner(s, l) == b != 0)
  {
    var t := Truncate(s, f, 0).value;
    TruncateKeeps(s, f, 0);
    TruncateIs(s, f, 0);
    PastIsEmpty(s, f);
    hide Truncate;
    forall l: Slot ensures Owner(t, l) == if l.f == f then 0 else Owner(s, l) {
    }
    hide Owner;
    InUse(s);
    InUse(t);
    forall b: nat ensures b in t.free <==> b in s.free || exists l: Slot :: l.f == f && Owner(s, l) == b != 0 {
      FreedIf(s, t, f, b);
    }
  }

  lemma FreedIf(s: State, t: State, f: nat, b: nat)
    requires Owned(s) && Owned(t) && t.nblocks == s.nblocks
    requires forall l: Slot :: Owner(t, l) == if l.f == f then 0 else Owner(s, l)
    ensures b in t.free <==> b in s.free || exists l: Slot :: l.f == f && Owner(s, l) == b != 0
  {
    hide Owner;
    if b < s.nblocks && !Reserved(s, b) {
      if Named(s, b) {
        var l :| Owner(s, l) == b;
        assert l.f != f ==> Owner(t, l) == b;
        assert forall k :: Owner(s, k) == b ==> k == l;
      } else {
        assert forall l :: Owner(t, l) != b;
      }
    } else {
      assert forall l :: Owner(s, l) == b ==> b == 0;
    }
  }

  // ----- all files together

  ghost predicate Tidy(s: State) {
    Owned(s) && forall f {:trigger Bounded(s, f)} :: Bounded(s, f)
  }

  lemma BoundedStays(s: State, t: State, f: nat)
    requires Bounded(s, f) && (f in t.files <==> f in s.files) && (f in s.files ==> t.files[f].size >= s.files[f].size)
    requires forall n :: Owner(s, Data(f, n)) == 0 ==> Owner(t, Data(f, n)) == 0
    ensures Bounded(t, f)
  {
    hide Owner, Data;
  }

  /** Mapping a block keeps the file within its size if, and only if, the index is within it or cannot be mapped. */
  lemma MapBoundedIff(s: State, f: nat, n: nat)
    requires Owned(s) && f in s.files && Bounded(s, f) && MapBlock(s, f, n, true).Ret?
    requires TakesTable(s, f, n) ==> Clean(s, AllocBlock(s).b)
    ensures var m := MapBlock(s, f, n, true);
            Bounded(m.s, f) <==> n <= s.files[f].size / BY2BLK || CannotMap(s, f, n)
  {
    MapKeeps(s, f, n, true);
    MapFailsIff(s, f, n);
    var m := MapBlock(s, f, n, true);
    hide MapBlock, AllocBlock, CannotMap, Owner, Owned, Clean, TakesTable;
    assert Owner(m.s, Data(f, n)) != 0 <==> m.code == 0;
    forall k | k > s.files[f].size / BY2BLK && k != n ensures Owner(m.s, Data(f, k)) == 0 {
      assert Owner(s, Data(f, k)) == 0;
    }
  }

  lemma SameTidy(s: State, t: State)
    requires Tidy(s) && SameOwners(s, t) && t.files.Keys == s.files.Keys
    requires forall f :: f in s.files ==> t.files[f].size >= s.files[f].size
    ensures Tidy(t)
  {
    hide Owner, Owned;
    SameKeeps(s, t);
    forall f ensures Bounded(t, f) {
      assert f in t.files <==> f in s.files;
      BoundedStays(s, t, f);
    }
  }
}
