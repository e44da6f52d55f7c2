/**
  Struct Files lie in the data blocks of directories: when such a block is dropped or
  overwritten, so are they, and with them the only record of the blocks they name.
*/
module FsDirs {
  import opened Mmu
  import opened FsBlocks
  import opened FsOwners
  import opened FsMap
  import opened FsFiles

  /** Struct File f lies in block i of directory g. */
  predicate Holds(s: State, g: nat, i: nat, f: nat) {
    g in s.files && s.files[g].dir && Home(f) != 0 && Owner(s, Data(g, i)) == Home(f)
  }

  /** f is at most n directories below the root. */
  ghost predicate Under(s: State, f: nat, n: nat)
    decreases n
  {
    f in s.files && (f == ROOT || (n > 0 && exists g, i :: Holds(s, g, i, f) && Under(s, g, n - 1)))
  }

  ghost predicate InTree(s: State, f: nat) {
    exists n: nat :: Under(s, f, n)
  }

  /** Every struct File can be reached from the root directory. */
  ghost predicate Tree(s: State) {
    ROOT in s.files && s.files[ROOT].dir && forall f :: f in s.files ==> InTree(s, f)
  }

  /**
    Every block in use is reserved or named once, by a struct File that can be reached
    from the root, and within that file's size.
  */
  ghost predicate Sound(s: State) {
    Tidy(s) && Tree(s)
  }

  /** No block is named in a struct File. */
  predicate NamesNothing(file: File) {
    file.indirect == 0 && forall i :: 0 <= i < NDIRECT ==> file.direct[i] == 0
  }

  lemma NamesNothingIff(s: State, f: nat)
    requires f in s.files
    ensures NamesNothing(s.files[f]) <==> forall l: Slot {:trigger Owner(s, l)} :: l.f == f ==> Owner(s, l) == 0
  {
    var file := s.files[f];
    if forall l: Slot {:trigger Owner(s, l)} :: l.f == f ==> Owner(s, l) == 0 {
      assert Owner(s, Table(f)) == file.indirect;
      forall i | 0 <= i < NDIRECT ensures file.direct[i] == 0 {
        assert Owner(s, InFile(f, i)) == file.direct[i];
      }
    }
  }

  // ----- the tree

  /** Each struct File lies in one block. */
  lemma OneParent(s: State, g: nat, i: nat, h: nat, j: nat, f: nat)
    requires Unshared(s) && Holds(s, g, i, f) && Holds(s, h, j, f)
    ensures g == h && i == j
  {
    assert Data(g, i) == Data(h, j);
  }

  /** No struct File lies in a block of its own. */
  lemma {:induction false} NotInItself(s: State, f: nat, i: nat, n: nat)
    requires Unshared(s) && Under(s, f, n)
    ensures Home(f) != 0 ==> Owner(s, Data(f, i)) != Home(f)
    decreases n
  {
    hide Owner;
    if Home(f) != 0 && Owner(s, Data(f, i)) == Home(f) {
      var g, j :| Holds(s, g, j, f) && Under(s, g, n - 1);
      assert Data(g, j) == Data(f, i);
      NotInItself(s, f, i, n - 1);
    }
  }

  /** Every struct File left in t still lies in the same block of the same directory. */
  ghost predicate Carries(s: State, t: State) {
    forall g, i, f :: f in s.files && f in t.files && Holds(s, g, i, f) ==> Holds(t, g, i, f)
  }

  lemma {:induction false} UnderKept(s: State, t: State, f: nat, n: nat)
    requires Under(s, f, n) && f in t.files && Carries(s, t)
    ensures Under(t, f, n)
    decreases n
  {
    hide Holds;
    if f != ROOT {
      var g, i :| Holds(s, g, i, f) && Under(s, g, n - 1);
      assert Holds(t, g, i, f);
      assert g in t.files by { HolderIn(t, g, i, f); }
      UnderKept(s, t, g, n - 1);
    }
  }

  lemma HolderIn(s: State, g: nat, i: nat, f: nat)
    requires Holds(s, g, i, f)
    ensures g in s.files && s.files[g].dir
  {
  }

  /** The struct Files of t are those of s, or some of them, where they were. */
  lemma TreeKept(s: State, t: State)
    requires Tree(s) && Carries(s, t) && t.files.Keys <= s.files.Keys && ROOT in t.files && t.files[ROOT].dir
    ensures Tree(t)
  {
    forall f | f in t.files ensures InTree(t, f) {
      assert f in s.files.Keys;
      var n: nat :| Under(s, f, n);
      UnderKept(s, t, f, n);
    }
  }

  /** Blocks were added, and directories perhaps: everything lies where it did. */
  lemma TreeGrows(s: State, t: State)
    requires Tree(s) && t.files.Keys == s.files.Keys && forall f :: f in s.files && s.files[f].dir ==> t.files[f].dir
    requires forall l: Slot :: !l.Table? && Owner(s, l) != 0 ==> Owner(t, l) == Owner(s, l)
    ensures Tree(t)
  {
    hide Home;
    forall g, i, x | x in s.files && x in t.files && Holds(s, g, i, x) ensures Holds(t, g, i, x) {
      HoldsIs(s, g, i, x);
      assert g in t.files.Keys;
    }
    hide Owner, Holds;
    TreeKept(s, t);
  }

  // ----- dropping blocks

  /** What is left of the struct Files when the blocks they lie in are freed. */
  function Purge(s: State): State {
    s.(files := map f | f in s.files && Home(f) !in s.free :: s.files[f])
  }

  /** No struct File in a block that the new size drops names a block. */
  predicate Spares(s: State, f: nat, size: nat) {
    forall g, i {:trigger Owner(s, Data(f, i)), Home(g)} ::
      NewBlocks(size) <= i < NINDIRECT && g in s.files && Home(g) != 0 && Owner(s, Data(f, i)) == Home(g)
      ==> NamesNothing(s.files[g])
  }

  /** file_truncate on a tidy file, slot by slot. */
  lemma CutSlots(s: State, f: nat, size: nat)
    requires Tidy(s) && f in s.files && Truncate(s, f, size).Some?
    ensures var t := Truncate(s, f, size).value;
            && Tidy(t) && t.files.Keys == s.files.Keys && t.nblocks == s.nblocks
            && (forall g :: g in s.files && g != f ==> t.files[g] == s.files[g]) && t.files[f].dir == s.files[f].dir
            && (forall l: Slot :: l != Table(f) ==>
                  Owner(t, l) == if l.f == f && l.i >= NewBlocks(size) then 0 else Owner(s, l))
            && (Owner(t, Table(f)) == Owner(s, Table(f)) || Owner(t, Table(f)) == 0)
  {
    TruncateKeeps(s, f, size);
    TruncateIs(s, f, size);
    PastIsEmpty(s, f);
    var t := Truncate(s, f, size).value;
    hide Truncate, Owner, Owned;
    forall g ensures Bounded(t, g) {
      if g != f {
        BoundedStays(s, t, g);
      }
    }
  }

  /** A block that s has in use and t has free is one whose slot was emptied. */
  lemma FreedSlot(s: State, t: State, l: Slot)
    requires Owned(s) && Owned(t) && t.nblocks == s.nblocks && Owner(s, l) != 0
    requires forall k :: Owner(t, k) == Owner(s, k) || Owner(t, k) == 0
    ensures Owner(s, l) in t.free <==> Owner(t, l) == 0
  {
    hide Owner;
    var b := Owner(s, l);
    if Owner(t, l) == b {
      assert Named(t, b);
    } else {
      forall k ensures Owner(t, k) != b {
        assert Owner(t, k) == b ==> Owner(s, k) == b;
      }
      assert !Named(t, b);
    }
  }

  /** The struct Files that a truncation takes along. */
  lemma PurgedIff(s: State, f: nat, size: nat, g: nat)
    requires Sound(s) && f in s.files && Truncate(s, f, size).Some? && g in s.files
    ensures var t := Truncate(s, f, size).value;
            Home(g) in t.free <==> Home(g) != 0 && exists i :: NewBlocks(size) <= i && Owner(s, Data(f, i)) == Home(g)
  {
    var t := Truncate(s, f, size).value;
    CutSlots(s, f, size);
    hide Truncate, Owner, Owned;
    if g != ROOT {
      var n: nat :| Under(s, g, n);
      var h, i :| Holds(s, h, i, g) && Under(s, h, n - 1);
      HoldsIs(s, h, i, g);
      FreedSlot(s, t, Data(h, i));
      if j :| Owner(s, Data(f, j)) == Home(g) {
        OneSlot(s, Data(f, j), Data(h, i));
      }
    } else {
      RootStays(t);
    }
  }

  lemma HoldsIs(s: State, g: nat, i: nat, f: nat)
    requires Holds(s, g, i, f)
    ensures Owner(s, Data(g, i)) == Home(f) != 0
  {
  }

  lemma OneSlot(s: State, k: Slot, l: Slot)
    requires Owned(s) && Owner(s, k) == Owner(s, l) != 0
    ensures k == l
  {
  }

  lemma RootStays(s: State)
    requires Owned(s)
    ensures Home(ROOT) == 0 && 0 !in s.free
  {
  }

  /** Slots of struct Files that are gone are empty, and all others are as in t. */
  lemma PurgeSlots(t: State)
    ensures var u := Purge(t);
            && u.free == t.free && u.nblocks == t.nblocks
            && (forall b: nat :: Content(u, b) == Content(t, b))
            && forall l: Slot :: Owner(u, l) == if l.f in t.files && Home(l.f) in t.free then 0 else Owner(t, l)
  {
    assert forall b: nat :: Content(Purge(t), b) == Content(t, b);
  }

  /** Struct Files lie in the blocks of directories only. */
  lemma HousedInDir(s: State, f: nat)
    requires Sound(s) && f in s.files
    ensures forall g, i {:trigger Owner(s, Data(f, i)), Home(g)} ::
              g in s.files && Home(g) != 0 && Owner(s, Data(f, i)) == Home(g) ==> s.files[f].dir
  {
    hide Owner, Tidy, Bounded;
    assert Owned(s) by { TidyOwned(s); }
    forall g, i | g in s.files && Home(g) != 0 && Owner(s, Data(f, i)) == Home(g) ensures s.files[f].dir {
      var n: nat :| Under(s, g, n);
      var h, j :| Holds(s, h, j, g) && Under(s, h, n - 1);
      HoldsIs(s, h, j, g);
      HolderIn(s, h, j, g);
      OneSlot(s, Data(f, i), Data(h, j));
    }
  }

  lemma TidyOwned(s: State)
    requires Tidy(s)
    ensures Owned(s)
  {
  }

  /** A regular file has no struct Files to take along. */
  lemma RegularSpares(s: State, f: nat, size: nat)
    requires Sound(s) && f in s.files && !s.files[f].dir
    ensures Spares(s, f, size)
  {
    HousedInDir(s, f);
    hide Owner, Home, NamesNothing, Sound;
  }

  /** A truncation keeps every block owned if, and only if, no struct File it takes along names one. */
  lemma CutKeepsIff(s: State, f: nat, size: nat)
    requires Sound(s) && f in s.files && Truncate(s, f, size).Some?
    ensures var u := Purge(Truncate(s, f, size).value);
            && (Owned(u) <==> Spares(s, f, size))
            && (Spares(s, f, size) ==> Sound(u))
  {
    if Spares(s, f, size) {
      CutKeeps(s, f, size);
    } else {
      var g, i :| NewBlocks(size) <= i < NINDIRECT && g in s.files && Home(g) != 0
                  && Owner(s, Data(f, i)) == Home(g) && !NamesNothing(s.files[g]);
      CutLoses(s, f, size, g, i);
    }
  }

  /** The failing input: a struct File with a block lies in a block that is dropped. */
  lemma CutLoses(s: State, f: nat, size: nat, g: nat, i: nat)
    requires Sound(s) && f in s.files && Truncate(s, f, size).Some? && g in s.files
    requires NewBlocks(size) <= i && Home(g) != 0 && Owner(s, Data(f, i)) == Home(g) && !NamesNothing(s.files[g])
    ensures !Owned(Purge(Truncate(s, f, size).value))
  {
    hide Truncate, Purge, NamesNothing, Tree, Owned, Bounded, Home;
    var t := Truncate(s, f, size).value;
    CutSlots(s, f, size);
    PurgedIff(s, f, size, g);
    PurgeSlots(t);
    NotItsOwn(s, g, i);
    var l := NamingSlot(s, g);
    assert Owner(t, l) == Owner(s, l);
    hide Owner;
    LostBlock(t, Purge(t), l);
  }

  lemma NotItsOwn(s: State, f: nat, i: nat)
    requires Sound(s) && f in s.files
    ensures Home(f) != 0 ==> Owner(s, Data(f, i)) != Home(f)
  {
    var n: nat :| Under(s, f, n);
    NotInItself(s, f, i, n);
  }

  lemma NamingSlot(s: State, f: nat) returns (l: Slot)
    requires f in s.files && !NamesNothing(s.files[f])
    ensures l.f == f && Owner(s, l) != 0
  {
    NamesNothingIff(s, f);
    l :| l.f == f && Owner(s, l) != 0;
  }

  /** A block in use whose slot is gone is lost. */
  lemma LostBlock(t: State, u: State, l: Slot)
    requires Owned(t) && u.nblocks == t.nblocks && u.free == t.free && Owner(t, l) != 0 && Owner(u, l) == 0
    requires forall k :: Owner(u, k) == Owner(t, k) || Owner(u, k) == 0
    ensures !Owned(u)
  {
    hide Owner;
    var b := Owner(t, l);
    assert Named(t, b);
    forall k ensures Owner(u, k) != b {
      assert Owner(u, k) == b ==> Owner(t, k) == b;
    }
    assert !Named(u, b);
  }

  lemma CutKeeps(s: State, f: nat, size: nat)
    requires Sound(s) && f in s.files && Truncate(s, f, size).Some? && Spares(s, f, size)
    ensures Sound(Purge(Truncate(s, f, size).value))
  {
    var t := Truncate(s, f, size).value;
    var u := Purge(t);
    CutSlots(s, f, size);
    PurgeSlots(t);
    RootStays(t);
    forall l: Slot ensures Owner(u, l) == Owner(t, l) {
      if l.f in s.files && Home(l.f) in t.free {
        PurgedIff(s, f, size, l.f);
        PurgedNamesNothing(s, f, size, l.f);
        NamesNothingIff(s, l.f);
      }
    }
    hide Truncate, Owner, Owned, Spares;
    SameKeeps(t, u);
    forall g ensures Bounded(u, g) {
      assert Bounded(t, g);
    }
    CutCarries(s, f, size);
    TreeKept(s, u);
  }

  lemma PurgedNamesNothing(s: State, f: nat, size: nat, g: nat)
    requires Sound(s) && f in s.files && Truncate(s, f, size).Some? && Spares(s, f, size)
    requires g in s.files && Home(g) in Truncate(s, f, size).value.free
    ensures NamesNothing(s.files[g])
  {
    PurgedIff(s, f, size, g);
    var i :| NewBlocks(size) <= i && Owner(s, Data(f, i)) == Home(g);
    assert i < NINDIRECT;
  }

  lemma CutCarries(s: State, f: nat, size: nat)
    requires Sound(s) && f in s.files && Truncate(s, f, size).Some? && Spares(s, f, size)
    ensures Carries(s, Purge(Truncate(s, f, size).value))
  {
    var t := Truncate(s, f, size).value;
    var u := Purge(t);
    CutSlots(s, f, size);
    PurgeSlots(t);
    forall g, i, x | x in s.files && x in u.files && Holds(s, g, i, x) ensures Holds(u, g, i, x) {
      PurgedIff(s, f, size, x);
      if Home(g) in t.free {
        PurgedNamesNothing(s, f, size, g);
        NamesNothingIff(s, g);
      }
    }
  }
}
