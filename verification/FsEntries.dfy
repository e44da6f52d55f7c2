/**
  The struct Files of a directory's block come and go with its words: a block new to a
  directory brings those that are in it, and a client that has the block mapped can
  overwrite them.
*/
module FsEntries {
  import opened Mmu
  import opened FsBlocks
  import opened FsOwners
  import opened FsMap
  import opened FsFiles
  import opened FsDirs

  /** By number, the struct Files with a name in a block. */
  type Entries = map<nat, File>

  /** The same by place. */
  function Placed(b: nat, found: Entries): map<nat, File> {
    map f | f in (set k | k in found && k < FILE2BLK :: FileAt(b, k)) :: found[f % FILE2BLK]
  }

  lemma PlacedIs(b: nat, found: Entries)
    ensures forall f: nat :: f in Placed(b, found) <==> Home(f) == b && f % FILE2BLK in found
    ensures forall f :: f in Placed(b, found) ==> Placed(b, found)[f] == found[f % FILE2BLK]
  {
    forall f: nat ensures f in Placed(b, found) <==> Home(f) == b && f % FILE2BLK in found {
      assert f == FileAt(Home(f), f % FILE2BLK);
      assert forall k: nat :: k < FILE2BLK ==> Home(FileAt(b, k)) == b && FileAt(b, k) % FILE2BLK == k;
    }
  }

  /** Block b of a directory turns out to have these struct Files in it. */
  function Enter(s: State, b: nat, found: Entries): State {
    s.(files := Placed(b, found) + s.files)
  }

  predicate AllNameNothing(found: Entries) {
    forall k :: k in found && k < FILE2BLK ==> NamesNothing(found[k])
  }

  /** Those not known yet name nothing. */
  predicate NewNameNothing(s: State, b: nat, found: Entries) {
    forall k :: k in found && k < FILE2BLK && FileAt(b, k) !in s.files ==> NamesNothing(found[k])
  }

  lemma EnterSlots(s: State, b: nat, found: Entries)
    ensures var t := Enter(s, b, found);
            && (forall l: Slot :: l.f in s.files || l.f !in t.files ==> Owner(t, l) == Owner(s, l))
            && (forall l: Slot :: l.f !in s.files ==> Owner(s, l) == 0)
            && (forall f: nat :: f in t.files <==> f in s.files || (Home(f) == b && f % FILE2BLK in found))
            && (forall f :: f in s.files ==> t.files[f] == s.files[f])
            && (forall f :: f in t.files && f !in s.files ==> t.files[f] == found[f % FILE2BLK])
  {
    PlacedIs(b, found);
    var t := Enter(s, b, found);
    assert forall c: nat :: Content(t, c) == Content(s, c);
    hide Content, Home, Placed;
  }

  /** Struct Files that are found in a directory's block are harmless if, and only if, none names a block. */
  lemma EnterKeepsIff(s: State, g: nat, i: nat, found: Entries)
    requires Sound(s) && g in s.files && s.files[g].dir && Owner(s, Data(g, i)) != 0
    ensures var b := Owner(s, Data(g, i));
            var t := Enter(s, b, found);
            && (Owned(t) <==> NewNameNothing(s, b, found))
            && (NewNameNothing(s, b, found) ==> Sound(t))
  {
    var b := Owner(s, Data(g, i));
    var t := Enter(s, b, found);
    EnterSlots(s, b, found);
    if NewNameNothing(s, b, found) {
      EnterKeeps(s, g, i, found);
    } else {
      var k :| k in found && k < FILE2BLK && FileAt(b, k) !in s.files && !NamesNothing(found[k]);
      var f := FileAt(b, k);
      assert Home(f) == b && f % FILE2BLK == k && t.files[f] == found[k];
      NamesNothingIff(t, f);
      var l: Slot :| l.f == f && Owner(t, l) != 0;
      hide Owner, Enter, NamesNothing;
      StrayBreaks(s, t, l);
    }
  }

  lemma EnterKeeps(s: State, g: nat, i: nat, found: Entries)
    requires Sound(s) && g in s.files && s.files[g].dir && Owner(s, Data(g, i)) != 0
    requires NewNameNothing(s, Owner(s, Data(g, i)), found)
    ensures Sound(Enter(s, Owner(s, Data(g, i)), found))
  {
    var b := Owner(s, Data(g, i));
    var t := Enter(s, b, found);
    EnterSlots(s, b, found);
    forall l: Slot ensures Owner(t, l) == Owner(s, l) {
      if l.f in t.files && l.f !in s.files {
        assert FileAt(b, l.f % FILE2BLK) == l.f;
        NamesNothingIff(t, l.f);
      }
    }
    hide Owner, Enter, Owned, NamesNothing, Home;
    SameKeeps(s, t);
    forall f ensures Bounded(t, f) {
      assert Bounded(s, f);
      forall n ensures Owner(t, Data(f, n)) == Owner(s, Data(f, n)) {
      }
    }
    TreeEnters(s, t, g, i);
  }

  /** New struct Files in a block of a directory that is in the tree. */
  lemma TreeEnters(s: State, t: State, g: nat, i: nat)
    requires Tree(s) && g in s.files && s.files[g].dir && s.files.Keys <= t.files.Keys
    requires forall f :: f in s.files ==> f in t.files && t.files[f] == s.files[f]
    requires forall l :: Owner(t, l) == Owner(s, l)
    requires forall f :: f in t.files && f !in s.files ==> Home(f) == Owner(s, Data(g, i)) != 0
    ensures Tree(t)
  {
    assert Carries(s, t);
    forall f | f in t.files ensures InTree(t, f) {
      if f in s.files {
        var n: nat :| Under(s, f, n);
        UnderKept(s, t, f, n);
      } else {
        var n: nat :| Under(s, g, n);
        UnderKept(s, t, g, n);
        assert Holds(t, g, i, f);
        assert Under(t, f, n + 1);
      }
    }
  }

  // ----- overwriting

  /** The struct Files after block b of a directory was overwritten. */
  function Overwrite(s: State, b: nat, block: Block, found: Entries): State {
    s.(cache := s.cache[b := block], files := (map f | f in s.files && Home(f) != b :: s.files[f]) + Placed(b, found))
  }

  /** c is named by a struct File in block b. */
  ghost predicate NamedFrom(s: State, b: nat, c: nat) {
    exists l: Slot :: Home(l.f) == b && Owner(s, l) == c
  }

  /**
    What a client may write into block b of a directory, t being the state with the words
    stored: the struct Files in it name the blocks they named before, each once and within
    their sizes, and the struct Files in those blocks are still in a directory's block.
  */
  ghost predicate Fits(s: State, t: State, b: nat) {
    && SameNames(s, t, b)
    && (forall f {:trigger Bounded(t, f)} :: Home(f) == b ==> Bounded(t, f))
    && (forall g, i, f :: f in s.files && Home(g) == b && Home(f) != b && Holds(s, g, i, f) ==> KeptUnder(t, b, f))
  }

  ghost predicate SameNames(s: State, t: State, b: nat) {
    && (forall c: nat :: c != 0 ==> (NamedFrom(t, b, c) <==> NamedFrom(s, b, c)))
    && (forall k: Slot, l: Slot :: Home(k.f) == b && Home(l.f) == b && Owner(t, k) == Owner(t, l) != 0 ==> k == l)
  }

  ghost predicate KeptUnder(t: State, b: nat, f: nat) {
    exists h, j :: Home(h) == b && Holds(t, h, j, f)
  }

  /** What a store into block b leaves as it was: all struct Files that lie elsewhere. */
  ghost predicate Elsewhere(s: State, t: State, b: nat) {
    && t.free == s.free && t.nblocks == s.nblocks
    && (forall f :: Home(f) != b ==> (f in t.files <==> f in s.files))
    && (forall f :: f in s.files && Home(f) != b ==> t.files[f] == s.files[f])
    && (forall l: Slot :: Home(l.f) != b ==> Owner(t, l) == Owner(s, l))
  }

  lemma OverwriteFiles(s: State, b: nat, block: Block, found: Entries)
    ensures var t := Overwrite(s, b, block, found);
            && t.free == s.free && t.nblocks == s.nblocks
            && (forall f: nat :: f in t.files <==> if Home(f) == b then f % FILE2BLK in found else f in s.files)
            && (forall f :: f in s.files && Home(f) != b ==> t.files[f] == s.files[f])
            && (forall c: nat :: c != b ==> Content(t, c) == Content(s, c))
  {
    PlacedIs(b, found);
    hide Placed;
  }

  lemma OverwriteSlots(s: State, g: nat, i: nat, block: Block, found: Entries)
    requires Owned(s) && Owner(s, Data(g, i)) != 0
    ensures var b := Owner(s, Data(g, i));
            var t := Overwrite(s, b, block, found);
            forall l: Slot :: Home(l.f) != b ==> Owner(t, l) == Owner(s, l)
  {
    var b := Owner(s, Data(g, i));
    var t := Overwrite(s, b, block, found);
    OverwriteFiles(s, b, block, found);
    hide Overwrite, Owned;
    forall l: Slot | Home(l.f) != b ensures Owner(t, l) == Owner(s, l) {
      NotItsTable(s, Data(g, i), l.f);
      hide Home;
      SameSlot(s, t, l);
    }
  }

  /** The block of a data slot is no indirect block. */
  lemma NotItsTable(s: State, k: Slot, f: nat)
    requires Owned(s) && !k.Table? && Owner(s, k) != 0
    ensures f in s.files ==> s.files[f].indirect != Owner(s, k)
  {
    assert f in s.files ==> Owner(s, Table(f)) == s.files[f].indirect;
    hide Owner;
  }

  lemma SameSlot(s: State, t: State, l: Slot)
    requires (l.f in t.files <==> l.f in s.files) && (l.f in s.files ==> t.files[l.f] == s.files[l.f])
    requires l.f in s.files ==> Content(t, s.files[l.f].indirect) == Content(s, s.files[l.f].indirect)
    ensures Owner(t, l) == Owner(s, l)
  {
    hide Content;
  }

  /** Ownership after such a store comes down to the struct Files of the one block. */
  lemma OverwriteOwnedIff(s: State, t: State, b: nat)
    requires Owned(s) && Elsewhere(s, t, b)
    ensures Owned(t) <==> SameNames(s, t, b)
  {
    hide Owner, Home;
    if Owned(t) {
      forall c: nat | c != 0 ensures NamedFrom(t, b, c) <==> NamedFrom(s, b, c) {
        if NamedFrom(s, b, c) {
          NamedAgain(s, t, b, c);
        }
        if NamedFrom(t, b, c) {
          NamedAgain(t, s, b, c);
        }
      }
    } else if SameNames(s, t, b) {
      SameNamesOwned(s, t, b);
    }
  }

  /** A block named from b in s is in use, so it is named in t, and from nowhere else. */
  lemma NamedAgain(s: State, t: State, b: nat, c: nat)
    requires Owned(s) && Owned(t) && t.free == s.free && t.nblocks == s.nblocks && c != 0 && NamedFrom(s, b, c)
    requires forall l: Slot :: Home(l.f) != b ==> Owner(t, l) == Owner(s, l)
    ensures NamedFrom(t, b, c)
  {
    hide Owner, Home;
    var l: Slot :| Home(l.f) == b && Owner(s, l) == c;
    assert Named(s, c);
    assert c !in t.free && !Reserved(t, c);
    var k :| Owner(t, k) == c;
    assert Home(k.f) != b ==> Owner(s, k) == Owner(s, l);
  }

  lemma SameNamesOwned(s: State, t: State, b: nat)
    requires Owned(s) && Elsewhere(s, t, b) && SameNames(s, t, b)
    ensures Owned(t)
  {
    hide Owner, Home;
    forall c: nat | c != 0 ensures Named(t, c) <==> Named(s, c) {
      NamedBoth(s, t, b, c);
      NamedBoth(t, s, b, c);
    }
    assert InRange(t) by {
      forall k | Owner(t, k) != 0 ensures Owner(t, k) < t.nblocks && !Reserved(t, Owner(t, k)) {
        assert Named(t, Owner(t, k));
        var l :| Owner(s, l) == Owner(t, k);
      }
    }
    forall k, l | Owner(t, k) != 0 && Owner(t, k) == Owner(t, l) ensures k == l {
      OneSide(s, t, b, k, l);
      OneSide(s, t, b, l, k);
    }
  }

  /** A block named from b is not named from elsewhere. */
  lemma OneSide(s: State, t: State, b: nat, k: Slot, l: Slot)
    requires Owned(s) && Owner(t, k) == Owner(t, l) != 0
    requires forall l: Slot :: Home(l.f) != b ==> Owner(t, l) == Owner(s, l)
    requires forall c: nat :: c != 0 ==> (NamedFrom(t, b, c) <==> NamedFrom(s, b, c))
    ensures Home(k.f) == b ==> Home(l.f) == b
  {
    hide Owner, Home;
    if Home(k.f) == b {
      assert NamedFrom(t, b, Owner(t, k));
      var m: Slot :| Home(m.f) == b && Owner(s, m) == Owner(t, k);
      assert Home(l.f) != b ==> Owner(s, l) == Owner(s, m);
    }
  }

  lemma NamedBoth(s: State, t: State, b: nat, c: nat)
    requires NamedFrom(s, b, c) ==> NamedFrom(t, b, c)
    requires forall l: Slot :: Home(l.f) != b ==> Owner(t, l) == Owner(s, l)
    ensures Named(s, c) ==> Named(t, c)
  {
    hide Owner, Home;
    if Named(s, c) {
      var l :| Owner(s, l) == c;
      if Home(l.f) == b {
        assert NamedFrom(s, b, c);
        var m: Slot :| Home(m.f) == b && Owner(t, m) == c;
      } else {
        assert Owner(t, l) == c;
      }
    }
  }

  /** A store by a client into a directory's block keeps everything sound if, and only if, it fits. */
  lemma OverwriteKeepsIff(s: State, g: nat, i: nat, block: Block, found: Entries)
    requires Sound(s) && g in s.files && s.files[g].dir && Owner(s, Data(g, i)) != 0
    ensures var b := Owner(s, Data(g, i));
            var t := Overwrite(s, b, block, found);
            Sound(t) <==> Fits(s, t, b)
  {
    hide Overwrite, Owned, Owner, Home, Bounded, Tree, SameNames, Elsewhere;
    var b := Owner(s, Data(g, i));
    var t := Overwrite(s, b, block, found);
    OverwriteElsewhere(s, g, i, block, found);
    OverwriteOwnedIff(s, t, b);
    if Sound(t) {
      TreeFits(s, t, g, i);
    }
    if Fits(s, t, b) {
      FitsBounded(s, t, b);
      FitsTree(s, t, g, i);
    }
  }

  lemma OverwriteElsewhere(s: State, g: nat, i: nat, block: Block, found: Entries)
    requires Owned(s) && Owner(s, Data(g, i)) != 0
    ensures var b := Owner(s, Data(g, i)); Elsewhere(s, Overwrite(s, b, block, found), b)
  {
    OverwriteFiles(s, Owner(s, Data(g, i)), block, found);
    OverwriteSlots(s, g, i, block, found);
    hide Overwrite, Owned, Owner, Home;
  }

  lemma FitsBounded(s: State, t: State, b: nat)
    requires Tidy(s) && Elsewhere(s, t, b) && Fits(s, t, b)
    ensures forall f {:trigger Bounded(t, f)} :: Bounded(t, f)
  {
    hide Owner, Owned, Home;
    forall f ensures Bounded(t, f) {
      assert Bounded(s, f);
      if Home(f) != b && f in t.files {
        forall n | n > t.files[f].size / BY2BLK ensures Owner(t, Data(f, n)) == 0 {
          assert Owner(t, Data(f, n)) == Owner(s, Data(f, n));
        }
      }
    }
  }

  /** Whoever lay in a directory of block b still does. */
  lemma TreeFits(s: State, t: State, g: nat, i: nat)
    requires Sound(s) && Sound(t) && Elsewhere(s, t, Owner(s, Data(g, i))) && Owner(s, Data(g, i)) != 0
    requires SameNames(s, t, Owner(s, Data(g, i)))
    ensures var b := Owner(s, Data(g, i));
            forall h, j, f :: f in s.files && Home(h) == b && Home(f) != b && Holds(s, h, j, f) ==> KeptUnder(t, b, f)
  {
    var b := Owner(s, Data(g, i));
    forall h, j, f | f in s.files && Home(h) == b && Home(f) != b && Holds(s, h, j, f) ensures KeptUnder(t, b, f) {
      HoldsIs(s, h, j, f);
      assert f in t.files;
      var n: nat :| Under(t, f, n);
      assert Home(f) != 0;
      assert f != ROOT;
      var p, q :| Holds(t, p, q, f) && Under(t, p, n - 1);
      HoldsIs(t, p, q, f);
      hide Owner, Owned, Home, Holds;
      NamedThere(s, t, b, Data(h, j), Data(p, q));
    }
  }

  lemma NamedThere(s: State, t: State, b: nat, k: Slot, l: Slot)
    requires Owned(t) && Home(k.f) == b && Owner(s, k) == Owner(t, l) != 0
    requires NamedFrom(t, b, Owner(s, k)) <==> NamedFrom(s, b, Owner(s, k))
    ensures Home(l.f) == b
  {
    hide Owner, Home;
    assert NamedFrom(s, b, Owner(s, k));
    var m: Slot :| Home(m.f) == b && Owner(t, m) == Owner(s, k);
    assert m == l;
  }

  lemma FitsTree(s: State, t: State, g: nat, i: nat)
    requires Sound(s) && g in s.files && s.files[g].dir && Owner(s, Data(g, i)) != 0
    requires Elsewhere(s, t, Owner(s, Data(g, i))) && Fits(s, t, Owner(s, Data(g, i)))
    ensures Tree(t)
  {
    var b := Owner(s, Data(g, i));
    var n: nat :| Under(s, g, n);
    NotInItself(s, g, i, n);
    HomeOfData(s, Data(g, i));
    hide Owner, Owned, Fits;
    forall f | f in t.files ensures InTree(t, f) {
      if Home(f) == b {
        PathKept(s, t, g, i, g, n);
        var m: nat :| Under(t, g, m);
        EntryUnder(t, g, i, f, m);
      } else {
        var m: nat :| Under(s, f, m);
        PathKept(s, t, g, i, f, m);
      }
    }
    assert ROOT in t.files && t.files[ROOT] == s.files[ROOT];
  }

  lemma HomeOfData(s: State, k: Slot)
    requires Owner(s, k) != 0
    ensures Home(ROOT) != Owner(s, k)
  {
  }

  lemma EntryUnder(t: State, g: nat, i: nat, f: nat, n: nat)
    requires f in t.files && Under(t, g, n) && t.files[g].dir && Owner(t, Data(g, i)) == Home(f) != 0
    ensures InTree(t, f)
  {
    assert Holds(t, g, i, f);
    assert Under(t, f, n + 1);
  }

  /** The way from the root to f, around block b or through it. */
  lemma {:induction false} PathKept(s: State, t: State, g: nat, i: nat, f: nat, n: nat)
    requires Sound(s) && g in s.files && s.files[g].dir && Owner(s, Data(g, i)) != 0 && Owner(t, Data(g, i)) == Owner(s, Data(g, i))
    requires Elsewhere(s, t, Owner(s, Data(g, i))) && Fits(s, t, Owner(s, Data(g, i)))
    requires Under(s, f, n) && Home(f) != Owner(s, Data(g, i))
    ensures InTree(t, f)
    decreases n
  {
    var b := Owner(s, Data(g, i));
    if f == ROOT {
      assert Under(t, f, 0);
    } else {
      var p, q :| Holds(s, p, q, f) && Under(s, p, n - 1);
      if Home(p) == b {
        ThroughBlock(s, t, g, i, p, q, f, n);
      } else {
        PathKept(s, t, g, i, p, n - 1);
        var m: nat :| Under(t, p, m);
        HoldsIs(s, p, q, f);
        HolderIn(s, p, q, f);
        hide Owner, Owned, Fits, Home;
        assert Owner(t, Data(p, q)) == Owner(s, Data(p, q));
        EntryUnder(t, p, q, f, m);
      }
    }
  }

  /** f's directory p lies in block b: some other directory there has taken it over, and b is still g's. */
  lemma ThroughBlock(s: State, t: State, g: nat, i: nat, p: nat, q: nat, f: nat, n: nat)
    requires Sound(s) && g in s.files && s.files[g].dir && Owner(s, Data(g, i)) != 0 && Owner(t, Data(g, i)) == Owner(s, Data(g, i))
    requires Elsewhere(s, t, Owner(s, Data(g, i))) && Fits(s, t, Owner(s, Data(g, i)))
    requires f in s.files && Home(f) != Owner(s, Data(g, i)) && n > 0
    requires Home(p) == Owner(s, Data(g, i)) && Holds(s, p, q, f) && Under(s, p, n - 1)
    ensures InTree(t, f)
    decreases n, 0
  {
    var b := Owner(s, Data(g, i));
    HomeOfData(s, Data(g, i));
    var h, j :| Home(h) == b && Holds(t, h, j, f);
    var x, y :| Holds(s, x, y, p) && Under(s, x, n - 2);
    assert Holds(s, g, i, p);
    OneParent(s, g, i, x, y, p);
    NotInItself(s, g, i, n - 2);
    PathKept(s, t, g, i, g, n - 2);
    var m: nat :| Under(t, g, m);
    HolderIn(t, h, j, f);
    HoldsIs(t, h, j, f);
    EntryUnder(t, g, i, h, m);
    var k: nat :| Under(t, h, k);
    EntryUnder(t, h, j, f, k);
  }

  /**
    In particular: overwriting a directory's block with words that name no block is
    harmless if, and only if, no struct File in it named one.
  */
  lemma OverwriteEmptyIff(s: State, g: nat, i: nat, block: Block, found: Entries)
    requires Sound(s) && g in s.files && s.files[g].dir && Owner(s, Data(g, i)) != 0 && AllNameNothing(found)
    ensures var b := Owner(s, Data(g, i));
            Sound(Overwrite(s, b, block, found)) <==>
              forall f :: f in s.files && Home(f) == b ==> NamesNothing(s.files[f])
  {
    var b := Owner(s, Data(g, i));
    var t := Overwrite(s, b, block, found);
    OverwriteKeepsIff(s, g, i, block, found);
    OverwriteFiles(s, b, block, found);
    hide Overwrite, Tidy, Tree;
    forall l: Slot | Home(l.f) == b ensures Owner(t, l) == 0 {
      if l.f in t.files {
        EntryNamesNothing(s, b, block, found, l.f);
        NamesNothingIff(t, l.f);
      }
    }
    if forall f :: f in s.files && Home(f) == b ==> NamesNothing(s.files[f]) {
      NoneNamed(s, b);
      NoneFits(s, t, b);
    } else {
      var f :| f in s.files && Home(f) == b && !NamesNothing(s.files[f]);
      NamesNothingIff(s, f);
      var l: Slot :| l.f == f && Owner(s, l) != 0;
      hide Owner;
      assert NamedFrom(s, b, Owner(s, l));
      assert !NamedFrom(t, b, Owner(s, l));
    }
  }

  lemma EntryNamesNothing(s: State, b: nat, block: Block, found: Entries, f: nat)
    requires AllNameNothing(found) && Home(f) == b && f in Overwrite(s, b, block, found).files
    ensures NamesNothing(Overwrite(s, b, block, found).files[f])
  {
    PlacedIs(b, found);
    hide NamesNothing, Placed;
  }

  lemma NoneNamed(s: State, b: nat)
    requires forall f :: f in s.files && Home(f) == b ==> NamesNothing(s.files[f])
    ensures forall l: Slot :: Home(l.f) == b ==> Owner(s, l) == 0
  {
    forall l: Slot | Home(l.f) == b ensures Owner(s, l) == 0 {
      if l.f in s.files {
        NamesNothingIff(s, l.f);
      }
    }
  }

  lemma NoneFits(s: State, t: State, b: nat)
    requires forall l: Slot :: Home(l.f) == b ==> Owner(s, l) == Owner(t, l) == 0
    ensures Fits(s, t, b)
  {
    forall g, i, f | Home(g) == b && Holds(s, g, i, f) ensures false {
      HoldsIs(s, g, i, f);
    }
    hide Owner, Home;
    forall f | Home(f) == b ensures Bounded(t, f) {
      forall n ensures Owner(t, Data(f, n)) == 0 {
      }
    }
  }
}
