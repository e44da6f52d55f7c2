/**
  A page whose count is one although nobody names it stays so for good: not even env_free of
  the environment that caused it gives it back.
*/
module VmOrphans {
  import opened Mmu
  import opened Vm
  import opened VmRefs
  import opened VmTlb
  import opened VmStores
  import opened VmCalls

  /** The words of memory are those of s, or zero. */
  ghost predicate Fewer(s: State, t: State) {
    && t.npage == s.npage && t.reserved == s.reserved
    && (forall a :: a in t.spaces ==> a in s.spaces && t.spaces[a] == s.spaces[a])
    && forall q: nat, k: nat :: Word(t, q, k) == Word(s, q, k) || Word(t, q, k) == ZERO
  }

  lemma ZeroInvalid()
    ensures !IsValid(ZERO)
  {
  }

  /** Fewer words name no new page. */
  lemma FewerTargets(s: State, t: State, x: Slot)
    requires Fewer(s, t)
    ensures Target(t, x) == None || Target(t, x) == Target(s, x)
  {
    ZeroInvalid();
    hide IsValid;
  }

  lemma FewerLookup(s: State, t: State, pgdir: nat, i: nat, j: nat)
    requires Fewer(s, t)
    ensures Lookup(t, pgdir, i, j) == None || Lookup(t, pgdir, i, j) == Lookup(s, pgdir, i, j)
  {
    ZeroInvalid();
    hide IsValid;
  }

  /** What the loops of env_free keep of an orphan p of s. */
  ghost predicate Spared(s: State, t: State, p: nat) {
    Fewer(s, t) && Ref(t, p) == 1 && p !in t.free
  }

  lemma OrphanSpared(s: State, p: nat)
    requires Orphan(s, p)
    ensures Spared(s, s, p) && forall x :: Target(s, x) != Some(p)
  {
    RefsAre(s, p);
  }

  lemma SparedOrphan(s: State, t: State, p: nat)
    requires Orphan(s, p) && Spared(s, t, p)
    ensures Orphan(t, p)
  {
    RefsAre(s, p);
    RefsAre(t, p);
    forall x ensures Target(t, x) != Some(p) {
      FewerTargets(s, t, x);
    }
    assert Refs(t, p) == {};
  }

  /** Clearing a word and dropping a reference to another page. */
  lemma DropSpares(s: State, t: State, p: nat, q: nat, page: nat, k: nat)
    requires Spared(s, t, p) && q != p
    ensures Spared(s, DecRef(SetWord(t, page, k, ZERO), q), p) && Spared(s, SetWord(DecRef(t, q), page, k, ZERO), p)
  {
    var u, v := DecRef(SetWord(t, page, k, ZERO), q), SetWord(DecRef(t, q), page, k, ZERO);
    forall r: nat, l: nat
      ensures Word(u, r, l) == Word(t, r, l) || Word(u, r, l) == ZERO
      ensures Word(v, r, l) == Word(t, r, l) || Word(v, r, l) == ZERO
    {
    }
    hide Word;
  }

  lemma FlushSpares(s: State, t: State, p: nat, a: nat, i: nat, j: nat)
    requires Spared(s, t, p)
    ensures Spared(s, Flush(t, a, i, j), p)
  {
    assert forall q: nat, k: nat :: Word(Flush(t, a, i, j), q, k) == Word(t, q, k);
    hide Word;
  }

  lemma RemoveSpares(s: State, t: State, p: nat, a: nat, i: nat, j: nat)
    requires Orphan(s, p) && Spared(s, t, p) && a in t.spaces && i < PDX_UTOP && j < ENTRIES
    ensures Spared(s, Remove(t, a, i, j), p)
  {
    OrphanSpared(s, p);
    FewerTargets(s, t, Leaf(a, i, j));
    if Lookup(t, t.spaces[a], i, j).Some? {
      var q := Lookup(t, t.spaces[a], i, j).value.ppn;
      assert Target(t, Leaf(a, i, j)) == Some(q);
      hide Spared, Orphan, Word;
      var page := Word(t, t.spaces[a], i).ppn;
      DropSpares(s, t, p, q, page, j);
      FlushSpares(s, SetWord(DecRef(t, q), page, j, ZERO), p, a, i, j);
    }
  }

  lemma {:induction false} LeavesSpare(s: State, t: State, p: nat, a: nat, i: nat, j: nat)
    requires Orphan(s, p) && Spared(s, t, p) && a in t.spaces && i < PDX_UTOP
    ensures Spared(s, ClearLeaves(t, a, i, j), p)
    decreases ENTRIES - j
  {
    hide Spared, Orphan;
    if j < ENTRIES {
      RemoveSpares(s, t, p, a, i, j);
      LeavesSpare(s, Remove(t, a, i, j), p, a, i, j + 1);
    }
  }

  lemma TableSpares(s: State, t: State, p: nat, a: nat, i: nat)
    requires Orphan(s, p) && Spared(s, t, p) && a in t.spaces && i < PDX_UTOP
    ensures Spared(s, ClearTable(t, a, i), p) && ClearTable(t, a, i).spaces == t.spaces
  {
    OrphanSpared(s, p);
    FewerTargets(s, t, Table(a, i));
    var pgdir := t.spaces[a];
    if IsValid(Word(t, pgdir, i)) {
      var pt := Word(t, pgdir, i).ppn;
      assert Target(t, Table(a, i)) == Some(pt);
      hide Spared, Orphan, Word;
      LeavesSpare(s, t, p, a, i, 0);
      var u := ClearLeaves(t, a, i, 0);
      DropSpares(s, u, p, pt, pgdir, i);
      FlushSpares(s, DecRef(SetWord(u, pgdir, i, ZERO), pt), p, a, PDX_UVPT, i);
    }
  }

  lemma {:induction false} TablesSpare(s: State, t: State, p: nat, a: nat, i: nat)
    requires Orphan(s, p) && Spared(s, t, p) && a in t.spaces
    ensures Spared(s, ClearTables(t, a, i), p) && ClearTables(t, a, i).spaces == t.spaces
    decreases PDX_UTOP - i
  {
    hide Spared, Orphan, ClearTable;
    if i < PDX_UTOP {
      TableSpares(s, t, p, a, i);
      TablesSpare(s, ClearTable(t, a, i), p, a, i + 1);
    }
  }

  /** The end of env_free: another page loses a reference, and the address space goes. */
  lemma DirSpares(s: State, t: State, p: nat, q: nat, a: nat)
    requires Spared(s, t, p) && q != p
    ensures var u := DecRef(t, q); Spared(s, u.(spaces := u.spaces - {a}), p)
  {
    var u := DecRef(t, q);
    var v := u.(spaces := u.spaces - {a});
    assert forall r: nat, k: nat :: Word(v, r, k) == Word(t, r, k);
    hide Word;
  }

  /** env_free leaves an orphan as it is. */
  lemma FreeKeepsOrphan(s: State, a: nat, p: nat)
    requires Orphan(s, p) && a in s.spaces
    ensures Orphan(Free(s, a), p)
  {
    OrphanSpared(s, p);
    assert Target(s, Dir(a)) == Some(s.spaces[a]);
    hide Spared, Orphan, ClearTables, DecRef, Target;
    var t := ClearTables(s, a, 0);
    TablesSpare(s, s, p, a, 0);
    DirSpares(s, t, p, s.spaces[a], a);
    var u := DecRef(t, s.spaces[a]);
    FlushSpares(s, u.(spaces := u.spaces - {a}), p, a, PDX_UVPT, PDX_UVPT);
    SparedOrphan(s, Free(s, a), p);
  }

  /** So a fault at a kernel entry of the UVPT window costs a page that the end of the environment does not give back. */
  lemma KernelHalfLost(s: State, a: nat, va: Addr, evicted: set<Tag>)
    requires Inv(s) && a in s.spaces && Translate(s, a, va) == None && PassiveOk(va) && !Backable(va) && s.free != []
    ensures var t := Refill(s, a, va, evicted).state;
            && a in t.spaces
            && var u := Free(t, a);
               Ref(u, s.free[0]) == 1 && Refs(u, s.free[0]) == {} && s.free[0] !in u.free
  {
    RefillKeepsIff(s, a, va, evicted);
    FreeKeepsOrphan(Refill(s, a, va, evicted).state, a, s.free[0]);
  }
}
