/**
  Frame lemmas: which translations and references a write to physical memory can change.
*/
module VmFrames {
  import opened Mmu
  import opened Vm
  import opened VmRefs

  ghost predicate Shape(s: State) {
    InRange(s) && Exclusive(s) && Windows(s)
  }

  /** Everything but memory words, counts, free list and TLB. */
  ghost predicate SameFrame(s: State, t: State) {
    t.spaces == s.spaces && t.base == s.base && t.npage == s.npage && t.reserved == s.reserved
  }

  /** The translations of (b, k, l) in every address space, except possibly one. */
  ghost predicate SameMapsBut(s: State, t: State, a: nat, i: nat, j: nat) {
    forall b, k: nat, l: nat :: b in s.spaces && b in t.spaces && k < PDX_ULIM && l < ENTRIES && (b, k, l) != (a, i, j)
      ==> Lookup(t, t.spaces[b], k, l) == Lookup(s, s.spaces[b], k, l)
  }

  ghost predicate SameMaps(s: State, t: State) {
    forall b, k: nat, l: nat :: b in s.spaces && b in t.spaces && k < PDX_ULIM && l < ENTRIES
      ==> Lookup(t, t.spaces[b], k, l) == Lookup(s, s.spaces[b], k, l)
  }

  ghost predicate SameShared(s: State, t: State) {
    forall i: nat, j: nat :: Shared(i, j) ==> SharedEntry(t, i, j) == SharedEntry(s, i, j)
  }

  ghost predicate SameWordsBut(s: State, t: State, q: nat) {
    forall p: nat, k: nat :: p != q ==> Word(t, p, k) == Word(s, p, k)
  }

  /** A page that is neither a kernel page nor a directory nor a page table. */
  ghost predicate DataPage(s: State, q: nat) {
    q < s.npage && q !in s.reserved && forall x: Slot :: Target(s, x) == Some(q) ==> x.Leaf?
  }

  /** Memory that is no page table can change freely: no translation sees it. */
  lemma DataWriteFrame(s: State, t: State, q: nat)
    requires Shape(s) && SameFrame(s, t) && DataPage(s, q) && SameWordsBut(s, t, q)
    ensures Shape(t) && (forall x :: Target(t, x) == Target(s, x)) && SameMaps(s, t) && SameShared(s, t)
  {
    forall b, k: nat, l: nat | b in s.spaces && k < PDX_ULIM && l < ENTRIES
      ensures Lookup(t, t.spaces[b], k, l) == Lookup(s, s.spaces[b], k, l)
    {
      assert Target(s, Dir(b)) == Some(s.spaces[b]);
      if k < PDX_UTOP && IsValid(Word(s, s.spaces[b], k)) {
        assert Target(s, Table(b, k)) == Some(Word(s, s.spaces[b], k).ppn);
      }
      assert DirOk(s, s.spaces[b]);
    }
    forall x ensures Target(t, x) == Target(s, x) {
      if x.asid in s.spaces {
        assert Target(s, Dir(x.asid)) == Some(s.spaces[x.asid]);
      }
    }
    forall b | b in t.spaces ensures DirOk(t, t.spaces[b]) {
      assert Target(s, Dir(b)) == Some(s.spaces[b]);
      assert DirOk(s, s.spaces[b]);
    }
  }

  /** Writing entry j of the page table at (a, i) changes the translation of (a, i, j) only. */
  lemma LeafWriteFrame(s: State, t: State, a: nat, i: nat, j: nat, e: Entry)
    requires Shape(s) && SameFrame(s, t)
    requires a in s.spaces && i < PDX_UTOP && j < ENTRIES && IsValid(Word(s, s.spaces[a], i))
    requires t.mem == SetWord(s, Word(s, s.spaces[a], i).ppn, j, e).mem
    ensures OnlySlot(s, t, Leaf(a, i, j)) && SameMapsBut(s, t, a, i, j) && SameShared(s, t) && Windows(t)
    ensures Lookup(t, t.spaces[a], i, j) == if IsValid(e) then Some(e) else None
  {
    var pt := Word(s, s.spaces[a], i).ppn;
    assert Target(s, Table(a, i)) == Some(pt);
    assert SameWordsBut(s, t, pt);
    forall b | b in s.spaces ensures s.spaces[b] != pt && DirOk(t, t.spaces[b]) {
      assert Target(s, Dir(b)) == Some(s.spaces[b]);
      assert DirOk(s, s.spaces[b]);
    }
    forall b, k: nat, l: nat | b in s.spaces && k < PDX_ULIM && l < ENTRIES && (b, k, l) != (a, i, j)
      ensures Lookup(t, t.spaces[b], k, l) == Lookup(s, s.spaces[b], k, l)
    {
      if k < PDX_UTOP && IsValid(Word(s, s.spaces[b], k)) {
        assert Target(s, Table(b, k)) == Some(Word(s, s.spaces[b], k).ppn);
      }
      assert DirOk(s, s.spaces[b]);
    }
  }

  ghost predicate NoLeaves(s: State, a: nat, i: nat) {
    a in s.spaces && forall j: nat :: j < ENTRIES ==> Lookup(s, s.spaces[a], i, j) == None
  }

  ghost predicate TableWrite(s: State, t: State, a: nat, i: nat, e: Entry) {
    && Shape(s) && SameFrame(s, t)
    && a in s.spaces && i < PDX_UTOP && t.mem == SetWord(s, s.spaces[a], i, e).mem
    && (IsValid(e) ==> e.flags == PTE_D | PTE_V)
  }

  lemma TableWriteDirs(s: State, t: State, a: nat, i: nat, e: Entry)
    requires TableWrite(s, t, a, i, e)
    ensures Windows(t)
    ensures forall b :: b in s.spaces && b != a ==> s.spaces[b] != s.spaces[a]
  {
    var pd := s.spaces[a];
    assert Target(s, Dir(a)) == Some(pd);
    assert SameWordsBut(s, t, pd);
    assert forall k: nat :: Word(t, pd, k) == if k == i then e else Word(s, pd, k);
    forall b | b in s.spaces ensures (b != a ==> s.spaces[b] != pd) && DirOk(t, t.spaces[b]) {
      assert Target(s, Dir(b)) == Some(s.spaces[b]);
      assert DirOk(s, s.spaces[b]);
    }
  }

  lemma TableWriteMaps(s: State, t: State, a: nat, i: nat, e: Entry)
    requires TableWrite(s, t, a, i, e) && NoLeaves(s, a, i) && NoLeaves(t, a, i)
    ensures SameMapsBut(s, t, a, PDX_UVPT, i) && SameShared(s, t)
    ensures Lookup(t, t.spaces[a], PDX_UVPT, i) == if IsValid(e) then Some(e) else None
  {
    var pd := s.spaces[a];
    assert Target(s, Dir(a)) == Some(pd);
    TableWriteDirs(s, t, a, i, e);
    assert DirOk(t, pd);
    forall b, k: nat, l: nat | b in s.spaces && k < PDX_ULIM && l < ENTRIES && (b, k, l) != (a, PDX_UVPT, i)
      ensures Lookup(t, t.spaces[b], k, l) == Lookup(s, s.spaces[b], k, l)
    {
      if k < PDX_UTOP && IsValid(Word(s, s.spaces[b], k)) {
        assert Target(s, Table(b, k)) == Some(Word(s, s.spaces[b], k).ppn);
      }
      assert DirOk(s, s.spaces[b]);
    }
  }

  /** Writing directory entry i of a, with no page mapped through it before or after. */
  lemma TableWriteFrame(s: State, t: State, a: nat, i: nat, e: Entry)
    requires TableWrite(s, t, a, i, e) && NoLeaves(s, a, i) && NoLeaves(t, a, i)
    ensures OnlySlot(s, t, Table(a, i)) && SameMapsBut(s, t, a, PDX_UVPT, i) && SameShared(s, t) && Windows(t)
    ensures Lookup(t, t.spaces[a], PDX_UVPT, i) == if IsValid(e) then Some(e) else None
  {
    TableWriteDirs(s, t, a, i, e);
    TableWriteMaps(s, t, a, i, e);
  }
}
