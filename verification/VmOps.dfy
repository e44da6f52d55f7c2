/**
  Every memory operation keeps the invariant, and what it does to the translations.
*/
module VmOps {
  import opened Mmu
  import opened Vm
  import opened VmRefs
  import opened VmFrames

  /** Dropping the tag of the one translation that changes keeps the TLB coherent. */
  lemma CoherentKept(s: State, t: State, a: nat, i: nat, j: nat)
    requires Coherent(s) && t.spaces == s.spaces && !Shared(i, j)
    requires SameMapsBut(s, t, a, i, j) && SameShared(s, t)
    requires t.tlb == s.tlb - {Tag(a, i, j)}
    ensures Coherent(t)
  {
    forall tag | tag in t.tlb ensures TagOk(t, tag) {
      assert TagOk(s, tag);
      assert (tag.asid, tag.i, tag.j) != (a, i, j);
    }
  }

  lemma NoGlobalKept(s: State, t: State, a: nat, i: nat, j: nat)
    requires NoUserGlobal(s) && t.spaces == s.spaces && SameMapsBut(s, t, a, i, j)
    requires a in s.spaces
    requires i < PDX_UTOP && Lookup(t, t.spaces[a], i, j).Some? ==> !IsGlobal(Lookup(t, t.spaces[a], i, j).value)
    ensures NoUserGlobal(t)
  {
    forall b, k: nat, l: nat | b in t.spaces && k < PDX_UTOP && l < ENTRIES && Lookup(t, t.spaces[b], k, l).Some?
      ensures !IsGlobal(Lookup(t, t.spaces[b], k, l).value)
    {
      if (b, k, l) != (a, i, j) {
        assert Lookup(t, t.spaces[b], k, l) == Lookup(s, s.spaces[b], k, l);
      }
    }
  }

  /** A page that may be mapped: allocated or already mapped, and not a table. */
  ghost predicate Mappable(s: State, p: nat) {
    DataPage(s, p) && p !in s.free
  }

  /** Taking a slot's reference away, or giving it to a leaf, keeps the table shape. */
  lemma ShapeKept(s: State, t: State, x: Slot)
    requires InRange(s) && Exclusive(s) && OnlySlot(s, t, x)
    requires t.npage == s.npage && t.reserved == s.reserved
    requires Target(t, x).Some? ==> Target(t, x).value < s.npage && Target(t, x).value !in s.reserved
    requires Target(t, x).Some? ==> forall y: Slot :: (x.Leaf? && y.Leaf?) || Target(s, y) != Target(t, x)
    ensures InRange(t) && Exclusive(t)
  {
  }

  lemma AllocKeeps(s: State)
    requires Inv(s) && s.free != []
    ensures var p, t := s.free[0], Alloc(s);
            && Inv(t) && Mappable(t, p) && Ref(t, p) == 0 && p in t.held && Refs(t, p) == {}
            && (forall k: nat :: Word(t, p, k) == ZERO)
            && (forall x :: Target(t, x) == Target(s, x)) && SameMaps(s, t)
  {
    var p, t := s.free[0], Alloc(s);
    assert p in s.free;
    RefsAre(s, p);
    DataWriteFrame(s, t, p);
    SameCounts(s, t);
    RefsAre(t, p);
    forall tag | tag in t.tlb ensures TagOk(t, tag) {
      assert TagOk(s, tag);
    }
  }

  lemma RemoveKeeps(s: State, a: nat, i: nat, j: nat)
    requires Inv(s) && a in s.spaces && i < PDX_UTOP && j < ENTRIES
    ensures var t := Remove(s, a, i, j);
            && Inv(t) && SameFrame(s, t) && t.held == s.held
            && OnlySlot(s, t, Leaf(a, i, j)) && SameMapsBut(s, t, a, i, j)
            && Lookup(t, t.spaces[a], i, j) == None
            && (Lookup(s, s.spaces[a], i, j).Some? ==> Ref(s, Lookup(s, s.spaces[a], i, j).value.ppn) > 0)
  {
    var t := Remove(s, a, i, j);
    var leaf := Lookup(s, s.spaces[a], i, j);
    if leaf.Some? {
      var p := leaf.value.ppn;
      assert Target(s, Leaf(a, i, j)) == Some(p);
      LeafWriteFrame(s, t, a, i, j, ZERO);
      UnlinkCounts(s, t, Leaf(a, i, j), p);
      CoherentKept(s, t, a, i, j);
      ShapeKept(s, t, Leaf(a, i, j));
    }
  }

  /** The last step of page_insert. */
  function Put(s: State, a: nat, i: nat, j: nat, e: Entry, p: nat): State
    requires a in s.spaces
  {
    IncRef(SetWord(s, Word(s, s.spaces[a], i).ppn, j, e), p)
  }

  ghost predicate CanPut(s: State, a: nat, i: nat, j: nat, e: Entry) {
    && a in s.spaces && i < PDX_UTOP && j < ENTRIES
    && IsValid(Word(s, s.spaces[a], i)) && Lookup(s, s.spaces[a], i, j) == None
    && Mappable(s, e.ppn) && Ref(s, e.ppn) + 1 < REF_LIMIT && IsValid(e) && !IsGlobal(e)
  }

  lemma PutCounts(s: State, a: nat, i: nat, j: nat, e: Entry)
    requires Inv(s) && CanPut(s, a, i, j, e)
    ensures var t := Put(s, a, i, j, e, e.ppn); InRange(t) && Exclusive(t) && Counted(t) && FreeOk(t)
  {
    hide Coherent, NoUserGlobal, DirOk;
    var t := Put(s, a, i, j, e, e.ppn);
    LeafWriteFrame(s, t, a, i, j, e);
    hide Windows, SameMapsBut, SameShared;
    LinkCounts(s, t, Leaf(a, i, j), e.ppn);
    ShapeKept(s, t, Leaf(a, i, j));
  }

  /** An empty leaf gets a page, and the page gains a reference. */
  lemma PutKeeps(s: State, a: nat, i: nat, j: nat, e: Entry)
    requires Inv(s) && CanPut(s, a, i, j, e)
    ensures var t := Put(s, a, i, j, e, e.ppn);
            && Inv(t) && SameFrame(s, t)
            && OnlySlot(s, t, Leaf(a, i, j)) && SameMapsBut(s, t, a, i, j)
            && Lookup(t, t.spaces[a], i, j) == Some(e)
  {
    hide Counted, FreeOk, InRange, Exclusive, Windows;
    var t := Put(s, a, i, j, e, e.ppn);
    PutCounts(s, a, i, j, e);
    LeafWriteFrame(s, t, a, i, j, e);
    NoGlobalKept(s, t, a, i, j);
    assert Tag(a, i, j) in s.tlb ==> TagOk(s, Tag(a, i, j));
    CoherentKept(s, t, a, i, j);
  }

  /** Remapping the page that is already there changes its flags and no count. */
  lemma RemapKeeps(s: State, a: nat, i: nat, j: nat, e: Entry)
    requires Inv(s) && a in s.spaces && i < PDX_UTOP && j < ENTRIES && IsValid(e) && !IsGlobal(e)
    requires Lookup(s, s.spaces[a], i, j).Some? && Lookup(s, s.spaces[a], i, j).value.ppn == e.ppn
    ensures var t := SetWord(Flush(s, a, i, j), Word(s, s.spaces[a], i).ppn, j, e);
            && Inv(t) && SameFrame(s, t) && SameMapsBut(s, t, a, i, j)
            && (forall x :: Target(t, x) == Target(s, x)) && Lookup(t, t.spaces[a], i, j) == Some(e)
  {
    var t := SetWord(Flush(s, a, i, j), Word(s, s.spaces[a], i).ppn, j, e);
    LeafWriteFrame(s, t, a, i, j, e);
    assert Target(s, Leaf(a, i, j)) == Some(e.ppn);
    SameCounts(s, t);
    CoherentKept(s, t, a, i, j);
  }

  /** pgdir_walk(create) adds an empty table, seen only through the UVPT window, or fails. */
  lemma WalkKeeps(s: State, a: nat, i: nat)
    requires Inv(s) && a in s.spaces && i < PDX_UTOP
    ensures match WalkCreate(s, s.spaces[a], i) {
              case Ok(t) =>
                && Inv(t) && SameFrame(s, t) && IsValid(Word(t, t.spaces[a], i))
                && OnlySlot(s, t, Table(a, i)) && SameMapsBut(s, t, a, PDX_UVPT, i)
              case NoMem(t) => t == s && s.free == [] && Target(s, Table(a, i)) == None
              case Panic(_) => false
            }
  {
    if !IsValid(Word(s, s.spaces[a], i)) && s.free != [] {
      var q, r := s.free[0], Alloc(s);
      AllocKeeps(s);
      hide Counted, InRange, Exclusive, Windows, Coherent, NoUserGlobal, FreeOk;
      assert Target(s, Table(a, i)) == None;
      assert Target(r, Table(a, i)) == None;
      NewTableKeeps(r, a, i, q);
    }
  }

  /** The new table is a page nobody uses: pages in use keep their state. */
  lemma WalkMappable(s: State, a: nat, i: nat, p: nat)
    requires Inv(s) && a in s.spaces && i < PDX_UTOP && Mappable(s, p)
    ensures var t := WalkCreate(s, s.spaces[a], i).state; Mappable(t, p) && Ref(t, p) == Ref(s, p)
  {
    hide Counted, InRange, Exclusive, Windows, Coherent, NoUserGlobal;
    if !IsValid(Word(s, s.spaces[a], i)) && s.free != [] {
      AllocKeeps(s);
      WalkKeeps(s, a, i);
      assert s.free[0] in s.free;
      var t := WalkCreate(s, s.spaces[a], i).state;
      hide Inv, SameMapsBut;
      assert Target(t, Table(a, i)) == Some(s.free[0]);
    }
  }

  ghost predicate CanAddTable(s: State, a: nat, i: nat, q: nat) {
    && a in s.spaces && i < PDX_UTOP && !IsValid(Word(s, s.spaces[a], i))
    && q in s.held && forall k: nat :: Word(s, q, k) == ZERO
  }

  /** A directory entry gets an allocated, zeroed page as its table. */
  function AddTable(s: State, a: nat, i: nat, q: nat): State
    requires a in s.spaces
  {
    IncRef(SetWord(s, s.spaces[a], i, Entry(q, PTE_D | PTE_V)), q)
  }

  lemma AddTableMaps(s: State, a: nat, i: nat, q: nat)
    requires Inv(s) && CanAddTable(s, a, i, q)
    ensures var t := AddTable(s, a, i, q);
            && SameFrame(s, t) && IsValid(Word(t, t.spaces[a], i)) && Target(t, Table(a, i)) == Some(q)
            && OnlySlot(s, t, Table(a, i)) && SameMapsBut(s, t, a, PDX_UVPT, i) && SameShared(s, t) && Windows(t)
  {
    hide Coherent, NoUserGlobal, Counted;
    var e := Entry(q, PTE_D | PTE_V);
    var t := AddTable(s, a, i, q);
    RefsAre(s, q);
    assert Target(s, Dir(a)) == Some(s.spaces[a]);
    assert IsValid(e);
    assert q != s.spaces[a];
    forall k: nat ensures Word(t, q, k) == ZERO {
      assert Word(s, q, k) == ZERO;
    }
    assert NoLeaves(t, a, i);
    TableWriteFrame(s, t, a, i, e);
  }

  lemma AddTableCounts(s: State, a: nat, i: nat, q: nat)
    requires Inv(s) && CanAddTable(s, a, i, q)
    ensures var t := AddTable(s, a, i, q); InRange(t) && Exclusive(t) && Counted(t) && FreeOk(t)
  {
    hide Coherent, NoUserGlobal;
    var t := AddTable(s, a, i, q);
    AddTableMaps(s, a, i, q);
    RefsAre(s, q);
    hide Windows, SameMapsBut, SameShared;
    LinkCounts(s, t, Table(a, i), q);
    ShapeKept(s, t, Table(a, i));
  }

  lemma NewTableKeeps(s: State, a: nat, i: nat, q: nat)
    requires Inv(s) && CanAddTable(s, a, i, q)
    ensures var t := AddTable(s, a, i, q);
            && Inv(t) && SameFrame(s, t) && IsValid(Word(t, t.spaces[a], i))
            && Target(t, Table(a, i)) == Some(q)
            && OnlySlot(s, t, Table(a, i)) && SameMapsBut(s, t, a, PDX_UVPT, i)
  {
    hide Counted, FreeOk, InRange, Exclusive, OnlySlot;
    var t := AddTable(s, a, i, q);
    AddTableMaps(s, a, i, q);
    AddTableCounts(s, a, i, q);
    assert Lookup(s, s.spaces[a], PDX_UVPT, i) == None by { assert DirOk(s, s.spaces[a]); }
    assert Tag(a, PDX_UVPT, i) !in s.tlb by {
      assert Tag(a, PDX_UVPT, i) in s.tlb ==> TagOk(s, Tag(a, PDX_UVPT, i));
    }
    hide Windows;
    CoherentKept(s, t, a, PDX_UVPT, i);
    NoGlobalKept(s, t, a, PDX_UVPT, i);
  }

  /** What page_insert demands of its caller. */
  ghost predicate CanInsert(s: State, a: nat, p: nat, i: nat, j: nat, perm: Perm) {
    && a in s.spaces && i < PDX_UTOP && j < ENTRIES
    && Mappable(s, p) && perm.flags & PTE_G == 0 && OrPage(p, perm.hi) == p
    && (Ref(s, p) + 1 < REF_LIMIT || Mapped(s, a, p, i, j))
  }

  ghost predicate Mapped(s: State, a: nat, p: nat, i: nat, j: nat)
    requires a in s.spaces
  {
    Lookup(s, s.spaces[a], i, j).Some? && Lookup(s, s.spaces[a], i, j).value.ppn == p
  }

  /** The translation of (a, i, j) is e and every other one is as before, up to the window of a new table. */
  ghost predicate MapUpdated(s: State, t: State, a: nat, i: nat, j: nat, e: Entry)
    requires a in s.spaces
  {
    && SameFrame(s, t) && Lookup(t, t.spaces[a], i, j) == Some(e)
    && (forall b, k: nat, l: nat :: b in s.spaces && k < PDX_ULIM && l < ENTRIES &&
          (b, k, l) != (a, i, j) && (b, k, l) != (a, PDX_UVPT, i)
          ==> Lookup(t, t.spaces[b], k, l) == Lookup(s, s.spaces[b], k, l))
  }

  ghost predicate Inserted(s: State, r: Outcome, a: nat, i: nat, j: nat, e: Entry)
    requires a in s.spaces
  {
    match r
    case Ok(t) => Inv(t) && MapUpdated(s, t, a, i, j, e)
    case NoMem(t) => t == s && s.free == [] && Target(s, Table(a, i)) == None
    case Panic(_) => false
  }

  /**
    page_insert is a map update: afterwards (a, i, j) translates to p with perm | PTE_V and
    every other translation of every address space is as before, up to the window in which
    a new page table becomes visible. It fails only for want of a page table, and then
    nothing at all has changed.
  */
  lemma InsertKeeps(s: State, a: nat, p: nat, i: nat, j: nat, perm: Perm)
    requires Inv(s) && CanInsert(s, a, p, i, j, perm)
    ensures Inserted(s, Insert(s, a, p, i, j, perm), a, i, j, Entry(p, perm.flags | PTE_V))
  {
    hide OrPage;
    if Mapped(s, a, p, i, j) {
      hide Counted, FreeOk, InRange, Exclusive, Windows, NoUserGlobal, Coherent;
      RemapKeeps(s, a, i, j, Entry(p, perm.flags | PTE_V));
    } else {
      hide Inv;
      ReplaceKeeps(s, a, p, i, j, perm);
    }
  }

  lemma ReplaceKeeps(s: State, a: nat, p: nat, i: nat, j: nat, perm: Perm)
    requires Inv(s) && CanInsert(s, a, p, i, j, perm) && !Mapped(s, a, p, i, j)
    ensures Inserted(s, Insert(s, a, p, i, j, perm), a, i, j, Entry(p, perm.flags | PTE_V))
  {
    hide Inv, Remove, WalkCreate, Mappable, Put, Lookup;
    var e := Entry(p, perm.flags | PTE_V);
    var w := WalkCreate(Flush(Remove(s, a, i, j), a, i, j), s.spaces[a], i);
    WalkedKeeps(s, a, p, i, j);
    InsertFollowsWalk(s, a, p, i, j, perm);
    hide Insert, OrPage;
    if w.Ok? {
      PutKeeps(w.state, a, i, j, e);
    }
  }

  lemma InsertFollowsWalk(s: State, a: nat, p: nat, i: nat, j: nat, perm: Perm)
    requires a in s.spaces && !Mapped(s, a, p, i, j)
    requires var w := WalkCreate(Flush(Remove(s, a, i, j), a, i, j), s.spaces[a], i);
             w.Ok? ==> w.state.spaces == s.spaces
    ensures Insert(s, a, p, i, j, perm) ==
              match WalkCreate(Flush(Remove(s, a, i, j), a, i, j), s.spaces[a], i)
              case Ok(w) => Ok(Put(w, a, i, j, Entry(OrPage(p, perm.hi), perm.flags | PTE_V), p))
              case bad => bad
  {
    hide Remove, WalkCreate, OrPage;
  }

  /** page_insert up to the walk: the old page is gone, and the table is there or memory is out. */
  lemma WalkedKeeps(s: State, a: nat, p: nat, i: nat, j: nat)
    requires Inv(s) && a in s.spaces && i < PDX_UTOP && j < ENTRIES && Mappable(s, p) && !Mapped(s, a, p, i, j)
    ensures match WalkCreate(Flush(Remove(s, a, i, j), a, i, j), s.spaces[a], i) {
              case Ok(w) =>
                && Inv(w) && SameFrame(s, w) && IsValid(Word(w, w.spaces[a], i)) && Lookup(w, w.spaces[a], i, j) == None
                && Mappable(w, p) && Ref(w, p) == Ref(s, p)
                && (forall b, k: nat, l: nat :: b in s.spaces && k < PDX_ULIM && l < ENTRIES &&
                      (b, k, l) != (a, i, j) && (b, k, l) != (a, PDX_UVPT, i)
                      ==> Lookup(w, w.spaces[b], k, l) == Lookup(s, s.spaces[b], k, l))
              case NoMem(t) => t == s && s.free == [] && Target(s, Table(a, i)) == None
              case Panic(_) => false
            }
  {
    hide Counted, FreeOk, InRange, Exclusive, Windows, NoUserGlobal;
    RemoveKeeps(s, a, i, j);
    var r := Remove(s, a, i, j);
    assert Flush(r, a, i, j) == r by {
      assert Tag(a, i, j) in r.tlb ==> TagOk(r, Tag(a, i, j));
    }
    MappableKept(s, a, i, j, p);
    WalkKeeps(r, a, i);
    WalkMappable(r, a, i, p);
  }

  /** Removing another page's mapping leaves p mappable with the same count. */
  lemma MappableKept(s: State, a: nat, i: nat, j: nat, p: nat)
    requires Inv(s) && a in s.spaces && i < PDX_UTOP && j < ENTRIES && Mappable(s, p)
    requires Lookup(s, s.spaces[a], i, j).Some? ==> Lookup(s, s.spaces[a], i, j).value.ppn != p
    ensures var r := Remove(s, a, i, j); Mappable(r, p) && Ref(r, p) == Ref(s, p)
  {
    RemoveKeeps(s, a, i, j);
  }

  /** A table's directory entry is determined by the table. */
  lemma DirFlagsKept(s: State, r: State, a: nat, i: nat)
    requires Windows(s) && Windows(r) && a in s.spaces && r.spaces == s.spaces && i < PDX_UTOP
    requires Target(r, Table(a, i)) == Target(s, Table(a, i)) && Target(s, Table(a, i)).Some?
    ensures Word(r, r.spaces[a], i) == Word(s, s.spaces[a], i)
  {
    assert DirOk(s, s.spaces[a]) && DirOk(r, r.spaces[a]);
  }

  /** What page_insert comes to when the page table is there and another page, or none, is mapped. */
  lemma InsertIs(s: State, a: nat, p: nat, i: nat, j: nat, perm: Perm)
    requires Inv(s) && a in s.spaces && i < PDX_UTOP && j < ENTRIES && IsValid(Word(s, s.spaces[a], i))
    requires !Mapped(s, a, p, i, j)
    ensures var r, e := Remove(s, a, i, j), Entry(OrPage(p, perm.hi), perm.flags | PTE_V);
            && Inv(r) && SameFrame(s, r) && Word(r, r.spaces[a], i) == Word(s, s.spaces[a], i)
            && Insert(s, a, p, i, j, perm) == Ok(Flush(Put(r, a, i, j, e, p), a, i, j))
  {
    hide Counted, FreeOk, NoUserGlobal, Coherent, OrPage, InRange, Exclusive, Windows, SameMapsBut;
    RemoveKeeps(s, a, i, j);
    var r := Remove(s, a, i, j);
    hide Remove;
    assert Target(r, Table(a, i)) == Target(s, Table(a, i)) == Some(Word(s, s.spaces[a], i).ppn);
    DirFlagsKept(s, r, a, i);
    InsertFollowsWalk(s, a, p, i, j, perm);
    hide Insert, Lookup;
  }

  lemma RemoveTlb(s: State, a: nat, i: nat, j: nat)
    requires a in s.spaces
    ensures Remove(s, a, i, j).tlb - {Tag(a, i, j)} == s.tlb - {Tag(a, i, j)}
  {
    hide Lookup;
  }

  /** With the page table in place, page_insert needs no memory, whatever perm it is given. */
  lemma InsertInTable(s: State, a: nat, p: nat, i: nat, j: nat, perm: Perm)
    requires Inv(s) && a in s.spaces && i < PDX_UTOP && j < ENTRIES && IsValid(Word(s, s.spaces[a], i))
    requires Mappable(s, p)
    ensures Insert(s, a, p, i, j, perm).Ok?
    ensures var t := Insert(s, a, p, i, j, perm).state;
            && SameFrame(s, t) && SameMapsBut(s, t, a, i, j) && OnlySlot(s, t, Leaf(a, i, j))
            && t.tlb == s.tlb - {Tag(a, i, j)}
            && Lookup(t, t.spaces[a], i, j) == Some(Entry(OrPage(p, perm.hi), perm.flags | PTE_V))
  {
    hide Counted, FreeOk, NoUserGlobal, Coherent, OrPage;
    var e := Entry(OrPage(p, perm.hi), perm.flags | PTE_V);
    var t := Insert(s, a, p, i, j, perm).state;
    if Mapped(s, a, p, i, j) {
      LeafWriteFrame(s, t, a, i, j, e);
    } else {
      InsertIs(s, a, p, i, j, perm);
      RemoveKeeps(s, a, i, j);
      RemoveTlb(s, a, i, j);
      hide Insert, Remove, InRange, Exclusive, Windows, DataPage;
      LeafWriteFrame(Remove(s, a, i, j), t, a, i, j, e);
    }
  }

  /** With no page table but a free page, page_insert first makes the table and then has it. */
  lemma InsertAfterWalk(s: State, a: nat, p: nat, i: nat, j: nat, perm: Perm)
    requires Inv(s) && a in s.spaces && i < PDX_UTOP && j < ENTRIES && Mappable(s, p)
    requires !IsValid(Word(s, s.spaces[a], i)) && s.free != []
    ensures WalkCreate(s, s.spaces[a], i).Ok?
    ensures var w := WalkCreate(s, s.spaces[a], i).state;
            && Inv(w) && SameFrame(s, w) && IsValid(Word(w, w.spaces[a], i)) && Mappable(w, p) && Ref(w, p) == Ref(s, p)
            && SameMapsBut(s, w, a, PDX_UVPT, i) && w.tlb == s.tlb
            && Lookup(w, w.spaces[a], i, j) == Lookup(s, s.spaces[a], i, j) == None
            && Insert(s, a, p, i, j, perm) == Insert(w, a, p, i, j, perm)
  {
    hide Counted, FreeOk, InRange, Exclusive, Windows, NoUserGlobal, DataPage, OrPage;
    var w := WalkCreate(s, s.spaces[a], i).state;
    WalkKeeps(s, a, i);
    WalkMappable(s, a, i, p);
    assert Tag(a, i, j) !in s.tlb by {
      assert Tag(a, i, j) in s.tlb ==> TagOk(s, Tag(a, i, j));
    }
    hide Coherent;
    assert Lookup(w, w.spaces[a], i, j) == Lookup(s, s.spaces[a], i, j);
    assert Flush(s, a, i, j) == s && Flush(w, a, i, j) == w;
  }

  /** A page not yet mapped there: one new reference, and one more on the count, in sixteen bits. */
  lemma InsertRaises(s: State, a: nat, p: nat, i: nat, j: nat, perm: Perm)
    requires Inv(s) && a in s.spaces && i < PDX_UTOP && j < ENTRIES && IsValid(Word(s, s.spaces[a], i))
    requires Mappable(s, p) && !Mapped(s, a, p, i, j)
    ensures Insert(s, a, p, i, j, perm).Ok?
    ensures var r, t := Remove(s, a, i, j), Insert(s, a, p, i, j, perm).state;
            && Inv(r) && SameFrame(s, r) && SameFrame(r, t) && Ref(r, p) == Ref(s, p)
            && OnlySlot(r, t, Leaf(a, i, j)) && Target(r, Leaf(a, i, j)) == None
            && Target(t, Leaf(a, i, j)) == Some(OrPage(p, perm.hi))
            && Ref(t, p) == (Ref(r, p) + 1) % REF_LIMIT && forall o: nat :: o != p ==> Ref(t, o) == Ref(r, o)
  {
    hide Counted, FreeOk, NoUserGlobal, Coherent, OrPage, Insert, WalkCreate, DataPage;
    InsertIs(s, a, p, i, j, perm);
    RemoveKeeps(s, a, i, j);
    MappableKept(s, a, i, j, p);
    hide Remove, InRange, Exclusive, Windows;
    LeafWriteFrame(Remove(s, a, i, j), Insert(s, a, p, i, j, perm).state, a, i, j,
                   Entry(OrPage(p, perm.hi), perm.flags | PTE_V));
  }

  /** A new reference to q and one more on the count of p. */
  lemma LinkedCounts(s: State, t: State, x: Slot, p: nat, q: nat)
    requires Counted(s) && OnlySlot(s, t, x) && Target(s, x) == None && Target(t, x) == Some(q)
    requires t.npage == s.npage && t.reserved == s.reserved && p < s.npage && p !in s.reserved
    requires Ref(t, p) == (Ref(s, p) + 1) % REF_LIMIT && forall o: nat :: o != p ==> Ref(t, o) == Ref(s, o)
    ensures Counted(t) <==> q == p && Ref(s, p) + 1 < REF_LIMIT
  {
    hide Target, Ref, Refs;
    RefsLinked(s, t, x, q);
    var n := Ref(s, p);
    SixteenBits(n);
    assert n == |Refs(s, p)|;
    if q == p {
      assert |Refs(t, p)| == n + 1;
    } else {
      assert |Refs(t, p)| == n;
    }
  }

  lemma SixteenBits(n: nat)
    ensures (n + 1) % REF_LIMIT != n
    ensures (n + 1) % REF_LIMIT == n + 1 <==> n + 1 < REF_LIMIT
  {
  }

  /** The counts after page_insert, with the page table in place. */
  lemma InTableCountsIff(s: State, a: nat, p: nat, i: nat, j: nat, perm: Perm)
    requires Inv(s) && a in s.spaces && i < PDX_UTOP && j < ENTRIES && IsValid(Word(s, s.spaces[a], i)) && Mappable(s, p)
    ensures Insert(s, a, p, i, j, perm).Ok?
    ensures Counted(Insert(s, a, p, i, j, perm).state) <==>
              OrPage(p, perm.hi) == p && (Ref(s, p) + 1 < REF_LIMIT || Mapped(s, a, p, i, j))
  {
    hide Windows, NoUserGlobal, Coherent, OrPage, InRange, Exclusive, FreeOk;
    var t, x, q := Insert(s, a, p, i, j, perm).state, Leaf(a, i, j), OrPage(p, perm.hi);
    if Mapped(s, a, p, i, j) {
      RewrittenIs(s, a, p, i, j, perm);
      hide Insert;
      MappedCounts(s, t, x, p, q);
    } else {
      hide Insert;
      InsertRaises(s, a, p, i, j, perm);
      hide Remove;
      LinkedCounts(Remove(s, a, i, j), t, x, p, q);
    }
  }

  /** The page is mapped there already: its word is written again. */
  lemma RewrittenIs(s: State, a: nat, p: nat, i: nat, j: nat, perm: Perm)
    requires Inv(s) && a in s.spaces && i < PDX_UTOP && j < ENTRIES && Mapped(s, a, p, i, j) && Mappable(s, p)
    ensures Insert(s, a, p, i, j, perm).Ok?
    ensures var t := Insert(s, a, p, i, j, perm).state;
            && OnlySlot(s, t, Leaf(a, i, j)) && SameFrame(s, t) && t.ref == s.ref
            && Target(s, Leaf(a, i, j)) == Some(p) && Target(t, Leaf(a, i, j)) == Some(OrPage(p, perm.hi))
  {
    hide NoUserGlobal, Coherent, OrPage, FreeOk, Counted;
    LeafWriteFrame(s, Insert(s, a, p, i, j, perm).state, a, i, j, Entry(OrPage(p, perm.hi), perm.flags | PTE_V));
  }

  /** A word rewritten in place: the counts stay, so the page must. */
  lemma MappedCounts(s: State, t: State, x: Slot, p: nat, q: nat)
    requires Counted(s) && OnlySlot(s, t, x) && Target(s, x) == Some(p) && Target(t, x) == Some(q)
    requires t.npage == s.npage && t.reserved == s.reserved && p < s.npage && p !in s.reserved
    requires forall o: nat :: Ref(t, o) == Ref(s, o)
    ensures Counted(t) <==> q == p
  {
    RefsAre(s, p);
    RefsAre(t, p);
    if q == p {
      forall o: nat ensures Refs(t, o) == Refs(s, o) {
        RefsAre(s, o);
        RefsAre(t, o);
      }
    } else {
      RefsChange(s, t, x, p);
      assert x in Refs(s, p) && Refs(t, p) == Refs(s, p) - {x};
    }
  }

  /**
    When page_insert succeeds the count is the number of references exactly if the perm bits
    above the flags leave the page number alone and the u_short pp_ref has room for one more,
    or the page was there already; the page is then mapped exactly if they leave it alone.
  */
  lemma CountExactIff(s: State, a: nat, p: nat, i: nat, j: nat, perm: Perm)
    requires Inv(s) && a in s.spaces && i < PDX_UTOP && j < ENTRIES && Mappable(s, p)
    requires IsValid(Word(s, s.spaces[a], i)) || s.free != []
    ensures Insert(s, a, p, i, j, perm).Ok?
    ensures var t := Insert(s, a, p, i, j, perm).state;
            && t.spaces == s.spaces
            && (Counted(t) <==> OrPage(p, perm.hi) == p && (Ref(s, p) + 1 < REF_LIMIT || Mapped(s, a, p, i, j)))
            && (Lookup(t, t.spaces[a], i, j) == Some(Entry(p, perm.flags | PTE_V)) <==> OrPage(p, perm.hi) == p)
  {
    var w := if IsValid(Word(s, s.spaces[a], i)) then s else WalkCreate(s, s.spaces[a], i).state;
    if !IsValid(Word(s, s.spaces[a], i)) {
      InsertAfterWalk(s, a, p, i, j, perm);
    }
    hide Insert, WalkCreate, Inv, Mappable, OrPage;
    InTableCountsIff(w, a, p, i, j, perm);
    InsertInTable(w, a, p, i, j, perm);
  }
}
