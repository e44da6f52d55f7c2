/**
  TLB refill and what a TLB hit means (kern/tlbex.c, kern/tlb_asm.S).
*/
module VmTlb {
  import opened Mmu
  import opened Vm
  import opened VmRefs
  import opened VmFrames
  import opened VmOps
  import opened VmSpaces

  /** All address spaces agree on the shared windows. */
  lemma SharedLookup(s: State, a: nat, i: nat, j: nat)
    requires Windows(s) && a in s.spaces && Shared(i, j)
    ensures Lookup(s, s.spaces[a], i, j) == SharedEntry(s, i, j)
  {
    assert DirOk(s, s.spaces[a]);
  }

  lemma SameMem(s: State, t: State)
    requires t.mem == s.mem
    ensures forall p: nat, k: nat :: Word(t, p, k) == Word(s, p, k)
    ensures forall p: nat, k: nat, l: nat :: Lookup(t, p, k, l) == Lookup(s, p, k, l)
  {
  }

  /** do_tlb_refill: caching a translation the walk found keeps the TLB coherent. */
  lemma FillKeeps(s: State, a: nat, i: nat, j: nat, e: Entry, evicted: set<Tag>)
    requires Inv(s) && a in s.spaces && i < PDX_ULIM && j < ENTRIES
    requires Lookup(s, s.spaces[a], i, j) == Some(e)
    ensures Inv(Fill(s, Tag(a, i, j), e, evicted))
  {
    var t := Fill(s, Tag(a, i, j), e, evicted);
    SameMem(s, t);
    if Shared(i, j) {
      SharedLookup(s, a, i, j);
    }
    forall tag | tag in t.tlb ensures TagOk(t, tag) {
      if tag != Tag(a, i, j) {
        assert TagOk(s, tag);
      }
    }
    SameCounts(s, t);
    forall b | b in t.spaces ensures DirOk(t, t.spaces[b]) {
      assert DirOk(s, s.spaces[b]);
    }
  }

  /**
    TLB coherence: whatever the TLB answers to a live address space, including through
    global entries left by others, is its current page-table entry.
  */
  lemma HitIsCurrent(s: State, a: nat, i: nat, j: nat, e: Entry)
    requires Inv(s) && a in s.spaces && Hit(s, a, i, j, e)
    ensures Lookup(s, s.spaces[a], i, j) == Some(e)
  {
    var tag :| tag in s.tlb && s.tlb[tag] == e && tag.i == i && tag.j == j && (tag.asid == a || IsGlobal(e));
    assert TagOk(s, tag);
    if Shared(i, j) {
      SharedLookup(s, a, i, j);
    }
  }

  /**
    Coherence rests on user mappings not being global. Once a maps a page with PTE_G, which
    sys_mem_map does not refuse, and touches it, the cached entry answers every other
    address space b as well: b's answers are current iff b happens to have the same entry.
  */
  lemma GlobalLeaks(s: State, a: nat, b: nat, p: nat, i: nat, j: nat, perm: Perm, evicted: set<Tag>)
    requires Inv(s) && a in s.spaces && b in s.spaces && a != b && i < PDX_UTOP && j < ENTRIES
    requires Mappable(s, p) && (IsValid(Word(s, s.spaces[a], i)) || s.free != []) && perm.flags & PTE_G != 0
    ensures Insert(s, a, p, i, j, perm).Ok?
    ensures var e := Entry(OrPage(p, perm.hi), perm.flags | PTE_V);
            var t := Fill(Insert(s, a, p, i, j, perm).state, Tag(a, i, j), e, evicted);
            && b in t.spaces
            && (AnswersCurrent(t, b, i, j) <==> Lookup(s, s.spaces[b], i, j) == Some(e))
  {
    hide Insert, Inv, Mappable, OrPage;
    if IsValid(Word(s, s.spaces[a], i)) {
      GlobalLeaksInTable(s, a, b, p, i, j, perm, evicted);
    } else {
      InsertAfterWalk(s, a, p, i, j, perm);
      var w := WalkCreate(s, s.spaces[a], i).state;
      assert Lookup(w, w.spaces[b], i, j) == Lookup(s, s.spaces[b], i, j);
      hide WalkCreate, Lookup;
      GlobalLeaksInTable(w, a, b, p, i, j, perm, evicted);
    }
  }

  lemma GlobalLeaksInTable(s: State, a: nat, b: nat, p: nat, i: nat, j: nat, perm: Perm, evicted: set<Tag>)
    requires Inv(s) && a in s.spaces && b in s.spaces && a != b && i < PDX_UTOP && j < ENTRIES
    requires Mappable(s, p) && IsValid(Word(s, s.spaces[a], i)) && perm.flags & PTE_G != 0
    ensures Insert(s, a, p, i, j, perm).Ok?
    ensures var e := Entry(OrPage(p, perm.hi), perm.flags | PTE_V);
            var t := Fill(Insert(s, a, p, i, j, perm).state, Tag(a, i, j), e, evicted);
            && b in t.spaces
            && (AnswersCurrent(t, b, i, j) <==> Lookup(s, s.spaces[b], i, j) == Some(e))
  {
    var e := Entry(OrPage(p, perm.hi), perm.flags | PTE_V);
    InsertInTable(s, a, p, i, j, perm);
    var r := Insert(s, a, p, i, j, perm).state;
    var t := Fill(r, Tag(a, i, j), e, evicted);
    hide Insert, InRange, Exclusive, Counted, FreeOk, Windows, NoUserGlobal, Coherent, OrPage;
    SameMem(r, t);
    assert Tag(a, i, j) in t.tlb;
    assert Hit(t, b, i, j, e);
    forall f | Hit(t, b, i, j, f) && f != e ensures Lookup(t, t.spaces[b], i, j) == Some(f) {
      var tag :| tag in t.tlb && t.tlb[tag] == f && tag.i == i && tag.j == j && (tag.asid == b || IsGlobal(f));
      assert tag in s.tlb && Hit(s, b, i, j, f);
      HitIsCurrent(s, b, i, j, f);
    }
  }

  ghost predicate AnswersCurrent(s: State, a: nat, i: nat, j: nat)
    requires a in s.spaces
  {
    forall f :: Hit(s, a, i, j, f) ==> Lookup(s, s.spaces[a], i, j) == Some(f)
  }

  /** An address that names a directory entry of user space through the UVPT window. */
  predicate NamesUserPde(va: Addr) {
    UVPT <= va < UVPT + PDX_UTOP * BY2PG
  }

  lemma NamedPde(va: Addr)
    requires NamesUserPde(va)
    ensures Pdx(va) == PDX_UVPT && Ptx(va) < PDX_UTOP && PassiveOk(va)
  {
  }

  /** page_insert through the self-map writes the directory itself. */
  lemma InsertThroughSelfMap(s: State, a: nat, p: nat, i: nat)
    requires a in s.spaces && Word(s, s.spaces[a], PDX_UVPT) == Entry(s.spaces[a], PTE_V)
    requires !IsValid(Word(s, s.spaces[a], i)) && Tag(a, PDX_UVPT, i) !in s.tlb
    ensures Insert(s, a, p, PDX_UVPT, i, Plain(PTE_D)) == Ok(IncRef(SetWord(s, s.spaces[a], i, Entry(p, PTE_D | PTE_V)), p))
  {
    var pd := s.spaces[a];
    assert Lookup(s, pd, PDX_UVPT, i) == None;
    assert s.tlb - {Tag(a, PDX_UVPT, i)} == s.tlb;
    assert Flush(s, a, PDX_UVPT, i) == s;
  }

  /**
    Demand allocation in the UVPT window: because of the self-map, page_insert on the
    address of a missing directory entry does what pgdir_walk does to create the table.
  */
  lemma PassiveMakesTable(s: State, a: nat, va: Addr)
    requires Inv(s) && a in s.spaces && NamesUserPde(va) && s.free != []
    requires !IsValid(Word(s, s.spaces[a], Ptx(va)))
    ensures Passive(s, a, va) == WalkCreate(s, s.spaces[a], Ptx(va))
  {
    var i, pd, r := Ptx(va), s.spaces[a], Alloc(s);
    NamedPde(va);
    AllocKeeps(s);
    hide Alloc, Counted, FreeOk, InRange, Exclusive, NoUserGlobal, Mappable;
    SelfMap(s, a, i);
    SelfMap(r, a, i);
    assert Lookup(r, pd, PDX_UVPT, i) == Lookup(s, pd, PDX_UVPT, i) == None;
    assert Tag(a, PDX_UVPT, i) !in r.tlb by {
      assert Tag(a, PDX_UVPT, i) in r.tlb ==> TagOk(r, Tag(a, PDX_UVPT, i));
    }
    assert DirOk(r, pd);
    hide Coherent, Windows, Lookup, Insert, DirOk;
    InsertThroughSelfMap(r, a, s.free[0], i);
  }

  /** The addresses whose backing stays in user space and its own page tables. */
  predicate Backable(va: Addr) {
    PassiveOk(va) && (va < UTOP || NamesUserPde(va))
  }

  /** passive_alloc where the invariant allows for it: a user page, or a page table. */
  lemma PassiveKeeps(s: State, a: nat, va: Addr)
    requires Inv(s) && a in s.spaces && Backable(va) && Lookup(s, s.spaces[a], Pdx(va), Ptx(va)) == None
    ensures match Passive(s, a, va) {
              case Ok(t) =>
                && Inv(t) && t.spaces == s.spaces && s.free != []
                && Lookup(t, t.spaces[a], Pdx(va), Ptx(va)) == Some(Entry(s.free[0], PTE_D | PTE_V))
              case NoMem(_) => false
              case Panic(t) => Inv(t) && |s.free| < 2
            }
  {
    if s.free != [] {
      var p, r := s.free[0], Alloc(s);
      AllocKeeps(s);
      LayoutIndices(va);
      IndicesNamePage(va, va);
      if va < UTOP {
        assert CanInsert(r, a, p, Pdx(va), Ptx(va), Plain(PTE_D));
        InsertKeeps(r, a, p, Pdx(va), Ptx(va), Plain(PTE_D));
      } else {
        NamedPde(va);
        SelfMap(s, a, Ptx(va));
        PassiveMakesTable(s, a, va);
        WalkKeeps(s, a, Ptx(va));
        var t := WalkCreate(s, s.spaces[a], Ptx(va)).state;
        SelfMap(t, a, Ptx(va));
      }
    }
  }

  /** The other addresses passive_alloc accepts name the kernel's half of the directory. */
  lemma NotBackable(s: State, a: nat, va: Addr)
    requires Inv(s) && a in s.spaces && PassiveOk(va) && !Backable(va)
    requires Lookup(s, s.spaces[a], Pdx(va), Ptx(va)) == None
    ensures Pdx(va) == PDX_UVPT && PDX_ULIM <= Ptx(va) < ENTRIES
  {
    hide Counted, FreeOk, InRange, Exclusive, NoUserGlobal, Coherent;
    LayoutIndices(va);
    IndicesNamePage(va, va);
    UvptIndex(va);
    SelfMap(s, a, Ptx(va));
    assert DirOk(s, s.spaces[a]);
  }

  lemma UvptIndex(va: Addr)
    requires UVPT <= va < ULIM
    ensures Pdx(va) == PDX_UVPT && (Ptx(va) < PDX_UTOP <==> NamesUserPde(va))
  {
  }

  /**
    There page_insert writes the page into the directory as if it were a page table. The
    page is counted, but the entry is none of those that count, or that env_free visits.
  */
  lemma PassiveInKernelHalf(s: State, a: nat, va: Addr)
    requires Inv(s) && a in s.spaces && PassiveOk(va) && Pdx(va) == PDX_UVPT && PDX_ULIM <= Ptx(va) && s.free != []
    requires Lookup(s, s.spaces[a], Pdx(va), Ptx(va)) == None
    ensures Passive(s, a, va).Ok?
    ensures var t := Passive(s, a, va).state;
            && t.spaces == s.spaces
            && Lookup(t, t.spaces[a], Pdx(va), Ptx(va)) == Some(Entry(s.free[0], PTE_D | PTE_V))
            && Orphan(t, s.free[0]) && !Inv(t)
  {
    var i, pd, r := Ptx(va), s.spaces[a], Alloc(s);
    AllocKeeps(s);
    hide Alloc, Counted, FreeOk, InRange, Exclusive, NoUserGlobal, Mappable;
    SelfMap(r, a, i);
    assert DirOk(r, pd);
    assert Tag(a, PDX_UVPT, i) !in r.tlb by {
      assert Tag(a, PDX_UVPT, i) in r.tlb ==> TagOk(r, Tag(a, PDX_UVPT, i));
    }
    hide Coherent, Insert;
    InsertThroughSelfMap(r, a, s.free[0], i);
    var t := Passive(s, a, va).state;
    assert Word(t, pd, i) == Entry(s.free[0], PTE_D | PTE_V);
    KernelHalfOrphan(s, a, i);
    hide Windows;
    OrphanMiscounts(t, s.free[0]);
    CountedInv(t);
  }

  lemma CountedInv(s: State)
    requires !Counted(s)
    ensures !Inv(s)
  {
  }

  /** A word in the kernel's half of a directory is no slot. */
  lemma KernelHalfOrphan(s: State, a: nat, i: nat)
    requires Inv(s) && a in s.spaces && PDX_ULIM <= i && s.free != []
    ensures var p := s.free[0];
            Orphan(IncRef(SetWord(Alloc(s), s.spaces[a], i, Entry(p, PTE_D | PTE_V)), p), p)
  {
    hide Inv, Target, Refs, Word;
    var p, r := s.free[0], Alloc(s);
    var t := IncRef(SetWord(r, s.spaces[a], i, Entry(p, PTE_D | PTE_V)), p);
    AllocKeeps(s);
    AllocTakes(s);
    KernelHalfTargets(r, t, a, i);
    RefsAre(r, p);
    RefsAre(t, p);
    hide Alloc;
    assert Refs(t, p) == {};
  }

  lemma AllocTakes(s: State)
    requires Inv(s) && s.free != []
    ensures var p := s.free[0]; p < s.npage && p !in s.reserved && p !in Alloc(s).free
  {
    assert s.free[0] in s.free;
    assert NoDup(s.free);
    hide Counted, InRange, Exclusive, Windows, Coherent, NoUserGlobal;
  }

  lemma KernelHalfTargets(s: State, t: State, a: nat, i: nat)
    requires Inv(s) && a in s.spaces && PDX_ULIM <= i && t.spaces == s.spaces
    requires t.mem.Keys == s.mem.Keys + {Loc(s.spaces[a], i)}
    requires forall l :: l in s.mem && l != Loc(s.spaces[a], i) ==> t.mem[l] == s.mem[l]
    ensures forall x :: Target(t, x) == Target(s, x)
  {
    var pd := s.spaces[a];
    assert Target(s, Dir(a)) == Some(pd);
    forall q: nat, k: nat | q != pd || k != i ensures Word(t, q, k) == Word(s, q, k) {
      assert Loc(q, k) in t.mem.Keys <==> Loc(q, k) in s.mem.Keys;
    }
    forall x ensures Target(t, x) == Target(s, x) {
      if x.Leaf? && x.asid in s.spaces && x.i < PDX_UTOP && IsValid(Word(s, s.spaces[x.asid], x.i)) {
        assert Target(s, Table(x.asid, x.i)) == Some(Word(s, s.spaces[x.asid], x.i).ppn);
        assert Word(s, s.spaces[x.asid], x.i).ppn != pd;
      }
    }
  }

  /**
    One allocation is enough for every address passive_alloc accepts: afterwards the walk
    finds the entry, and it is writable. It lies where the invariant wants it exactly if the
    address is below UTOP or names a user entry of the directory; at the other addresses of
    the UVPT window a user page ends up in the kernel's half of the directory, counted
    although no slot names it.
  */
  lemma PassiveThenFound(s: State, a: nat, va: Addr)
    requires Inv(s) && a in s.spaces && PassiveOk(va) && Lookup(s, s.spaces[a], Pdx(va), Ptx(va)) == None
    ensures match Passive(s, a, va) {
              case Ok(t) =>
                && t.spaces == s.spaces && s.free != []
                && Lookup(t, t.spaces[a], Pdx(va), Ptx(va)) == Some(Entry(s.free[0], PTE_D | PTE_V))
                && (Inv(t) <==> Backable(va)) && (!Backable(va) ==> Orphan(t, s.free[0]))
              case NoMem(_) => false
              case Panic(t) => Inv(t) && |s.free| < 2
            }
  {
    if Backable(va) {
      hide Inv, Passive;
      PassiveKeeps(s, a, va);
    } else {
      NotBackable(s, a, va);
      if s.free != [] {
        PassiveInKernelHalf(s, a, va);
      }
    }
  }
}
