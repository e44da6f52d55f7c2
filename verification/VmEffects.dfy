/**
  The memory system calls as their callers see them (kern/syscall_all.c): which code each
  returns, told before the call, and what the address spaces, the counts and the TLB are then.
*/
module VmEffects {
  import opened Errors
  import opened Mmu
  import opened Vm
  import opened VmRefs
  import opened VmFrames
  import opened VmOps
  import opened VmTlb
  import opened VmStores
  import opened VmCalls

  /** Nothing answers for the page of va in address space a, neither the tables nor the TLB. */
  ghost predicate Gone(s: State, a: nat, va: Addr) {
    a in s.spaces && Translate(s, a, va) == None && forall e :: !Hit(s, a, Pdx(va), Ptx(va), e)
  }

  /** Page p has one count less, and joined the free list if that was the last; no other page did. */
  ghost predicate Released(s: State, t: State, p: nat) {
    && Ref(s, p) > 0 && Ref(t, p) == Ref(s, p) - 1
    && (forall q: nat :: q != p ==> Ref(t, q) == Ref(s, q))
    && t.free == if Ref(t, p) == 0 then [p] + s.free else s.free
  }

  /**
    sys_mem_unmap: an illegal address is refused. Otherwise the answer is 0, the page is gone
    from the tables and the TLB, it alone loses a count, and no other translation moves.
  */
  lemma MemUnmapReleases(s: State, a: nat, va: Addr)
    requires Inv(s) && a in s.spaces
    ensures var r := MemUnmap(s, a, va);
            if IllegalVa(va) then r == Reply(s, -E_INVAL)
            else
              && r.code == 0 && Inv(r.state) && OnlyPage(s, r.state, a, va) && Gone(r.state, a, va)
              && match Translate(s, a, va)
                 case None => r.state.ref == s.ref && r.state.free == s.free
                 case Some(e) => Released(s, r.state, e.ppn)
  {
    if !IllegalVa(va) {
      LayoutIndices(va);
      IndicesNamePage(va, va);
      RemoveKeeps(s, a, Pdx(va), Ptx(va));
      var t := MemUnmap(s, a, va).state;
      hide Inv, Pdx, Ptx, Hit, Vpn;
      SameOnOthers(s, t, a, va);
      if e :| Hit(t, a, Pdx(va), Ptx(va), e) {
        HitIsCurrent(t, a, Pdx(va), Ptx(va), e);
      }
    }
  }

  /** One leaf entry less, in addresses. */
  lemma SameOnOthers(s: State, t: State, a: nat, va: Addr)
    requires t.spaces == s.spaces && SameMapsBut(s, t, a, Pdx(va), Ptx(va)) && va < UTOP
    ensures OnlyPage(s, t, a, va)
  {
    forall b, vb: Addr | b in s.spaces && vb < UTOP && (b != a || Vpn(vb) != Vpn(va))
      ensures Translate(t, b, vb) == Translate(s, b, vb)
    {
      LayoutIndices(vb);
      IndicesNamePage(va, vb);
      hide Vpn, Pdx, Ptx, Lookup;
    }
  }

  /** There is a page table for va in address space a, or a page to make one of. */
  predicate TableFor(s: State, a: nat, va: Addr) {
    s.free != [] || (a in s.spaces && IsValid(Word(s, s.spaces[a], Pdx(va))))
  }

  /** page_insert fails exactly without a page table, and then nothing has changed. */
  lemma InsertFailsIff(s: State, a: nat, p: nat, va: Addr, perm: Perm)
    requires Inv(s) && a in s.spaces && va < UTOP && Mappable(s, p)
    ensures var r := Insert(s, a, p, Pdx(va), Ptx(va), perm);
            if TableFor(s, a, va) then r.Ok? else r == NoMem(s)
  {
    LayoutIndices(va);
    IndicesNamePage(va, va);
    hide Inv, Mappable, Pdx, Ptx, OrPage, Remove;
    if IsValid(Word(s, s.spaces[a], Pdx(va))) {
      InsertInTable(s, a, p, Pdx(va), Ptx(va), perm);
    } else if s.free != [] {
      CountExactIff(s, a, p, Pdx(va), Ptx(va), perm);
    } else {
      NoTableInsert(s, a, p, Pdx(va), Ptx(va), perm);
    }
  }

  lemma NoTableInsert(s: State, a: nat, p: nat, i: nat, j: nat, perm: Perm)
    requires Inv(s) && a in s.spaces && i < PDX_UTOP && !IsValid(Word(s, s.spaces[a], i)) && s.free == []
    ensures Insert(s, a, p, i, j, perm) == NoMem(s)
  {
    assert Tag(a, i, j) !in s.tlb by {
      assert Tag(a, i, j) in s.tlb ==> TagOk(s, Tag(a, i, j));
    }
    assert Flush(s, a, i, j) == s;
  }

  /** The codes of sys_mem_map, for any u_int perm; a call that fails changes nothing. */
  lemma MemMapAnswers(s: State, a: nat, va: Addr, b: nat, vb: Addr, perm: Perm)
    requires Inv(s) && a in s.spaces && b in s.spaces
    ensures var r := MemMap(s, a, va, b, vb, perm);
            && r.code == (if IllegalVa(va) || IllegalVa(vb) || Translate(s, a, va) == None then -E_INVAL
                          else if TableFor(s, b, vb) then 0 else -E_NO_MEM)
            && (r.code != 0 ==> r.state == s)
  {
    if !IllegalVa(va) && !IllegalVa(vb) && Translate(s, a, va).Some? {
      TranslatedMappable(s, a, va);
      InsertFailsIff(s, b, Translate(s, a, va).value.ppn, vb, perm);
    }
    hide Inv, Insert;
  }

  /** The codes of sys_mem_alloc; a page taken before page_insert fails stays taken. */
  lemma MemAllocAnswers(s: State, a: nat, va: Addr, perm: Perm)
    requires Inv(s) && a in s.spaces
    ensures var r := MemAlloc(s, a, va, perm);
            && r.code == (if IllegalVa(va) then -E_INVAL
                          else if s.free != [] && TableFor(s.(free := s.free[1..]), a, va) then 0 else -E_NO_MEM)
            && (r.code != 0 ==> r.state == if IllegalVa(va) || s.free == [] then s else Alloc(s))
  {
    if !IllegalVa(va) && s.free != [] {
      AllocKeeps(s);
      InsertFailsIff(Alloc(s), a, s.free[0], va, perm);
      LayoutIndices(va);
      SameTables(s, a, Pdx(va));
      hide Inv, Insert, Alloc;
    }
  }

  /** page_alloc clears a page that is no directory. */
  lemma SameTables(s: State, a: nat, i: nat)
    requires Inv(s) && a in s.spaces && s.free != []
    ensures Alloc(s).spaces == s.spaces && Alloc(s).free == s.free[1..]
    ensures Word(Alloc(s), s.spaces[a], i) == Word(s, s.spaces[a], i)
  {
    assert Target(s, Dir(a)) == Some(s.spaces[a]);
    RefsAre(s, s.free[0]);
    assert s.free[0] in s.free;
  }

  /**
    The page of a message. It is at vb in the receiver afterwards, as the sender has it at va and
    with perm as flags. Without a page table for vb the code is 0 all the same and nothing is mapped.
  */
  lemma IpcMapShares(s: State, a: nat, va: Addr, b: nat, vb: Addr, perm: Perm)
    requires Inv(s) && Allowed(s, OpIpc(a, va, b, vb, perm))
    ensures var r := IpcMap(s, a, va, b, vb, perm);
            if IllegalVa(va) || Translate(s, a, va) == None then r == Reply(s, -E_INVAL)
            else
              && r.code == 0 && Inv(r.state)
              && if TableFor(s, b, vb) then
                   && OnlyPage(s, r.state, b, vb)
                   && Translate(r.state, b, vb) == Some(Entry(Translate(s, a, va).value.ppn, perm.flags | PTE_V))
                 else r.state == s
  {
    if !IllegalVa(va) && Translate(s, a, va).Some? {
      TranslatedMappable(s, a, va);
      LayoutIndices(vb);
      IndicesNamePage(vb, vb);
      InsertFailsIff(s, b, Translate(s, a, va).value.ppn, vb, perm);
      hide Inv, Mappable, Insert, OrPage;
      InsertOnlyPage(s, b, Translate(s, a, va).value.ppn, vb, perm);
    }
  }

  /** The addresses that belong to nobody who could ask for a page there. */
  predicate OffLimits(va: Addr) {
    || va < UTEMP                                         // the null page and what lies below UTEMP
    || va / BY2PG == USTACKTOP / BY2PG                    // the page above the stack
    || UENVS <= va < UENVS + 2 * PDMAP                    // the windows on envs and pages
    || va >= ULIM                                         // the kernel
  }

  /**
    A fault on an unmapped address is a panic exactly off limits, as long as there are two free
    pages; elsewhere it maps a page. On a mapped address it changes the TLB alone: the entry is in,
    what it evicts is out, and the rest stays.
  */
  lemma RefillPanicsIff(s: State, a: nat, va: Addr, evicted: set<Tag>)
    requires Inv(s) && a in s.spaces && |s.free| >= 2
    ensures var r := Refill(s, a, va, evicted);
            match Translate(s, a, va)
            case None => (r.Panic? <==> OffLimits(va)) && (r.Panic? ==> r.state == s) && (!r.Panic? ==> r.Ok?)
            case Some(e) =>
              && r.Ok? && r.state == s.(tlb := r.state.tlb)
              && forall tag :: tag in r.state.tlb <==> tag == Tag(a, Pdx(va), Ptx(va)) || (tag in s.tlb && tag !in evicted)
  {
    hide Inv, Lookup, Insert, Backable, Pdx, Ptx, PassiveOk, OffLimits, Alloc, Hit, Orphan;
    RefillKeepsIff(s, a, va, evicted);
    RefusesOffLimits(va);
  }

  lemma RefusesOffLimits(va: Addr)
    ensures PassiveOk(va) <==> !OffLimits(va)
  {
  }

  /**
    The codes of env_alloc's memory part. When there is a page but no ASID, that page is lost: it is
    off the free list, no address space has it, and nothing gives it back.
  */
  lemma EnvAllocAnswers(s: State, asid: Option<nat>)
    requires Inv(s) && Allowed(s, OpEnv(asid))
    ensures var r := EnvAlloc(s, asid);
            && Inv(r.state)
            && r.code == (if s.free == [] then -E_NO_MEM else if asid == None then -E_NO_FREE_ENV else 0)
            && (s.free == [] ==> r.state == s)
            && (s.free != [] ==> r.state.free == s.free[1..])
            && r.state.spaces == (if r.code == 0 then s.spaces[asid.value := s.free[0]] else s.spaces)
            && r.state.reserved == (if r.code == -E_NO_FREE_ENV then s.reserved + {s.free[0]} else s.reserved)
  {
    EnvKeeps(s, asid);
    hide Inv, Word;
  }
}
