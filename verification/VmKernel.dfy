/**
  The memory routines as the kernel runs them: statement by statement on shared state,
  each tied to the function that describes it in module Vm.
*/
module VmKernel {
  import opened Errors
  import opened Mmu
  import opened Vm
  import opened VmRefs
  import opened VmFrames
  import opened VmOps
  import opened VmSpaces
  import opened VmTlb
  import opened VmStores
  import opened VmCalls
  import VmBoot

  /** The end of page_insert. */
  function LinkPage(s: State, pgdir: nat, p: nat, i: nat, j: nat, perm: Perm): Outcome {
    match WalkCreate(s, pgdir, i)
    case Ok(t) => Ok(IncRef(SetWord(t, Word(t, pgdir, i).ppn, j, Entry(OrPage(p, perm.hi), perm.flags | PTE_V)), p))
    case failed => failed
  }

  lemma InsertParts(s: State, a: nat, p: nat, i: nat, j: nat, perm: Perm)
    requires a in s.spaces
    ensures var cur := Lookup(s, s.spaces[a], i, j);
            Insert(s, a, p, i, j, perm) ==
              if cur.Some? && cur.value.ppn == p
              then Ok(SetWord(Flush(s, a, i, j), Word(s, s.spaces[a], i).ppn, j, Entry(OrPage(p, perm.hi), perm.flags | PTE_V)))
              else LinkPage(Flush(Remove(s, a, i, j), a, i, j), s.spaces[a], p, i, j, perm)
  {
    hide WalkCreate, OrPage, Remove, Lookup, Word, IncRef, SetWord, Flush;
  }

  lemma RemoveParts(s: State, a: nat, i: nat, j: nat)
    requires a in s.spaces
    ensures Remove(s, a, i, j).spaces == s.spaces
    ensures Lookup(s, s.spaces[a], i, j) == None ==> Remove(s, a, i, j) == s
  {
    hide Lookup, Word;
  }

  lemma PassiveInvIff(s: State, a: nat, va: Addr)
    requires Inv(s) && a in s.spaces && Translate(s, a, va) == None
    ensures var r := Passive(s, a, va); Inv(r.state) <==> !r.Ok? || Backable(va)
  {
    hide Inv;
    if PassiveOk(va) {
      PassiveThenFound(s, a, va);
    }
  }

  class Kernel {
    const npage: nat
    const base: nat
    var ref: map<nat, nat>
    var free: seq<nat>
    var mem: map<Loc, Entry>
    var spaces: map<nat, nat>
    var tlb: map<Tag, Entry>
    ghost var reserved: set<nat>
    ghost var held: set<nat>

    ghost function View(): State
      reads this
    {
      State(npage, ref, free, mem, spaces, tlb, base, reserved, held)
    }

    function Load(l: Loc): (e: Entry)
      reads this
      ensures e == Word(View(), l.page, l.index)
    {
      if l in mem then mem[l] else ZERO
    }

    function Count(p: nat): (n: nat)
      reads this
      ensures n == Ref(View(), p)
    {
      if p in ref then ref[p] else 0
    }

    /** page_init: the first `low` pages hold the kernel, the others are free, the last one first. */
    constructor (npage: nat, low: nat)
      requires low <= npage
      ensures this.npage == npage && spaces == map[] && tlb == map[] && mem == map[] && held == {}
      ensures forall p :: p in reserved <==> 0 <= p < low
      ensures |free| == npage - low && forall k :: 0 <= k < |free| ==> free[k] == npage - 1 - k
      ensures forall p: nat :: Ref(View(), p) == if p < low then 1 else 0
      ensures VmBoot.AfterPageInit(View(), low)
    {
      this.npage, base := npage, 0;
      ref, free, mem, spaces, tlb := map[], [], map[], map[], map[];
      reserved, held := {}, {};
      new;
      var p := 0;
      while p < low
        invariant p <= low && free == [] && forall q :: q in reserved <==> 0 <= q < p
        invariant forall q: nat {:trigger q in ref} :: (if q in ref then ref[q] else 0) == if q < p then 1 else 0
        modifies this`ref, this`reserved
      {
        ref, reserved := ref[p := 1], reserved + {p};
        p := p + 1;
      }
      while p < npage
        invariant low <= p <= npage && |free| == p - low && forall k :: 0 <= k < |free| ==> free[k] == p - 1 - k
        invariant forall q: nat {:trigger q in ref} :: (if q in ref then ref[q] else 0) == if q < low then 1 else 0
        modifies this`ref, this`free
      {
        ref := ref[p := 0];
        free := [p] + free;
        p := p + 1;
      }
    }

    method PageAlloc() returns (code: int, p: nat)
      modifies this
      ensures old(free) == [] ==> code == -E_NO_MEM && View() == old(View())
      ensures old(free) != [] ==> code == 0 && p == old(free[0]) && View() == Alloc(old(View()))
    {
      if free == [] {
        return -E_NO_MEM, 0;
      }
      p := free[0];
      free := free[1..];
      mem := map l | l in mem && l.page != p :: mem[l];
      held := held + {p};
      return 0, p;
    }

    method PageIncref(p: nat)
      modifies this
      ensures View() == IncRef(old(View()), p)
    {
      ref := ref[p := (Count(p) + 1) % REF_LIMIT];
      held := held - {p};
    }

    /** page_decref, with the assertion of the source as precondition. */
    method PageDecref(p: nat)
      requires Ref(View(), p) > 0
      modifies this
      ensures View() == DecRef(old(View()), p)
    {
      ref := ref[p := Count(p) - 1];
      if Count(p) == 0 {
        free := [p] + free;
      }
    }

    method TlbInvalidate(a: nat, i: nat, j: nat)
      modifies this
      ensures View() == Flush(old(View()), a, i, j)
    {
      tlb := tlb - {Tag(a, i, j)};
    }

    method PgdirWalk(pgdir: nat, i: nat, j: nat, create: bool) returns (code: int, pte: Option<Loc>)
      modifies this
      ensures !create ==> code == 0 && View() == old(View())
      ensures create ==> View() == WalkCreate(old(View()), pgdir, i).state
      ensures create ==> code == if WalkCreate(old(View()), pgdir, i).Ok? then 0 else -E_NO_MEM
      ensures code == 0 ==>
        pte == if IsValid(Word(View(), pgdir, i)) then Some(Loc(Word(View(), pgdir, i).ppn, j)) else None
      ensures create && code == 0 ==> pte.Some?
    {
      if Load(Loc(pgdir, i)).flags & PTE_V == 0 {
        if create {
          var p;
          code, p := PageAlloc();
          if code < 0 {
            return code, None;
          }
          mem := mem[Loc(pgdir, i) := Entry(p, PTE_D | PTE_V)];
          PageIncref(p);
        } else {
          return 0, None;
        }
      }
      assert (PTE_D | PTE_V) & PTE_V != 0;
      return 0, Some(Loc(Load(Loc(pgdir, i)).ppn, j));
    }

    /** page_lookup: the entry's place, or None. */
    method PageLookup(pgdir: nat, i: nat, j: nat) returns (pte: Option<Loc>)
      modifies this
      ensures View() == old(View())
      ensures match Lookup(View(), pgdir, i, j) {
                case None => pte == None
                case Some(e) => pte == Some(Loc(Word(View(), pgdir, i).ppn, j)) && Load(pte.value) == e
              }
    {
      var code;
      code, pte := PgdirWalk(pgdir, i, j, false);
      if pte == None || Load(pte.value).flags & PTE_V == 0 {
        return None;
      }
    }

    /** page_remove; that page_decref's assertion holds follows from the invariant. */
    method PageRemove(a: nat, i: nat, j: nat)
      requires Inv(View()) && a in spaces && i < PDX_UTOP && j < ENTRIES
      modifies this
      ensures View() == Remove(old(View()), a, i, j) && Inv(View())
    {
      RemoveKeeps(View(), a, i, j);
      hide Inv;
      var pte := PageLookup(spaces[a], i, j);
      if pte == None {
        return;
      }
      PageDecref(Load(pte.value).ppn);
      mem := mem[pte.value := ZERO];
      TlbInvalidate(a, i, j);
    }

    /** The end of page_insert, with nothing mapped at (i, j): find or make the table, write the entry. */
    method PageLink(a: nat, p: nat, i: nat, j: nat, perm: Perm) returns (code: int)
      requires a in spaces
      modifies this
      ensures var r := LinkPage(Flush(old(View()), a, i, j), old(spaces[a]), p, i, j, perm);
              code == (if r.Ok? then 0 else -E_NO_MEM) && View() == r.state
    {
      hide OrPage;
      var pgdir, pte := spaces[a], None;
      TlbInvalidate(a, i, j);
      code, pte := PgdirWalk(pgdir, i, j, true);
      if code < 0 {
        return code;
      }
      mem := mem[pte.value := Entry(OrPage(p, perm.hi), perm.flags | PTE_V)];
      PageIncref(p);
    }

    /** page_insert; a page can only be displaced from a user entry. */
    method PageInsert(a: nat, p: nat, i: nat, j: nat, perm: Perm) returns (code: int)
      requires Inv(View()) && a in spaces
      requires (i < PDX_UTOP && j < ENTRIES) || Lookup(View(), spaces[a], i, j) == None
      modifies this
      ensures View() == Insert(old(View()), a, p, i, j, perm).state
      ensures code == if Insert(old(View()), a, p, i, j, perm).Ok? then 0 else -E_NO_MEM
    {
      var pgdir := spaces[a];
      var pte;
      InsertParts(View(), a, p, i, j, perm);
      RemoveParts(View(), a, i, j);
      hide Inv, OrPage, Insert, Remove, LinkPage;
      code, pte := PgdirWalk(pgdir, i, j, false);
      if pte.Some? && Load(pte.value).flags & PTE_V != 0 {
        if Load(pte.value).ppn != p {
          PageRemove(a, i, j);
        } else {
          TlbInvalidate(a, i, j);
          mem := mem[pte.value := Entry(OrPage(p, perm.hi), perm.flags | PTE_V)];
          return 0;
        }
      }
      code := PageLink(a, p, i, j, perm);
    }

    /** One turn of the inner loop of env_free. */
    method EnvFreeLeaf(a: nat, pdeno: nat, pteno: nat, pt: nat)
      requires Inv(View()) && a in spaces && pdeno < PDX_UTOP && pteno < ENTRIES
      requires IsValid(Word(View(), spaces[a], pdeno)) && Word(View(), spaces[a], pdeno).ppn == pt
      modifies this
      ensures Inv(View()) && View() == Remove(old(View()), a, pdeno, pteno)
    {
      hide Inv, Remove;
      RemoveParts(View(), a, pdeno, pteno);
      if Load(Loc(pt, pteno)).flags & PTE_V != 0 {
        PageRemove(a, pdeno, pteno);
      }
    }

    /** The inner loop of env_free. */
    method EnvFreeLeaves(a: nat, pdeno: nat)
      requires Inv(View()) && a in spaces && pdeno < PDX_UTOP && IsValid(Word(View(), spaces[a], pdeno))
      modifies this
      ensures View() == ClearLeaves(old(View()), a, pdeno, 0) && Inv(View())
    {
      hide Inv, Remove, Word;
      ghost var s0 := View();
      var pgdir := spaces[a];
      var pt := Load(Loc(pgdir, pdeno)).ppn;
      var pteno := 0;
      while pteno < ENTRIES
        invariant pteno <= ENTRIES && Inv(View()) && spaces == s0.spaces
        invariant ClearLeaves(View(), a, pdeno, pteno) == ClearLeaves(s0, a, pdeno, 0)
        invariant Word(View(), pgdir, pdeno) == Word(s0, pgdir, pdeno)
      {
        RemoveKeepsTable(View(), a, pdeno, pteno);
        RemoveParts(View(), a, pdeno, pteno);
        EnvFreeLeaf(a, pdeno, pteno, pt);
        pteno := pteno + 1;
      }
    }

    /** One pass of the outer loop of env_free. */
    method EnvFreeTable(a: nat, pdeno: nat)
      requires Inv(View()) && a in spaces && pdeno < PDX_UTOP && IsValid(Word(View(), spaces[a], pdeno))
      modifies this
      ensures View() == ClearTable(old(View()), a, pdeno) && Inv(View())
    {
      ghost var s0 := View();
      var pgdir := spaces[a];
      var pt := Load(Loc(pgdir, pdeno)).ppn;
      ClearTableIs(s0, a, pdeno);
      hide Inv, TablesCleared, DecRef, NoLeaves, ClearLeaves, ClearTable, Word;
      ClearTableKeeps(s0, a, pdeno);
      TableReady(s0, a, pdeno);
      EnvFreeLeaves(a, pdeno);
      DropTable(a, pdeno, pt);
    }

    /** The end of the pass: the table, empty by now, goes. */
    method DropTable(a: nat, pdeno: nat, pt: nat)
      requires a in spaces && Ref(View(), pt) > 0
      modifies this
      ensures View() == Flush(DecRef(SetWord(old(View()), old(spaces[a]), pdeno, ZERO), pt), a, PDX_UVPT, pdeno)
    {
      mem := mem[Loc(spaces[a], pdeno) := ZERO];
      PageDecref(pt);
      TlbInvalidate(a, PDX_UVPT, pdeno);
    }

    /** The outer loop of env_free. */
    method EnvFreeTables(a: nat)
      requires Inv(View()) && a in spaces
      modifies this
      ensures View() == ClearTables(old(View()), a, 0)
    {
      hide Inv, TablesCleared, ClearTable, Target, Lookup;
      ghost var s0 := View();
      var pgdir := spaces[a];
      var pdeno := 0;
      while pdeno < PDX_UTOP
        invariant pdeno <= PDX_UTOP && Inv(View()) && spaces == s0.spaces
        invariant ClearTables(View(), a, pdeno) == ClearTables(s0, a, 0)
      {
        ClearTableKeeps(View(), a, pdeno);
        if Load(Loc(pgdir, pdeno)).flags & PTE_V != 0 {
          EnvFreeTable(a, pdeno);
        } else {
          ClearNothing(View(), a, pdeno);
        }
        pdeno := pdeno + 1;
      }
    }

    /** The directory page and the ASID. */
    method EnvFreeDir(a: nat)
      requires Inv(View()) && Emptied(View(), a)
      modifies this
      ensures View() == DropDir(old(View()), a)
    {
      DropDirKeeps(View(), a);
      hide Inv, Emptied, DecRef;
      PageDecref(spaces[a]);
      spaces := spaces - {a};
      TlbInvalidate(a, PDX_UVPT, PDX_UVPT);
    }

    /** The memory part of env_free. */
    method EnvFree(a: nat)
      requires Inv(View()) && a in spaces
      modifies this
      ensures View() == Free(old(View()), a)
    {
      hide Inv, ClearTables, Emptied, DropDir;
      TablesReady(View(), a);
      EnvFreeTables(a);
      EnvFreeDir(a);
    }

    /** passive_alloc; false is a kernel panic. */
    method PassiveAlloc(a: nat, va: Addr) returns (ok: bool)
      requires Inv(View()) && a in spaces && Translate(View(), a, va) == None
      modifies this
      ensures ok == Passive(old(View()), a, va).Ok? && View() == Passive(old(View()), a, va).state
      ensures Inv(View()) <==> !ok || Backable(va)
    {
      PassiveInvIff(View(), a, va);
      if !PassiveOk(va) {
        return false;
      }
      var code, p := PageAlloc();
      if code != 0 {
        return false;
      }
      AllocKeeps(old(View()));
      LayoutIndices(va);
      IndicesNamePage(va, va);
      hide Inv;
      code := PageInsert(a, p, Pdx(va), Ptx(va), Plain(PTE_D));
      return code == 0;
    }

    /**
      _do_tlb_refill: the loop allocates at most once. None is a kernel panic, which needs
      an address passive_alloc refuses or fewer than two free pages.
    */
    method DoTlbRefill(a: nat, va: Addr) returns (pte: Option<Entry>)
      requires Inv(View()) && a in spaces
      modifies this
      ensures pte.Some? ==> a in spaces && Translate(View(), a, va) == pte
      ensures pte.Some? ==> (Inv(View()) <==> Translate(old(View()), a, va).Some? || Backable(va))
      ensures pte == None ==> Translate(old(View()), a, va) == None && (!PassiveOk(va) || |old(free)| < 2)
      ensures View() == old(View()) || View() == Passive(old(View()), a, va).state
    {
      ghost var s0 := View();
      var pp := PageLookup(spaces[a], Pdx(va), Ptx(va));
      ghost var tries := 0;
      while pp == None
        invariant tries <= 1 && a in spaces
        invariant tries == 0 ==> View() == s0
        invariant tries == 1 ==> View() == Passive(s0, a, va).state && pp.Some? && Translate(s0, a, va) == None
        invariant tries == 1 ==> (Inv(View()) <==> Backable(va))
        invariant match Translate(View(), a, va) {
                    case None => pp == None
                    case Some(e) => pp.Some? && Load(pp.value) == e
                  }
        decreases 1 - tries
      {
        if PassiveOk(va) {
          PassiveThenFound(s0, a, va);
        }
        hide Inv, Passive;
        var ok := PassiveAlloc(a, va);
        if !ok {
          return None;
        }
        pp := PageLookup(spaces[a], Pdx(va), Ptx(va));
        tries := tries + 1;
      }
      return Some(Load(pp.value));
    }

    /** sys_mem_alloc, after envid2env found the environment with address space a. */
    method SysMemAlloc(a: nat, va: Addr, perm: Perm) returns (code: int)
      requires Inv(View()) && a in spaces
      modifies this
      ensures Reply(View(), code) == MemAlloc(old(View()), a, va, perm)
    {
      if IllegalVa(va) {
        return -E_INVAL;
      }
      LayoutIndices(va);
      IndicesNamePage(va, va);
      if free != [] {
        AllocKeeps(View());
      }
      hide Inv, Insert;
      var p;
      code, p := PageAlloc();
      if code != 0 {
        return;
      }
      code := PageInsert(a, p, Pdx(va), Ptx(va), perm);
    }

    /** sys_mem_map */
    method SysMemMap(a: nat, va: Addr, b: nat, vb: Addr, perm: Perm) returns (code: int)
      requires Inv(View()) && a in spaces && b in spaces
      modifies this
      ensures Reply(View(), code) == MemMap(old(View()), a, va, b, vb, perm)
    {
      if IllegalVa(va) || IllegalVa(vb) {
        return -E_INVAL;
      }
      LayoutIndices(vb);
      IndicesNamePage(vb, vb);
      hide Inv, Insert;
      var pte := PageLookup(spaces[a], Pdx(va), Ptx(va));
      if pte == None {
        return -E_INVAL;
      }
      code := PageInsert(b, Load(pte.value).ppn, Pdx(vb), Ptx(vb), perm);
    }

    /** sys_mem_unmap */
    method SysMemUnmap(a: nat, va: Addr) returns (code: int)
      requires Inv(View()) && a in spaces
      modifies this
      ensures Reply(View(), code) == MemUnmap(old(View()), a, va)
    {
      if IllegalVa(va) {
        return -E_INVAL;
      }
      LayoutIndices(va);
      IndicesNamePage(va, va);
      hide Inv;
      PageRemove(a, Pdx(va), Ptx(va));
      return 0;
    }

    /** env_setup_vm for the environment that gets ASID a. */
    method EnvSetupVm(a: nat) returns (code: int)
      modifies this
      ensures View() == Setup(old(View()), a).state
      ensures code == if Setup(old(View()), a).Ok? then 0 else -E_NO_MEM
    {
      var p;
      code, p := PageAlloc();
      if code != 0 {
        return;
      }
      PageIncref(p);
      mem := mem[Loc(p, PDX_UTOP) := Load(Loc(base, PDX_UTOP))];
      mem := mem[Loc(p, PDX_UPAGES) := Load(Loc(base, PDX_UPAGES))];
      mem := mem[Loc(p, PDX_UVPT) := Entry(p, PTE_V)];
      spaces := spaces[a := p];
    }
  }

  lemma ClearNothing(s: State, a: nat, i: nat)
    requires a in s.spaces && !IsValid(Word(s, s.spaces[a], i))
    ensures ClearTable(s, a, i) == s
  {
  }

  lemma ClearTableIs(s: State, a: nat, i: nat)
    requires a in s.spaces && IsValid(Word(s, s.spaces[a], i))
    ensures ClearTable(s, a, i) ==
              Flush(DecRef(SetWord(ClearLeaves(s, a, i, 0), s.spaces[a], i, ZERO), Word(s, s.spaces[a], i).ppn), a, PDX_UVPT, i)
  {
    hide ClearLeaves;
  }

  lemma TablesReady(s: State, a: nat)
    requires Inv(s) && a in s.spaces
    ensures var t := ClearTables(s, a, 0); Inv(t) && Emptied(t, a) && DropDir(t, a) == Free(s, a)
  {
    hide Inv, ClearTables, DropDir, Free, TablesCleared, Emptied;
    ClearTablesKeeps(s, a, 0);
    ClearedEmptied(s, ClearTables(s, a, 0), a);
    FreeIs(s, a, ClearTables(s, a, 0));
  }

  lemma ClearedEmptied(s: State, t: State, a: nat)
    requires a in s.spaces && TablesCleared(s, t, a, 0, PDX_UTOP)
    ensures Emptied(t, a)
  {
    hide Lookup;
    forall x: Slot | !x.Dir? && x.asid == a ensures Target(t, x) == None {
      assert x.i >= PDX_UTOP ==> Target(t, x) == None;
    }
  }

  lemma FreeIs(s: State, a: nat, t: State)
    requires a in s.spaces && t == ClearTables(s, a, 0) && t.spaces == s.spaces
    ensures Free(s, a) == DropDir(t, a)
  {
    hide ClearTables;
  }

  lemma TableReady(s: State, a: nat, i: nat)
    requires Inv(s) && a in s.spaces && i < PDX_UTOP && IsValid(Word(s, s.spaces[a], i))
    ensures Ref(ClearLeaves(s, a, i, 0), Word(s, s.spaces[a], i).ppn) > 0 && ClearLeaves(s, a, i, 0).spaces == s.spaces
  {
    hide Inv, NoLeaves, SlotsCleared, MapsCleared, OnlySlot, SameMapsBut;
    ClearLeavesKeeps(s, a, i, 0);
    ClearLeavesEmpty(s, a, i);
    DropTableKeeps(ClearLeaves(s, a, i, 0), a, i);
  }

  lemma ClearLeavesEmpty(s: State, a: nat, i: nat)
    requires Inv(s) && a in s.spaces && i < PDX_UTOP && IsValid(Word(s, s.spaces[a], i))
    ensures var t := ClearLeaves(s, a, i, 0);
            NoLeaves(t, a, i) && Word(t, s.spaces[a], i) == Word(s, s.spaces[a], i)
  {
    assert Target(s, Table(a, i)) == Some(Word(s, s.spaces[a], i).ppn);
    ClearedTableWord(s, a, i);
    ClearLeavesKeeps(s, a, i, 0);
    hide Inv;
  }

  lemma ClearedTableWord(s: State, a: nat, i: nat)
    requires Inv(s) && a in s.spaces && i < PDX_UTOP && IsValid(Word(s, s.spaces[a], i))
    ensures Word(ClearLeaves(s, a, i, 0), s.spaces[a], i) == Word(s, s.spaces[a], i)
  {
    var t := ClearLeaves(s, a, i, 0);
    ClearLeavesKeeps(s, a, i, 0);
    assert DirOk(s, s.spaces[a]) && DirOk(t, s.spaces[a]);
    assert Target(t, Table(a, i)) == Target(s, Table(a, i));
  }

  lemma RemoveKeepsTable(s: State, a: nat, i: nat, j: nat)
    requires Inv(s) && a in s.spaces && i < PDX_UTOP && j < ENTRIES && IsValid(Word(s, s.spaces[a], i))
    ensures var t := Remove(s, a, i, j); Inv(t) && Word(t, s.spaces[a], i) == Word(s, s.spaces[a], i)
  {
    RemoveKeeps(s, a, i, j);
    var pd := s.spaces[a];
    assert Target(s, Table(a, i)) == Some(Word(s, pd, i).ppn) && Target(s, Dir(a)) == Some(pd);
  }
}
