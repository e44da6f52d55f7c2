/**
  The system calls and faults that change memory, and every run of them
  (kern/syscall_all.c, kern/env.c, kern/tlbex.c). Environments are named by their ASID.
*/
module VmCalls {
  import opened Errors
  import opened Mmu
  import opened Vm
  import opened VmRefs
  import opened VmFrames
  import opened VmOps
  import opened VmSpaces
  import opened VmTlb
  import opened VmStores

  datatype Reply = Reply(state: State, code: int)

  /** 0 or -E_NO_MEM, as page_insert returns it. */
  function InsertReply(r: Outcome): Reply {
    Reply(r.state, if r.Ok? then 0 else -E_NO_MEM)
  }

  /** sys_mem_alloc; the page stays allocated when page_insert then fails. */
  function MemAlloc(s: State, a: nat, va: Addr, perm: Perm): Reply
    requires a in s.spaces
  {
    if IllegalVa(va) then Reply(s, -E_INVAL)
    else if s.free == [] then Reply(s, -E_NO_MEM)
    else InsertReply(Insert(Alloc(s), a, s.free[0], Pdx(va), Ptx(va), perm))
  }

  /** sys_mem_map */
  function MemMap(s: State, a: nat, va: Addr, b: nat, vb: Addr, perm: Perm): Reply
    requires a in s.spaces && b in s.spaces
  {
    if IllegalVa(va) || IllegalVa(vb) then Reply(s, -E_INVAL)
    else
      match Translate(s, a, va)
      case None => Reply(s, -E_INVAL)
      case Some(pte) => InsertReply(Insert(s, b, pte.ppn, Pdx(vb), Ptx(vb), perm))
  }

  /** sys_mem_unmap */
  function MemUnmap(s: State, a: nat, va: Addr): Reply
    requires a in s.spaces
  {
    if IllegalVa(va) then Reply(s, -E_INVAL) else Reply(Remove(s, a, Pdx(va), Ptx(va)), 0)
  }

  /** The page part of sys_ipc_try_send: `vb` is 0 if the receiver asked for no page. */
  function IpcMap(s: State, a: nat, va: Addr, b: nat, vb: Addr, perm: Perm): Reply
    requires a in s.spaces && b in s.spaces
  {
    if IllegalVa(va) then Reply(s, -E_INVAL)
    else
      match Translate(s, a, va)
      case None => Reply(s, -E_INVAL)
      case Some(pte) => Reply(Insert(s, b, pte.ppn, Pdx(vb), Ptx(vb), perm).state, 0)
  }

  /**
    The memory part of env_alloc. `asid` is what asid_alloc finds; it is asked after the
    directory was set up, and when it finds nothing the directory page is lost for good.
  */
  function EnvAlloc(s: State, asid: Option<nat>): Reply {
    match asid
    case Some(a) => InsertReply(Setup(s, a))
    case None =>
      if s.free == [] then Reply(s, -E_NO_MEM)
      else
        var t := InstallDir(Alloc(s), 0, s.free[0]);
        Reply(t.(spaces := s.spaces, reserved := s.reserved + {s.free[0]}), -E_NO_FREE_ENV)
  }

  /** _do_tlb_refill and do_tlb_refill */
  function Refill(s: State, a: nat, va: Addr, evicted: set<Tag>): Outcome
    requires a in s.spaces
  {
    var r := if Translate(s, a, va).Some? then Ok(s) else Passive(s, a, va);
    if !r.Ok? then r
    else if a in r.state.spaces && Translate(r.state, a, va).Some? then
      Ok(Fill(r.state, Tag(a, Pdx(va), Ptx(va)), Translate(r.state, a, va).value, evicted))
    else Panic(r.state)
  }

  // ----- what one call does, in terms of addresses

  /** Only the page of va in address space a may translate differently. */
  ghost predicate OnlyPage(s: State, t: State, a: nat, va: Addr) {
    && t.spaces == s.spaces
    && (forall b, vb: Addr :: b in s.spaces && vb < UTOP && (b != a || Vpn(vb) != Vpn(va))
          ==> Translate(t, b, vb) == Translate(s, b, vb))
  }

  lemma InsertOnlyPage(s: State, a: nat, p: nat, va: Addr, perm: Perm)
    requires Inv(s) && va < UTOP && CanInsert(s, a, p, Pdx(va), Ptx(va), perm)
    ensures var r := Insert(s, a, p, Pdx(va), Ptx(va), perm);
            && Inv(r.state) && (!r.Ok? ==> r.state == s)
            && (r.Ok? ==> OnlyPage(s, r.state, a, va) && Translate(r.state, a, va) == Some(Entry(p, perm.flags | PTE_V)))
  {
    InsertKeeps(s, a, p, Pdx(va), Ptx(va), perm);
    var t := Insert(s, a, p, Pdx(va), Ptx(va), perm).state;
    hide Inv, Insert, CanInsert, OrPage;
    forall b, vb: Addr | b in s.spaces && vb < UTOP && (b != a || Vpn(vb) != Vpn(va)) && t.spaces == s.spaces
      && Insert(s, a, p, Pdx(va), Ptx(va), perm).Ok?
      ensures Translate(t, b, vb) == Translate(s, b, vb)
    {
      LayoutIndices(vb);
      IndicesNamePage(va, vb);
      hide Vpn, Pdx, Ptx, Lookup;
    }
  }

  /** The bits of perm above the flags leave the number of the page at va alone. */
  ghost predicate KeepsPage(s: State, a: nat, va: Addr, perm: Perm) {
    a in s.spaces && Translate(s, a, va).Some? ==>
      OrPage(Translate(s, a, va).value.ppn, perm.hi) == Translate(s, a, va).value.ppn
  }

  /** The kernel's u_short counter must have room for one more mapping of the page. */
  ghost predicate RoomFor(s: State, a: nat, va: Addr, b: nat, vb: Addr) {
    a in s.spaces && b in s.spaces && Translate(s, a, va).Some? ==>
      var p := Translate(s, a, va).value.ppn;
      Ref(s, p) + 1 < REF_LIMIT || Mapped(s, b, p, Pdx(vb), Ptx(vb))
  }

  /** sys_mem_map: afterwards b sees at vb the page a has at va, and nothing else moved. */
  lemma MemMapShares(s: State, a: nat, va: Addr, b: nat, vb: Addr, perm: Perm)
    requires Inv(s) && a in s.spaces && b in s.spaces
    requires perm.flags & PTE_G == 0 && RoomFor(s, a, va, b, vb) && KeepsPage(s, a, va, perm)
    ensures var r := MemMap(s, a, va, b, vb, perm);
            && Inv(r.state)
            && (r.code == 0 ==> !IllegalVa(va) && !IllegalVa(vb) && OnlyPage(s, r.state, b, vb))
            && (r.code == 0 ==> Translate(s, a, va).Some?)
            && (r.code == 0 ==> Translate(r.state, b, vb) == Some(Entry(Translate(s, a, va).value.ppn, perm.flags | PTE_V)))
            && (r.code != 0 ==> r.state == s)
  {
    if !IllegalVa(va) && !IllegalVa(vb) && Translate(s, a, va).Some? {
      TranslatedMappable(s, a, va);
      LayoutIndices(vb);
      IndicesNamePage(vb, vb);
      InsertOnlyPage(s, b, Translate(s, a, va).value.ppn, vb, perm);
    }
  }

  /** sys_mem_alloc: va gets a page that was free, cleared; no other translation moved. */
  lemma MemAllocFresh(s: State, a: nat, va: Addr, perm: Perm)
    requires Inv(s) && a in s.spaces && perm.flags & PTE_G == 0
    requires s.free != [] ==> OrPage(s.free[0], perm.hi) == s.free[0]
    ensures var r := MemAlloc(s, a, va, perm);
            && Inv(r.state)
            && (r.code == 0 ==> s.free != [] && OnlyPage(s, r.state, a, va))
            && (r.code == 0 ==> Translate(r.state, a, va) == Some(Entry(s.free[0], perm.flags | PTE_V)))
            && (r.code == -E_NO_MEM ==> |s.free| <= 1 && r.state.free == [])
  {
    if !IllegalVa(va) && s.free != [] {
      AllocKeeps(s);
      LayoutIndices(va);
      IndicesNamePage(va, va);
      InsertOnlyPage(Alloc(s), a, s.free[0], va, perm);
      InsertKeeps(Alloc(s), a, s.free[0], Pdx(va), Ptx(va), perm);
      AllocOnlyPage(s, MemAlloc(s, a, va, perm).state, a, va);
    }
  }

  lemma AllocOnlyPage(s: State, t: State, a: nat, va: Addr)
    requires Inv(s) && s.free != []
    ensures OnlyPage(Alloc(s), t, a, va) ==> OnlyPage(s, t, a, va)
  {
    AllocKeeps(s);
    hide Inv;
    forall b, vb: Addr | b in s.spaces && vb < UTOP ensures Translate(Alloc(s), b, vb) == Translate(s, b, vb) {
      LayoutIndices(vb);
      IndicesNamePage(vb, vb);
      hide Lookup, Pdx, Ptx, Alloc;
    }
  }

  // ----- runs

  datatype Op =
    | OpAlloc(a: nat, va: Addr, perm: Perm)
    | OpMap(a: nat, va: Addr, b: nat, vb: Addr, perm: Perm)
    | OpIpc(a: nat, va: Addr, b: nat, vb: Addr, perm: Perm)
    | OpUnmap(a: nat, va: Addr)
    | OpEnv(asid: Option<nat>)
    | OpFree(a: nat)
    | OpRefill(a: nat, va: Addr, evicted: set<Tag>)
    | OpStore(a: nat, va: Addr, word: Entry)

  /**
    The caller's side of each step: it names live address spaces, asid_alloc returns an
    ASID not in use, and IPC destinations are 0 or legal. The other conditions are each
    exact: perm does not hold PTE_G or change the page number and the u_short count has room
    (GlobalLeaks, CountExactIff), a fault in the UVPT window is at a user entry
    (RefillKeepsIff), and a store through that window is harmless (StoreKeepsIff).
  */
  ghost predicate Allowed(s: State, op: Op) {
    match op
    case OpAlloc(a, _, perm) =>
      a in s.spaces && perm.flags & PTE_G == 0 && (s.free != [] ==> OrPage(s.free[0], perm.hi) == s.free[0])
    case OpMap(a, va, b, vb, perm) =>
      && a in s.spaces && b in s.spaces
      && perm.flags & PTE_G == 0 && RoomFor(s, a, va, b, vb) && KeepsPage(s, a, va, perm)
    case OpIpc(a, va, b, vb, perm) =>
      && a in s.spaces && b in s.spaces && (vb == 0 || !IllegalVa(vb))
      && perm.flags & PTE_G == 0 && RoomFor(s, a, va, b, vb) && KeepsPage(s, a, va, perm)
    case OpUnmap(a, _) => a in s.spaces
    case OpEnv(asid) => asid.Some? ==> asid.value !in s.spaces
    case OpFree(a) => a in s.spaces
    case OpRefill(a, va, _) =>
      a in s.spaces && (Translate(s, a, va) == None && PassiveOk(va) ==> Backable(va))
    case OpStore(a, va, word) => a in s.spaces && Harmless(s, a, va, word)
  }

  function Step(s: State, op: Op): State {
    if op.OpEnv? then EnvAlloc(s, op.asid).state
    else if op.a !in s.spaces then s
    else
      match op
      case OpAlloc(a, va, perm) => MemAlloc(s, a, va, perm).state
      case OpMap(a, va, b, vb, perm) => if b in s.spaces then MemMap(s, a, va, b, vb, perm).state else s
      case OpIpc(a, va, b, vb, perm) => if b in s.spaces then IpcMap(s, a, va, b, vb, perm).state else s
      case OpUnmap(a, va) => MemUnmap(s, a, va).state
      case OpFree(a) => Free(s, a)
      case OpRefill(a, va, evicted) => Refill(s, a, va, evicted).state
      case OpStore(a, va, word) => Store(s, a, va, word)
  }

  /** Physical memory as page_init and env_init leave it, before the first environment. */
  ghost predicate AfterBoot(s: State) {
    && s.spaces == map[] && s.tlb == map[] && s.held == {}
    && NoDup(s.free)
    && (forall p: nat :: p in s.free <==> p < s.npage && p !in s.reserved)
    && (forall p: nat :: p in s.free ==> Ref(s, p) == 0)
    && Template(s)
  }

  lemma BootKeeps(s: State)
    requires AfterBoot(s)
    ensures Inv(s)
  {
    forall p: nat ensures Refs(s, p) == {} {
      RefsAre(s, p);
    }
  }

  /**
    A refill ends with the walk's entry in the TLB, whatever the address, or panics because
    passive_alloc refuses it or memory is short. The invariant survives exactly if the
    address was mapped or refused, there was no page to back it with, or it is backable.
  */
  lemma RefillKeepsIff(s: State, a: nat, va: Addr, evicted: set<Tag>)
    requires Inv(s) && a in s.spaces
    ensures var r := Refill(s, a, va, evicted);
            && (Inv(r.state) <==> Translate(s, a, va).Some? || !PassiveOk(va) || s.free == [] || Backable(va))
            && (!Inv(r.state) ==> r.Ok? && Orphan(r.state, s.free[0]))
            && (r.Ok? ==> r.state.spaces == s.spaces && Translate(r.state, a, va).Some?)
            && (r.Ok? ==> Hit(r.state, a, Pdx(va), Ptx(va), Translate(r.state, a, va).value))
            && (Translate(s, a, va).Some? ==> r.Ok?)
            && (Translate(s, a, va) == None && PassiveOk(va) && |s.free| >= 2 ==> r.Ok?)
  {
    LayoutIndices(va);
    IndicesNamePage(va, va);
    if Translate(s, a, va) == None && PassiveOk(va) {
      PassiveThenFound(s, a, va);
    }
    var m := if Translate(s, a, va).Some? then Ok(s) else Passive(s, a, va);
    hide Inv, Passive;
    if m.Ok? {
      FillFinds(m.state, a, va, evicted);
      if Inv(m.state) {
        LowTranslation(m.state, a, va);
        FillKeeps(m.state, a, Pdx(va), Ptx(va), Translate(m.state, a, va).value, evicted);
      } else {
        FillOrphan(m.state, s.free[0], Tag(a, Pdx(va), Ptx(va)), Translate(m.state, a, va).value, evicted);
      }
    }
  }

  /** Only addresses below ULIM translate. */
  lemma LowTranslation(s: State, a: nat, va: Addr)
    requires Inv(s) && a in s.spaces && Translate(s, a, va).Some?
    ensures Pdx(va) < PDX_ULIM && Ptx(va) < ENTRIES
  {
    IndicesNamePage(va, va);
    assert DirOk(s, s.spaces[a]);
  }

  lemma FillFinds(s: State, a: nat, va: Addr, evicted: set<Tag>)
    requires a in s.spaces && Translate(s, a, va).Some?
    ensures var e := Translate(s, a, va).value;
            var t := Fill(s, Tag(a, Pdx(va), Ptx(va)), e, evicted);
            Translate(t, a, va) == Some(e) && Hit(t, a, Pdx(va), Ptx(va), e)
  {
    var t := Fill(s, Tag(a, Pdx(va), Ptx(va)), Translate(s, a, va).value, evicted);
    assert Tag(a, Pdx(va), Ptx(va)) in t.tlb;
    SameMem(s, t);
  }

  /** A TLB entry changes no count and no reference. */
  lemma FillOrphan(s: State, p: nat, tag: Tag, e: Entry, evicted: set<Tag>)
    requires Orphan(s, p)
    ensures Orphan(Fill(s, tag, e, evicted), p) && !Inv(Fill(s, tag, e, evicted))
  {
    var t := Fill(s, tag, e, evicted);
    SameMem(s, t);
    assert forall x :: Target(t, x) == Target(s, x);
    RefsAre(s, p);
    RefsAre(t, p);
    assert Refs(t, p) == {};
    OrphanMiscounts(t, p);
    CountedInv(t);
  }

  lemma EnvKeeps(s: State, asid: Option<nat>)
    requires Inv(s) && Allowed(s, OpEnv(asid))
    ensures Inv(EnvAlloc(s, asid).state)
  {
    match asid {
      case Some(a) => SetupKeeps(s, a);
      case None =>
        if s.free != [] {
          AllocKeeps(s);
          LostDirKeeps(Alloc(s), s, s.free[0]);
        }
    }
  }

  /** A directory page that no environment got is accounted as reserved. */
  lemma LostDirKeeps(s: State, s0: State, p: nat)
    requires Inv(s) && p in s.held && Refs(s, p) == {} && (forall k: nat :: Word(s, p, k) == ZERO)
    requires s.spaces == s0.spaces && s.reserved == s0.reserved
    ensures Inv(InstallDir(s, 0, p).(spaces := s0.spaces, reserved := s0.reserved + {p}))
  {
    var t := InstallDir(s, 0, p).(spaces := s0.spaces, reserved := s0.reserved + {p});
    var r := t.(reserved := s.reserved);
    RefsAre(s, p);
    InstallDirWords(s, 0, p);
    DataWriteFrame(s, r, p);
    SameMem(r, t);
    assert forall x :: Target(t, x) == Target(r, x);
    hide InstallDir, Windows, Coherent, NoUserGlobal, Target, SameMaps, SameShared;
    LostDirCounts(s, t, p);
    hide Counted, FreeOk, InRange, Exclusive;
    StoreTags(s, r);
    LostDirTags(r, t);
  }

  lemma LostDirCounts(s: State, t: State, p: nat)
    requires Counted(s) && FreeOk(s) && InRange(s) && Exclusive(s) && p in s.held && Refs(s, p) == {}
    requires forall x :: Target(t, x) == Target(s, x)
    requires t.npage == s.npage && t.free == s.free && t.held == s.held - {p} && t.reserved == s.reserved + {p}
    requires forall q: nat :: q != p ==> Ref(t, q) == Ref(s, q)
    ensures Counted(t) && FreeOk(t) && InRange(t) && Exclusive(t)
  {
    RefsAre(s, p);
    forall q: nat ensures Refs(t, q) == Refs(s, q) {
      RefsAre(s, q);
      RefsAre(t, q);
    }
  }

  lemma LostDirTags(r: State, t: State)
    requires Windows(r) && Coherent(r) && NoUserGlobal(r)
    requires t.mem == r.mem && t.spaces == r.spaces && t.tlb == r.tlb && t.base == r.base && t.reserved >= r.reserved
    ensures Windows(t) && Coherent(t) && NoUserGlobal(t)
  {
    SameMem(r, t);
    forall tag | tag in t.tlb ensures TagOk(t, tag) {
      assert TagOk(r, tag);
    }
    forall b | b in t.spaces ensures DirOk(t, t.spaces[b]) {
      assert DirOk(r, r.spaces[b]);
    }
  }

  lemma IpcKeeps(s: State, a: nat, va: Addr, b: nat, vb: Addr, perm: Perm)
    requires Inv(s) && Allowed(s, OpIpc(a, va, b, vb, perm))
    ensures Inv(IpcMap(s, a, va, b, vb, perm).state)
  {
    if !IllegalVa(va) && Translate(s, a, va).Some? {
      TranslatedMappable(s, a, va);
      LayoutIndices(vb);
      IndicesNamePage(vb, vb);
      InsertOnlyPage(s, b, Translate(s, a, va).value.ppn, vb, perm);
    }
  }

  lemma StepKeeps(s: State, op: Op)
    requires Inv(s) && Allowed(s, op)
    ensures Inv(Step(s, op))
  {
    hide Inv;
    match op {
      case OpAlloc(a, va, perm) => MemAllocFresh(s, a, va, perm);
      case OpMap(a, va, b, vb, perm) => MemMapShares(s, a, va, b, vb, perm);
      case OpIpc(a, va, b, vb, perm) => IpcKeeps(s, a, va, b, vb, perm);
      case OpUnmap(a, va) =>
        if !IllegalVa(va) {
          LayoutIndices(va);
          IndicesNamePage(va, va);
          RemoveKeeps(s, a, Pdx(va), Ptx(va));
        }
      case OpEnv(asid) => EnvKeeps(s, asid);
      case OpFree(a) => FreeKeeps(s, a);
      case OpRefill(a, va, evicted) => RefillKeepsIff(s, a, va, evicted);
      case OpStore(a, va, word) => StoreKeepsIff(s, a, va, word);
    }
  }

  function Run(s: State, ops: seq<Op>): State
    decreases ops
  {
    if ops == [] then s else Run(Step(s, ops[0]), ops[1..])
  }

  ghost predicate RunAllowed(s: State, ops: seq<Op>)
    decreases ops
  {
    ops == [] || (Allowed(s, ops[0]) && RunAllowed(Step(s, ops[0]), ops[1..]))
  }

  lemma {:induction false} RunKeeps(s: State, ops: seq<Op>)
    requires Inv(s) && RunAllowed(s, ops)
    ensures Inv(Run(s, ops))
    decreases ops
  {
    hide Inv, Step;
    if ops != [] {
      StepKeeps(s, ops[0]);
      RunKeeps(Step(s, ops[0]), ops[1..]);
    }
  }

  /**
    In every state reachable from boot, each count is the number of references, the free
    list holds exactly the pages that nobody uses, and the TLB agrees with the page tables.
  */
  lemma Reachable(boot: State, ops: seq<Op>)
    requires AfterBoot(boot) && RunAllowed(boot, ops)
    ensures var t := Run(boot, ops);
            && Counted(t) && FreeOk(t) && Exclusive(t)
            && (forall a, i: nat, j: nat, e :: a in t.spaces && Hit(t, a, i, j, e)
                  ==> Lookup(t, t.spaces[a], i, j) == Some(e))
  {
    BootKeeps(boot);
    RunKeeps(boot, ops);
    var t := Run(boot, ops);
    forall a, i: nat, j: nat, e | a in t.spaces && Hit(t, a, i, j, e)
      ensures Lookup(t, t.spaces[a], i, j) == Some(e)
    {
      HitIsCurrent(t, a, i, j, e);
    }
  }
}
