/**
  Runs from boot whose last step breaks an invariant: what the failing cases of
  VmOps.CountExactIff, VmTlb.GlobalLeaks and VmStores.OwnEntryCleared start from does occur.
*/
module VmReached {
  import opened Mmu
  import opened Vm
  import opened VmRefs
  import opened VmFrames
  import opened VmOps
  import opened VmSpaces
  import opened VmTlb
  import opened VmStores
  import opened VmCalls

  /** Two environments are created, and the first allocates a page at UTEXT. */
  function FirstCalls(): seq<Op> {
    [OpEnv(Some(0)), OpEnv(Some(1)), OpAlloc(0, UTEXT, Plain(PTE_D))]
  }

  /** A new environment maps nothing, and costs one page. */
  lemma EnvIsNew(s: State, a: nat)
    requires Inv(s) && a !in s.spaces && s.free != []
    ensures Allowed(s, OpEnv(Some(a)))
    ensures var t := Step(s, OpEnv(Some(a)));
            && Inv(t) && t.spaces.Keys == s.spaces.Keys + {a} && t.free == s.free[1..]
            && (forall va: Addr :: va < UTOP ==> Translate(t, a, va) == None)
            && (forall b, va: Addr :: b in s.spaces && va < UTOP ==> Translate(t, b, va) == Translate(s, b, va))
  {
    SetupKeeps(s, a);
    SetupTakes(s, a);
    hide Inv, NewSpace, SameMaps, Translate, OnlySlot, Setup;
    NewTranslates(s, Step(s, OpEnv(Some(a))), a);
    SameTranslates(s, Step(s, OpEnv(Some(a))));
  }

  lemma SetupTakes(s: State, a: nat)
    requires s.free != []
    ensures Setup(s, a).Ok? && Setup(s, a).state.free == s.free[1..]
  {
    hide Word;
  }

  lemma NewTranslates(s: State, t: State, a: nat)
    requires NewSpace(s, t, a)
    ensures forall va: Addr :: va < UTOP ==> Translate(t, a, va) == None
  {
    forall va: Addr | va < UTOP ensures Translate(t, a, va) == None {
      LayoutIndices(va);
      IndicesNamePage(va, va);
    }
  }

  lemma SameTranslates(s: State, t: State)
    requires SameMaps(s, t) && s.spaces.Keys <= t.spaces.Keys
    ensures forall b, va: Addr :: b in s.spaces && va < UTOP ==> Translate(t, b, va) == Translate(s, b, va)
  {
    forall b, va: Addr | b in s.spaces && va < UTOP ensures Translate(t, b, va) == Translate(s, b, va) {
      LayoutIndices(va);
      IndicesNamePage(va, va);
      assert b in t.spaces.Keys;
      hide Lookup, Pdx, Ptx;
    }
  }

  ghost predicate TwoEnvs(s: State) {
    && Inv(s) && 0 in s.spaces && 1 in s.spaces
    && Translate(s, 0, UTEXT).Some? && Translate(s, 1, UTEXT) == None
  }

  lemma AllocAtText(s: State)
    requires Inv(s) && 0 in s.spaces && 1 in s.spaces && Translate(s, 1, UTEXT) == None && |s.free| >= 2
    ensures Allowed(s, OpAlloc(0, UTEXT, Plain(PTE_D))) && TwoEnvs(Step(s, OpAlloc(0, UTEXT, Plain(PTE_D))))
  {
    assert PTE_D & PTE_G == 0;
    MemAllocFresh(s, 0, UTEXT, Plain(PTE_D));
    hide Inv, Translate;
  }

  lemma RunOne(s: State, op: Op, ops: seq<Op>)
    ensures Run(s, [op] + ops) == Run(Step(s, op), ops)
    ensures RunAllowed(s, [op] + ops) <==> Allowed(s, op) && RunAllowed(Step(s, op), ops)
  {
    hide Step, Allowed;
    assert ([op] + ops)[1..] == ops;
  }

  lemma {:induction false} RunAppend(s: State, ops: seq<Op>, more: seq<Op>)
    ensures Run(s, ops + more) == Run(Run(s, ops), more)
    decreases ops
  {
    hide Step;
    if ops == [] {
      assert ops + more == more;
    } else {
      RunAppend(Step(s, ops[0]), ops[1..], more);
      assert (ops + more)[1..] == ops[1..] + more;
    }
  }

  /** The two environments are there, and two pages are left for the second's first page and table. */
  lemma TwoCreated(boot: State)
    requires AfterBoot(boot) && |boot.free| >= 4
    ensures Allowed(boot, OpEnv(Some(0)))
    ensures var s := Step(boot, OpEnv(Some(0)));
            && Allowed(s, OpEnv(Some(1)))
            && var t := Step(s, OpEnv(Some(1)));
               && Inv(t) && 0 in t.spaces && 1 in t.spaces && |t.free| == |boot.free| - 2
               && Translate(t, 0, UTEXT) == None && Translate(t, 1, UTEXT) == None
  {
    BootKeeps(boot);
    hide Inv, Step, Allowed, Translate;
    EnvIsNew(boot, 0);
    EnvIsNew(Step(boot, OpEnv(Some(0))), 1);
  }

  lemma FirstCallsReach(boot: State)
    requires AfterBoot(boot) && |boot.free| >= 4
    ensures RunAllowed(boot, FirstCalls()) && TwoEnvs(Run(boot, FirstCalls()))
  {
    hide AfterBoot, Step, Inv, Allowed, TwoEnvs, Run, RunAllowed, Translate;
    TwoCreated(boot);
    var s := Step(boot, OpEnv(Some(0)));
    var t := Step(s, OpEnv(Some(1)));
    AllocAtText(t);
    RunThree(boot, OpEnv(Some(0)), OpEnv(Some(1)), OpAlloc(0, UTEXT, Plain(PTE_D)));
  }

  lemma RunThree(s: State, first: Op, second: Op, third: Op)
    ensures var t := Step(s, first);
            var u := Step(t, second);
            && Run(s, [first, second, third]) == Step(u, third)
            && (RunAllowed(s, [first, second, third]) <==> Allowed(s, first) && Allowed(t, second) && Allowed(u, third))
  {
    hide Step, Allowed, Run, RunAllowed;
    var t := Step(s, first);
    var u := Step(t, second);
    assert [first, second, third] == [first] + ([second] + ([third] + []));
    RunOne(s, first, [second] + ([third] + []));
    RunOne(t, second, [third] + []);
    RunOne(u, third, []);
    RunNone(Step(u, third));
  }

  lemma RunNone(s: State)
    ensures Run(s, []) == s && RunAllowed(s, [])
  {
  }

  lemma RunTwo(s: State, op: Op, last: Op)
    ensures Run(s, [op, last]) == Step(Step(s, op), last)
  {
    hide Step, Run;
    assert [op, last] == [op] + ([last] + []);
    RunOne(s, op, [last] + []);
    RunOne(Step(s, op), last, []);
    RunNone(Step(Step(s, op), last));
  }

  /** After one more sys_mem_map and one touch, the other environment sees the first one's page. */
  lemma LeakReached(boot: State)
    requires AfterBoot(boot) && |boot.free| >= 4
    ensures var s := Run(boot, FirstCalls() + [OpMap(0, UTEXT, 0, UTEXT, Plain(PTE_G)), OpRefill(0, UTEXT, {})]);
            1 in s.spaces && !AnswersCurrent(s, 1, Pdx(UTEXT), Ptx(UTEXT))
  {
    FirstCallsReach(boot);
    var s, again, touch := Run(boot, FirstCalls()), OpMap(0, UTEXT, 0, UTEXT, Plain(PTE_G)), OpRefill(0, UTEXT, {});
    RunAppend(boot, FirstCalls(), [again, touch]);
    RunTwo(s, again, touch);
    hide AfterBoot, Run, RunAllowed;
    LeakFrom(s);
  }

  lemma LeakFrom(s: State)
    requires TwoEnvs(s)
    ensures var t := Step(Step(s, OpMap(0, UTEXT, 0, UTEXT, Plain(PTE_G))), OpRefill(0, UTEXT, {}));
            1 in t.spaces && !AnswersCurrent(t, 1, Pdx(UTEXT), Ptx(UTEXT))
  {
    var i, j, p := Pdx(UTEXT), Ptx(UTEXT), Translate(s, 0, UTEXT).value.ppn;
    LayoutIndices(UTEXT);
    IndicesNamePage(UTEXT, UTEXT);
    TranslatedMappable(s, 0, UTEXT);
    assert PTE_G & PTE_G != 0;
    GlobalLeaks(s, 0, 1, p, i, j, Plain(PTE_G), {});
    InsertInTable(s, 0, p, i, j, Plain(PTE_G));
    hide Insert, Inv, AnswersCurrent, Mappable;
  }

  /** And one store through the UVPT window loses the reference while the count stays. */
  lemma LossReached(boot: State)
    requires AfterBoot(boot) && |boot.free| >= 4
    ensures var s := Run(boot, FirstCalls() + [OpStore(0, UVPT + Pdx(UTEXT) * BY2PG + 4 * Ptx(UTEXT), ZERO)]);
            !Counted(s)
  {
    FirstCallsReach(boot);
    hide AfterBoot, Step, RunAllowed, Counted, TwoEnvs;
    var s := Run(boot, FirstCalls());
    var store := OpStore(0, UVPT + Pdx(UTEXT) * BY2PG + 4 * Ptx(UTEXT), ZERO);
    RunAppend(boot, FirstCalls(), [store] + []);
    assert [store] + [] == [store];
    RunOne(s, store, []);
    RunNone(Step(s, store));
    LossFrom(s);
  }

  lemma LossFrom(s: State)
    requires TwoEnvs(s)
    ensures !Counted(Step(s, OpStore(0, UVPT + Pdx(UTEXT) * BY2PG + 4 * Ptx(UTEXT), ZERO)))
  {
    LayoutIndices(UTEXT);
    IndicesNamePage(UTEXT, UTEXT);
    OwnEntryCleared(s, 0, Pdx(UTEXT), Ptx(UTEXT));
  }

  lemma NpageKept(s: State, op: Op)
    requires op.OpEnv? || op.OpAlloc?
    ensures Step(s, op).npage == s.npage
  {
    hide Lookup, Word, OrPage;
  }

  lemma FirstCallsNpage(boot: State)
    ensures Run(boot, FirstCalls()).npage == boot.npage
  {
    hide Step, Run;
    var s := Step(boot, OpEnv(Some(0)));
    var t := Step(s, OpEnv(Some(1)));
    NpageKept(boot, OpEnv(Some(0)));
    NpageKept(s, OpEnv(Some(1)));
    NpageKept(t, OpAlloc(0, UTEXT, Plain(PTE_D)));
    RunThree(boot, OpEnv(Some(0)), OpEnv(Some(1)), OpAlloc(0, UTEXT, Plain(PTE_D)));
  }

  /** Perm bits above the flags, in a machine of less than 4 GB: the entry names another page than the one counted. */
  lemma WidePermReached(boot: State)
    requires AfterBoot(boot) && |boot.free| >= 4 && boot.npage < 0x10_0000
    ensures !Counted(Run(boot, FirstCalls() + [OpMap(0, UTEXT, 0, UTEXT, Perm(0xf_ffff, 0))]))
  {
    FirstCallsReach(boot);
    FirstCallsNpage(boot);
    hide AfterBoot, Step, RunAllowed, Counted, TwoEnvs;
    var s, op := Run(boot, FirstCalls()), OpMap(0, UTEXT, 0, UTEXT, Perm(0xf_ffff, 0));
    RunAppend(boot, FirstCalls(), [op] + []);
    assert [op] + [] == [op];
    RunOne(s, op, []);
    RunNone(Step(s, op));
    WidePermFrom(s);
  }

  lemma WidePermFrom(s: State)
    requires TwoEnvs(s) && s.npage < 0x10_0000
    ensures !Counted(Step(s, OpMap(0, UTEXT, 0, UTEXT, Perm(0xf_ffff, 0))))
  {
    var p, perm := Translate(s, 0, UTEXT).value.ppn, Perm(0xf_ffff, 0);
    LayoutIndices(UTEXT);
    IndicesNamePage(UTEXT, UTEXT);
    TranslatedMappable(s, 0, UTEXT);
    TableOfText(s);
    PageInMemory(s, p);
    AllOnes(p);
    hide Inv, Insert, OrPage, Counted, Lookup, Word, Mappable;
    CountExactIff(s, 0, p, Pdx(UTEXT), Ptx(UTEXT), perm);
  }

  lemma TableOfText(s: State)
    requires 0 in s.spaces && Translate(s, 0, UTEXT).Some?
    ensures IsValid(Word(s, s.spaces[0], Pdx(UTEXT)))
  {
  }

  lemma PageInMemory(s: State, p: nat)
    requires Mappable(s, p)
    ensures p < s.npage
  {
  }

  lemma AllOnes(p: nat)
    requires p < 0xf_ffff
    ensures OrPage(p, 0xf_ffff) != p
  {
    assert (p as bv20) | 0xf_ffff == 0xf_ffff;
  }

  /** A message with a page, received with address 0, maps the page there, writable if the sender wants. */
  lemma ZeroPageReached(boot: State)
    requires AfterBoot(boot) && |boot.free| >= 5
    ensures var ops := FirstCalls() + [OpIpc(0, UTEXT, 1, 0, Plain(PTE_D))];
            var t := Run(boot, ops);
            && RunAllowed(boot, ops) && Inv(t) && 1 in t.spaces
            && Translate(t, 1, 0).Some? && IsWritable(Translate(t, 1, 0).value)
  {
    var s, op := Run(boot, FirstCalls()), OpIpc(0, UTEXT, 1, 0, Plain(PTE_D));
    FirstCallsReach(boot);
    FirstCallsLeave(boot);
    hide AfterBoot, Step, Run, RunAllowed, Allowed, Inv, Translate;
    RunAppend(boot, FirstCalls(), [op] + []);
    AllowedAppend(boot, FirstCalls(), [op] + []);
    assert [op] + [] == [op];
    RunOne(s, op, []);
    RunNone(Step(s, op));
    ZeroPageFrom(s);
  }

  lemma FirstCallsLeave(boot: State)
    requires AfterBoot(boot) && |boot.free| >= 5
    ensures Run(boot, FirstCalls()).free != []
    ensures var s := Run(boot, FirstCalls()); TwoEnvs(s) && Ref(s, Translate(s, 0, UTEXT).value.ppn) == 1
  {
    FirstCallsReach(boot);
    TwoCreated(boot);
    hide AfterBoot, Inv, Step, Run, RunAllowed, Allowed, TwoEnvs;
    var s := Step(boot, OpEnv(Some(0)));
    var t := Step(s, OpEnv(Some(1)));
    RunThree(boot, OpEnv(Some(0)), OpEnv(Some(1)), OpAlloc(0, UTEXT, Plain(PTE_D)));
    AllocLeaves(t);
  }

  lemma AllocLeaves(s: State)
    requires Inv(s) && 0 in s.spaces && |s.free| >= 3 && Translate(s, 0, UTEXT) == None
    ensures var t := Step(s, OpAlloc(0, UTEXT, Plain(PTE_D)));
            && t.free != [] && 0 in t.spaces && Translate(t, 0, UTEXT).Some?
            && Ref(t, Translate(t, 0, UTEXT).value.ppn) == 1
  {
    FirstCounts(s);
    assert PTE_D & PTE_G == 0;
    MemAllocFresh(s, 0, UTEXT, Plain(PTE_D));
    hide Inv, Translate, MemAlloc;
  }

  lemma {:induction false} AllowedAppend(s: State, ops: seq<Op>, more: seq<Op>)
    requires RunAllowed(s, ops)
    ensures RunAllowed(s, ops + more) <==> RunAllowed(Run(s, ops), more)
    decreases ops
  {
    hide Step, Allowed;
    if ops == [] {
      assert ops + more == more;
    } else {
      AllowedAppend(Step(s, ops[0]), ops[1..], more);
      assert (ops + more)[1..] == ops[1..] + more;
    }
  }

  lemma ZeroPageFrom(s: State)
    requires TwoEnvs(s) && s.free != [] && Ref(s, Translate(s, 0, UTEXT).value.ppn) == 1
    ensures var op := OpIpc(0, UTEXT, 1, 0, Plain(PTE_D));
            && Allowed(s, op)
            && var t := Step(s, op);
               Inv(t) && 1 in t.spaces && Translate(t, 1, 0).Some? && IsWritable(Translate(t, 1, 0).value)
  {
    var p := Translate(s, 0, UTEXT).value.ppn;
    hide Inv, Mappable, Step;
    TranslatedMappable(s, 0, UTEXT);
    LayoutIndices(0);
    IndicesNamePage(0, 0);
    ZeroPageInsert(s, p);
    hide Translate, OrPage;
    ZeroPageStep(s, p);
    assert (PTE_D | PTE_V) & PTE_D != 0;
  }

  lemma ZeroPageInsert(s: State, p: nat)
    requires Inv(s) && 1 in s.spaces && s.free != [] && Mappable(s, p) && Ref(s, p) == 1 && Pdx(0) < PDX_UTOP && Ptx(0) < ENTRIES
    ensures var r := Insert(s, 1, p, Pdx(0), Ptx(0), Plain(PTE_D));
            && r.Ok? && Inv(r.state) && r.state.spaces == s.spaces
            && Translate(r.state, 1, 0) == Some(Entry(p, PTE_D | PTE_V))
  {
    assert PTE_D & PTE_G == 0;
    hide Inv, Insert, Mappable, Lookup;
    InsertKeeps(s, 1, p, Pdx(0), Ptx(0), Plain(PTE_D));
  }

  lemma ZeroPageStep(s: State, p: nat)
    requires 0 in s.spaces && 1 in s.spaces && Translate(s, 0, UTEXT).Some? && Translate(s, 0, UTEXT).value.ppn == p && Ref(s, p) == 1
    ensures var op := OpIpc(0, UTEXT, 1, 0, Plain(PTE_D));
            Allowed(s, op) && Step(s, op) == Insert(s, 1, p, Pdx(0), Ptx(0), Plain(PTE_D)).state
  {
    assert PTE_D & PTE_G == 0;
    hide Insert, Translate;
  }

  // ----- as many mappings of one page as the count can hold, and one more

  /** The j-th page after UTEXT. */
  function Place(j: nat): Addr
    requires j < REF_LIMIT
  {
    UTEXT + j * BY2PG
  }

  lemma PlaceIs(j: nat)
    requires j < REF_LIMIT
    ensures !IllegalVa(Place(j)) && Pdx(Place(j)) == 1 + j / ENTRIES < PDX_UTOP && Ptx(Place(j)) == j % ENTRIES
    ensures j == 0 ==> Place(j) == UTEXT
  {
    assert Place(j) / BY2PG == 1024 + j;
    assert Place(j) / PDMAP == Place(j) / BY2PG / ENTRIES;
  }

  /** Environment 0 has one page at UTEXT and at the k - 1 places after it, and memory for the tables to come. */
  ghost predicate Copies(s: State, k: nat) {
    && Inv(s) && 0 in s.spaces && 1 <= k < REF_LIMIT
    && Translate(s, 0, UTEXT).Some? && Ref(s, Translate(s, 0, UTEXT).value.ppn) == k
    && IsValid(Word(s, s.spaces[0], Pdx(Place(k - 1))))
    && |s.free| + (k + 1023) / ENTRIES >= 65
    && (forall j: nat :: k <= j < REF_LIMIT ==> Translate(s, 0, Place(j)) == None)
  }

  function MapAt(j: nat): Op
    requires j < REF_LIMIT
  {
    OpMap(0, UTEXT, 0, Place(j), Plain(0))
  }

  /** What page_insert at an unmapped place does to free memory: only a table takes a page. */
  lemma InsertFree(s: State, p: nat, i: nat, j: nat, perm: Perm)
    requires 0 in s.spaces && Lookup(s, s.spaces[0], i, j) == None && Insert(s, 0, p, i, j, perm).Ok?
    ensures |Insert(s, 0, p, i, j, perm).state.free| >= |s.free| - (if IsValid(Word(s, s.spaces[0], i)) then 0 else 1)
  {
    hide Lookup, OrPage;
    assert Remove(s, 0, i, j) == s;
  }

  /** And to the count. */
  lemma InsertCounts(s: State, p: nat, i: nat, j: nat, perm: Perm)
    requires Inv(s) && 0 in s.spaces && i < PDX_UTOP && j < ENTRIES && Mappable(s, p)
    requires IsValid(Word(s, s.spaces[0], i)) || s.free != []
    requires Lookup(s, s.spaces[0], i, j) == None && Ref(s, p) + 1 < REF_LIMIT && perm.hi == 0
    ensures var r := Insert(s, 0, p, i, j, perm); r.Ok? && Ref(r.state, p) == Ref(s, p) + 1
  {
    hide Inv, Mappable, Insert, WalkCreate, OrPage, Lookup, Word;
    if IsValid(Word(s, s.spaces[0], i)) {
      InsertRaises(s, 0, p, i, j, perm);
    } else {
      InsertAfterWalk(s, 0, p, i, j, perm);
      InsertRaises(WalkCreate(s, s.spaces[0], i).state, 0, p, i, j, perm);
    }
  }

  lemma OneMore(s: State, k: nat)
    requires Copies(s, k) && k + 1 < REF_LIMIT
    ensures Allowed(s, MapAt(k)) && Copies(Step(s, MapAt(k)), k + 1)
  {
    hide Inv, Translate, MemMap, Place;
    var t := MemMap(s, 0, UTEXT, 0, Place(k), Plain(0)).state;
    OneMoreCounts(s, k);
    assert RoomFor(s, 0, UTEXT, 0, Place(k)) && KeepsPage(s, 0, UTEXT, Plain(0));
    MemMapShares(s, 0, UTEXT, 0, Place(k), Plain(0));
    WalkFindsTable(t, Place(k));
    Apart(k);
    forall j: nat | k + 1 <= j < REF_LIMIT ensures Translate(t, 0, Place(j)) == None {
      PlaceIs(j);
    }
    PlaceIs(0);
  }

  lemma WalkFindsTable(s: State, va: Addr)
    requires 0 in s.spaces && Translate(s, 0, va).Some?
    ensures IsValid(Word(s, s.spaces[0], Pdx(va)))
  {
  }

  /** The places are different pages. */
  lemma Apart(k: nat)
    requires 1 <= k < REF_LIMIT
    ensures Vpn(UTEXT) != Vpn(Place(k)) && forall j: nat :: j < REF_LIMIT && Vpn(Place(j)) == Vpn(Place(k)) ==> j == k
  {
    assert forall j: nat :: j < REF_LIMIT ==> Vpn(Place(j)) == 1024 + j;
  }

  lemma OneMoreCounts(s: State, k: nat)
    requires Copies(s, k) && k + 1 < REF_LIMIT
    ensures var r := MemMap(s, 0, UTEXT, 0, Place(k), Plain(0));
            && r.code == 0 && 0 in r.state.spaces && Ref(r.state, Translate(s, 0, UTEXT).value.ppn) == k + 1
            && |r.state.free| + (k + 1024) / ENTRIES >= 65
  {
    var p := Translate(s, 0, UTEXT).value.ppn;
    PlaceIs(k);
    PlaceIs(k - 1);
    PlaceIs(0);
    TranslatedMappable(s, 0, UTEXT);
    hide Inv, Insert, OrPage, Place;
    assert k % ENTRIES != 0 ==> Pdx(Place(k)) == Pdx(Place(k - 1));
    InsertCounts(s, p, Pdx(Place(k)), Ptx(Place(k)), Plain(0));
    InsertFree(s, p, Pdx(Place(k)), Ptx(Place(k)), Plain(0));
  }

  function MapOps(k: nat, n: nat): seq<Op>
    requires k <= n <= REF_LIMIT
    decreases n - k
  {
    if k == n then [] else [MapAt(k)] + MapOps(k + 1, n)
  }

  lemma {:induction false} MapsRun(s: State, k: nat, n: nat)
    requires Copies(s, k) && k <= n < REF_LIMIT
    ensures RunAllowed(s, MapOps(k, n)) && Copies(Run(s, MapOps(k, n)), n)
    decreases n - k
  {
    hide Copies, Allowed, Step, Run, RunAllowed;
    if k == n {
      RunNone(s);
    } else {
      OneMore(s, k);
      MapsRun(Step(s, MapAt(k)), k + 1, n);
      RunOne(s, MapAt(k), MapOps(k + 1, n));
    }
  }

  /** The first mapping, by sys_mem_alloc in an environment without any. */
  lemma FirstCopy(s: State)
    requires Inv(s) && 0 in s.spaces && |s.free| >= 66
    requires forall j: nat :: j < REF_LIMIT ==> Translate(s, 0, Place(j)) == None
    ensures var op := OpAlloc(0, UTEXT, Plain(PTE_D)); Allowed(s, op) && Copies(Step(s, op), 1)
  {
    assert PTE_D & PTE_G == 0;
    var t := MemAlloc(s, 0, UTEXT, Plain(PTE_D)).state;
    PlaceIs(0);
    FirstCounts(s);
    MemAllocFresh(s, 0, UTEXT, Plain(PTE_D));
    hide Inv, Translate, MemAlloc, Place;
    WalkFindsTable(t, UTEXT);
    forall j: nat | 1 <= j < REF_LIMIT ensures Translate(t, 0, Place(j)) == None {
      PlaceIs(j);
      Apart(j);
    }
  }

  lemma FirstCounts(s: State)
    requires Inv(s) && 0 in s.spaces && |s.free| >= 2 && Translate(s, 0, UTEXT) == None
    ensures var r := MemAlloc(s, 0, UTEXT, Plain(PTE_D));
            r.code == 0 && Ref(r.state, s.free[0]) == 1 && |r.state.free| >= |s.free| - 2
  {
    var i, j := Pdx(UTEXT), Ptx(UTEXT);
    PlaceIs(0);
    AllocKeeps(s);
    hide Inv, Mappable, Insert, OrPage;
    assert Lookup(Alloc(s), s.spaces[0], i, j) == Lookup(s, s.spaces[0], i, j);
    hide Lookup, Word;
    InsertCounts(Alloc(s), s.free[0], i, j, Plain(PTE_D));
    InsertFree(Alloc(s), s.free[0], i, j, Plain(PTE_D));
  }

  /** With 65535 mappings in place, allowed one after the other, the next wraps the count to 0. */
  lemma WrapReached(s: State, last: nat)
    requires Copies(s, 1) && last == REF_LIMIT - 1
    ensures RunAllowed(s, MapOps(1, last)) && !Counted(Step(Run(s, MapOps(1, last)), MapAt(last)))
  {
    MapsRun(s, 1, last);
    hide RunAllowed, Run;
    LastMap(Run(s, MapOps(1, last)), last);
  }

  lemma LastMap(s: State, k: nat)
    requires Copies(s, k) && k == REF_LIMIT - 1
    ensures !Counted(Step(s, MapAt(k)))
  {
    hide Inv, Insert, OrPage, Place, Counted, Lookup, Word, Mappable;
    var p := Translate(s, 0, UTEXT).value.ppn;
    PlaceIs(k);
    PlaceIs(k - 1);
    PlaceIs(0);
    TranslatedMappable(s, 0, UTEXT);
    CountExactIff(s, 0, p, Pdx(Place(k)), Ptx(Place(k)), Plain(0));
    MapAtIs(s, k);
  }

  lemma MapAtIs(s: State, k: nat)
    requires 0 in s.spaces && k < REF_LIMIT && Translate(s, 0, UTEXT).Some?
    ensures Step(s, MapAt(k)) ==
              Insert(s, 0, Translate(s, 0, UTEXT).value.ppn, Pdx(Place(k)), Ptx(Place(k)), Plain(0)).state
  {
    hide Insert, Place, Translate;
    PlaceIs(0);
    PlaceIs(k);
  }

  lemma BootCopies(boot: State)
    requires AfterBoot(boot) && |boot.free| >= 67
    ensures Allowed(boot, OpEnv(Some(0)))
    ensures var s, page := Step(boot, OpEnv(Some(0))), OpAlloc(0, UTEXT, Plain(PTE_D));
            Allowed(s, page) && Copies(Step(s, page), 1)
  {
    BootKeeps(boot);
    hide Inv, Step, Allowed, Copies, Translate;
    EnvIsNew(boot, 0);
    var s := Step(boot, OpEnv(Some(0)));
    forall j: nat | j < REF_LIMIT ensures Translate(s, 0, Place(j)) == None {
      PlaceIs(j);
    }
    FirstCopy(s);
  }

  /** So the count goes wrong on a run from boot, every step of which was allowed but the last. */
  lemma WrapFromBoot(boot: State, last: nat)
    requires AfterBoot(boot) && |boot.free| >= 67 && last == REF_LIMIT - 1
    ensures var ops := [OpEnv(Some(0)), OpAlloc(0, UTEXT, Plain(PTE_D))] + MapOps(1, last);
            RunAllowed(boot, ops) && !Counted(Step(Run(boot, ops), MapAt(last)))
  {
    hide AfterBoot, Step, Run, RunAllowed, Allowed, Copies, MapOps, Counted;
    BootCopies(boot);
    var env, page := OpEnv(Some(0)), OpAlloc(0, UTEXT, Plain(PTE_D));
    var s, maps := Step(boot, env), MapOps(1, last);
    WrapReached(Step(s, page), last);
    RunOne(s, page, maps);
    RunOne(boot, env, [page] + maps);
    assert [env, page] + maps == [env] + ([page] + maps);
  }
}
