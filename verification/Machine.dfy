/**
  The memory and the scheduler of one kernel: an environment has an address space exactly
  while it has an ASID, so each part finds what it takes for granted about the other.
*/
module Machine {
  import opened Errors
  import opened Mmu
  import Vm
  import VmRefs
  import VmSpaces
  import VmStores
  import VmCalls
  import Sched
  import SchedInv
  import SchedRuns

  datatype State = State(m: Vm.State, s: Sched.State)

  ghost predicate Good(t: State, l: seq<nat>) {
    VmRefs.Inv(t.m) && SchedInv.Running(t.s, l) && t.m.spaces.Keys == t.s.asids
  }

  datatype Op =
    | Fork                                // sys_exofork
    | Destroy(envid: nat, zero: bool)     // sys_env_destroy
    | Enter(entry: Sched.Op)              // another entry of the scheduler
    | Memory(call: VmCalls.Op)           // another memory call, fault or store

  /** The state after an operation; None when the machine stops. */
  function Step(t: State, op: Op): Option<State>
    requires Sched.Sized(t.s) && t.s.cur.Some?
  {
    match op
    case Fork => ForkStep(t)
    case Destroy(envid, zero) =>
      (match Sched.SysEnvDestroy(t.s, envid, zero).out
       case Halt => None
       case Go(u) =>
         match Sched.Envid2env(t.s, envid, true)
         case None => Some(t)
         case Some(e) =>
           var a := t.s.envs[e].asid;
           Some(State(if a in t.m.spaces then Vm.Free(t.m, a) else t.m, u)))
    case Enter(o) => (match Sched.Step(t.s, o) case Halt => None case Go(u) => Some(State(t.m, u)))
    case Memory(o) => Some(State(VmCalls.Step(t.m, o), t.s))
  }

  /** env_alloc asks for memory with env_setup_vm and then for an ASID. */
  function ForkStep(t: State): Option<State>
    requires Sched.Sized(t.s) && t.s.cur.Some?
  {
    match Sched.Exofork(t.s, t.m.free != []).out
    case Halt => None
    case Go(u) =>
      Some(State(if t.s.free == [] then t.m else VmCalls.EnvAlloc(t.m, Sched.AsidAlloc(t.s.asids, 0)).state, u))
  }

  /** The conditions of both parts, but none about ASIDs. */
  ghost predicate Allowed(t: State, op: Op)
    requires Sched.Sized(t.s) && t.s.cur.Some?
  {
    match op
    case Fork => true
    case Destroy(envid, zero) => SchedRuns.Allowed(t.s, Sched.Destroy(envid, zero))
    case Enter(o) => !o.Fork? && !o.Destroy? && SchedRuns.Allowed(t.s, o)
    case Memory(o) => !o.OpEnv? && !o.OpFree? && VmCalls.Allowed(t.m, o)
  }

  lemma ForkKeeps(t: State, l: seq<nat>)
    requires Good(t, l)
    ensures Sched.Sized(t.s) && t.s.cur.Some? && ForkStep(t).Some? && Good(ForkStep(t).value, l)
    ensures t.s.free != [] && t.m.free != [] ==>
              var asid := Sched.AsidAlloc(t.s.asids, 0);
              VmCalls.Allowed(t.m, VmCalls.OpEnv(asid)) && VmCalls.EnvAlloc(t.m, asid).code == ErrorOnly(Sched.Exofork(t.s, true).code)
  {
    hide SchedInv.Good, VmRefs.Inv, Sched.Mkenvid, Vm.Setup, VmSpaces.InstallDir, Vm.Alloc, Sched.AsidAlloc;
    var asid := Sched.AsidAlloc(t.s.asids, 0);
    SchedInv.HeadRuns(t.s, l);
    SchedInv.ForkKeeps(t.s, l, t.m.free != []);
    SchedInv.AsidAllocIs(t.s.asids, 0);
    VmCalls.EnvKeeps(t.m, asid);
    if asid.Some? {
      VmSpaces.SetupKeeps(t.m, asid.value);
      NeedsPage(t.m, asid.value);
      assert t.m.free != [] ==> VmCalls.EnvAlloc(t.m, asid).state.spaces.Keys == t.m.spaces.Keys + {asid.value};
    } else {
      NoDirectory(t.m);
    }
  }

  lemma NeedsPage(m: Vm.State, a: nat)
    ensures Vm.Setup(m, a).Ok? <==> m.free != []
  {
    hide Vm.Word;
  }

  lemma NoDirectory(m: Vm.State)
    ensures VmCalls.EnvAlloc(m, None).state.spaces == m.spaces
    ensures VmCalls.EnvAlloc(m, None).code == if m.free == [] then -E_NO_MEM else -E_NO_FREE_ENV
  {
    hide VmSpaces.InstallDir;
  }

  /** sys_exofork returns the id where env_alloc returns 0. */
  function ErrorOnly(code: int): int {
    if code < 0 then code else 0
  }

  /** The target has an address space, and loses it with its ASID. */
  lemma DestroyKeeps(t: State, l: seq<nat>, envid: nat, zero: bool)
    requires Good(t, l) && Allowed(t, Destroy(envid, zero)) && Step(t, Destroy(envid, zero)).Some?
    ensures Good(Step(t, Destroy(envid, zero)).value, SchedRuns.ListAfter(t.s, l, Sched.Destroy(envid, zero)))
    ensures var e := Sched.Envid2env(t.s, envid, true); e.Some? ==> t.s.envs[e.value].asid in t.m.spaces
  {
    SchedRuns.StepKeeps(t.s, l, Sched.Destroy(envid, zero));
    var e := Sched.Envid2env(t.s, envid, true);
    if e.Some? {
      var a := t.s.envs[e.value].asid;
      LiveAsid(t.s, l, envid);
      DestroyAsids(t.s, e.value, zero);
      hide SchedInv.Running, VmRefs.Inv, Sched.EnvDestroy;
      VmSpaces.FreeKeeps(t.m, a);
      assert Vm.Free(t.m, a).spaces.Keys == t.m.spaces.Keys - {a};
    }
  }

  /** Whoever envid2env finds is in use, and so is the ASID. */
  lemma LiveAsid(s: Sched.State, l: seq<nat>, envid: nat)
    requires SchedInv.Running(s, l) && Sched.Envid2env(s, envid, true).Some?
    ensures var e := Sched.Envid2env(s, envid, true).value;
            e < Sched.NENV && s.envs[e].status != Sched.FREE && s.envs[e].asid in s.asids
  {
    SchedInv.HeadRuns(s, l);
  }

  lemma DestroyAsids(s: Sched.State, e: nat, zero: bool)
    requires Sched.Sized(s) && e < Sched.NENV && Sched.EnvDestroy(s, e, zero).Go?
    ensures Sched.EnvDestroy(s, e, zero).s.asids == s.asids - {s.envs[e].asid}
  {
    ScheduleAsids(Sched.EnvFree(s, e).(cur := None), true);
  }

  lemma ScheduleAsids(s: Sched.State, yielding: bool)
    requires Sched.Sized(s)
    ensures Sched.Schedule(s, yielding).Go? ==> Sched.Schedule(s, yielding).s.asids == s.asids
  {
  }

  lemma EnterAsids(s: Sched.State, op: Sched.Op)
    requires Sched.Sized(s) && s.cur.Some? && !op.Fork? && !op.Destroy? && Sched.Step(s, op).Go?
    ensures Sched.Step(s, op).s.asids == s.asids
  {
  }

  lemma InsertSpaces(m: Vm.State, a: nat, p: nat, i: nat, j: nat, perm: Perm)
    requires a in m.spaces
    ensures Vm.Insert(m, a, p, i, j, perm).state.spaces == m.spaces
  {
    hide Vm.Lookup, Vm.Word, OrPage;
  }

  /** No other call creates or ends an address space. */
  lemma CallSpaces(m: Vm.State, op: VmCalls.Op)
    requires !op.OpEnv? && !op.OpFree?
    ensures VmCalls.Step(m, op).spaces == m.spaces
  {
    hide Vm.Insert, Vm.Lookup, Vm.Word, Pdx, Ptx, OrPage;
    if op.a in m.spaces {
      match op {
        case OpAlloc(a, va, perm) =>
          if m.free != [] {
            InsertSpaces(Vm.Alloc(m), a, m.free[0], Pdx(va), Ptx(va), perm);
          }
        case OpMap(a, va, b, vb, perm) =>
          if b in m.spaces && VmStores.Translate(m, a, va).Some? {
            InsertSpaces(m, b, VmStores.Translate(m, a, va).value.ppn, Pdx(vb), Ptx(vb), perm);
          }
        case OpIpc(a, va, b, vb, perm) =>
          if b in m.spaces && VmStores.Translate(m, a, va).Some? {
            InsertSpaces(m, b, VmStores.Translate(m, a, va).value.ppn, Pdx(vb), Ptx(vb), perm);
          }
        case OpRefill(a, va, evicted) =>
          if m.free != [] {
            InsertSpaces(Vm.Alloc(m), a, m.free[0], Pdx(va), Ptx(va), Plain(PTE_D));
          }
        case _ =>
      }
    }
  }

  lemma StepKeeps(t: State, l: seq<nat>, op: Op) returns (m: seq<nat>)
    requires Good(t, l) && Allowed(t, op) && Step(t, op).Some?
    ensures Good(Step(t, op).value, m)
  {
    m := l;
    match op {
      case Fork => ForkKeeps(t, l);
      case Destroy(envid, zero) =>
        DestroyKeeps(t, l, envid, zero);
        m := SchedRuns.ListAfter(t.s, l, Sched.Destroy(envid, zero));
      case Enter(o) =>
        SchedRuns.StepKeeps(t.s, l, o);
        EnterAsids(t.s, o);
        m := SchedRuns.ListAfter(t.s, l, o);
      case Memory(o) =>
        VmCalls.StepKeeps(t.m, o);
        CallSpaces(t.m, o);
    }
  }

  function Run(t: State, ops: seq<Op>): Option<State>
    decreases ops
  {
    if ops == [] then Some(t)
    else if !Sched.Sized(t.s) || t.s.cur == None then None
    else match Step(t, ops[0]) case None => None case Some(u) => Run(u, ops[1..])
  }

  ghost predicate RunAllowed(t: State, ops: seq<Op>)
    decreases ops
  {
    ops != [] ==>
      && Sched.Sized(t.s) && t.s.cur.Some? && Allowed(t, ops[0])
      && (Step(t, ops[0]).Some? ==> RunAllowed(Step(t, ops[0]).value, ops[1..]))
  }

  /** Over every run both invariants hold, and the address spaces are those of the ASIDs in use. */
  lemma {:induction false} RunKeeps(t: State, l: seq<nat>, ops: seq<Op>) returns (m: seq<nat>)
    requires Good(t, l) && RunAllowed(t, ops) && Run(t, ops).Some?
    ensures Good(Run(t, ops).value, m)
    decreases ops
  {
    hide Good, Allowed, Step;
    if ops == [] {
      m := l;
    } else {
      m := StepKeeps(t, l, ops[0]);
      m := RunKeeps(Step(t, ops[0]).value, m, ops[1..]);
    }
  }

  // ----- what each part sees of a run

  /** The kernel entry the scheduler sees, if there is one. */
  function Entry(t: State, op: Op): seq<Sched.Op> {
    match op
    case Fork => [Sched.Fork(t.m.free != [])]
    case Destroy(envid, zero) => [Sched.Destroy(envid, zero)]
    case Enter(o) => [o]
    case Memory(_) => []
  }

  /** The memory call: env_alloc and env_free come with an environment. */
  function Call(t: State, op: Op): seq<VmCalls.Op>
    requires Sched.Sized(t.s) && t.s.cur.Some?
  {
    match op
    case Fork => if t.s.free == [] then [] else [VmCalls.OpEnv(Sched.AsidAlloc(t.s.asids, 0))]
    case Destroy(envid, zero) =>
      (match Sched.Envid2env(t.s, envid, true) case None => [] case Some(e) => [VmCalls.OpFree(t.s.envs[e].asid)])
    case Enter(_) => []
    case Memory(o) => [o]
  }

  function Entries(t: State, ops: seq<Op>): seq<Sched.Op>
    decreases ops
  {
    if ops == [] || !Sched.Sized(t.s) || t.s.cur == None then []
    else Entry(t, ops[0]) + match Step(t, ops[0]) case None => [] case Some(u) => Entries(u, ops[1..])
  }

  function Calls(t: State, ops: seq<Op>): seq<VmCalls.Op>
    decreases ops
  {
    if ops == [] || !Sched.Sized(t.s) || t.s.cur == None then []
    else Call(t, ops[0]) + match Step(t, ops[0]) case None => [] case Some(u) => Calls(u, ops[1..])
  }

  lemma StepProjects(t: State, l: seq<nat>, op: Op)
    requires Good(t, l) && Allowed(t, op) && Step(t, op).Some?
    ensures var u := Step(t, op).value;
            && (if op.Memory? then u.s == t.s else Sched.Step(t.s, Entry(t, op)[0]) == Sched.Go(u.s))
            && (if Call(t, op) == [] then u.m == t.m
                else VmCalls.Allowed(t.m, Call(t, op)[0]) && u.m == VmCalls.Step(t.m, Call(t, op)[0]))
  {
    hide VmRefs.Inv, SchedInv.Good, Sched.Mkenvid, Vm.Free;
    match op {
      case Fork =>
        ForkAsid(t, l);
      case Destroy(envid, zero) => DestroyKeeps(t, l, envid, zero);
      case _ =>
    }
  }

  /** env_alloc asks for an ASID that no address space has. */
  lemma ForkAsid(t: State, l: seq<nat>)
    requires Good(t, l)
    ensures VmCalls.Allowed(t.m, VmCalls.OpEnv(Sched.AsidAlloc(t.s.asids, 0)))
  {
    hide SchedInv.Good, VmRefs.Inv;
    SchedInv.AsidAllocIs(t.s.asids, 0);
  }

  lemma {:induction false} RunJoins(s: Sched.State, first: seq<Sched.Op>, t: Sched.State, rest: seq<Sched.Op>)
    requires |first| <= 1 && Sched.Sized(s) && s.cur.Some?
    requires if first == [] then t == s else Sched.Step(s, first[0]) == Sched.Go(t)
    ensures SchedRuns.Run(s, first + rest) == SchedRuns.Run(t, rest)
  {
    hide Sched.Step, Sched.Sized;
    if first == [] {
      assert first + rest == rest;
    } else {
      assert (first + rest)[0] == first[0] && (first + rest)[1..] == rest;
    }
  }

  lemma {:induction false} CallsJoin(m: Vm.State, first: seq<VmCalls.Op>, u: Vm.State, rest: seq<VmCalls.Op>)
    requires |first| <= 1 && VmCalls.RunAllowed(u, rest)
    requires if first == [] then u == m else VmCalls.Allowed(m, first[0]) && u == VmCalls.Step(m, first[0])
    ensures VmCalls.RunAllowed(m, first + rest) && VmCalls.Run(m, first + rest) == VmCalls.Run(u, rest)
  {
    hide VmCalls.Step, VmCalls.Allowed;
    if first == [] {
      assert first + rest == rest;
    } else {
      assert (first + rest)[0] == first[0] && (first + rest)[1..] == rest;
    }
  }

  /**
    Each part sees a run of its own: the scheduler the kernel entries, and the memory the calls, where env_alloc and
    env_free now come with the ASIDs the scheduler chose. So what is proved of the parts' runs holds of the whole.
  */
  lemma {:induction false} RunProjects(t: State, l: seq<nat>, ops: seq<Op>)
    requires Good(t, l) && RunAllowed(t, ops) && Run(t, ops).Some?
    ensures var u := Run(t, ops).value;
            && SchedRuns.Run(t.s, Entries(t, ops)) == Sched.Go(u.s)
            && VmCalls.RunAllowed(t.m, Calls(t, ops)) && VmCalls.Run(t.m, Calls(t, ops)) == u.m
    decreases ops
  {
    hide Allowed, Step, Entry, Call, VmRefs.Inv, SchedInv.Good;
    if ops != [] {
      var m := StepKeeps(t, l, ops[0]);
      var u := Step(t, ops[0]).value;
      RunProjects(u, m, ops[1..]);
      StepProjects(t, l, ops[0]);
      OneEach(t, ops[0]);
      RunJoins(t.s, Entry(t, ops[0]), u.s, Entries(u, ops[1..]));
      CallsJoin(t.m, Call(t, ops[0]), u.m, Calls(u, ops[1..]));
    }
  }

  lemma OneEach(t: State, op: Op)
    requires Sched.Sized(t.s) && t.s.cur.Some?
    ensures |Entry(t, op)| <= 1 && |Call(t, op)| <= 1 && (Entry(t, op) == [] <==> op.Memory?)
  {
  }

  /** From boot, with one environment created and started. */
  lemma BootGood(m: Vm.State, pri: nat)
    requires VmCalls.AfterBoot(m) && m.free != [] && pri >= 1
    ensures var s := SchedRuns.EnvCreate(Sched.Init(), pri);
            && Sched.Sized(s) && Sched.Schedule(s, true).Go?
            && Good(State(VmCalls.EnvAlloc(m, Some(0)).state, Sched.Schedule(s, true).s), [0])
  {
    hide VmRefs.Inv, Sched.Schedule, SchedInv.Running, SchedRuns.EnvCreate, Sched.Init, Vm.Setup;
    SchedRuns.FirstStarted(pri);
    VmCalls.BootKeeps(m);
    VmSpaces.SetupKeeps(m, 0);
  }
}
