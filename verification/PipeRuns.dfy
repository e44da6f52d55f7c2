/**
  The pipe's close test on top of the scheduler: the switches that PipeClosed counts are the
  schedule calls of module Sched, and the number it compares is the kernel's env_runs.
*/
module PipeRuns {
  import opened Mmu
  import Queue
  import Sched
  import SchedInv
  import SchedRuns
  import SchedTurns
  import PipeClosed

  /** The kernel and the library calls of all environments. */
  datatype State = State(k: Sched.State, p: PipeClosed.State)

  datatype Event =
    | Kernel(op: Sched.Op)
    | Library(ev: PipeClosed.Event)

  /** Go, Close, Dup and Check are the library's own steps; the others come from the kernel. */
  predicate Own(ev: PipeClosed.Event) {
    ev.Go? || ev.Close? || ev.Dup? || ev.Check?
  }

  /** The environment destroyed by this step. */
  function Ended(k: Sched.State, op: Sched.Op): Option<nat>
    requires Sched.Sized(k) && k.cur.Some?
  {
    if op.Destroy? then Sched.Envid2env(k, op.envid, true) else None
  }

  /** The place the environment made by this step has. */
  function Made(k: Sched.State, op: Sched.Op): Option<nat>
    requires Sched.Sized(k) && k.cur.Some?
  {
    if op.Fork? && k.free != [] && Sched.Exofork(k, op.memory).code >= 0 then Some(k.free[0]) else None
  }

  /** What a kernel step does to descriptors and turns. */
  function Caused(k: Sched.State, op: Sched.Op): seq<PipeClosed.Event>
    requires Sched.Sized(k) && k.cur.Some? && Sched.Step(k, op).Go?
  {
    var t := Sched.Step(k, op).s;
    (if Ended(k, op).Some? then [PipeClosed.Exit(Ended(k, op).value)] else [])
    + (if Made(k, op).Some? then [PipeClosed.Fork(Made(k, op).value)] else [])
    + (if SchedRuns.Schedules(k, op) && t.cur.Some? then [PipeClosed.Switch(t.cur.value)] else [])
  }

  /**
    The same environment is running, the turns counted are env_runs modulo 2^32, and an
    environment not in use has no descriptors and is in no call.
  */
  ghost predicate Match(s: State) {
    && Sched.Sized(s.k) && s.k.cur == Some(s.p.cur)
    && (forall e: nat :: e < Sched.NENV && e !in s.k.free ==> s.k.envs[e].runs == PipeClosed.RunsOf(s.p, e) % Sched.WORD)
    && (forall e: nat :: e in s.k.free ==> Unused(s.p, e))
  }

  ghost predicate Unused(p: PipeClosed.State, e: nat) {
    PipeClosed.PcOf(p, e).Idle? && forall n: nat :: PipeClosed.Slot(e, n) !in p.fd && PipeClosed.Slot(e, n) !in p.data
  }

  /** A step of the library touches the running environment alone. */
  lemma OwnOnlyCur(p: PipeClosed.State, ev: PipeClosed.Event)
    requires Own(ev)
    ensures PipeClosed.OnlyCur(p, PipeClosed.Step(p, ev))
  {
    match ev {
      case Close(num) => ClosingOnlyCur(p, num, PipeClosed.Done);
      case Dup(from, to) => ClosingOnlyCur(p, to, PipeClosed.ThenDup(from));
      case _ =>
    }
    hide PipeClosed.BeginClose;
  }

  lemma ClosingOnlyCur(p: PipeClosed.State, num: nat, after: PipeClosed.After)
    ensures PipeClosed.OnlyCur(p, PipeClosed.BeginClose(p, num, after))
  {
  }

  lemma LibraryMatches(s: State, ev: PipeClosed.Event)
    requires Match(s) && Own(ev) && s.p.cur !in s.k.free
    ensures Match(s.(p := PipeClosed.Step(s.p, ev)))
  {
    var t := s.(p := PipeClosed.Step(s.p, ev));
    OwnOnlyCur(s.p, ev);
    hide PipeClosed.Step, Sched.Sized;
    forall e: nat | e in s.k.free ensures Unused(t.p, e) {
      assert Unused(s.p, e);
    }
  }

  /** Who is in use after a step. */
  lemma FreeAfter(k: Sched.State, l: seq<nat>, op: Sched.Op)
    requires SchedInv.Running(k, l) && Sched.Step(k, op).Go?
    ensures var t := Sched.Step(k, op).s;
            && (forall e: nat :: e in t.free <==> (e in k.free && Made(k, op) != Some(e)) || Ended(k, op) == Some(e))
            && (Made(k, op).Some? ==> Made(k, op).value < |t.envs| && t.envs[Made(k, op).value].runs == 0)
            && (Made(k, op).Some? ==> !SchedRuns.Schedules(k, op))
            && (Ended(k, op).Some? ==> Ended(k, op).value !in k.free && Ended(k, op).value < Sched.NENV)
  {
    hide Queue.Remove, Queue.InsertTail, Queue.Rep, Sched.AsidAlloc, Sched.Mkenvid, SchedInv.AsidsOk;
    if op.Fork? && k.free != [] {
      assert k.free == [k.free[0]] + k.free[1..];
    }
  }

  /** The events a kernel step causes, one after the other. */
  lemma CausedIs(k: Sched.State, op: Sched.Op, p: PipeClosed.State)
    requires Sched.Sized(k) && k.cur.Some? && Sched.Step(k, op).Go?
    ensures var t := Sched.Step(k, op).s;
            var q := match Ended(k, op) case Some(e) => PipeClosed.Step(p, PipeClosed.Exit(e)) case None => p;
            var r := match Made(k, op) case Some(c) => PipeClosed.Step(q, PipeClosed.Fork(c)) case None => q;
            PipeClosed.Run(p, Caused(k, op)) ==
            if SchedRuns.Schedules(k, op) && t.cur.Some? then PipeClosed.Step(r, PipeClosed.Switch(t.cur.value)) else r
  {
    hide Sched.Step, Sched.Sized, PipeClosed.Step, SchedRuns.Schedules, Sched.Exofork, Sched.Envid2env;
    RunSome(p, Caused(k, op));
  }

  lemma RunSome(p: PipeClosed.State, evs: seq<PipeClosed.Event>)
    requires |evs| <= 2
    ensures PipeClosed.Run(p, evs) ==
            if evs == [] then p
            else if |evs| == 1 then PipeClosed.Step(p, evs[0])
            else PipeClosed.Step(PipeClosed.Step(p, evs[0]), evs[1])
  {
    hide PipeClosed.Step;
    if |evs| > 0 {
      assert PipeClosed.Run(p, evs) == PipeClosed.Run(PipeClosed.Step(p, evs[0]), evs[1..]);
      if |evs| > 1 {
        assert evs[1..][1..] == [];
      }
    }
  }

  /** cur and all counts are kept, except c's, which starts again; only `moved` has other descriptors. */
  ghost predicate Kept(p: PipeClosed.State, q: PipeClosed.State, c: Option<nat>, moved: nat) {
    && q.cur == p.cur
    && (forall e: nat :: PipeClosed.RunsOf(q, e) == if c == Some(e) then 0 else PipeClosed.RunsOf(p, e))
    && (forall e: nat :: e != moved && Unused(p, e) ==> Unused(q, e))
  }

  lemma ExitFrame(p: PipeClosed.State, e: nat)
    ensures var q := PipeClosed.Step(p, PipeClosed.Exit(e)); Kept(p, q, None, e) && Unused(q, e)
  {
  }

  lemma ForkFrame(p: PipeClosed.State, c: nat)
    ensures Kept(p, PipeClosed.Step(p, PipeClosed.Fork(c)), Some(c), c)
  {
  }

  lemma SwitchFrame(p: PipeClosed.State, e: nat)
    ensures var q := PipeClosed.Step(p, PipeClosed.Switch(e));
            && q.cur == e
            && (forall f: nat :: PipeClosed.RunsOf(q, f) == PipeClosed.RunsOf(p, f) + if f == e then 1 else 0)
            && (forall f: nat :: Unused(p, f) ==> Unused(q, f))
  {
  }

  /** The descriptors and turns after a kernel step, but for its switch. */
  function BeforeSwitch(s: State, op: Sched.Op): PipeClosed.State
    requires Sched.Sized(s.k) && s.k.cur.Some?
  {
    var q := match Ended(s.k, op) case Some(e) => PipeClosed.Step(s.p, PipeClosed.Exit(e)) case None => s.p;
    match Made(s.k, op) case Some(c) => PipeClosed.Step(q, PipeClosed.Fork(c)) case None => q
  }

  lemma BeforeSwitchIs(s: State, l: seq<nat>, op: Sched.Op)
    requires Match(s) && SchedInv.Running(s.k, l) && Sched.Step(s.k, op).Go?
    ensures var r, t := BeforeSwitch(s, op), Sched.Step(s.k, op).s;
            && r.cur == s.p.cur
            && (forall e: nat :: PipeClosed.RunsOf(r, e) == if Made(s.k, op) == Some(e) then 0 else PipeClosed.RunsOf(s.p, e))
            && (forall e: nat :: e in t.free ==> Unused(r, e))
  {
    FreeAfter(s.k, l, op);
    hide Sched.Step, Sched.Sized, PipeClosed.Step, SchedInv.Running, PipeClosed.RunsOf, Unused, Made, Ended;
    if Ended(s.k, op).Some? {
      ExitFrame(s.p, Ended(s.k, op).value);
    }
    if Made(s.k, op).Some? {
      ForkFrame(s.p, Made(s.k, op).value);
      MadeAlone(s.k, op);
    }
  }

  lemma MadeAlone(k: Sched.State, op: Sched.Op)
    requires Sched.Sized(k) && k.cur.Some? && Made(k, op).Some?
    ensures Ended(k, op) == None
  {
  }

  /** The kernel's side of a step. */
  lemma CountAfter(k: Sched.State, l: seq<nat>, op: Sched.Op)
    requires SchedInv.Running(k, l) && SchedRuns.Allowed(k, op) && Sched.Step(k, op).Go?
    ensures var t := Sched.Step(k, op).s;
            && Sched.Sized(t) && t.cur.Some? && (!SchedRuns.Schedules(k, op) ==> t.cur == k.cur)
            && forall e: nat :: e < Sched.NENV && e !in t.free ==>
                 t.envs[e].runs == if Made(k, op) == Some(e) then 0
                                   else if SchedRuns.Schedules(k, op) && t.cur == Some(e) then (k.envs[e].runs + 1) % Sched.WORD
                                   else k.envs[e].runs
  {
    hide Queue.Rep, SchedInv.AsidsOk;
    var t := Sched.Step(k, op).s;
    SchedRuns.StepKeeps(k, l, op);
    FreeAfter(k, l, op);
    if !SchedRuns.Schedules(k, op) {
      SchedTurns.SwitchesOnly(k, op);
    }
    hide Sched.Step, SchedRuns.Schedules, Made, Ended, SchedRuns.Allowed;
    forall e: nat | e < Sched.NENV && e !in k.free ensures
      t.envs[e].runs == if SchedTurns.EndsIn(k, op, e) then (k.envs[e].runs + 1) % Sched.WORD else k.envs[e].runs
    {
      SchedTurns.RunsStep(k, op, e);
    }
  }

  lemma NextTurn(x: nat)
    ensures (x % Sched.WORD + 1) % Sched.WORD == (x + 1) % Sched.WORD
  {
  }

  /**
    Every kernel step, with what it causes, keeps the two in step: PipeClosed's Switch is
    the end of a schedule call, and its count is env_runs.
  */
  lemma KernelMatches(s: State, l: seq<nat>, op: Sched.Op)
    requires Match(s) && SchedInv.Running(s.k, l) && SchedRuns.Allowed(s.k, op) && Sched.Step(s.k, op).Go?
    ensures Match(State(Sched.Step(s.k, op).s, PipeClosed.Run(s.p, Caused(s.k, op))))
  {
    hide Sched.Step, PipeClosed.Step, PipeClosed.RunsOf, PipeClosed.Run, Unused, Made, Ended, SchedRuns.Schedules, SchedRuns.Allowed;
    hide SchedInv.Good, Caused;
    var t, r := Sched.Step(s.k, op).s, BeforeSwitch(s, op);
    CountAfter(s.k, l, op);
    FreeAfter(s.k, l, op);
    CausedIs(s.k, op, s.p);
    BeforeSwitchIs(s, l, op);
    SwitchFrame(r, t.cur.value);
    NextTurn(PipeClosed.RunsOf(s.p, t.cur.value));
  }

  // ----- runs

  /** Kernel steps as the scheduler allows them, library calls and descriptors as PipeClosed does. */
  ghost predicate Allowed(s: State, ev: Event)
    requires Sched.Sized(s.k) && s.k.cur.Some?
  {
    match ev
    case Kernel(op) =>
      && SchedRuns.Allowed(s.k, op) && Sched.Step(s.k, op).Go?
      && PipeClosed.RunAllowed(s.p, Caused(s.k, op))
    case Library(own) => Own(own) && PipeClosed.Allowed(s.p, own)
  }

  function Step(s: State, ev: Event): State
    requires Sched.Sized(s.k) && s.k.cur.Some?
  {
    match ev
    case Kernel(op) =>
      if Sched.Step(s.k, op).Go? then State(Sched.Step(s.k, op).s, PipeClosed.Run(s.p, Caused(s.k, op))) else s
    case Library(own) => s.(p := PipeClosed.Step(s.p, own))
  }

  /** Both invariants, and the two are in step. */
  ghost predicate Good(s: State) {
    SchedRuns.IsRunning(s.k) && PipeClosed.Inv(s.p) && Match(s)
  }

  lemma StepKeeps(s: State, ev: Event)
    requires Good(s) && Allowed(s, ev)
    ensures Good(Step(s, ev))
  {
    hide Unused, PipeClosed.Inv, SchedInv.Good, SchedRuns.Allowed, PipeClosed.Allowed, Sched.Step, PipeClosed.Step, PipeClosed.Run;
    var l :| SchedInv.Running(s.k, l);
    match ev {
      case Kernel(op) =>
        SchedRuns.StepKeeps(s.k, l, op);
        PipeClosed.RunKeeps(s.p, Caused(s.k, op));
        KernelMatches(s, l, op);
      case Library(own) =>
        CurInUse(s, l);
        PipeClosed.StepKeeps(s.p, own);
        LibraryMatches(s, own);
    }
  }

  lemma CurInUse(s: State, l: seq<nat>)
    requires SchedInv.Running(s.k, l) && Match(s)
    ensures s.p.cur !in s.k.free
  {
    SchedInv.HeadRuns(s.k, l);
  }

  function Run(s: State, evs: seq<Event>): State
    decreases evs
  {
    if evs == [] || !Sched.Sized(s.k) || s.k.cur == None then s else Run(Step(s, evs[0]), evs[1..])
  }

  ghost predicate RunAllowed(s: State, evs: seq<Event>)
    decreases evs
  {
    evs == [] || (Sched.Sized(s.k) && s.k.cur.Some? && Allowed(s, evs[0]) && RunAllowed(Step(s, evs[0]), evs[1..]))
  }

  lemma {:induction false} RunKeeps(s: State, evs: seq<Event>)
    requires Good(s) && RunAllowed(s, evs)
    ensures Good(Run(s, evs))
    decreases evs
  {
    hide Good, Allowed, Step;
    if evs != [] {
      StepKeeps(s, evs[0]);
      RunKeeps(Step(s, evs[0]), evs[1..]);
    }
  }

  /**
    In every such run, when _pipe_is_closed returns in the current environment, the env_runs it
    compared is the kernel's, and a yes means that the other end is open nowhere.
  */
  lemma SnapshotIsKernels(s: State, evs: seq<Event>)
    requires Good(s) && RunAllowed(s, evs)
    ensures var t := Run(s, evs);
            var pc := PipeClosed.PcOf(t.p, t.p.cur);
            && Good(t) && t.k.cur == Some(t.p.cur)
            && (pc.Again? ==> (PipeClosed.Returns(t.p) <==> pc.at % Sched.WORD == t.k.envs[t.p.cur].runs))
            && (PipeClosed.Returns(t.p) && Allowed(t, Library(PipeClosed.Go)) && PipeClosed.Answer(t.p) ==>
                  var mine := PipeClosed.Slot(t.p.cur, pc.num);
                  mine in t.p.fd && PipeClosed.Slots(t.p, PipeClosed.OtherEnd(t.p.fd[mine])) == {})
  {
    RunKeeps(s, evs);
    var t := Run(s, evs);
    hide Run, RunAllowed;
    var l :| SchedInv.Running(t.k, l);
    CurInUse(t, l);
    if PipeClosed.Returns(t.p) && Allowed(t, Library(PipeClosed.Go)) && PipeClosed.Answer(t.p) {
      PipeClosed.ClosedIsClosed(t.p);
    }
  }

  /** The running environment e has just made a pipe, with descriptors r and w. */
  lemma NewPipe(k: Sched.State, l: seq<nat>, e: nat, r: nat, w: nat)
    requires SchedInv.Running(k, l) && k.cur == Some(e) && r != w
    requires forall f: nat :: f < Sched.NENV ==> k.envs[f].runs < Sched.WORD
    ensures Good(State(k, PipeClosed.State(
      map[PipeClosed.Slot(e, r) := PipeClosed.ReadEnd, PipeClosed.Slot(e, w) := PipeClosed.WriteEnd],
      {PipeClosed.Slot(e, r), PipeClosed.Slot(e, w)}, e, map f: nat | f < Sched.NENV :: k.envs[f].runs, map[])))
  {
    var runs := map f: nat | f < Sched.NENV :: k.envs[f].runs;
    PipeClosed.NewPipe(e, r, w, runs);
    SchedInv.HeadRuns(k, l);
  }
}
