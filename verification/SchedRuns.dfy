/**
  Runs of the scheduler: safety from boot on, and bounded waiting.
*/
module SchedRuns {
  import opened Mmu
  import Queue
  import opened Sched
  import opened SchedInv

  /** Environments are destroyed within CanDestroy and without a fault, and statuses are set within CanSet. */
  predicate Allowed(s: State, op: Op)
    requires Sized(s) && s.cur.Some?
  {
    match op
    case Destroy(envid, zero) =>
      var e := Envid2env(s, envid, true);
      e.Some? ==> CanDestroy(s, e.value) && NoFault(s, e.value, zero)
    case Set(envid, status) =>
      var e := Envid2env(s, envid, false);
      status != FREE && e.Some? ==> CanSet(s, e.value, status)
    case _ => true
  }

  /** The runnable environments after a step, in order. */
  function ListAfter(s: State, l: seq<nat>, op: Op): seq<nat>
    requires Sized(s) && s.cur.Some? && l != []
  {
    match op
    case Tick => if s.count == 1 then Rotate(l) else l
    case Yield => Rotate(l)
    case Fork(memory) => l
    case Destroy(envid, zero) =>
      var e := Envid2env(s, envid, true);
      if e.Some? then Without(l, e.value) else l
    case Set(envid, status) =>
      var e := Envid2env(s, envid, false);
      if status != FREE && e.Some? then ListSet(s, l, e.value, status) else l
    case Recv(dstva) => if dstva == 0 || !IllegalVa(dstva) then l[1..] else l
    case Send(envid, value, srcva, mapped, perm) =>
      var e := Envid2env(s, envid, false);
      if (srcva == 0 || !IllegalVa(srcva)) && e.Some? && s.envs[e.value].recving then l + [e.value] else l
  }

  /**
    Every kernel entry leaves the queue equal to the runnable environments with a runnable
    one running at its head. It stops the machine only when nobody is left to run.
  */
  lemma StepKeeps(s: State, l: seq<nat>, op: Op)
    requires Running(s, l) && Allowed(s, op)
    ensures match Step(s, op) {
              case Go(t) => Running(t, ListAfter(s, l, op))
              case Halt => |l| == 1 && (op.Recv? || op.Destroy?)
            }
  {
    Queue.RepMembers(s.q, l);
    assert l[0] in l;
    match op {
      case Tick => ScheduleRunning(s, l, false);
      case Yield => ScheduleRunning(s, l, true);
      case Fork(memory) => ForkKeeps(s, l, memory);
      case Destroy(envid, zero) =>
        var e := Envid2env(s, envid, true);
        if e.Some? {
          DestroyKeeps(s, l, e.value, op.zero);
        }
      case Set(envid, status) =>
        var e := Envid2env(s, envid, false);
        if status != FREE && e.Some? {
          SetKeepsIff(s, l, envid, status);
        }
      case Recv(dstva) =>
        if dstva == 0 || !IllegalVa(dstva) {
          RecvKeeps(s, l, dstva);
        }
      case Send(envid, value, srcva, mapped, perm) => SendKeeps(s, l, envid, value, srcva, mapped, perm);
    }
  }

  // ----- boot

  /** env_create; the source ignores the case of no free environment or ASID. */
  function EnvCreate(s: State, pri: nat): State
    requires Sized(s) && s.free != [] && AsidAlloc(s.asids, 0).Some?
  {
    var e, asid := s.free[0], AsidAlloc(s.asids, 0).value;
    var env := s.envs[e].(runs := 0, id := Mkenvid(e, s.made), asid := asid, parent := 0, pri := pri, status := RUNNABLE);
    s.(envs := s.envs[e := env], asids := s.asids + {asid}, free := s.free[1..], made := (s.made + 1) % WORD,
       q := Queue.InsertHead(s.q, e))
  }

  lemma InitGood()
    ensures Good(Init(), []) && Init().cur == None
  {
    var s := Init();
    forall e: nat | e < NENV ensures e in s.free {
      assert s.free[e] == e;
    }
  }

  lemma EnvCreateGood(s: State, l: seq<nat>, pri: nat)
    requires Good(s, l) && s.cur == None && s.free != [] && AsidAlloc(s.asids, 0).Some? && pri >= 1
    ensures var t, e := EnvCreate(s, pri), s.free[0];
            && Good(t, [e] + l) && t.cur == None
            && t.envs[e].pri == pri && t.envs[e].parent == 0 && t.envs[e].runs == 0 && t.envs[e].asid !in s.asids
            && t.envs == s.envs[e := t.envs[e]]
  {
    var t, e := EnvCreate(s, pri), s.free[0];
    assert e in s.free;
    AsidAllocIs(s.asids, 0);
    ForkAsids(s, t, e, t.envs[e].asid);
    Queue.RepMembers(s.q, l);
    Queue.InsertHeadRep(s.q, l, e);
  }

  /** The first call of schedule starts the environment created last. */
  lemma FirstSchedule(s: State, l: seq<nat>, yielding: bool)
    requires Good(s, l) && s.cur == None && l != []
    ensures match Schedule(s, yielding) {
              case Go(t) => Running(t, l)
              case Halt => false
            }
  {
    RunFirstKeeps(s.(count := s.count - 1), l);
  }

  /** Some order of the runnable environments makes s a running state. */
  ghost predicate IsRunning(s: State) {
    exists l :: Running(s, l)
  }

  /**
    A parent that destroys a child it has just forked, for the first time in that slot: a
    panic, or with a page at address 0 a queue that has no last link any more.
  */
  lemma NewChildPanics(s: State, l: seq<nat>)
    requires Running(s, l) && s.free != [] && AsidAlloc(s.asids, 0).Some?
    requires s.q.prev[s.free[0]].Null? && s.q.next[s.free[0]] == None && Mkenvid(s.free[0], s.made) != 0
    ensures var r := Exofork(s, true);
            && r.code == Mkenvid(s.free[0], s.made)
            && r.out.Go? && Sized(r.out.s) && r.out.s.cur.Some?
            && SysEnvDestroy(r.out.s, r.code, false).out == Halt
            && (match SysEnvDestroy(r.out.s, r.code, true).out
                case Go(u) => u.q.last == Queue.Null && !IsRunning(u)
                case Halt => false)
  {
    var e, t := s.free[0], Exofork(s, true).out.s;
    assert e in s.free;
    HeadRuns(s, l);
    ForkKeeps(s, l, true);
    ChildId(e, s.made);
    assert Envid2env(t, t.envs[e].id, true) == Some(e);
    hide Good, EnvFree;
    NeverQueued(t, l, e);
    DestroyIdleIff(t, l, e, true);
  }

  lemma ChildId(e: nat, made: nat)
    requires e < NENV
    ensures Mkenvid(e, made) % NENV == e
  {
    assert 2048 * NENV * 2048 == WORD;
    var k := (made + 1) * 2048;
    assert k % WORD == k - k / WORD * WORD;
    assert k % WORD == NENV * (2 * (made + 1) - k / WORD * 0x40_0000);
  }

  // ----- runs

  function Run(s: State, ops: seq<Op>): Outcome
    decreases ops
  {
    if ops == [] then Go(s)
    else if !Sized(s) || s.cur == None then Halt
    else
      match Step(s, ops[0])
      case Go(t) => Run(t, ops[1..])
      case Halt => Halt
  }

  ghost predicate RunAllowed(s: State, ops: seq<Op>)
    decreases ops
  {
    ops != [] ==>
      && Sized(s) && s.cur.Some? && Allowed(s, ops[0])
      && match Step(s, ops[0]) case Go(t) => RunAllowed(t, ops[1..]) case Halt => true
  }

  lemma {:induction false} RunKeeps(s: State, l: seq<nat>, ops: seq<Op>)
    requires Running(s, l) && RunAllowed(s, ops)
    ensures Run(s, ops).Go? ==> IsRunning(Run(s, ops).s)
    decreases ops
  {
    assert l != [];
    hide Running;
    if ops != [] {
      StepKeeps(s, l, ops[0]);
      if Step(s, ops[0]).Go? {
        RunKeeps(Step(s, ops[0]).s, ListAfter(s, l, ops[0]), ops[1..]);
      }
    }
  }

  /** So the machine can be stopped two calls after boot, by any environment created there. */
  lemma BootThenPanic(pri: nat)
    requires pri >= 1
    ensures var s := EnvCreate(Init(), pri);
            && Sized(s) && Schedule(s, true).Go?
            && var t := Schedule(s, true).s;
               && Running(t, [0]) && Run(t, [Fork(true), Destroy(Mkenvid(1, 1), false)]) == Halt
               && (match Run(t, [Fork(true), Destroy(Mkenvid(1, 1), true)])
                   case Go(u) => !IsRunning(u)
                   case Halt => false)
  {
    FirstStarted(pri);
    hide EnvCreate, Init, Running, Good, Schedule, IsRunning;
    var t := Schedule(EnvCreate(Init(), pri), true).s;
    NewChildPanics(t, [0]);
    var u := Exofork(t, true).out.s;
    hide Exofork, SysEnvDestroy;
    RunTwo(t, u, Fork(true), Destroy(Mkenvid(1, 1), false));
    RunTwo(t, u, Fork(true), Destroy(Mkenvid(1, 1), true));
  }

  lemma FirstStarted(pri: nat)
    requires pri >= 1
    ensures var s := EnvCreate(Init(), pri);
            && Sized(s) && Schedule(s, true).Go?
            && var t := Schedule(s, true).s;
               && Running(t, [0]) && t.free != [] && t.free[0] == 1 && t.asids == {0} && t.made == 1
               && Sized(t) && t.cur.Some? && AsidAlloc(t.asids, 0).Some? && t.q.prev[1].Null? && t.q.next[1] == None
  {
    InitGood();
    EnvCreateGood(Init(), [], pri);
    var s := EnvCreate(Init(), pri);
    assert [0] + [] == [0];
    FirstSchedule(s, [0], true);
    var t := Schedule(s, true).s;
    assert t.free == s.free && t.asids == {0} && t.made == 1 && t.q == s.q;
    assert t.free[0] == 1;
  }

  lemma RunTwo(s: State, t: State, op: Op, last: Op)
    requires Sized(s) && s.cur.Some? && Step(s, op) == Go(t) && Sized(t) && t.cur.Some?
    ensures Run(s, [op, last]) == Step(t, last)
  {
    hide Step;
    assert [op, last][1..] == [last];
    assert Step(t, last).Go? ==> Run(Step(t, last).s, []) == Step(t, last);
    assert Run(t, [last]) == Step(t, last);
  }

  // ----- bounded waiting

  function Pri(s: State, e: nat): nat {
    if e < |s.envs| then s.envs[e].pri else 0
  }

  /** The slices of the environments before x in l. */
  function Ahead(s: State, l: seq<nat>, x: nat): nat {
    if l == [] || l[0] == x then 0 else Pri(s, l[0]) + Ahead(s, l[1..], x)
  }

  /** The slices that remain to be used before it is x's turn. */
  function Wait(s: State, l: seq<nat>, x: nat): int
    requires l != []
  {
    s.count + Ahead(s, l[1..], x)
  }

  /** Does this step enter schedule? */
  predicate Schedules(s: State, op: Op)
    requires Sized(s) && s.cur.Some?
  {
    match op
    case Tick => true
    case Yield => true
    case Recv(dstva) => dstva == 0 || !IllegalVa(dstva)
    case Destroy(envid, zero) => Envid2env(s, envid, true) == s.cur
    case _ => false
  }

  lemma {:induction false} AheadSame(s: State, t: State, l: seq<nat>, x: nat)
    requires forall i: nat :: i < |l| ==> Pri(t, l[i]) == Pri(s, l[i])
    ensures Ahead(t, l, x) == Ahead(s, l, x)
  {
    if l != [] {
      AheadSame(s, t, l[1..], x);
    }
  }

  lemma {:induction false} AheadAppend(s: State, l: seq<nat>, m: seq<nat>, x: nat)
    requires x in l
    ensures Ahead(s, l + m, x) == Ahead(s, l, x)
  {
    assert (l + m)[0] == l[0];
    if l[0] != x {
      assert (l + m)[1..] == l[1..] + m;
      AheadAppend(s, l[1..], m, x);
    }
  }

  lemma {:induction false} AheadWithout(s: State, l: seq<nat>, e: nat, x: nat)
    requires e != x
    ensures Ahead(s, Without(l, e), x) <= Ahead(s, l, x)
  {
    if l != [] && l[0] != e {
      AheadWithout(s, l[1..], e, x);
      assert Without(l, e)[1..] == Without(l[1..], e);
    }
  }

  /** The step is one x lives through without running. */
  ghost predicate PassedOver(s: State, l: seq<nat>, op: Op, x: nat) {
    && Running(s, l) && Allowed(s, op) && Step(s, op).Go?
    && x in l && x != l[0] && Step(s, op).s.cur != Some(x) && x in ListAfter(s, l, op)
  }

  /** s.count ticks down, or the next environment's priority is taken from those ahead. */
  lemma WaitSwitch(s: State, t: State, l: seq<nat>, op: Op, x: nat)
    requires PassedOver(s, l, op, x) && (op.Tick? || op.Yield?) && t == Step(s, op).s
    ensures ListAfter(s, l, op) != [] && Wait(t, ListAfter(s, l, op), x) < Wait(s, l, x)
  {
    SamePri(s, op);
    AheadSame(s, t, l[1..], x);
    ScheduleRunning(s, l, op.Yield?);
    hide Good, Schedule, Pri;
    assert x in l[1..];
    if op.Yield? || s.count == 1 {
      assert Rotate(l)[0] == l[1];
      RotateWait(t, l, x);
    }
  }

  /** None of these calls changes a priority. */
  lemma SamePri(s: State, op: Op)
    requires Sized(s) && s.cur.Some? && (op.Tick? || op.Yield? || op.Recv? || op.Destroy?) && Step(s, op).Go?
    ensures forall e :: Pri(Step(s, op).s, e) == Pri(s, e)
  {
    hide Queue.Remove, Queue.InsertTail;
  }

  lemma WaitRecv(s: State, t: State, l: seq<nat>, op: Op, x: nat)
    requires PassedOver(s, l, op, x) && op.Recv? && t == Step(s, op).s
    ensures ListAfter(s, l, op) != []
    ensures Wait(t, ListAfter(s, l, op), x) + (if Schedules(s, op) then 1 else 0) <= Wait(s, l, x)
  {
    if Schedules(s, op) {
      SamePri(s, op);
      RecvKeeps(s, l, op.dstva);
      hide Good, IpcRecv, Pri;
      AheadSame(s, t, l[1..], x);
      assert Pri(t, l[1]) == Pri(s, l[1]) == s.envs[l[1]].pri by { RecvPri(s, l, op, t); }
      assert l[1..][0] == l[1] != x;
    }
  }

  lemma RecvPri(s: State, l: seq<nat>, op: Op, t: State)
    requires Running(s, l) && |l| > 1 && Pri(t, l[1]) == Pri(s, l[1])
    ensures l[1] < NENV && Pri(s, l[1]) == s.envs[l[1]].pri && Pri(t, l[1]) == s.envs[l[1]].pri
  {
    Queue.RepMembers(s.q, l);
    assert l[1] in l;
  }

  lemma WaitDestroy(s: State, t: State, l: seq<nat>, op: Op, x: nat)
    requires PassedOver(s, l, op, x) && op.Destroy? && t == Step(s, op).s
    ensures ListAfter(s, l, op) != []
    ensures Wait(t, ListAfter(s, l, op), x) + (if Schedules(s, op) then 1 else 0) <= Wait(s, l, x)
  {
    var e := Envid2env(s, op.envid, true);
    if e.Some? {
      SamePri(s, op);
      DestroyKeeps(s, l, e.value, op.zero);
      QueueAfterFree(s, l, e.value);
      hide Good, EnvDestroy, Pri, CanDestroy, NoFault;
      AheadSame(s, t, l[1..], x);
      if e.value == l[0] {
        RecvPri(s, l, op, t);
        assert l[1..][0] == l[1] != x;
      } else {
        AheadWithout(t, l[1..], e.value, x);
        assert Without(l, e.value)[1..] == Without(l[1..], e.value);
      }
    }
  }

  /** These calls change no priority and no slice count. */
  lemma QueuedPri(s: State, l: seq<nat>, op: Op)
    requires Running(s, l) && (op.Set? || op.Send? || op.Fork?) && Step(s, op).Go?
    ensures var t := Step(s, op).s; t.count == s.count && forall e :: e in l ==> Pri(t, e) == Pri(s, e)
  {
    hide Queue.Rep, Queue.InsertTail, Queue.Remove, AsidAlloc, AsidsOk;
    if op.Fork? && s.free != [] {
      assert s.free[0] in s.free;
    }
  }

  lemma QueuedList(s: State, l: seq<nat>, op: Op, x: nat)
    requires PassedOver(s, l, op, x) && (op.Set? || op.Send? || op.Fork?)
    ensures Queued(l, ListAfter(s, l, op), x)
  {
    var m := ListAfter(s, l, op);
    if m != l {
      var e := Envid2env(s, op.envid, false).value;
      if m != l + [e] {
        SetTarget(s, l, e);
        RemoveElem(s.q, l, e);
      }
      hide Running, Step, Pri;
      assert m == l + [e] || (e != l[0] && e != x && m == Without(l, e));
    }
  }

  lemma SetTarget(s: State, l: seq<nat>, e: nat)
    requires Running(s, l) && e < NENV && s.envs[e].status == RUNNABLE
    ensures e in l
  {
  }

  lemma WaitQueued(s: State, t: State, l: seq<nat>, op: Op, x: nat)
    requires PassedOver(s, l, op, x) && (op.Set? || op.Send? || op.Fork?) && t == Step(s, op).s
    ensures ListAfter(s, l, op) != [] && Wait(t, ListAfter(s, l, op), x) <= Wait(s, l, x)
  {
    QueuedPri(s, l, op);
    StepKeeps(s, l, op);
    QueuedList(s, l, op, x);
    hide Step, Allowed, Good, Pri;
    var m := ListAfter(s, l, op);
    hide ListAfter, ListSet, Envid2env;
    AheadQueued(s, t, l, m, x);
  }

  /** The list after such a call: as it was, one more at the end, or one less. */
  ghost predicate Queued(l: seq<nat>, m: seq<nat>, x: nat)
    requires l != []
  {
    m == l || exists e :: m == l + [e] || (e != l[0] && e != x && m == Without(l, e))
  }

  lemma AheadQueued(s: State, t: State, l: seq<nat>, m: seq<nat>, x: nat)
    requires l != [] && x in l && x != l[0] && (forall e :: e in l ==> Pri(t, e) == Pri(s, e)) && Queued(l, m, x)
    ensures m != [] && Ahead(t, m[1..], x) <= Ahead(s, l[1..], x)
  {
    hide Pri;
    assert forall i: nat :: i < |l[1..]| ==> l[1..][i] in l;
    AheadSame(s, t, l[1..], x);
    if m != l {
      var e :| m == l + [e] || (e != l[0] && e != x && m == Without(l, e));
      if m == l + [e] {
        AheadAppend(t, l[1..], [e], x);
        assert m[1..] == l[1..] + [e];
      } else {
        AheadWithout(t, l[1..], e, x);
        assert m == [l[0]] + Without(l[1..], e);
        assert m[1..] == Without(l[1..], e);
      }
    }
  }

  /**
    One step brings a waiting environment nearer: a call of schedule either runs x or uses
    up at least one slice ahead of it, and no other call adds any.
  */
  lemma WaitShrinks(s: State, l: seq<nat>, op: Op, x: nat)
    requires PassedOver(s, l, op, x)
    ensures var t, m := Step(s, op).s, ListAfter(s, l, op);
            m != [] && Wait(t, m, x) + (if Schedules(s, op) then 1 else 0) <= Wait(s, l, x)
  {
    var t := Step(s, op).s;
    hide PassedOver, Wait;
    match op {
      case Tick => WaitSwitch(s, t, l, op, x);
      case Yield => WaitSwitch(s, t, l, op, x);
      case Recv(_) => WaitRecv(s, t, l, op, x);
      case Destroy(_, _) => WaitDestroy(s, t, l, op, x);
      case _ => WaitQueued(s, t, l, op, x);
    }
  }

  lemma RotateWait(s: State, l: seq<nat>, x: nat)
    requires |l| > 1 && x in l[1..] && l[1] != x
    ensures Pri(s, l[1]) + Ahead(s, Rotate(l)[1..], x) == Ahead(s, l[1..], x)
  {
    assert x in l[1..][1..];
    AheadAppend(s, l[2..], [l[0]], x);
    assert Rotate(l)[1..] == l[2..] + [l[0]];
    assert l[1..][1..] == l[2..];
  }

  /** x stays runnable through the run and is never the one running. */
  ghost predicate Waits(s: State, l: seq<nat>, ops: seq<Op>, x: nat)
    requires RunAllowed(s, ops)
    decreases ops
  {
    && x in l && s.cur != Some(x)
    && (ops != [] && l != [] && Step(s, ops[0]).Go? ==>
          Waits(Step(s, ops[0]).s, ListAfter(s, l, ops[0]), ops[1..], x))
  }

  /** The number of schedule calls in a run. */
  function Calls(s: State, ops: seq<Op>): nat
    decreases ops
  {
    if ops == [] || !Sized(s) || s.cur == None then 0
    else
      (if Schedules(s, ops[0]) then 1 else 0)
      + match Step(s, ops[0]) case Go(t) => Calls(t, ops[1..]) case Halt => 0
  }

  /**
    Bounded waiting: while x stays runnable without running, fewer schedule calls go by
    than the current environment's remaining slices plus the priorities of those ahead.
  */
  lemma {:induction false} BoundedWaiting(s: State, l: seq<nat>, ops: seq<Op>, x: nat)
    requires Running(s, l) && RunAllowed(s, ops) && Waits(s, l, ops, x) && Run(s, ops).Go?
    ensures Calls(s, ops) < Wait(s, l, x)
    decreases ops
  {
    if ops != [] {
      var t, m := Step(s, ops[0]).s, ListAfter(s, l, ops[0]);
      StepKeeps(s, l, ops[0]);
      assert Waits(t, m, ops[1..], x);
      BoundedWaiting(t, m, ops[1..], x);
      WaitShrinks(s, l, ops[0], x);
    }
  }
}
