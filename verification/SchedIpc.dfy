/**
  Exact time slices and exactly-once message delivery, over every run.
*/
module SchedIpc {
  import opened Mmu
  import Queue
  import opened Sched
  import opened SchedInv
  import opened SchedRuns

  // ----- time slices

  /** The running environment does not give up the processor. */
  predicate Keeps(s: State, op: Op)
    requires Sized(s) && s.cur.Some?
  {
    op.Tick? || !Schedules(s, op)
  }

  ghost predicate KeepsAll(s: State, ops: seq<Op>)
    decreases ops
  {
    ops != [] ==>
      && Sized(s) && s.cur.Some? && Keeps(s, ops[0])
      && match Step(s, ops[0]) case Go(t) => KeepsAll(t, ops[1..]) case Halt => true
  }

  lemma KeepStep(s: State, l: seq<nat>, op: Op)
    requires Running(s, l) && Allowed(s, op) && Keeps(s, op) && (op.Tick? ==> s.count > 1)
    ensures match Step(s, op) {
              case Go(t) => t.cur == s.cur && t.count == s.count - (if op.Tick? then 1 else 0)
              case Halt => false
            }
  {
    StepKeeps(s, l, op);
    Queue.RepMembers(s.q, l);
    assert l[0] in l;
    match op {
      case Tick => ScheduleRunning(s, l, false);
      case Fork(memory) => ForkKeeps(s, l, memory);
      case Destroy(envid, zero) =>
        var e := Envid2env(s, envid, true);
        if e.Some? { DestroyKeeps(s, l, e.value, zero); }
      case Send(envid, value, srcva, mapped, perm) => SendKeeps(s, l, envid, value, srcva, mapped, perm);
      case _ =>
    }
  }

  /** Until its slices are used up, an environment that does not give up stays on. */
  lemma {:induction false} SlicesRun(s: State, l: seq<nat>, ops: seq<Op>)
    requires Running(s, l) && RunAllowed(s, ops) && KeepsAll(s, ops) && Calls(s, ops) < s.count
    ensures match Run(s, ops) {
              case Go(t) => t.cur == s.cur && t.count == s.count - Calls(s, ops) && IsRunning(t)
              case Halt => false
            }
    decreases ops
  {
    if ops != [] {
      KeepStep(s, l, ops[0]);
      StepKeeps(s, l, ops[0]);
      SlicesRun(Step(s, ops[0]).s, ListAfter(s, l, ops[0]), ops[1..]);
    }
  }

  /** The tick that uses up the last slice hands over to the next in line, with all of its own. */
  lemma SlicesEnd(s: State, l: seq<nat>)
    requires Running(s, l) && s.count == 1
    ensures var next := if |l| > 1 then l[1] else l[0];
            match Step(s, Tick) {
              case Go(t) => t.cur == Some(next) && t.count == s.envs[next].pri && (|l| > 1 ==> t.cur != s.cur)
              case Halt => false
            }
  {
    Queue.RepMembers(s.q, l);
    assert l[0] in l && (|l| > 1 ==> l[1] in l);
    ScheduleRunning(s, l, false);
  }

  // ----- messages

  /** What happens to one environment's mailbox. */
  datatype Event = Asked(dstva: nat) | Got(value: nat, from: nat, perm: bv32)

  /** The mailbox event of environment e in a step, if there is one. */
  function EventOf(s: State, op: Op, e: nat): seq<Event>
    requires Sized(s) && s.cur.Some?
  {
    match op
    case Recv(dstva) => if s.cur == Some(e) && (dstva == 0 || !IllegalVa(dstva)) then [Asked(dstva)] else []
    case Send(envid, value, srcva, mapped, perm) =>
      if (srcva == 0 || !IllegalVa(srcva)) && Envid2env(s, envid, false) == Some(e) && s.envs[e].recving
      then [Got(value, s.envs[s.cur.value].id, Granted(perm))] else []
    case _ => []
  }

  function History(s: State, ops: seq<Op>, e: nat): seq<Event>
    decreases ops
  {
    if ops == [] || !Sized(s) || s.cur == None then []
    else
      EventOf(s, ops[0], e)
      + match Step(s, ops[0]) case Go(t) => History(t, ops[1..], e) case Halt => []
  }

  /** Receives and messages take turns; `waiting` tells whether a receive is open. */
  predicate Alternate(h: seq<Event>, waiting: bool) {
    h == [] || (h[0].Got? == waiting && Alternate(h[1..], !waiting))
  }

  predicate SameMail(env: Env, was: Env) {
    && env.recving == was.recving && env.dstva == was.dstva
    && env.value == was.value && env.from == was.from && env.perm == was.perm
  }

  /** The mailbox shows the last message until the next receive asks for another. */
  ghost predicate MailboxShows(env: Env, was: Env, h: seq<Event>) {
    if h == [] then SameMail(env, was)
    else
      match h[|h| - 1]
      case Asked(dstva) => env.recving && env.dstva == dstva
      case Got(value, from, perm) => !env.recving && env.value == value && env.from == from && env.perm == perm
  }

  lemma QuietSchedule(s: State, yielding: bool, e: nat)
    requires Sized(s) && e < NENV && Schedule(s, yielding).Go?
    ensures var t := Schedule(s, yielding).s; |t.envs| == NENV && SameMail(t.envs[e], s.envs[e])
  {
    hide Queue.Remove, Queue.InsertTail;
  }

  lemma QuietDestroy(s: State, envid: nat, zero: bool, e: nat)
    requires Sized(s) && s.cur.Some? && e < NENV && SysEnvDestroy(s, envid, zero).out.Go?
    ensures var t := SysEnvDestroy(s, envid, zero).out.s; |t.envs| == NENV && SameMail(t.envs[e], s.envs[e])
  {
    hide Queue.Remove, Schedule;
    var f := Envid2env(s, envid, true);
    if f.Some? && s.cur == f {
      QuietSchedule(EnvFree(s, f.value).(cur := None), true, e);
    }
  }

  /** Only sys_ipc_recv and sys_ipc_try_send touch a mailbox. */
  lemma QuietStep(s: State, op: Op, e: nat)
    requires Sized(s) && s.cur.Some? && e < NENV && !op.Recv? && !op.Send? && Step(s, op).Go?
    ensures |Step(s, op).s.envs| == NENV && SameMail(Step(s, op).s.envs[e], s.envs[e])
  {
    hide Queue.Remove, Queue.InsertTail, AsidAlloc;
    match op {
      case Tick => QuietSchedule(s, false, e);
      case Yield => QuietSchedule(s, true, e);
      case Fork(memory) =>
      case Destroy(envid, zero) => QuietDestroy(s, envid, zero, e);
      case Set(envid, status) =>
    }
  }

  lemma SendMail(s: State, l: seq<nat>, op: Op, e: nat)
    requires Running(s, l) && op.Send? && e < NENV
    ensures var r, h := IpcSend(s, op.envid, op.value, op.srcva, op.mapped, op.perm).out, EventOf(s, op, e);
            && r.Go? && |r.s.envs| == NENV
            && Alternate(h, s.envs[e].recving) && MailboxShows(r.s.envs[e], s.envs[e], h)
  {
    SendKeeps(s, l, op.envid, op.value, op.srcva, op.mapped, op.perm);
    Queue.RepMembers(s.q, l);
    assert l[0] in l;
    hide Running, IpcSend;
  }

  lemma EventStep(s: State, l: seq<nat>, op: Op, e: nat)
    requires Running(s, l) && Allowed(s, op) && e < NENV && Step(s, op).Go?
    ensures var t, h := Step(s, op).s, EventOf(s, op, e);
            && |t.envs| == NENV && Alternate(h, s.envs[e].recving) && MailboxShows(t.envs[e], s.envs[e], h)
  {
    if op.Recv? {
      hide Schedule, Envid2env, IpcSend, Allowed;
      if op.dstva == 0 || !IllegalVa(op.dstva) {
        RecvMail(s, l, op.dstva, e);
      }
    } else if op.Send? {
      hide Running, IpcSend, Allowed;
      SendMail(s, l, op, e);
    } else {
      hide Running, Step, Allowed;
      QuietStep(s, op, e);
    }
  }

  /** Switching to another environment touches no mailbox. */
  lemma RecvMail(s: State, l: seq<nat>, dstva: nat, e: nat)
    requires Running(s, l) && (dstva == 0 || !IllegalVa(dstva)) && e < NENV && IpcRecv(s, dstva).out.Go?
    ensures var t := IpcRecv(s, dstva).out.s;
            && |t.envs| == NENV
            && (e != l[0] ==> t.envs[e] == s.envs[e].(runs := t.envs[e].runs))
            && (e == l[0] ==> t.envs[e].recving && t.envs[e].dstva == dstva && !s.envs[e].recving)
  {
    RecvKeeps(s, l, dstva);
    Queue.RepMembers(s.q, l);
    assert l[0] in l;
  }

  /**
    Each receive gets exactly one message: along every run, the receives and messages of an
    environment take turns, and after each message the mailbox shows that message.
  */
  lemma {:induction false} EachReceiveOneMessage(s: State, l: seq<nat>, ops: seq<Op>, e: nat)
    requires Running(s, l) && RunAllowed(s, ops) && e < NENV && Run(s, ops).Go?
    ensures var t, h := Run(s, ops).s, History(s, ops, e);
            && |t.envs| == NENV && Alternate(h, s.envs[e].recving) && MailboxShows(t.envs[e], s.envs[e], h)
    decreases ops
  {
    if ops != [] {
      var r, m := Step(s, ops[0]).s, ListAfter(s, l, ops[0]);
      var h, k := EventOf(s, ops[0], e), History(r, ops[1..], e);
      StepKeeps(s, l, ops[0]);
      EventStep(s, l, ops[0], e);
      EachReceiveOneMessage(r, m, ops[1..], e);
      assert History(s, ops, e) == h + k && Run(s, ops) == Run(r, ops[1..]);
      Combine(s.envs[e], r.envs[e], Run(s, ops).s.envs[e], h, k);
    }
  }

  lemma Combine(was: Env, mid: Env, env: Env, h: seq<Event>, k: seq<Event>)
    requires |h| <= 1 && Alternate(h, was.recving) && MailboxShows(mid, was, h)
    requires Alternate(k, mid.recving) && MailboxShows(env, mid, k)
    ensures Alternate(h + k, was.recving) && MailboxShows(env, was, h + k)
  {
    if h == [] {
      assert h + k == k;
    } else {
      assert (h + k)[0] == h[0] && (h + k)[1..] == k;
    }
  }
}
