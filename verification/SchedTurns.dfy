/**
  env_runs over runs of the scheduler (kern/env.c, kern/sched.c): it counts the schedule calls
  that ended in the environment, modulo 2^32, which the test for a closed pipe relies on.
*/
module SchedTurns {
  import opened Errors
  import opened Mmu
  import Queue
  import opened Sched
  import opened SchedInv
  import opened SchedRuns

  /** The step calls schedule, and schedule ends in e. */
  predicate EndsIn(s: State, op: Op, e: nat)
    requires Sized(s) && s.cur.Some?
  {
    Schedules(s, op) && Step(s, op).Go? && Step(s, op).s.cur == Some(e)
  }

  /** Only a schedule call changes the current environment. */
  lemma SwitchesOnly(s: State, op: Op)
    requires Sized(s) && s.cur.Some? && Step(s, op).Go? && !Schedules(s, op)
    ensures Step(s, op).s.cur == s.cur
  {
    hide Queue.Remove, Queue.InsertTail, AsidAlloc, Mkenvid;
  }

  /** A schedule call that does not stop the machine ends in some environment. */
  lemma ScheduleEnds(s: State, yielding: bool)
    requires Sized(s) && Schedule(s, yielding).Go?
    ensures var t := Schedule(s, yielding).s;
            && t.cur.Some? && |t.envs| == NENV
            && forall e: nat :: e < NENV ==>
                 t.envs[e].runs == if t.cur == Some(e) then (s.envs[e].runs + 1) % WORD else s.envs[e].runs
  {
    hide Queue.Remove, Queue.InsertTail;
  }

  /**
    One step: the environment a schedule call ends in has one more on its count, in 32 bits, a slot
    taken off the free list by sys_exofork starts at 0, and no other count changes.
  */
  lemma RunsStep(s: State, op: Op, e: nat)
    requires Sized(s) && s.cur.Some? && Step(s, op).Go? && e < NENV && e !in s.free
    ensures var t := Step(s, op).s;
            && e < |t.envs| && t.cur.Some? && (Schedules(s, op) ==> EndsIn(s, op, t.cur.value))
            && t.envs[e].runs == if EndsIn(s, op, e) then (s.envs[e].runs + 1) % WORD else s.envs[e].runs
  {
    hide Queue.Remove, Queue.InsertTail, AsidAlloc, Mkenvid, Schedule;
    var t := Step(s, op).s;
    match op {
      case Tick => ScheduleEnds(s, false);
      case Yield => ScheduleEnds(s, true);
      case Recv(dstva) =>
        if Schedules(s, op) {
          ScheduleEnds(Parked(s, s.cur.value, dstva), true);
        }
      case Destroy(envid, zero) =>
        if Schedules(s, op) {
          ScheduleEnds(EnvFree(s, s.cur.value).(cur := None), true);
        }
      case _ =>
    }
  }

  /** The schedule calls of a run that end in e. */
  function Turns(s: State, ops: seq<Op>, e: nat): nat
    decreases ops
  {
    if ops == [] || !Sized(s) || s.cur == None then 0
    else
      (if EndsIn(s, ops[0], e) then 1 else 0)
      + match Step(s, ops[0]) case Go(t) => Turns(t, ops[1..], e) case Halt => 0
  }

  /** e stays off the free list all along the run. */
  predicate Stays(s: State, ops: seq<Op>, e: nat)
    decreases ops
  {
    && e !in s.free
    && (ops != [] && Sized(s) && s.cur.Some? ==>
          match Step(s, ops[0]) case Go(t) => Stays(t, ops[1..], e) case Halt => true)
  }

  /** Over a run, env_runs grows by the number of schedule calls that ended in e, in 32 bits. */
  lemma {:induction false} RunsCount(s: State, ops: seq<Op>, e: nat)
    requires e < |s.envs| && Stays(s, ops, e) && Run(s, ops).Go? && Sized(s)
    ensures var t := Run(s, ops).s;
            e < |t.envs| && t.envs[e].runs % WORD == (s.envs[e].runs + Turns(s, ops, e)) % WORD
    decreases ops
  {
    hide Schedules, Step;
    if ops != [] {
      var t := Step(s, ops[0]).s;
      RunsStep(s, ops[0], e);
      if ops[1..] != [] {
        RunsCount(t, ops[1..], e);
      }
    }
  }

  /**
    So between two moments with fewer than 2^32 schedule calls that end in e, e's env_runs is the same
    if and only if there was none.
  */
  lemma SameRunsIff(s: State, ops: seq<Op>, e: nat)
    requires e < |s.envs| && Stays(s, ops, e) && Run(s, ops).Go? && Sized(s) && Turns(s, ops, e) < WORD
    ensures var t := Run(s, ops).s;
            e < |t.envs| && (t.envs[e].runs % WORD == s.envs[e].runs % WORD <==> Turns(s, ops, e) == 0)
  {
    hide *;
    RunsCount(s, ops, e);
    WrapsAround(s.envs[e].runs, Turns(s, ops, e));
  }

  lemma WrapsAround(n: nat, k: nat)
    requires k < WORD
    ensures (n + k) % WORD == n % WORD <==> k == 0
  {
    var q, r := n / WORD, (n + k) / WORD;
    assert n == q * WORD + n % WORD && n + k == r * WORD + (n + k) % WORD;
  }
}
