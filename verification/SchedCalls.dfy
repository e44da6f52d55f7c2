/**
  The scheduler's system calls as their callers see them (kern/env.c, kern/syscall_all.c):
  which environment an id names, and which code each call returns under which condition.
*/
module SchedCalls {
  import opened Errors
  import opened Mmu
  import Queue
  import opened Sched
  import opened SchedInv
  import opened SchedRuns

  // ----- environment ids

  /** The number of ids an environment can get before they repeat. */
  const LAPS: nat := 0x20_0000

  /** The id of an environment in use leads to its place in the table. */
  ghost predicate IdsOk(s: State) {
    forall e: nat :: e < |s.envs| && s.envs[e].status != FREE ==> s.envs[e].id % NENV == e
  }

  /** mkenvid: two ids are equal exactly if the places are and the creations are a multiple of 2^21 apart. */
  lemma MkenvidRepeatsIff(e: nat, m: nat, f: nat, n: nat)
    requires e < NENV && f < NENV
    ensures Mkenvid(e, m) == Mkenvid(f, n) <==> e == f && (m + 1) % LAPS == (n + 1) % LAPS
    ensures Mkenvid(e, m) % NENV == e
  {
    ChildId(e, m);
    ChildId(f, n);
    Shifted(m + 1);
    Shifted(n + 1);
    hide *;
  }

  lemma Shifted(k: nat)
    ensures k * 2048 % WORD == k % LAPS * 2048
  {
    assert k == k / LAPS * LAPS + k % LAPS;
    assert k * 2048 == k / LAPS * WORD + k % LAPS * 2048;
  }

  lemma IdsInit()
    ensures IdsOk(Init())
  {
  }

  lemma IdsCreate(s: State, pri: nat)
    requires Sized(s) && s.free != [] && AsidAlloc(s.asids, 0).Some? && IdsOk(s)
    ensures IdsOk(EnvCreate(s, pri))
  {
    hide AsidAlloc, Mkenvid;
    ChildId(s.free[0], s.made);
  }

  /** What a system call demands: an environment in use makes it. */
  ghost predicate Calling(s: State) {
    Sized(s) && s.cur.Some? && s.envs[s.cur.value].status != FREE && IdsOk(s)
  }

  /** No call gives an environment in use another id, and a new one gets an id of its place. */
  lemma IdsKeep(s: State, op: Op)
    requires Calling(s) && Step(s, op).Go?
    ensures IdsOk(Step(s, op).s)
  {
    hide Queue.Remove, Queue.InsertTail, AsidAlloc, Mkenvid;
    if op.Fork? && s.free != [] && s.free[0] < NENV {
      ChildId(s.free[0], s.made);
    }
  }

  lemma {:induction false} IdsRun(s: State, l: seq<nat>, ops: seq<Op>)
    requires Running(s, l) && RunAllowed(s, ops) && IdsOk(s) && Run(s, ops).Go?
    ensures Calling(Run(s, ops).s)
    decreases ops
  {
    Queue.RepMembers(s.q, l);
    assert l[0] in l;
    if ops != [] {
      IdsKeep(s, ops[0]);
      StepKeeps(s, l, ops[0]);
      hide Running, Step;
      IdsRun(Step(s, ops[0]).s, ListAfter(s, l, ops[0]), ops[1..]);
    }
  }

  /** An id names the caller if it is 0, and otherwise the environment in use that has it. */
  ghost predicate Names(s: State, envid: nat, e: nat)
    requires Sized(s)
  {
    if envid == 0 then s.cur == Some(e) else e < NENV && s.envs[e].status != FREE && s.envs[e].id == envid
  }

  /** The caller may destroy or change it: it is the caller itself or a child of the caller. */
  ghost predicate Mine(s: State, e: nat)
    requires Sized(s) && s.cur.Some?
  {
    s.cur == Some(e) || (e < NENV && s.envs[e].parent == s.envs[s.cur.value].id)
  }

  /** envid2env finds an environment if and only if the id names it and, where asked, the caller has a right to it. */
  lemma FindsIff(s: State, envid: nat, checkperm: bool, e: nat)
    requires Calling(s)
    ensures Envid2env(s, envid, checkperm) == Some(e) <==> Names(s, envid, e) && (checkperm ==> Mine(s, e))
  {
  }

  lemma FindsAll(s: State, envid: nat, checkperm: bool)
    requires Calling(s)
    ensures forall e: nat :: Envid2env(s, envid, checkperm) == Some(e) <==> Names(s, envid, e) && (checkperm ==> Mine(s, e))
    ensures Envid2env(s, envid, checkperm).Some? ==> Envid2env(s, envid, checkperm).value < NENV
  {
    forall e: nat ensures Envid2env(s, envid, checkperm) == Some(e) <==> Names(s, envid, e) && (checkperm ==> Mine(s, e)) {
      FindsIff(s, envid, checkperm, e);
    }
  }

  /** An id names at most one environment, in which no two have the same. */
  lemma NamesOne(s: State, envid: nat, e: nat, f: nat)
    requires Calling(s) && Names(s, envid, e) && Names(s, envid, f)
    ensures e == f
  {
    FindsIff(s, envid, false, e);
    FindsIff(s, envid, false, f);
  }

  // ----- answers

  /** sys_env_destroy answers -E_BAD_ENV, with nothing changed, unless the id names the caller or a child of it. */
  lemma DestroyAnswers(s: State, envid: nat, zero: bool)
    requires Calling(s)
    ensures var r := SysEnvDestroy(s, envid, zero);
            && (r.code == 0 || r == Reply(Go(s), -E_BAD_ENV))
            && (r.code == 0 <==> exists e: nat :: Names(s, envid, e) && Mine(s, e))
            && forall e: nat :: Names(s, envid, e) && Mine(s, e) ==> e < NENV && r.out == EnvDestroy(s, e, zero)
  {
    hide Names, Mine, Envid2env, EnvDestroy, IdsOk;
    FindsAll(s, envid, true);
  }

  /** sys_set_env_status, which asks for no right: the codes in the order they are tested. */
  lemma SetAnswers(s: State, envid: nat, status: Status)
    requires Calling(s)
    ensures var r := SetStatus(s, envid, status);
            && r.code == (if status == FREE then -E_INVAL else if exists e: nat :: Names(s, envid, e) then 0 else -E_BAD_ENV)
            && (r.code != 0 ==> r.out == Go(s))
            && (r.code == 0 ==> r.out.Go? && forall e: nat :: e < NENV ==>
                  if Names(s, envid, e) then r.out.s.envs[e] == s.envs[e].(status := status) else r.out.s.envs[e] == s.envs[e])
  {
    hide Names, Mine, Envid2env, IdsOk, Queue.Remove, Queue.InsertTail;
    FindsAll(s, envid, false);
  }

  /** Whom a message reaches: the id names it and it is waiting in sys_ipc_recv. */
  ghost predicate Waiting(s: State, envid: nat, e: nat)
    requires Sized(s)
  {
    e < NENV && Names(s, envid, e) && s.envs[e].recving
  }

  /**
    sys_ipc_try_send. Nothing changes when the address is illegal, the id names nobody, or the one
    it names does not wait, each with its code; -E_IPC_NOT_RECV, on which ipc_send tries again,
    is the answer in the last case only. Otherwise the message is delivered, also when -E_INVAL then says
    that the sender has no page at srcva.
  */
  lemma SendAnswers(s: State, envid: nat, value: nat, srcva: nat, mapped: bool, perm: bv32)
    requires Calling(s)
    ensures var r := IpcSend(s, envid, value, srcva, mapped, perm);
            && r.out.Go?
            && r.code == (if srcva != 0 && IllegalVa(srcva) then -E_INVAL
                          else if !exists e: nat :: Names(s, envid, e) then -E_BAD_ENV
                          else if !exists e: nat :: Waiting(s, envid, e) then -E_IPC_NOT_RECV
                          else if srcva != 0 && !mapped then -E_INVAL
                          else 0)
            && (if (srcva != 0 && IllegalVa(srcva)) || !exists e: nat :: Waiting(s, envid, e) then r.out.s == s
                else Delivered(s, r.out.s, envid, value, perm))
  {
    hide Names, Mine, Envid2env, IdsOk, Queue.Remove, Queue.InsertTail, Granted, Delivered;
    FindsAll(s, envid, false);
    var found := Envid2env(s, envid, false);
    assert found.Some? ==> Names(s, envid, found.value);
    assert forall e: nat :: Waiting(s, envid, e) ==> found == Some(e);
    if found.Some? && s.envs[found.value].recving {
      assert Waiting(s, envid, found.value);
      if srcva == 0 || !IllegalVa(srcva) {
        SentIs(s, found.value, envid, value, srcva, mapped, perm);
      }
    }
  }

  lemma SentIs(s: State, e: nat, envid: nat, value: nat, srcva: nat, mapped: bool, perm: bv32)
    requires Calling(s) && (srcva == 0 || !IllegalVa(srcva)) && Envid2env(s, envid, false) == Some(e) && e < NENV
    requires s.envs[e].recving && forall f: nat :: Waiting(s, envid, f) <==> f == e
    ensures Delivered(s, IpcSend(s, envid, value, srcva, mapped, perm).out.s, envid, value, perm)
  {
    hide Envid2env, Queue.InsertTail, Waiting, IdsOk;
  }

  /** The one that waited has the message and the sender's id, waits no longer, and can run. */
  ghost predicate Delivered(s: State, t: State, envid: nat, value: nat, perm: bv32)
    requires Sized(s) && s.cur.Some?
  {
    && Sized(t) && t.cur == s.cur && t.count == s.count
    && forall e: nat :: e < NENV ==>
         if Waiting(s, envid, e) then
           && t.envs[e].value == value && t.envs[e].from == s.envs[s.cur.value].id
           && t.envs[e].perm & (PTE_V as bv32) != 0 && t.envs[e].perm | (PTE_V as bv32) == perm | (PTE_V as bv32)
           && !t.envs[e].recving && t.envs[e].status == RUNNABLE
           && t.envs[e].dstva == s.envs[e].dstva && t.envs[e].id == s.envs[e].id && t.envs[e].pri == s.envs[e].pri
           && t.envs[e].asid == s.envs[e].asid && t.envs[e].parent == s.envs[e].parent && t.envs[e].runs == s.envs[e].runs
         else t.envs[e] == s.envs[e]
  }

  /** sys_ipc_recv with an illegal address. */
  lemma RecvAnswers(s: State, dstva: nat)
    requires Calling(s)
    ensures var r := IpcRecv(s, dstva);
            if dstva != 0 && IllegalVa(dstva) then r == Reply(Go(s), -E_INVAL) else r.code == 0
  {
    hide Schedule;
  }

  /** c has become a child of the caller: asleep, with the caller's priority, a fresh ASID and a count of 0. */
  ghost predicate Born(s: State, t: State, c: nat)
    requires Sized(s) && s.cur.Some?
  {
    && Sized(t) && t.cur == s.cur && c < NENV && s.envs[c].status == FREE && c in s.free && c !in t.free
    && t.envs[c].status == NOT_RUNNABLE && t.envs[c].runs == 0
    && t.envs[c].parent == s.envs[s.cur.value].id && t.envs[c].pri == s.envs[s.cur.value].pri
    && t.envs[c].asid < NASID && t.envs[c].asid !in s.asids && t.asids == s.asids + {t.envs[c].asid}
    && (forall e: nat :: e < NENV && e != c ==> t.envs[e] == s.envs[e])
  }

  /** No environment left the free list and none in use is another. */
  ghost predicate NoChild(s: State, t: State) {
    && t.free == s.free && t.asids == s.asids && t.cur == s.cur && |t.envs| == |s.envs|
    && forall e: nat :: e < |s.envs| && s.envs[e].status != FREE ==> t.envs[e] == s.envs[e]
  }

  /** The code is the child's id, by which it is found, unless it is 0. */
  ghost predicate Answers(s: State, t: State, code: nat, c: nat)
    requires Sized(t) && t.cur.Some? && c < NENV
  {
    && code == t.envs[c].id
    && (code == 0 <==> c == 0 && (s.made + 1) % LAPS == 0)
    && (code != 0 ==> Names(t, code, c) && Mine(t, c))
  }

  /**
    sys_exofork. When it succeeds it returns the id of a new child, which names that child unless
    it is 0; and it is 0 exactly for the first place of the table after a multiple of 2^21 creations.
  */
  lemma ForkAnswers(s: State, l: seq<nat>, memory: bool)
    requires Running(s, l) && Calling(s)
    ensures var r := Exofork(s, memory);
            && r.out.Go?
            && (r.code < 0 ==> NoChild(s, r.out.s))
            && (r.code >= 0 ==> exists c: nat :: Born(s, r.out.s, c) && Answers(s, r.out.s, r.code, c))
  {
    var r := Exofork(s, memory);
    if s.free != [] && memory {
      var c := s.free[0];
      assert c in s.free;
      if AsidAlloc(s.asids, 0).Some? {
        AsidAllocIs(s.asids, 0);
        MkenvidRepeatsIff(c, s.made, 0, LAPS - 1);
        ZeroId();
        hide Queue.Rep, Mkenvid, AsidAlloc, AsidsOk;
        assert Born(s, r.out.s, c);
      }
    }
  }

  lemma ZeroId()
    ensures Mkenvid(0, LAPS - 1) == 0
  {
  }

  // ----- ids over a run

  /** The calls of sys_exofork in a run, and the ids they give to environments. */
  function Forks(ops: seq<Op>): nat {
    if ops == [] then 0 else (if ops[0].Fork? then 1 else 0) + Forks(ops[1..])
  }

  function Given(s: State, ops: seq<Op>): seq<nat>
    decreases ops
  {
    if ops == [] || !Sized(s) || s.cur == None then []
    else
      var rest := match Step(s, ops[0]) case Go(t) => Given(t, ops[1..]) case Halt => [];
      if ops[0].Fork? && Exofork(s, ops[0].memory).code >= 0 then [Exofork(s, ops[0].memory).code] + rest else rest
  }

  /** id is that of some place of the table, at one of the next n creations. */
  ghost predicate Soon(id: nat, made: nat, n: nat) {
    exists e: nat, k: nat :: e < NENV && made <= k < made + n && id == Mkenvid(e, k)
  }

  /** The ids given are those of the creations to come. */
  lemma {:induction false} GivenSoon(s: State, ops: seq<Op>, i: nat)
    requires i < |Given(s, ops)|
    ensures Soon(Given(s, ops)[i], s.made, Forks(ops))
    decreases ops
  {
    hide Step, Exofork, Mkenvid, Sized;
    StepMade(s, ops[0]);
    var fork := ops[0].Fork? && Exofork(s, ops[0].memory).code >= 0;
    if fork && i == 0 {
      assert Given(s, ops)[0] == Mkenvid(s.free[0], s.made);
    } else {
      hide Soon;
      var t := Step(s, ops[0]).s;
      GivenSoon(t, ops[1..], if fork then i - 1 else i);
      SoonLater(Given(s, ops)[i], s.made, t.made, Forks(ops[1..]), Forks(ops));
    }
  }

  /** sys_exofork counts the creation even if it then finds no ASID. */
  lemma StepMade(s: State, op: Op)
    requires Sized(s) && s.cur.Some?
    ensures Step(s, op).Go? ==> Step(s, op).s.made == s.made || (op.Fork? && Step(s, op).s.made == (s.made + 1) % WORD)
    ensures op.Fork? && Exofork(s, op.memory).code >= 0 ==>
              && s.free != [] && s.free[0] < NENV && Exofork(s, op.memory).code == Mkenvid(s.free[0], s.made)
              && Step(s, op).Go? && Step(s, op).s.made == (s.made + 1) % WORD
  {
    hide Queue.Remove, Queue.InsertTail, AsidAlloc, Mkenvid;
  }

  lemma SoonLater(id: nat, made: nat, next: nat, m: nat, n: nat)
    requires Soon(id, next, m) && m <= n && (next == made || (m < n && next == (made + 1) % WORD))
    ensures Soon(id, made, n)
  {
    var e: nat, k: nat :| e < NENV && next <= k < next + m && id == Mkenvid(e, k);
    if next != made {
      var j := k - next + made + 1;
      WrappedId(e, k, j, next, made + 1);
      assert id == Mkenvid(e, j);
    }
    hide Mkenvid;
  }

  /** The wrap-around of the counter does not show in the ids. */
  lemma WrappedId(e: nat, k: nat, j: nat, next: nat, made: nat)
    requires e < NENV && next == made % WORD && next <= k && j == k - next + made
    ensures Mkenvid(e, k) == Mkenvid(e, j)
  {
    MkenvidRepeatsIff(e, k, e, j);
    assert j == k + made / WORD * 2048 * LAPS;
    hide Mkenvid;
    Multiple(k + 1, made / WORD * 2048);
  }

  lemma Multiple(k: nat, q: nat)
    ensures (k + q * LAPS) % LAPS == k % LAPS
  {
  }

  /** Along a run with fewer than 2^21 calls of sys_exofork, no id is given twice. */
  lemma {:induction false} IdsFresh(s: State, ops: seq<Op>, i: nat, j: nat)
    requires i < j < |Given(s, ops)| && Forks(ops) < LAPS
    ensures Given(s, ops)[i] != Given(s, ops)[j]
    decreases ops
  {
    hide Step, Exofork, Mkenvid, Sized, Soon;
    StepMade(s, ops[0]);
    var fork := ops[0].Fork? && Exofork(s, ops[0].memory).code >= 0;
    var t := Step(s, ops[0]).s;
    if fork && i == 0 {
      GivenSoon(t, ops[1..], j - 1);
      FirstFresh(s.free[0], s.made, t.made, Given(s, ops)[j], Forks(ops[1..]));
    } else {
      IdsFresh(t, ops[1..], if fork then i - 1 else i, if fork then j - 1 else j);
    }
  }

  lemma FirstFresh(e: nat, made: nat, next: nat, id: nat, n: nat)
    requires e < NENV && next == (made + 1) % WORD && Soon(id, next, n) && n + 1 < LAPS
    ensures id != Mkenvid(e, made)
  {
    var f: nat, k: nat :| f < NENV && next <= k < next + n && id == Mkenvid(f, k);
    var j := k - next + made + 1;
    WrappedId(f, k, j, next, made + 1);
    MkenvidRepeatsIff(e, made, f, j);
    hide Mkenvid;
    NotMultiple(made + 1, j - made);
  }

  lemma NotMultiple(m: nat, d: nat)
    requires 0 < d < LAPS
    ensures (m + d) % LAPS != m % LAPS
  {
  }

  // ----- leaving

  /** The place of a destroyed environment is the next one sys_exofork gives. */
  lemma PlaceReused(s: State, e: nat)
    requires Sized(s) && e < NENV && s.cur.Some? && s.cur != Some(e) && EnvDestroy(s, e, true).Go?
    ensures var t := EnvDestroy(s, e, true).s;
            && t.envs == s.envs[e := t.envs[e]] && t.envs[e].status == FREE && t.cur == s.cur && t.count == s.count
            && Sized(t) && Exofork(t, true).out.Go?
            && (Exofork(t, true).code >= 0 ==>
                  var u := Exofork(t, true).out.s; u.free == s.free && e < |u.envs| && u.envs[e].id == Exofork(t, true).code)
  {
    hide Queue.Remove, Mkenvid, AsidAlloc;
  }

  /**
    An environment that has made itself not runnable with sys_set_env_status stays current until the next
    tick or yield, which then runs the next one.
  */
  lemma ParkedSwitches(s: State, l: seq<nat>, yielding: bool)
    requires Running(s, l)
    ensures var t := SetStatus(s, 0, NOT_RUNNABLE).out;
            && t.Go? && Sized(t.s) && t.s.cur == s.cur
            && match Schedule(t.s, yielding)
               case Go(u) => |l| > 1 && Running(u, l[1..]) && u.count == s.envs[l[1]].pri
               case Halt => |l| == 1
  {
    HeadRuns(s, l);
    HeadLeaves(s.q, l);
    var t := SetStatus(s, 0, NOT_RUNNABLE).out.s;
    var r := t.(count := t.count - 1);
    hide Queue.Rep, Queue.Remove, AsidsOk;
    SelfParked(s, l, t);
    if |l| > 1 {
      assert Good(r, l[1..]);
      RunFirstKeeps(r, l[1..]);
    }
  }

  lemma SelfParked(s: State, l: seq<nat>, t: State)
    requires Running(s, l) && l[0] < NENV && s.envs[l[0]].status == RUNNABLE && Queue.Rep(Queue.Remove(s.q, l[0]), l[1..])
    requires forall e :: e in l[1..] <==> e in l && e != l[0]
    requires t == s.(q := Queue.Remove(s.q, l[0]), envs := s.envs[l[0] := s.envs[l[0]].(status := NOT_RUNNABLE)])
    ensures Good(t, l[1..])
  {
    hide Queue.Rep, Queue.Remove;
    SameInUse(s, t);
    hide AsidsOk;
  }

  /** ASIDs belong to environments in use, runnable or not. */
  lemma SameInUse(s: State, t: State)
    requires Sized(s) && |t.envs| == NENV && Sized(t) && AsidsOk(s) && t.asids == s.asids
    requires forall e: nat :: e < NENV ==> t.envs[e].asid == s.envs[e].asid && (t.envs[e].status == FREE <==> s.envs[e].status == FREE)
    ensures AsidsOk(t)
  {
    forall a ensures a in t.asids <==> exists e: nat :: e < NENV && t.envs[e].status != FREE && t.envs[e].asid == a {
      if a in s.asids {
        var e: nat :| e < NENV && s.envs[e].status != FREE && s.envs[e].asid == a;
        assert t.envs[e].asid == a;
      }
    }
  }
}
