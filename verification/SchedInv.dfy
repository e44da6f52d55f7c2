/**
  The scheduler's invariant, stated in kern/env.c as "env_sched_list holds exactly the
  runnable environments", and its companions: every kernel entry keeps them.
*/
module SchedInv {
  import opened Errors
  import opened Mmu
  import Queue
  import opened Sched

  /** The ASIDs of the environments in use are distinct, and are the ones marked in use. */
  ghost predicate AsidsOk(s: State)
    requires Sized(s)
  {
    && (forall e: nat, f: nat :: e < f < NENV && s.envs[e].status != FREE && s.envs[f].status != FREE
          ==> s.envs[e].asid != s.envs[f].asid)
    && (forall a :: a in s.asids <==> exists e: nat :: e < NENV && s.envs[e].status != FREE && s.envs[e].asid == a)
  }

  /** l is the list of runnable environments, in order. */
  ghost predicate Good(s: State, l: seq<nat>) {
    && Sized(s) && Queue.Rep(s.q, l)
    && (forall e: nat :: e < NENV ==> (e in l <==> s.envs[e].status == RUNNABLE))
    && Queue.Distinct(s.free)
    && (forall e: nat :: e < NENV ==> (e in s.free <==> s.envs[e].status == FREE))
    && AsidsOk(s)
    && (forall e: nat :: e < NENV && s.envs[e].recving ==> s.envs[e].status == NOT_RUNNABLE)
    && (forall e: nat :: e < NENV && s.envs[e].status != FREE ==> s.envs[e].pri >= 1)
  }

  /** A runnable environment is running, it is at the head, and has slices left. */
  ghost predicate Running(s: State, l: seq<nat>) {
    Good(s, l) && s.cur.Some? && l != [] && l[0] == s.cur.value && s.count >= 1
  }

  /** env_run on the head of the queue: it is current and has one more on its count, in 32 bits. */
  lemma EnvRunKeeps(s: State, l: seq<nat>)
    requires Good(s, l) && l != []
    ensures l[0] < NENV && s.envs[l[0]].status == RUNNABLE
    ensures match EnvRun(s, l[0]) {
              case Go(t) => Good(t, l) && t.cur == Some(l[0]) && t.count == s.count
                            && t.envs == s.envs[l[0] := s.envs[l[0]].(runs := (s.envs[l[0]].runs + 1) % WORD)]
              case Halt => false
            }
  {
    Queue.RepMembers(s.q, l);
    assert l[0] in l;
  }

  /** The new order after a switch. */
  function Rotate(l: seq<nat>): seq<nat>
    requires l != []
  {
    l[1..] + [l[0]]
  }

  lemma RotateRep(q: Queue.Tailq, l: seq<nat>)
    requires Queue.Rep(q, l) && l != []
    ensures l[0] < |q.next| && Queue.Rep(Queue.InsertTail(Queue.Remove(q, l[0]), l[0]), Rotate(l))
  {
    Queue.RemoveRep(q, l, 0);
    assert Queue.Drop(l, 0) == l[1..];
    Queue.InsertTailRep(Queue.Remove(q, l[0]), l[1..], l[0]);
  }

  /** schedule, called while the current environment is running. */
  lemma ScheduleRunning(s: State, l: seq<nat>, yielding: bool)
    requires Running(s, l)
    ensures var switch := yielding || s.count == 1;
            match Schedule(s, yielding) {
              case Go(t) =>
                && Running(t, if switch then Rotate(l) else l)
                && t.count == (if switch then s.envs[t.cur.value].pri else s.count - 1)
              case Halt => false
            }
  {
    HeadRuns(s, l);
    var t := s.(count := s.count - 1);
    hide Queue.Remove, Queue.InsertTail, Queue.Rep, AsidsOk;
    if yielding || s.count == 1 {
      var r := t.(q := Queue.InsertTail(Queue.Remove(s.q, l[0]), l[0]));
      RotatedGood(s, l, r);
      hide Good;
      RunFirstKeeps(r, Rotate(l));
    } else {
      EnvRunKeeps(t, l);
    }
  }

  lemma HeadRuns(s: State, l: seq<nat>)
    requires Running(s, l)
    ensures Sized(s) && l[0] < NENV && s.envs[l[0]].status == RUNNABLE && s.q.first == Some(l[0])
  {
    Queue.RepMembers(s.q, l);
    assert l[0] in l;
  }

  /** The queue after the environment at its head went to the tail. */
  lemma RotatedGood(s: State, l: seq<nat>, r: State)
    requires Running(s, l)
    requires r == s.(count := s.count - 1, q := Queue.InsertTail(Queue.Remove(s.q, l[0]), l[0]))
    ensures Good(r, Rotate(l)) && Rotate(l) != []
  {
    RotateRep(s.q, l);
    hide Queue.Rep, Queue.Remove, Queue.InsertTail;
    hide AsidsOk;
  }

  lemma RunFirstKeeps(s: State, l: seq<nat>)
    requires Good(s, l) && l != []
    ensures match RunFirst(s) {
              case Go(t) => Running(t, l) && t.count == s.envs[l[0]].pri
              case Halt => false
            }
  {
    Queue.RepMembers(s.q, l);
    assert l[0] in l;
    EnvRunKeeps(s.(count := s.envs[l[0]].pri), l);
  }

  lemma PositionOf(l: seq<nat>, e: nat) returns (k: nat)
    requires e in l
    ensures k < |l| && l[k] == e
  {
    k :| k < |l| && l[k] == e;
  }

  // ----- IPC

  /** sys_ipc_recv: the caller leaves the queue and the next environment runs, if any. */
  lemma RecvKeeps(s: State, l: seq<nat>, dstva: nat)
    requires Running(s, l) && (dstva == 0 || !IllegalVa(dstva))
    ensures match IpcRecv(s, dstva).out {
              case Go(t) => |l| > 1 && Running(t, l[1..]) && t.count == s.envs[l[1]].pri
                            && t.envs[l[0]] == s.envs[l[0]].(recving := true, dstva := dstva, status := NOT_RUNNABLE)
              case Halt => |l| == 1
            }
  {
    HeadRuns(s, l);
    var r := Parked(s, l[0], dstva);
    ParkedGood(s, l, dstva);
    var r1 := r.(count := r.count - 1);
    hide Queue.Rep, Queue.Remove, AsidsOk;
    assert Good(r1, l[1..]);
    assert Schedule(r, true) == RunFirst(r1);
    hide Schedule;
    if |l| > 1 {
      RunFirstKeeps(r1, l[1..]);
    }
  }

  /** sys_ipc_recv up to the call of schedule. */
  function Parked(s: State, e: nat, dstva: nat): State
    requires Sized(s) && e < NENV
  {
    s.(envs := s.envs[e := s.envs[e].(recving := true, dstva := dstva, status := NOT_RUNNABLE)], q := Queue.Remove(s.q, e))
  }

  /** It is off the queue already when schedule removes it once more, which changes nothing. */
  lemma ParkedGood(s: State, l: seq<nat>, dstva: nat)
    requires Running(s, l) && l[0] < NENV
    ensures var r := Parked(s, l[0], dstva);
            Good(r, l[1..]) && Queue.Remove(r.q, l[0]) == r.q && (|l| == 1 <==> r.q.first == None)
  {
    hide Queue.Rep, Queue.Remove;
    HeadLeaves(s.q, l);
    hide AsidsOk;
  }

  lemma HeadLeaves(q: Queue.Tailq, l: seq<nat>)
    requires Queue.Rep(q, l) && l != []
    ensures l[0] < |q.next|
    ensures var r := Queue.Remove(q, l[0]);
            && Queue.Rep(r, l[1..]) && Queue.Remove(r, l[0]) == r && (|l| == 1 <==> r.first == None)
            && forall e :: e in l[1..] <==> e in l && e != l[0]
  {
    Queue.RepMembers(q, l);
    Queue.RemoveRep(q, l, 0);
    Queue.RemoveTwice(q, l, 0);
    assert Queue.Drop(l, 0) == l[1..];
  }

  /** sys_ipc_try_send: a waiting target gets the message and joins the queue's tail. */
  lemma SendKeeps(s: State, l: seq<nat>, envid: nat, value: nat, srcva: nat, mapped: bool, perm: bv32)
    requires Running(s, l)
    ensures var e := Envid2env(s, envid, false);
            var done := (srcva == 0 || !IllegalVa(srcva)) && e.Some? && s.envs[e.value].recving;
            var r := IpcSend(s, envid, value, srcva, mapped, perm);
            && r.out.Go?
            && (!done ==> r.out.s == s && r.code < 0)
            && (done ==> e.value !in l && Running(r.out.s, l + [e.value]))
            && (done ==> r.out.s.envs == s.envs[e.value := s.envs[e.value].(
                  value := value, from := s.envs[l[0]].id, perm := Granted(perm), recving := false, status := RUNNABLE)])
  {
    var e := Envid2env(s, envid, false);
    if (srcva == 0 || !IllegalVa(srcva)) && e.Some? && s.envs[e.value].recving {
      Queue.InsertTailRep(s.q, l, e.value);
    }
  }

  // ----- other calls

  /** What sys_set_env_status can bear: the caller does not park itself or wake a receiver. */
  predicate CanSet(s: State, e: nat, status: Status)
    requires Sized(s) && e < NENV
  {
    !(status == NOT_RUNNABLE && s.cur == Some(e)) && !(status == RUNNABLE && s.envs[e].recving)
  }

  function ListSet(s: State, l: seq<nat>, e: nat, status: Status): seq<nat>
    requires Sized(s) && e < NENV
  {
    var was := s.envs[e].status;
    if status == RUNNABLE && was == NOT_RUNNABLE then l + [e]
    else if status == NOT_RUNNABLE && was == RUNNABLE then Without(l, e)
    else l
  }

  function Without(l: seq<nat>, e: nat): seq<nat> {
    if l == [] then []
    else if l[0] == e then l[1..]
    else [l[0]] + Without(l[1..], e)
  }

  lemma {:induction false} WithoutIsDrop(l: seq<nat>, k: nat)
    requires k < |l| && Queue.Distinct(l)
    ensures Without(l, l[k]) == Queue.Drop(l, k)
  {
    if k > 0 {
      assert l[0] != l[k] && l[1..][k - 1] == l[k];
      WithoutIsDrop(l[1..], k - 1);
      assert Queue.Drop(l, k) == [l[0]] + Queue.Drop(l[1..], k - 1);
    } else {
      assert Queue.Drop(l, 0) == l[1..];
    }
  }

  lemma RemoveElem(q: Queue.Tailq, l: seq<nat>, e: nat)
    requires Queue.Rep(q, l) && e in l
    ensures e < |q.next| && Queue.Rep(Queue.Remove(q, e), Without(l, e))
    ensures forall f :: f in Without(l, e) <==> f in l && f != e
    ensures e != l[0] ==> Without(l, e) != [] && Without(l, e)[0] == l[0]
  {
    var k := PositionOf(l, e);
    Queue.RepMembers(q, l);
    Queue.RemoveRep(q, l, k);
    WithoutIsDrop(l, k);
  }

  /** sys_set_env_status keeps the invariant exactly in the cases CanSet allows. */
  lemma SetKeepsIff(s: State, l: seq<nat>, envid: nat, status: Status)
    requires Running(s, l) && status != FREE && Envid2env(s, envid, false).Some?
    ensures var e := Envid2env(s, envid, false).value;
            var out := SetStatus(s, envid, status).out;
            && out.Go?
            && (CanSet(s, e, status) ==> Running(out.s, ListSet(s, l, e, status)))
            && (!CanSet(s, e, status) ==> forall m :: !Running(out.s, m))
  {
    var e := Envid2env(s, envid, false).value;
    var t := SetStatus(s, envid, status).out.s;
    Queue.RepMembers(s.q, l);
    if CanSet(s, e, status) {
      if status == RUNNABLE && s.envs[e].status == NOT_RUNNABLE {
        Queue.InsertTailRep(s.q, l, e);
      } else if status == NOT_RUNNABLE && s.envs[e].status == RUNNABLE {
        RemoveElem(s.q, l, e);
      }
    } else {
      assert forall m: seq<nat> :: m != [] ==> m[0] in m;
    }
  }

  lemma EnvFreeAsids(s: State, t: State, e: nat)
    requires Sized(s) && Sized(t) && AsidsOk(s) && e < NENV && s.envs[e].status != FREE
    requires t.envs == s.envs[e := t.envs[e]] && t.envs[e].status == FREE && t.asids == s.asids - {s.envs[e].asid}
    ensures AsidsOk(t)
  {
    forall a ensures a in t.asids <==> exists f: nat :: f < NENV && t.envs[f].status != FREE && t.envs[f].asid == a {
      if a in t.asids {
        var f: nat :| f < NENV && s.envs[f].status != FREE && s.envs[f].asid == a;
        assert f != e && t.envs[f] == s.envs[f];
      }
    }
  }

  /** The environments the queue is meant to hold. */
  function Runnable(s: State): nat -> bool {
    (e: nat) => e < |s.envs| && s.envs[e].status == RUNNABLE
  }

  /**
    What env_destroy can bear: a runnable target, or one that waits for no message and whose
    removal from a queue it is not on changes none of the queue's words.
  */
  predicate CanDestroy(s: State, e: nat)
    requires Sized(s) && e < NENV
  {
    s.envs[e].status == RUNNABLE || (!s.envs[e].recving && Queue.Apart(s.q, Runnable(s), e))
  }

  lemma {:induction false} WithoutNothing(l: seq<nat>, e: nat)
    requires e !in l
    ensures Without(l, e) == l
  {
    if l != [] {
      WithoutNothing(l[1..], e);
    }
  }

  lemma QueueIsRunnable(s: State, l: seq<nat>)
    requires Good(s, l)
    ensures Queue.On(l, Runnable(s))
  {
    Queue.RepMembers(s.q, l);
  }

  lemma QueueAfterFree(s: State, l: seq<nat>, e: nat)
    requires Good(s, l) && e < NENV && s.envs[e].status != FREE && CanDestroy(s, e)
    ensures Queue.Rep(Queue.Remove(s.q, e), Without(l, e)) && (e in l ==> !s.q.prev[e].Null?)
    ensures forall f :: f in Without(l, e) <==> f in l && f != e
    ensures l != [] && e != l[0] ==> Without(l, e) != [] && Without(l, e)[0] == l[0]
  {
    if e in l {
      var k := PositionOf(l, e);
      assert Queue.NodeOk(s.q, l, k);
      RemoveElem(s.q, l, e);
    } else {
      QueueIsRunnable(s, l);
      Queue.ApartKeeps(s.q, l, Runnable(s), e);
      WithoutNothing(l, e);
    }
  }

  lemma EnvFreeKeeps(s: State, l: seq<nat>, e: nat)
    requires Good(s, l) && e < NENV && s.envs[e].status != FREE && CanDestroy(s, e)
    ensures Good(EnvFree(s, e), Without(l, e))
  {
    QueueAfterFree(s, l, e);
    EnvFreeAsids(s, EnvFree(s, e), e);
    hide AsidsOk, Queue.Rep, Queue.Remove, Without, CanDestroy;
    assert e !in s.free;
  }

  /** The store through NULL goes through, or there is none. */
  predicate NoFault(s: State, e: nat, zero: bool)
    requires Sized(s) && e < NENV
  {
    s.q.prev[e].Null? ==> zero
  }

  /** env_destroy within CanDestroy; the machine stops if the target was the last one runnable. */
  lemma DestroyKeeps(s: State, l: seq<nat>, e: nat, zero: bool)
    requires Running(s, l) && e < NENV && s.envs[e].status != FREE && CanDestroy(s, e) && NoFault(s, e, zero)
    ensures match EnvDestroy(s, e, zero) {
              case Go(t) => Running(t, Without(l, e)) && (e == l[0] ==> t.count == s.envs[l[1]].pri)
                            && (e != l[0] ==> t.count == s.count && t.cur == s.cur)
              case Halt => l == [e]
            }
  {
    hide AsidsOk, Queue.Rep, Queue.Remove, CanDestroy;
    EnvFreeKeeps(s, l, e);
    QueueAfterFree(s, l, e);
    if e == l[0] {
      DestroySelf(s, l, zero);
    }
  }

  lemma DestroySelf(s: State, l: seq<nat>, zero: bool)
    requires Running(s, l) && l[0] < NENV && !s.q.prev[l[0]].Null?
    requires Good(EnvFree(s, l[0]), l[1..])
    ensures match EnvDestroy(s, l[0], zero) {
              case Go(t) => |l| > 1 && Running(t, l[1..]) && t.count == s.envs[l[1]].pri
              case Halt => |l| == 1
            }
  {
    var r := EnvFree(s, l[0]).(cur := None);
    var r1 := r.(count := r.count - 1);
    assert Good(r1, l[1..]) && Schedule(r, true) == if r.q.first == None then Halt else RunFirst(r1);
    if |l| > 1 {
      RunFirstKeeps(r1, l[1..]);
    }
  }

  /**
    Destroying an environment that is not runnable, as a parent may: it panics exactly if the
    environment was never queued and the caller has no page to store to at address 0, and
    else keeps the invariant exactly within CanDestroy.
  */
  lemma DestroyIdleIff(s: State, l: seq<nat>, e: nat, zero: bool)
    requires Running(s, l) && e < NENV && s.envs[e].status == NOT_RUNNABLE
    ensures match EnvDestroy(s, e, zero) {
              case Go(t) => NoFault(s, e, zero) && ((exists m :: Running(t, m)) <==> CanDestroy(s, e))
              case Halt => !NoFault(s, e, zero)
            }
  {
    HeadRuns(s, l);
    if NoFault(s, e, zero) {
      if CanDestroy(s, e) {
        DestroyKeeps(s, l, e, zero);
        assert Running(EnvDestroy(s, e, zero).s, Without(l, e));
      } else {
        forall m | Running(EnvDestroy(s, e, zero).s, m) ensures false {
          DestroyIdleOnly(s, l, e, m);
        }
      }
    }
  }

  lemma DestroyIdleOnly(s: State, l: seq<nat>, e: nat, m: seq<nat>)
    requires Running(s, l) && e < NENV && s.envs[e].status == NOT_RUNNABLE
    requires Good(EnvFree(s, e), m)
    ensures CanDestroy(s, e)
  {
    hide AsidsOk, Queue.Rep, Queue.Remove, Queue.Apart;
    QueueIsRunnable(s, l);
    QueueIsRunnable(EnvFree(s, e), m);
    assert Queue.On(m, Runnable(s));
    Queue.ApartIff(s.q, l, Runnable(s), e);
    assert EnvFree(s, e).envs[e].recving == s.envs[e].recving;
  }

  /** One that was never queued has NULL in both its words: the store leaves the queue without a last link. */
  lemma NeverQueued(s: State, l: seq<nat>, e: nat)
    requires Running(s, l) && e < NENV && s.envs[e].status == NOT_RUNNABLE && s.q.prev[e].Null? && s.q.next[e] == None
    ensures !CanDestroy(s, e) && EnvFree(s, e).q == s.q.(last := Queue.Null)
  {
  }

  lemma AsidAllocIs(asids: set<nat>, from: nat)
    requires from <= NASID
    ensures match AsidAlloc(asids, from) {
              case Some(a) => from <= a < NASID && a !in asids && forall b: nat :: from <= b < a ==> b in asids
              case None => forall b: nat :: from <= b < NASID ==> b in asids
            }
    decreases NASID - from
  {
    if from < NASID {
      AsidAllocIs(asids, from + 1);
    }
  }

  /** The environment that leaves the free list gets an ASID nobody has. */
  lemma ForkAsids(s: State, t: State, e: nat, asid: nat)
    requires Sized(s) && Sized(t) && AsidsOk(s) && e < NENV && s.envs[e].status == FREE && asid !in s.asids
    requires t.envs == s.envs[e := t.envs[e]] && t.envs[e].status != FREE && t.envs[e].asid == asid
    requires t.asids == s.asids + {asid}
    ensures AsidsOk(t)
  {
    forall a ensures a in t.asids <==> exists f: nat :: f < NENV && t.envs[f].status != FREE && t.envs[f].asid == a {
      if a in s.asids {
        var f: nat :| f < NENV && s.envs[f].status != FREE && s.envs[f].asid == a;
        assert t.envs[f] == s.envs[f];
      } else if a == asid {
        assert t.envs[e].asid == a && t.envs[e].status != FREE;
      }
    }
  }

  /** sys_exofork: the child is not runnable, so the queue stays. */
  lemma ForkKeeps(s: State, l: seq<nat>, memory: bool)
    requires Running(s, l)
    ensures var r := Exofork(s, memory); r.out.Go? && Running(r.out.s, l) && r.out.s.count == s.count
  {
    HeadRuns(s, l);
    if s.free != [] && memory {
      match AsidAlloc(s.asids, 0) {
        case None => ForkFails(s, l, Exofork(s, memory).out.s);
        case Some(_) => ForkChild(s, l);
      }
    }
  }

  lemma SameAsids(s: State, t: State)
    requires Sized(s) && Sized(t) && AsidsOk(s) && t.asids == s.asids
    requires forall e: nat :: e < NENV ==> t.envs[e].status == s.envs[e].status && t.envs[e].asid == s.envs[e].asid
    ensures AsidsOk(t)
  {
    forall a ensures a in t.asids <==> exists e: nat :: e < NENV && t.envs[e].status != FREE && t.envs[e].asid == a {
      if a in s.asids {
        var e: nat :| e < NENV && s.envs[e].status != FREE && s.envs[e].asid == a;
        assert t.envs[e].asid == a;
      }
    }
  }

  /** Without an ASID the environment stays free, with a new id. */
  lemma ForkFails(s: State, l: seq<nat>, t: State)
    requires Running(s, l) && s.free != [] && s.free[0] < NENV && |t.envs| == NENV
    requires var e := s.free[0];
             t == s.(made := t.made, envs := s.envs[e := s.envs[e].(runs := 0, id := t.envs[e].id)])
    ensures Running(t, l)
  {
    hide Queue.Rep;
    assert s.free[0] in s.free;
    SameAsids(s, t);
    hide AsidsOk;
  }

  lemma ForkChild(s: State, l: seq<nat>)
    requires Running(s, l) && s.free != [] && AsidAlloc(s.asids, 0).Some?
    ensures Running(Exofork(s, true).out.s, l)
  {
    hide Queue.Rep, Mkenvid;
    var t, e := Exofork(s, true).out.s, s.free[0];
    assert e in s.free;
    HeadRuns(s, l);
    AsidAllocIs(s.asids, 0);
    ForkAsids(s, t, e, t.envs[e].asid);
    hide AsidsOk, AsidAlloc;
  }

  /** Its errors: no free environment or no free ASID, and in between no memory. */
  lemma ForkCodes(s: State, l: seq<nat>, memory: bool)
    requires Running(s, l)
    ensures var code := Exofork(s, memory).code;
            && (code == -E_NO_MEM <==> s.free != [] && !memory)
            && (code == -E_NO_FREE_ENV <==> s.free == [] || (memory && forall a: nat :: a < NASID ==> a in s.asids))
  {
    AsidAllocIs(s.asids, 0);
    hide Good;
  }
}
