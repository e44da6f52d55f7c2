/**
  Environments, round-robin scheduling and blocking IPC (kern/env.c, kern/sched.c,
  kern/syscall_all.c), on the pointer representation of env_sched_list.
*/
module Sched {
  import opened Errors
  import opened Mmu
  import Queue

  const NENV: nat := 1024
  const NASID: nat := 64
  const WORD: nat := 0x1_0000_0000

  datatype Status = FREE | RUNNABLE | NOT_RUNNABLE

  datatype Env = Env(
    status: Status, id: nat, asid: nat, parent: nat, pri: nat, runs: nat,
    recving: bool, dstva: nat, value: nat, from: nat, perm: bv32)

  /** `asids` is asid_bitmap, `made` the counter of mkenvid, `count` the slices left. */
  datatype State = State(
    envs: seq<Env>, q: Queue.Tailq, free: seq<nat>, cur: Option<nat>, count: int,
    asids: set<nat>, made: nat)

  /** The kernel goes back to user code, or stops in a panic. */
  datatype Outcome = Go(s: State) | Halt

  datatype Reply = Reply(out: Outcome, code: int)

  /** Array bounds: the table has NENV entries and every index is one of them. */
  predicate Sized(s: State) {
    && |s.envs| == NENV && Queue.Sized(s.q) && |s.q.next| == NENV
    && PtrIn(s.cur) && (forall i :: 0 <= i < |s.free| ==> s.free[i] < NENV)
  }

  predicate PtrIn(p: Option<nat>) {
    p.Some? ==> p.value < NENV
  }

  /** env_run: assert that e is runnable and switch to it. */
  function EnvRun(s: State, e: nat): Outcome
    requires Sized(s) && e < NENV
  {
    if s.envs[e].status != RUNNABLE then Halt
    else Go(s.(cur := Some(e), envs := s.envs[e := s.envs[e].(runs := (s.envs[e].runs + 1) % WORD)]))
  }

  /** Run the environment at the head of the queue for as many slices as its priority. */
  function RunFirst(s: State): Outcome
    requires Sized(s)
  {
    if s.q.first == None then Halt
    else EnvRun(s.(count := s.envs[s.q.first.value].pri), s.q.first.value)
  }

  function Schedule(s: State, yielding: bool): Outcome
    requires Sized(s)
  {
    var t := s.(count := s.count - 1);
    if yielding || t.count == 0 || s.cur == None || s.envs[s.cur.value].status != RUNNABLE then
      if s.q.first == None then Halt
      else if s.cur == None then RunFirst(t)
      else
        var e := s.cur.value;
        var r := Queue.Remove(s.q, e);
        RunFirst(t.(q := if s.envs[e].status == RUNNABLE then Queue.InsertTail(r, e) else r))
    else EnvRun(t, s.cur.value)
  }

  // ----- environments

  /** env_init */
  function Init(): State {
    State(seq(NENV, _ => Env(FREE, 0, 0, 0, 0, 0, false, 0, 0, 0, 0)),
          Queue.Tailq(None, Queue.Head, seq(NENV, _ => None), seq(NENV, _ => Queue.Null)),
          seq(NENV, i => i), None, 0, {}, 0)
  }

  function Mkenvid(e: nat, made: nat): nat {
    (made + 1) * 2048 % WORD + e
  }

  /** The least free ASID. */
  function AsidAlloc(asids: set<nat>, from: nat): Option<nat>
    decreases NASID - from
  {
    if from >= NASID then None
    else if from !in asids then Some(from)
    else AsidAlloc(asids, from + 1)
  }

  /** envid2env; None is -E_BAD_ENV. */
  function Envid2env(s: State, envid: nat, checkperm: bool): Option<nat>
    requires Sized(s) && s.cur.Some?
  {
    if envid == 0 then s.cur
    else
      var e := envid % NENV;
      var self := s.envs[s.cur.value].id;
      if s.envs[e].status == FREE || s.envs[e].id != envid then None
      else if checkperm && !(s.envs[e].id == self || s.envs[e].parent == self) then None
      else Some(e)
  }

  /** sys_exofork with env_alloc; `memory` says whether env_setup_vm finds a page. */
  function Exofork(s: State, memory: bool): Reply
    requires Sized(s) && s.cur.Some?
  {
    if s.free == [] then Reply(Go(s), -E_NO_FREE_ENV)
    else if !memory then Reply(Go(s), -E_NO_MEM)
    else
      var e, parent := s.free[0], s.envs[s.cur.value];
      var env := s.envs[e].(runs := 0, id := Mkenvid(e, s.made));
      var t := s.(made := (s.made + 1) % WORD);
      match AsidAlloc(s.asids, 0)
      case None => Reply(Go(t.(envs := t.envs[e := env])), -E_NO_FREE_ENV)
      case Some(asid) =>
        var env := env.(asid := asid, parent := parent.id, status := NOT_RUNNABLE, pri := parent.pri);
        Reply(Go(t.(envs := t.envs[e := env], asids := t.asids + {asid}, free := t.free[1..])), env.id)
  }

  /** The scheduling part of env_free. */
  function EnvFree(s: State, e: nat): State
    requires Sized(s) && e < NENV
  {
    s.(asids := s.asids - {s.envs[e].asid},
       envs := s.envs[e := s.envs[e].(status := FREE)],
       free := [e] + s.free,
       q := Queue.Remove(s.q, e))
  }

  /**
    env_destroy. Its TAILQ_REMOVE is the only one of an environment that need not have been
    queued before: then it stores through NULL. `zero` says whether the caller has a page
    mapped writable at address 0, where the store goes; if not, it is a panic.
  */
  function EnvDestroy(s: State, e: nat, zero: bool): Outcome
    requires Sized(s) && e < NENV
  {
    if s.q.prev[e].Null? && !zero then Halt
    else if s.cur == Some(e) then Schedule(EnvFree(s, e).(cur := None), true) else Go(EnvFree(s, e))
  }

  function SysEnvDestroy(s: State, envid: nat, zero: bool): Reply
    requires Sized(s) && s.cur.Some?
  {
    match Envid2env(s, envid, true)
    case None => Reply(Go(s), -E_BAD_ENV)
    case Some(e) => Reply(EnvDestroy(s, e, zero), 0)
  }

  /** sys_set_env_status; any status but the two allowed ones is an invalid argument. */
  function SetStatus(s: State, envid: nat, status: Status): Reply
    requires Sized(s) && s.cur.Some?
  {
    if status == FREE then Reply(Go(s), -E_INVAL)
    else
      match Envid2env(s, envid, false)
      case None => Reply(Go(s), -E_BAD_ENV)
      case Some(e) =>
        var was := s.envs[e].status;
        var q :=
          if status == RUNNABLE && was == NOT_RUNNABLE then Queue.InsertTail(s.q, e)
          else if status == NOT_RUNNABLE && was == RUNNABLE then Queue.Remove(s.q, e)
          else s.q;
        Reply(Go(s.(q := q, envs := s.envs[e := s.envs[e].(status := status)])), 0)
  }

  // ----- IPC

  function IpcRecv(s: State, dstva: nat): Reply
    requires Sized(s) && s.cur.Some?
  {
    if dstva != 0 && IllegalVa(dstva) then Reply(Go(s), -E_INVAL)
    else
      var e := s.cur.value;
      var env := s.envs[e].(recving := true, dstva := dstva, status := NOT_RUNNABLE);
      Reply(Schedule(s.(envs := s.envs[e := env], q := Queue.Remove(s.q, e)), true), 0)
  }

  /** PTE_V | perm */
  function Granted(perm: bv32): bv32 {
    (PTE_V as bv32) | perm
  }

  /**
    sys_ipc_try_send; `mapped` says whether the sender has a page at srcva. When it has
    not, the call fails, but the message was delivered all the same.
  */
  function IpcSend(s: State, envid: nat, value: nat, srcva: nat, mapped: bool, perm: bv32): Reply
    requires Sized(s) && s.cur.Some?
  {
    if srcva != 0 && IllegalVa(srcva) then Reply(Go(s), -E_INVAL)
    else
      match Envid2env(s, envid, false)
      case None => Reply(Go(s), -E_BAD_ENV)
      case Some(e) =>
        if !s.envs[e].recving then Reply(Go(s), -E_IPC_NOT_RECV)
        else
          var env := s.envs[e].(value := value, from := s.envs[s.cur.value].id, perm := Granted(perm),
                                recving := false, status := RUNNABLE);
          Reply(Go(s.(envs := s.envs[e := env], q := Queue.InsertTail(s.q, e))),
                if srcva != 0 && !mapped then -E_INVAL else 0)
  }

  // ----- steps

  datatype Op =
    | Tick | Yield
    | Fork(memory: bool)
    | Destroy(envid: nat, zero: bool)
    | Set(envid: nat, status: Status)
    | Recv(dstva: nat)
    | Send(envid: nat, value: nat, srcva: nat, mapped: bool, perm: bv32)

  function Step(s: State, op: Op): Outcome
    requires Sized(s) && s.cur.Some?
  {
    match op
    case Tick => Schedule(s, false)
    case Yield => Schedule(s, true)
    case Fork(memory) => Exofork(s, memory).out
    case Destroy(envid, zero) => SysEnvDestroy(s, envid, zero).out
    case Set(envid, status) => SetStatus(s, envid, status).out
    case Recv(dstva) => IpcRecv(s, dstva).out
    case Send(envid, value, srcva, mapped, perm) => IpcSend(s, envid, value, srcva, mapped, perm).out
  }
}
