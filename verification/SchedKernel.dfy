/**
  The scheduling routines as the kernel runs them, on shared state with the queue's
  pointers in place; each is tied to the function that describes it in module Sched.
*/
module SchedKernel {
  import opened Errors
  import opened Mmu
  import Bitmap
  import Queue
  import FreeList
  import opened Sched

  /** env_free_list is used at its head only: e goes there, */
  lemma PutFirst(q: FreeList.List, s: seq<nat>, e: nat)
    requires FreeList.Rep(q, s) && e < |q.next| && e !in s
    ensures FreeList.Rep(FreeList.InsertHead(q, e), [e] + s)
  {
    FreeList.InsertHeadRep(q, s, e);
    assert FreeList.Splice(s, 0, e) == [e] + s;
  }

  /** and the first is taken. */
  lemma TakeFirst(q: FreeList.List, s: seq<nat>)
    requires FreeList.Rep(q, s) && s != []
    ensures s[0] < |q.next| && FreeList.Rep(FreeList.Remove(q, s[0]), s[1..])
  {
    FreeList.RemoveRep(q, s, 0);
    assert Queue.Drop(s, 0) == s[1..];
  }

  lemma TakeHead(q: FreeList.List, s: seq<nat>)
    requires FreeList.Rep(q, s)
    ensures q.first == if s == [] then None else Some(s[0])
  {
  }

  /** The parts of sys_exofork with env_alloc: the new id comes first, */
  function Renamed(s: State, e: nat): (t: State)
    requires e < |s.envs|
    ensures |t.envs| == |s.envs| && t.free == s.free && t.asids == s.asids
  {
    s.(made := (s.made + 1) % WORD, envs := s.envs[e := s.envs[e].(runs := 0, id := Mkenvid(e, s.made))])
  }

  /** and the other fields once there is an ASID. */
  function Claimed(s: State, e: nat, asid: nat, parent: Env): State
    requires e < |s.envs| && s.free != []
  {
    s.(free := s.free[1..],
       envs := s.envs[e := s.envs[e].(asid := asid, parent := parent.id, status := NOT_RUNNABLE, pri := parent.pri)])
  }

  lemma ExoforkIs(s: State, memory: bool)
    requires Sized(s) && s.cur.Some?
    ensures Exofork(s, memory) ==
              if s.free == [] then Reply(Go(s), -E_NO_FREE_ENV)
              else if !memory then Reply(Go(s), -E_NO_MEM)
              else
                var e, t := s.free[0], Renamed(s, s.free[0]);
                match AsidAlloc(s.asids, 0)
                case None => Reply(Go(t), -E_NO_FREE_ENV)
                case Some(asid) =>
                  var u := Claimed(t.(asids := t.asids + {asid}), e, asid, s.envs[s.cur.value]);
                  Reply(Go(u), u.envs[e].id)
  {
    hide Queue.Sized, AsidAlloc, Mkenvid;
    if s.free != [] {
      var e := s.free[0];
      var t := Renamed(s, e);
      var parent, asid := s.envs[s.cur.value], AsidAlloc(s.asids, 0);
      if asid.Some? {
        var env := t.envs[e].(asid := asid.value, parent := parent.id, status := NOT_RUNNABLE, pri := parent.pri);
        assert t.envs[e := env] == s.envs[e := env];
      }
    }
  }

  class Kernel {
    const envs: array<Env>
    const envSchedList: Queue.TailQueue
    const asidBitmap: array<bv32>
    const envFreeList: FreeList.LinkedList
    ghost var free: seq<nat> // what envFreeList stands for
    var curenv: Option<nat>
    var count: int
    var made: nat

    ghost predicate Valid()
      reads this, envs, asidBitmap, envSchedList, envSchedList.next, envSchedList.prev
      reads envFreeList, envFreeList.next, envFreeList.prev
    {
      && envs as object != envSchedList.next && envs as object != envSchedList.prev
      && envs as object != envFreeList.next && envs as object != envFreeList.prev
      && envFreeList.next != envSchedList.next && envFreeList.prev != envSchedList.prev
      && envFreeList.next.Length == NENV && FreeList.Rep(envFreeList.View(), free)
      && envs.Length == NENV && asidBitmap.Length * 32 == NASID
      && Sized(View())
    }

    ghost function Asids(): set<nat>
      reads asidBitmap
    {
      set a: nat | a < asidBitmap.Length * 32 && Bitmap.Test(asidBitmap[..], a)
    }

    ghost function View(): State
      reads this, envs, asidBitmap, envSchedList, envSchedList.next, envSchedList.prev
    {
      State(envs[..], envSchedList.View(), free, curenv, count, Asids(), made)
    }

    ghost function Repr(): set<object> {
      {this, envs} + envSchedList.Footprint() + envFreeList.Footprint()
    }

    /** env_init: all environments free, listed in the order of the table. */
    constructor ()
      ensures Valid() && View() == Init()
    {
      envs := new Env[NENV](_ => Env(FREE, 0, 0, 0, 0, 0, false, 0, 0, 0, 0));
      envSchedList := new Queue.TailQueue(NENV);
      asidBitmap := new bv32[2](_ => 0);
      envFreeList := new FreeList.LinkedList(NENV);
      free := [];
      curenv := None;
      count := 0;
      made := 0;
      new;
      forall a: nat | a < NASID ensures !Bitmap.Test(asidBitmap[..], a) {
        Bitmap.ConstBits(a % 32);
      }
      assert Asids() == {};
      assert envs[..] == Init().envs;
      ListAll();
      assert free == seq(NENV, i => i);
    }

    /** The loop of env_init. */
    method ListAll()
      requires Valid() && free == [] && forall k :: 0 <= k < NENV ==> envs[k].status == FREE
      modifies this`free, envs, envFreeList.Footprint()
      ensures Valid() && View() == old(View()).(free := free)
      ensures |free| == NENV && forall k :: 0 <= k < NENV ==> free[k] == k
    {
      hide FreeList.Rep, Queue.Sized;
      var i := NENV;
      while i > 0
        invariant 0 <= i <= NENV && |free| == NENV - i
        invariant Valid() && View() == old(View()).(free := free)
        invariant forall k :: 0 <= k < |free| ==> free[k] == i + k
      {
        i := i - 1;
        SetEnv(i, envs[i].(status := FREE));
        assert View().envs == old(View()).envs;
        GiveFree(i);
      }
    }

    /** env_run; false is the failed assertion. */
    method EnvRun(e: nat) returns (ok: bool)
      requires Valid() && e < NENV
      modifies this, envs
      ensures ok == Sched.EnvRun(old(View()), e).Go?
      ensures if ok then Valid() && View() == Sched.EnvRun(old(View()), e).s else View() == old(View())
    {
      if envs[e].status != RUNNABLE {
        return false;
      }
      curenv := Some(e);
      envs[e] := envs[e].(runs := (envs[e].runs + 1) % WORD);
      return true;
    }

    /** The end of schedule: run the head of the queue for as many slices as its priority. */
    method RunHead() returns (ok: bool)
      requires Valid()
      modifies this, envs
      ensures ok == RunFirst(old(View())).Go?
      ensures ok ==> Valid() && View() == RunFirst(old(View())).s
    {
      if envSchedList.first == None {
        return false;
      }
      count := envs[envSchedList.first.value].pri;
      ok := EnvRun(envSchedList.first.value);
    }

    /** schedule; false is a panic. */
    method Schedule(yielding: bool) returns (ok: bool)
      requires Valid()
      modifies Repr()
      ensures ok == Sched.Schedule(old(View()), yielding).Go?
      ensures ok ==> Valid() && View() == Sched.Schedule(old(View()), yielding).s
    {
      hide Sched.EnvRun, RunFirst, Queue.Remove, Queue.InsertTail;
      count := count - 1;
      if yielding || count == 0 || curenv == None || envs[curenv.value].status != RUNNABLE {
        if envSchedList.first == None {
          return false;
        }
        if curenv.Some? {
          var e := curenv.value;
          if envs[e].status == RUNNABLE {
            envSchedList.Delete(e);
            envSchedList.InsertAtTail(e);
          } else {
            envSchedList.Delete(e);
          }
        }
        ok := RunHead();
      } else {
        ok := EnvRun(curenv.value);
      }
    }

    /** sys_ipc_recv */
    method SysIpcRecv(dstva: nat) returns (ok: bool, code: int)
      requires Valid() && curenv.Some?
      modifies Repr()
      ensures code == IpcRecv(old(View()), dstva).code && ok == IpcRecv(old(View()), dstva).out.Go?
      ensures ok ==> Valid() && View() == IpcRecv(old(View()), dstva).out.s
    {
      if dstva != 0 && IllegalVa(dstva) {
        return true, -E_INVAL;
      }
      var e := curenv.value;
      envs[e] := envs[e].(recving := true, dstva := dstva, status := NOT_RUNNABLE);
      envSchedList.Delete(e);
      ok := Schedule(true);
      code := 0;
    }

    /** The queueing part of sys_ipc_try_send, for the target envid2env found. */
    method Deliver(e: nat, value: nat, perm: bv32) returns (code: int)
      requires Valid() && curenv.Some? && e < NENV
      modifies Repr()
      ensures Valid() && curenv == old(curenv)
      ensures !old(envs[e]).recving ==> code == -E_IPC_NOT_RECV && View() == old(View())
      ensures old(envs[e]).recving ==> code == 0 && View() == old(View()).(
        envs := old(envs[..])[e := old(envs[e]).(value := value, from := old(envs[curenv.value].id), perm := Granted(perm),
                                               recving := false, status := RUNNABLE)],
        q := Queue.InsertTail(old(envSchedList.View()), e))
    {
      if !envs[e].recving {
        return -E_IPC_NOT_RECV;
      }
      envs[e] := envs[e].(value := value, from := envs[curenv.value].id, perm := Granted(perm),
                          recving := false, status := RUNNABLE);
      envSchedList.InsertAtTail(e);
      return 0;
    }

    /** sys_ipc_try_send; `mapped` says whether the sender has a page at srcva. */
    method SysIpcTrySend(envid: nat, value: nat, srcva: nat, mapped: bool, perm: bv32) returns (code: int)
      requires Valid() && curenv.Some?
      modifies Repr()
      ensures Valid() && IpcSend(old(View()), envid, value, srcva, mapped, perm) == Reply(Go(View()), code)
    {
      if srcva != 0 && IllegalVa(srcva) {
        return -E_INVAL;
      }
      var e := FindEnv(envid, false);
      if e == None {
        return -E_BAD_ENV;
      }
      hide Queue.InsertTail;
      code := Deliver(e.value, value, perm);
      if code == 0 && srcva != 0 && !mapped {
        return -E_INVAL;
      }
    }

    /** asid_alloc: the loop over the bitmap finds the least free ASID and marks it. */
    method AllocAsid() returns (asid: Option<nat>)
      requires Valid()
      modifies asidBitmap
      ensures asid == AsidAlloc(old(Asids()), 0)
      ensures Valid() && View() == old(View()).(asids := if asid.Some? then old(Asids()) + {asid.value} else old(Asids()))
    {
      hide Bitmap.Bit, Bitmap.MarkBit;
      var i := 0;
      while i < NASID
        invariant 0 <= i <= NASID && asidBitmap[..] == old(asidBitmap[..])
        invariant AsidAlloc(old(Asids()), 0) == AsidAlloc(old(Asids()), i)
      {
        if !Bitmap.Bit(asidBitmap[i / 32], i % 32) {
          Bitmap.OneBit(asidBitmap[..], i);
          asidBitmap[i / 32] := Bitmap.MarkBit(asidBitmap[i / 32], i % 32);
          assert asidBitmap[..] == Bitmap.Mark(old(asidBitmap[..]), i);
          return Some(i);
        }
        assert Bitmap.Test(asidBitmap[..], i);
        i := i + 1;
      }
      return None;
    }

    /** asid_free */
    method FreeAsid(asid: nat)
      requires Valid() && asid < NASID
      modifies asidBitmap
      ensures Valid() && View() == old(View()).(asids := old(Asids()) - {asid})
    {
      Bitmap.OneBit(asidBitmap[..], asid);
      asidBitmap[asid / 32] := Bitmap.ClearBit(asidBitmap[asid / 32], asid % 32);
      assert asidBitmap[..] == Bitmap.Clear(old(asidBitmap[..]), asid);
    }

    /** envid2env; None is -E_BAD_ENV. */
    method FindEnv(envid: nat, checkperm: bool) returns (e: Option<nat>)
      requires Valid() && curenv.Some?
      ensures e == Envid2env(View(), envid, checkperm)
    {
      if envid == 0 {
        return curenv;
      }
      var i := envid % NENV;
      if envs[i].status == FREE || envs[i].id != envid {
        return None;
      }
      if checkperm && envs[i].id != envs[curenv.value].id && envs[i].parent != envs[curenv.value].id {
        return None;
      }
      return Some(i);
    }

    method SetEnv(e: nat, env: Env)
      requires Valid() && e < NENV
      modifies envs
      ensures Valid() && View() == old(View()).(envs := old(envs[..])[e := env])
    {
      envs[e] := env;
    }

    method Enqueue(e: nat)
      requires Valid() && e < NENV
      modifies envSchedList.Footprint()
      ensures Valid() && View() == old(View()).(q := Queue.InsertTail(old(envSchedList.View()), e))
    {
      envSchedList.InsertAtTail(e);
    }

    method Dequeue(e: nat)
      requires Valid() && e < NENV
      modifies envSchedList.Footprint()
      ensures Valid() && View() == old(View()).(q := Queue.Remove(old(envSchedList.View()), e))
    {
      envSchedList.Delete(e);
    }

    /** LIST_REMOVE of the first free environment */
    method TakeFree()
      requires Valid() && free != []
      modifies this`free, envFreeList.Footprint()
      ensures Valid() && View() == old(View()).(free := old(free)[1..])
    {
      TakeFirst(envFreeList.View(), free);
      envFreeList.Delete(envFreeList.first.value);
      free := free[1..];
    }

    /** LIST_INSERT_HEAD on env_free_list */
    method GiveFree(e: nat)
      requires Valid() && e < NENV && e !in free
      modifies this`free, envFreeList.Footprint()
      ensures Valid() && View() == old(View()).(free := [e] + old(free))
    {
      PutFirst(envFreeList.View(), free, e);
      envFreeList.InsertAtHead(e);
      free := [e] + free;
    }

    /** mkenvid, in the middle of env_alloc */
    method NewId(e: nat)
      requires Valid() && e < NENV
      modifies envs, this`made
      ensures Valid() && View() == Renamed(old(View()), e)
    {
      SetEnv(e, envs[e].(runs := 0, id := Mkenvid(e, made)));
      made := (made + 1) % WORD;
    }

    /** The ends of env_alloc and sys_exofork: the environment gets its fields and leaves the free list. */
    method Claim(e: nat, asid: nat, parent: Env)
      requires Valid() && free != [] && e == free[0] && e < NENV
      modifies envs, this`free, envFreeList.Footprint()
      ensures Valid() && View() == Claimed(old(View()), e, asid, parent)
    {
      hide FreeList.Rep, Queue.Sized, Bitmap.Test;
      SetEnv(e, envs[e].(asid := asid, parent := parent.id));
      TakeFree();
      SetEnv(e, envs[e].(status := NOT_RUNNABLE, pri := parent.pri));
      assert View().envs == old(View()).envs[e := View().envs[e]];
    }

    /** sys_exofork with env_alloc: the environment leaves the free list only once it has an ASID. */
    method SysExofork(memory: bool) returns (code: int)
      requires Valid() && curenv.Some?
      modifies Repr(), asidBitmap
      ensures Valid() && Exofork(old(View()), memory) == Reply(Go(View()), code)
    {
      ghost var s := View();
      TakeHead(envFreeList.View(), free);
      ExoforkIs(s, memory);
      hide FreeList.Rep, FreeList.Sized, Queue.Sized, Sized, Exofork, Renamed, Claimed, AsidAlloc, Bitmap.Test;
      if envFreeList.first == None {
        return -E_NO_FREE_ENV;
      }
      if !memory {
        return -E_NO_MEM;
      }
      var e, parent := envFreeList.first.value, envs[curenv.value];
      NewId(e);
      var asid := AllocAsid();
      if asid == None {
        return -E_NO_FREE_ENV;
      }
      Claim(e, asid.value, parent);
      return envs[e].id;
    }

    /** The scheduling part of env_free; false is a store through NULL that faults. */
    method EnvFree(e: nat, zero: bool) returns (ok: bool)
      requires Valid() && e < NENV && envs[e].asid < NASID && e !in View().free
      modifies Repr(), asidBitmap
      ensures ok == (old(envSchedList.View()).prev[e].Null? ==> zero)
      ensures ok ==> Valid() && View() == Sched.EnvFree(old(View()), e) && unchanged(this`curenv) && unchanged(this`count)
    {
      hide FreeList.Rep, Queue.Remove, Bitmap.Test;
      FreeAsid(envs[e].asid);
      SetEnv(e, envs[e].(status := FREE));
      GiveFree(e);
      if envSchedList.prev[e].Null? && !zero {
        return false;
      }
      Dequeue(e);
      return true;
    }

    /** env_destroy; false is a panic. */
    method EnvDestroy(e: nat, zero: bool) returns (ok: bool)
      requires Valid() && e < NENV && envs[e].asid < NASID && e !in View().free
      modifies Repr(), asidBitmap
      ensures ok == Sched.EnvDestroy(old(View()), e, zero).Go?
      ensures ok ==> Valid() && View() == Sched.EnvDestroy(old(View()), e, zero).s
    {
      hide Sched.EnvFree, Sched.Schedule;
      var own := curenv == Some(e);
      ok := EnvFree(e, zero);
      if ok && own {
        curenv := None;
        ok := Schedule(true);
      }
    }

    /** sys_set_env_status */
    method SysSetEnvStatus(envid: nat, status: Status) returns (code: int)
      requires Valid() && curenv.Some?
      modifies Repr()
      ensures Valid() && SetStatus(old(View()), envid, status) == Reply(Go(View()), code)
    {
      if status == FREE {
        return -E_INVAL;
      }
      var e := FindEnv(envid, false);
      if e == None {
        return -E_BAD_ENV;
      }
      var i := e.value;
      hide Queue.InsertTail, Queue.Remove, Queue.Sized, FreeList.Rep;
      if status == RUNNABLE && envs[i].status == NOT_RUNNABLE {
        Enqueue(i);
      } else if status == NOT_RUNNABLE && envs[i].status == RUNNABLE {
        Dequeue(i);
      }
      SetEnv(i, envs[i].(status := status));
      return 0;
    }
  }
}
