/**
  What close, dup, fork and exit leave of an environment's descriptors (user/lib/fd.c,
  user/lib/pipe.c), whatever the others do while the call is under way.
*/
module PipeEnds {
  import opened PipeClosed

  /** e's next steps are its own: nobody ends it or makes it anew. */
  predicate Undisturbed(ev: Event, e: nat) {
    ev != Exit(e) && ev != Fork(e)
  }

  predicate NobodyEnds(evs: seq<Event>, e: nat) {
    forall i :: 0 <= i < |evs| ==> Undisturbed(evs[i], e)
  }

  /** The state in which e's call has returned, or the last one of the run if it does not. */
  function Finish(s: State, evs: seq<Event>, e: nat): State
    decreases evs
  {
    if evs == [] || PcOf(s, e).Idle? then s else Finish(Step(s, evs[0]), evs[1..], e)
  }

  /** The steps e takes until then. */
  function OwnSteps(s: State, evs: seq<Event>, e: nat): nat
    decreases evs
  {
    if evs == [] || PcOf(s, e).Idle? then 0
    else (if evs[0].Go? && s.cur == e then 1 else 0) + OwnSteps(Step(s, evs[0]), evs[1..], e)
  }

  /** e's slots, but for number num, are in t what they are in s. */
  ghost predicate SameBut(s: State, t: State, e: nat, num: nat) {
    forall n: nat :: n != num ==> SameSlot(s, t, Slot(e, n))
  }

  ghost predicate SameSlot(s: State, t: State, k: Slot) {
    && (k in t.fd <==> k in s.fd) && (k in s.fd && k in t.fd ==> t.fd[k] == s.fd[k])
    && (k in t.data <==> k in s.data)
  }

  /** The slot maps nothing. */
  ghost predicate Clear(s: State, k: Slot) {
    k !in s.fd && k !in s.data
  }

  /** How far e's close(num) has come, from s on. */
  ghost predicate Closing(s: State, t: State, e: nat, num: nat) {
    && SameBut(s, t, e, num)
    && match PcOf(t, e)
       case CloseData(n, after) => n == num && after == Done
       case CloseFd(n, after) => n == num && after == Done && Slot(e, num) !in t.data
       case Idle => Clear(t, Slot(e, num))
       case _ => false
  }

  /** How far e's dup(from, to) has come. */
  ghost predicate Duping(s: State, t: State, e: nat, from: nat, to: nat) {
    && SameBut(s, t, e, to)
    && match PcOf(t, e)
       case CloseData(n, after) => n == to && after == ThenDup(from)
       case CloseFd(n, after) => n == to && after == ThenDup(from)
       case DupData(a, b) => a == from && b == to
       case DupFd(a, b) => a == from && b == to && (Slot(e, to) in t.data <==> Slot(e, from) in s.data)
       case Idle => Shares(s, t, e, from, to)
       case _ => false
  }

  /** Slot `to` is now the same end of the same pipe as slot `from` was, and so is the data slot. */
  ghost predicate Shares(s: State, t: State, e: nat, from: nat, to: nat) {
    && Slot(e, to) in t.fd && Slot(e, from) in s.fd && t.fd[Slot(e, to)] == s.fd[Slot(e, from)]
    && (Slot(e, to) in t.data <==> Slot(e, from) in s.data)
  }

  /** The steps e has still to take. */
  function Left(pc: Pc): nat {
    match pc
    case CloseData(_, after) => if after.Done? then 2 else 4
    case CloseFd(_, after) => if after.Done? then 1 else 3
    case DupData(_, _) => 2
    case DupFd(_, _) => 1
    case _ => 0
  }

  /** While e is in a call, its next step is its own Go; the others leave its slots alone. */
  lemma OthersLeave(s: State, ev: Event, e: nat)
    requires Allowed(s, ev) && Undisturbed(ev, e) && !PcOf(s, e).Idle? && !(ev.Go? && s.cur == e)
    ensures var t := Step(s, ev); PcOf(t, e) == PcOf(s, e) && forall n: nat :: SameSlot(s, t, Slot(e, n))
  {
  }

  lemma CloseStep(s: State, t: State, ev: Event, e: nat, num: nat)
    requires Inv(t) && Allowed(t, ev) && Undisturbed(ev, e) && !PcOf(t, e).Idle? && Closing(s, t, e, num)
    ensures var u := Step(t, ev);
            Closing(s, u, e, num) && Left(PcOf(u, e)) + (if ev.Go? && t.cur == e then 1 else 0) <= Left(PcOf(t, e))
  {
    if !(ev.Go? && t.cur == e) {
      OthersLeave(t, ev, e);
    }
  }

  lemma DupStep(s: State, t: State, ev: Event, e: nat, from: nat, to: nat)
    requires Inv(t) && Allowed(t, ev) && Undisturbed(ev, e) && !PcOf(t, e).Idle? && Duping(s, t, e, from, to)
    requires from != to && Slot(e, from) in s.fd
    ensures var u := Step(t, ev);
            Duping(s, u, e, from, to) && Left(PcOf(u, e)) + (if ev.Go? && t.cur == e then 1 else 0) <= Left(PcOf(t, e))
  {
    if ev.Go? && t.cur == e {
      assert SameSlot(s, t, Slot(e, from));
      assert PcOk(t, e);
    } else {
      OthersLeave(t, ev, e);
      assert SameSlot(t, Step(t, ev), Slot(e, to));
    }
  }

  lemma {:induction false} CloseRuns(s: State, t: State, evs: seq<Event>, e: nat, num: nat)
    requires Inv(t) && RunAllowed(t, evs) && NobodyEnds(evs, e) && Closing(s, t, e, num)
    ensures var u := Finish(t, evs, e);
            Closing(s, u, e, num) && Left(PcOf(u, e)) + OwnSteps(t, evs, e) <= Left(PcOf(t, e))
    decreases evs
  {
    hide Inv, Closing, Allowed, Step, Left;
    if evs != [] && !PcOf(t, e).Idle? {
      StepKeeps(t, evs[0]);
      CloseStep(s, t, evs[0], e, num);
      CloseRuns(s, Step(t, evs[0]), evs[1..], e, num);
    }
  }

  lemma {:induction false} DupRuns(s: State, t: State, evs: seq<Event>, e: nat, from: nat, to: nat)
    requires Inv(t) && RunAllowed(t, evs) && NobodyEnds(evs, e) && Duping(s, t, e, from, to)
    requires from != to && Slot(e, from) in s.fd
    ensures var u := Finish(t, evs, e);
            Duping(s, u, e, from, to) && Left(PcOf(u, e)) + OwnSteps(t, evs, e) <= Left(PcOf(t, e))
    decreases evs
  {
    hide Inv, Duping, Allowed, Step, Left;
    if evs != [] && !PcOf(t, e).Idle? {
      StepKeeps(t, evs[0]);
      DupStep(s, t, evs[0], e, from, to);
      DupRuns(s, Step(t, evs[0]), evs[1..], e, from, to);
    }
  }

  /**
    However it is interleaved, close(num) returns after at most two further steps of its caller. Then
    the descriptor and its data page are unmapped, and the caller's other slots are as before.
  */
  lemma CloseClears(s: State, num: nat, evs: seq<Event>)
    requires Inv(s) && Allowed(s, Close(num)) && RunAllowed(Step(s, Close(num)), evs) && NobodyEnds(evs, s.cur)
    ensures var first := Step(s, Close(num));
            var t := Finish(first, evs, s.cur);
            && SameBut(s, t, s.cur, num)
            && (PcOf(t, s.cur).Idle? ==> Clear(t, Slot(s.cur, num)))
            && (PcOf(t, s.cur).Idle? || OwnSteps(first, evs, s.cur) < 2)
  {
    StepKeeps(s, Close(num));
    CloseBegins(s, num);
    CloseRuns(s, Step(s, Close(num)), evs, s.cur, num);
    hide Inv, Step, Allowed, SameBut, RunAllowed;
  }

  lemma CloseBegins(s: State, num: nat)
    requires Inv(s) && PcOf(s, s.cur).Idle?
    ensures Closing(s, Step(s, Close(num)), s.cur, num)
  {
    var k := Slot(s.cur, num);
    assert k in s.data ==> IsPipe(s, k) || InTransit(s, k);
  }

  lemma DupBegins(s: State, from: nat, to: nat)
    requires Inv(s) && Allowed(s, Dup(from, to)) && Slot(s.cur, from) in s.fd
    ensures Duping(s, Step(s, Dup(from, to)), s.cur, from, to)
  {
  }

  /**
    dup of a descriptor that is not open changes nothing. Otherwise it returns after at most four further
    steps of its caller; the new descriptor is then the same end of the same pipe as the old one
    was, whatever it was before, and every other slot of the caller is as before.
  */
  lemma DupShares(s: State, from: nat, to: nat, evs: seq<Event>)
    requires Inv(s) && Allowed(s, Dup(from, to)) && RunAllowed(Step(s, Dup(from, to)), evs) && NobodyEnds(evs, s.cur)
    ensures Slot(s.cur, from) !in s.fd ==> Step(s, Dup(from, to)) == s
    ensures Slot(s.cur, from) in s.fd ==>
              var first := Step(s, Dup(from, to));
              var t := Finish(first, evs, s.cur);
              && SameBut(s, t, s.cur, to)
              && (PcOf(t, s.cur).Idle? ==> Shares(s, t, s.cur, from, to))
              && (PcOf(t, s.cur).Idle? || OwnSteps(first, evs, s.cur) < 4)
  {
    if Slot(s.cur, from) in s.fd {
      StepKeeps(s, Dup(from, to));
      DupBegins(s, from, to);
      DupRuns(s, Step(s, Dup(from, to)), evs, s.cur, from, to);
    }
    hide Inv, Step, SameBut, RunAllowed;
  }

  /** fork gives the child, which had nothing, each of the parent's slots; nobody else's change. */
  lemma ForkCopies(s: State, child: nat)
    requires Inv(s) && Allowed(s, Fork(child))
    ensures var t := Step(s, Fork(child));
            && (forall n: nat :: var k, c := Slot(s.cur, n), Slot(child, n);
                  (c in t.fd <==> k in s.fd) && (k in s.fd && c in t.fd ==> t.fd[c] == s.fd[k]) && (c in t.data <==> k in s.data))
            && (forall k: Slot :: k.env != child ==> SameSlot(s, t, k))
  {
    var t := Step(s, Fork(child));
    forall n: nat ensures var k, c := Slot(s.cur, n), Slot(child, n);
      (c in t.fd <==> k in s.fd) && (k in s.fd && c in t.fd ==> t.fd[c] == s.fd[k]) && (c in t.data <==> k in s.data)
    {
      var k := Slot(s.cur, n);
      assert k in s.fd ==> k.num == n;
      assert k in s.data ==> k.num == n;
    }
  }

  /** An environment that ends closes everything, and nobody else's slots change. */
  lemma ExitCloses(s: State, e: nat)
    ensures var t := Step(s, Exit(e));
            forall k: Slot :: if k.env == e then Clear(t, k) else SameSlot(s, t, k)
  {
  }

  // ----- _pipe_is_closed returns

  /** It has read env_runs, and maybe counts, or is about to. */
  predicate Checking(pc: Pc) {
    pc.Runs? || pc.FdRef? || pc.PipeRef? || pc.Again?
  }

  /** n steps of the running environment. */
  function Steps(s: State, n: nat): State
    decreases n
  {
    if n == 0 then s else Steps(Step(s, Go), n - 1)
  }

  /** It returns at the second look at env_runs if that is unchanged, and at no other step. */
  lemma ReturnsThere(s: State)
    requires Checking(PcOf(s, s.cur))
    ensures var pc := PcOf(Step(s, Go), s.cur);
            && (pc.Idle? <==> Returns(s)) && (!pc.Idle? ==> Checking(pc) && pc.num == PcOf(s, s.cur).num)
            && Step(s, Go).fd == s.fd && Step(s, Go).data == s.data
  {
  }

  /** The steps to the test, or to the next time env_runs is read first. */
  function Stage(pc: Pc): nat {
    match pc
    case FdRef(_, _) => 3
    case PipeRef(_, _, _) => 2
    case Again(_, _, _, _) => 1
    case _ => 0
  }

  lemma StageStep(s: State)
    requires Checking(PcOf(s, s.cur)) && !Returns(s) && !PcOf(s, s.cur).Runs?
    ensures var t := Step(s, Go); t.cur == s.cur && Checking(PcOf(t, t.cur)) && Stage(PcOf(t, t.cur)) < Stage(PcOf(s, s.cur))
  {
  }

  /** Wherever it was when its environment came to run, it returns after six steps at most without another switch. */
  lemma {:induction false} CheckEnds(s: State)
    requires Checking(PcOf(s, s.cur))
    ensures exists n: nat :: n <= 3 + Stage(PcOf(s, s.cur)) && Returns(Steps(s, n))
    decreases Stage(PcOf(s, s.cur))
  {
    hide Step, Checking, Returns, Stage;
    if Returns(s) {
      assert Returns(Steps(s, 0));
    } else if PcOf(s, s.cur).Runs? {
      CheckEndsIn(s, PcOf(s, s.cur).num);
    } else {
      StageStep(s);
      CheckEnds(Step(s, Go));
      var n: nat :| n <= 3 + Stage(PcOf(Step(s, Go), s.cur)) && Returns(Steps(Step(s, Go), n));
      assert Steps(s, n + 1) == Steps(Step(s, Go), n);
    }
  }

  lemma CheckEndsIn(s: State, num: nat)
    requires PcOf(s, s.cur) == Runs(num)
    ensures Returns(Steps(s, 3))
  {
    var t := Step(s, Go);
    var u := Step(t, Go);
    assert Steps(s, 3) == Steps(t, 2) == Steps(u, 1) == Step(u, Go);
  }

  /** A call of it begins there, and nothing else does. */
  lemma CheckBegins(s: State, num: nat)
    ensures PcOf(Step(s, Check(num)), s.cur) == Runs(num)
  {
  }
}
