/**
  The test for a closed pipe (user/lib/pipe.c, user/lib/fd.c, user/lib/pageref.c): reference
  counts of the descriptor page and the pipe page, read between two looks at env_runs,
  while other environments open, duplicate and close descriptors.
*/
module PipeClosed {

  const WORD: nat := 0x1_0000_0000 // env_runs is a u_int and wraps

  /** What a descriptor page is: one end of the pipe, or something else. */
  datatype End = ReadEnd | WriteEnd | Other

  /** Descriptor number `num` of environment `env`. */
  datatype Slot = Slot(env: nat, num: nat)

  /** Where an environment is between two system calls or reads. */
  datatype Pc =
    | Idle
    | CloseData(num: nat, andThen: After)                        // pipe_close unmapped fd, data is next
    | CloseFd(num: nat, andThen: After)                          // then fd_close unmaps fd again
    | DupData(from: nat, to: nat)                                // dup maps the data page
    | DupFd(from: nat, to: nat)                                  // and then the descriptor
    | Runs(num: nat)                                             // _pipe_is_closed reads env_runs
    | FdRef(num: nat, at: nat)                                   // pageref(fd)
    | PipeRef(num: nat, at: nat, fdRef: nat)                     // pageref(p)
    | Again(num: nat, at: nat, fdRef: nat, pipeRef: nat)         // env_runs again

  datatype After = Done | ThenDup(from: nat)

  /**
    `fd` says what each mapped descriptor page is, `data` which data slots map the pipe
    page. `runs` counts env_run calls without wrapping; env_runs is the count mod 2^32.
  */
  datatype State = State(
    fd: map<Slot, End>, data: set<Slot>, cur: nat, runs: map<nat, nat>, pc: map<nat, Pc>)

  function RunsOf(s: State, e: nat): nat {
    if e in s.runs then s.runs[e] else 0
  }

  function PcOf(s: State, e: nat): Pc {
    if e in s.pc then s.pc[e] else Idle
  }

  /** The slots that map one end: by conservation of references, pp_ref of its page is their number. */
  function Slots(s: State, end: End): set<Slot> {
    set k | k in s.fd && s.fd[k] == end
  }

  function Pageref(s: State, k: Slot): nat {
    if k in s.fd then |Slots(s, s.fd[k])| else 0
  }

  function Goto(s: State, pc: Pc): State {
    s.(pc := s.pc[s.cur := pc])
  }

  /** After a close: back to the caller, or on with dup. */
  function Continue(s: State, num: nat, after: After): State {
    Goto(s, match after case Done => Idle case ThenDup(from) => DupData(from, num))
  }

  /** close(num) up to its first system call. */
  function BeginClose(s: State, num: nat, after: After): State {
    var k := Slot(s.cur, num);
    if k !in s.fd then Continue(s, num, after)                          // fd_lookup fails
    else if s.fd[k] == Other then Continue(s.(fd := s.fd - {k}), num, after)
    else Goto(s.(fd := s.fd - {k}), CloseData(num, after))
  }

  /** The running environment's next step inside a library call. */
  function Advance(s: State): State {
    var e := s.cur;
    match PcOf(s, e)
    case Idle => s
    case CloseData(num, after) => Goto(s.(data := s.data - {Slot(e, num)}), CloseFd(num, after))
    case CloseFd(num, after) => Continue(s.(fd := s.fd - {Slot(e, num)}), num, after)
    case DupData(from, to) =>
      Goto(s.(data := if Slot(e, from) in s.data then s.data + {Slot(e, to)} else s.data), DupFd(from, to))
    case DupFd(from, to) =>
      if Slot(e, from) in s.fd then Goto(s.(fd := s.fd[Slot(e, to) := s.fd[Slot(e, from)]]), Idle) else Goto(s, Idle)
    case Runs(num) => Goto(s, FdRef(num, RunsOf(s, e)))
    case FdRef(num, at) => Goto(s, PipeRef(num, at, Pageref(s, Slot(e, num))))
    case PipeRef(num, at, fdRef) => Goto(s, Again(num, at, fdRef, if Slot(e, num) in s.data then |s.data| else 0))
    case Again(num, at, fdRef, pipeRef) =>
      if at % WORD != RunsOf(s, e) % WORD then Goto(s, Runs(num)) else Goto(s, Idle)
  }

  /** What the running environment learns when _pipe_is_closed returns. */
  predicate Returns(s: State) {
    PcOf(s, s.cur).Again? && PcOf(s, s.cur).at % WORD == RunsOf(s, s.cur) % WORD
  }

  predicate Answer(s: State)
    requires Returns(s)
  {
    PcOf(s, s.cur).fdRef == PcOf(s, s.cur).pipeRef
  }

  datatype Event =
    | Switch(e: nat)                // schedule picks e, maybe the same one again
    | Go                            // the running environment's next step
    | Close(num: nat)
    | Dup(from: nat, to: nat)
    | Check(num: nat)               // _pipe_is_closed
    | Fork(child: nat)              // taken as one step: a new environment gets all descriptors
    | Exit(e: nat)                  // env_free, one step

  function Step(s: State, ev: Event): State {
    match ev
    case Switch(e) => s.(cur := e, runs := s.runs[e := RunsOf(s, e) + 1])
    case Go => Advance(s)
    case Close(num) => BeginClose(s, num, Done)
    case Dup(from, to) => if Slot(s.cur, from) in s.fd then BeginClose(s, to, ThenDup(from)) else s
    case Check(num) => Goto(s, Runs(num))
    case Fork(child) =>
      s.(fd := map k | k in CopiedFd(s, child) :: CopiedFd(s, child)[k], data := CopiedData(s, child),
         pc := s.pc[child := Idle], runs := s.runs[child := 0])
    case Exit(e) =>
      var left := set k | k in s.data && k.env != e;
      s.(fd := map k | k in s.fd && k.env != e :: s.fd[k], data := left, pc := s.pc[e := Idle])
  }

  function CopiedFd(s: State, child: nat): map<Slot, End> {
    s.fd + map k | k in s.fd && k.env == s.cur :: Slot(child, k.num) := s.fd[k]
  }

  function CopiedData(s: State, child: nat): set<Slot> {
    s.data + set k | k in s.data && k.env == s.cur :: Slot(child, k.num)
  }

  // ----- the invariant

  predicate IsPipe(s: State, k: Slot) {
    k in s.fd && s.fd[k] != Other
  }

  /** A data page that is mapped while its descriptor is not: close or dup is under way. */
  predicate InTransit(s: State, k: Slot) {
    match PcOf(s, k.env)
    case CloseData(num, after) => num == k.num
    case DupFd(from, to) => to == k.num && IsPipe(s, Slot(k.env, from))
    case _ => false
  }

  /** What a program counter promises about the slots it is working on. */
  predicate PcOk(s: State, e: nat) {
    match PcOf(s, e)
    case CloseData(num, after) => Slot(e, num) !in s.fd && ToOk(s, e, num, after)
    case CloseFd(num, after) => Slot(e, num) !in s.fd && Slot(e, num) !in s.data && ToOk(s, e, num, after)
    case DupData(from, to) => from != to && Slot(e, to) !in s.fd && Slot(e, to) !in s.data && Slot(e, from) in s.fd
    case DupFd(from, to) =>
      && from != to && Slot(e, to) !in s.fd && Slot(e, from) in s.fd
      && (Slot(e, to) in s.data <==> IsPipe(s, Slot(e, from)))
    case Runs(num) => IsPipe(s, Slot(e, num))
    case FdRef(num, at) => IsPipe(s, Slot(e, num)) && at <= RunsOf(s, e)
    case PipeRef(num, at, fdRef) =>
      && IsPipe(s, Slot(e, num)) && at <= RunsOf(s, e)
      && (e == s.cur && at == RunsOf(s, e) ==> fdRef == Pageref(s, Slot(e, num)))
    case Again(num, at, fdRef, pipeRef) =>
      && IsPipe(s, Slot(e, num)) && at <= RunsOf(s, e)
      && (e == s.cur && at == RunsOf(s, e) ==> fdRef == Pageref(s, Slot(e, num)) && pipeRef == |s.data|)
    case _ => true
  }

  predicate ToOk(s: State, e: nat, num: nat, after: After) {
    after.ThenDup? ==> after.from != num && Slot(e, after.from) in s.fd
  }

  /** Every open end has its data page, and every mapped data page has an end or is in transit. */
  ghost predicate Inv(s: State) {
    && (forall k :: IsPipe(s, k) ==> k in s.data)
    && (forall k :: k in s.data ==> IsPipe(s, k) || InTransit(s, k))
    && (forall e {:trigger PcOf(s, e)} :: PcOk(s, e))
  }

  /** The library is called with open descriptors, dup gets two, and fork makes a new environment. */
  ghost predicate Allowed(s: State, ev: Event) {
    match ev
    case Switch(e) => true
    case Go => PcOf(s, s.cur).Again? ==> RunsOf(s, s.cur) < PcOf(s, s.cur).at + WORD
    case Close(num) => PcOf(s, s.cur).Idle?
    case Dup(from, to) => PcOf(s, s.cur).Idle? && from != to
    case Check(num) => PcOf(s, s.cur).Idle? && IsPipe(s, Slot(s.cur, num))
    case Fork(child) =>
      && PcOf(s, s.cur).Idle? && child != s.cur && PcOf(s, child).Idle?
      && (forall k: Slot :: k.env == child ==> k !in s.fd && k !in s.data)
    case Exit(e) => PcOf(s, s.cur).Idle?
  }

  // ----- counting

  /** pageref(pipe) is at least the number of readers plus the number of writers. */
  lemma EnoughReferences(s: State)
    requires Inv(s)
    ensures |Slots(s, ReadEnd)| + |Slots(s, WriteEnd)| <= |s.data|
  {
    var r, w := Slots(s, ReadEnd), Slots(s, WriteEnd);
    assert r !! w;
    forall k | k in r + w ensures k in s.data {
      assert IsPipe(s, k);
    }
    assert |r + w| == |r| + |w|;
    Smaller(r + w, s.data);
  }

  lemma Smaller(a: set<Slot>, b: set<Slot>)
    requires a <= b
    ensures |a| <= |b| && (|a| == |b| ==> a == b)
  {
    assert b == a + (b - a) && |b| == |a| + |b - a|;
  }

  function OtherEnd(end: End): End {
    if end == ReadEnd then WriteEnd else ReadEnd
  }

  /** If as many slots map one end as map the pipe page, the other end is mapped nowhere. */
  lemma EqualMeansClosed(s: State, end: End)
    requires Inv(s) && end != Other && |Slots(s, end)| == |s.data|
    ensures Slots(s, OtherEnd(end)) == {}
  {
    EnoughReferences(s);
  }

  /** With no call under way, the other end being mapped nowhere makes the numbers equal. */
  lemma ClosedMeansEqual(s: State, end: End)
    requires Inv(s) && end != Other && Slots(s, OtherEnd(end)) == {} && (forall k :: !InTransit(s, k))
    ensures |Slots(s, end)| == |s.data|
  {
    assert Slots(s, end) == s.data by {
      forall k ensures k in Slots(s, end) <==> k in s.data {
        assert k in s.data ==> IsPipe(s, k);
        assert k !in Slots(s, OtherEnd(end));
      }
    }
  }

  // ----- steps

  lemma SwitchKeeps(s: State, e: nat)
    requires Inv(s)
    ensures Inv(Step(s, Switch(e)))
  {
    var t := Step(s, Switch(e));
    forall k ensures (IsPipe(t, k) == IsPipe(s, k)) && (InTransit(t, k) == InTransit(s, k)) {
    }
    forall f ensures PcOk(t, f) {
      assert PcOk(s, f);
    }
  }

  /** Steps of cur leave the other environments' slots and counters alone. */
  ghost predicate OnlyCur(s: State, t: State) {
    && t.cur == s.cur && t.runs == s.runs
    && (forall k: Slot :: k.env != s.cur ==>
          (k in t.fd <==> k in s.fd) && (k in s.fd ==> t.fd[k] == s.fd[k]) && (k in t.data <==> k in s.data))
    && (forall e :: e != s.cur ==> PcOf(t, e) == PcOf(s, e))
  }

  lemma OthersKeep(s: State, t: State, e: nat)
    requires OnlyCur(s, t) && PcOk(s, e) && e != s.cur
    ensures PcOk(t, e) && forall k: Slot :: k.env == e ==> IsPipe(t, k) == IsPipe(s, k) && InTransit(t, k) == InTransit(s, k)
  {
    assert forall n: nat :: IsPipe(t, Slot(e, n)) == IsPipe(s, Slot(e, n));
  }

  /** It is enough to look at cur. */
  lemma CurKeeps(s: State, t: State)
    requires Inv(s) && OnlyCur(s, t) && PcOk(t, s.cur)
    requires forall n: nat :: var k := Slot(s.cur, n);
      (IsPipe(t, k) ==> k in t.data) && (k in t.data ==> IsPipe(t, k) || InTransit(t, k))
    ensures Inv(t)
  {
    forall e ensures PcOk(t, e) {
      if e != s.cur {
        assert PcOk(s, e);
        OthersKeep(s, t, e);
      }
    }
    forall k: Slot ensures (IsPipe(t, k) ==> k in t.data) && (k in t.data ==> IsPipe(t, k) || InTransit(t, k)) {
      if k.env != s.cur {
        assert PcOk(s, k.env);
        OthersKeep(s, t, k.env);
      } else {
        assert k == Slot(s.cur, k.num);
      }
    }
  }

  lemma BeginCloseKeeps(s: State, num: nat, after: After)
    requires Inv(s) && PcOf(s, s.cur).Idle? && ToOk(s, s.cur, num, after)
    ensures Inv(BeginClose(s, num, after))
  {
    var k := Slot(s.cur, num);
    assert k in s.data ==> IsPipe(s, k) || InTransit(s, k);
    assert forall n: nat :: Slot(s.cur, n) in s.data ==> IsPipe(s, Slot(s.cur, n)) || InTransit(s, Slot(s.cur, n));
    CurKeeps(s, BeginClose(s, num, after));
  }

  lemma CloseStepsKeep(s: State)
    requires Inv(s) && (PcOf(s, s.cur).CloseData? || PcOf(s, s.cur).CloseFd?)
    ensures Inv(Advance(s))
  {
    assert PcOk(s, s.cur);
    assert forall n: nat :: Slot(s.cur, n) in s.data ==> IsPipe(s, Slot(s.cur, n)) || InTransit(s, Slot(s.cur, n));
    CurKeeps(s, Advance(s));
  }

  lemma DupStepsKeep(s: State)
    requires Inv(s) && (PcOf(s, s.cur).DupData? || PcOf(s, s.cur).DupFd?)
    ensures Inv(Advance(s))
  {
    assert PcOk(s, s.cur);
    assert forall n: nat :: Slot(s.cur, n) in s.data ==> IsPipe(s, Slot(s.cur, n)) || InTransit(s, Slot(s.cur, n));
    CurKeeps(s, Advance(s));
  }

  lemma CheckStepsKeep(s: State)
    requires Inv(s) && !PcOf(s, s.cur).CloseData? && !PcOf(s, s.cur).CloseFd?
    requires !PcOf(s, s.cur).DupData? && !PcOf(s, s.cur).DupFd?
    ensures Inv(Advance(s))
  {
    assert PcOk(s, s.cur);
    assert forall n: nat :: IsPipe(s, Slot(s.cur, n)) ==> Slot(s.cur, n) in s.data;
    assert forall n: nat :: Slot(s.cur, n) in s.data ==> IsPipe(s, Slot(s.cur, n)) || InTransit(s, Slot(s.cur, n));
    var t := Advance(s);
    assert t.fd == s.fd && t.data == s.data;
    CurKeeps(s, t);
  }

  lemma ForkKeeps(s: State, child: nat)
    requires Inv(s) && Allowed(s, Fork(child))
    ensures Inv(Step(s, Fork(child)))
  {
    var t := Step(s, Fork(child));
    forall k ensures (IsPipe(t, k) ==> k in t.data) && (k in t.data ==> IsPipe(t, k) || InTransit(t, k)) {
      if k.env == child {
        var own := Slot(s.cur, k.num);
        assert (own in s.fd ==> own.num == k.num) && (own in s.data ==> own.num == k.num);
        assert k in t.fd <==> own in s.fd;
        assert k in t.data <==> own in s.data;
        assert own in s.data ==> IsPipe(s, own) || InTransit(s, own);
      } else {
        assert IsPipe(t, k) == IsPipe(s, k) && (k in t.data <==> k in s.data);
        assert InTransit(s, k) ==> InTransit(t, k);
      }
    }
    forall e ensures PcOk(t, e) {
      assert PcOk(s, e);
    }
  }

  lemma ExitKeeps(s: State, e: nat)
    requires Inv(s) && Allowed(s, Exit(e))
    ensures Inv(Step(s, Exit(e)))
  {
    var t := Step(s, Exit(e));
    forall k ensures (IsPipe(t, k) ==> k in t.data) && (k in t.data ==> IsPipe(t, k) || InTransit(t, k)) {
      if k.env != e {
        assert IsPipe(t, k) == IsPipe(s, k) && (InTransit(s, k) ==> InTransit(t, k));
      }
    }
    forall f ensures PcOk(t, f) {
      assert PcOk(s, f);
    }
  }

  lemma StepKeeps(s: State, ev: Event)
    requires Inv(s) && Allowed(s, ev)
    ensures Inv(Step(s, ev))
  {
    match ev {
      case Switch(e) => SwitchKeeps(s, e);
      case Go =>
        var pc := PcOf(s, s.cur);
        if pc.CloseData? || pc.CloseFd? {
          CloseStepsKeep(s);
        } else if pc.DupData? || pc.DupFd? {
          DupStepsKeep(s);
        } else {
          CheckStepsKeep(s);
        }
      case Close(num) => BeginCloseKeeps(s, num, Done);
      case Dup(from, to) =>
        if Slot(s.cur, from) in s.fd {
          BeginCloseKeeps(s, to, ThenDup(from));
        }
      case Check(num) => CheckBegins(s, num);
      case Fork(child) => ForkKeeps(s, child);
      case Exit(e) => ExitKeeps(s, e);
    }
  }

  lemma CheckBegins(s: State, num: nat)
    requires Inv(s) && Allowed(s, Check(num))
    ensures Inv(Step(s, Check(num)))
  {
    assert forall n: nat :: IsPipe(s, Slot(s.cur, n)) ==> Slot(s.cur, n) in s.data;
    assert forall n: nat :: Slot(s.cur, n) in s.data ==> IsPipe(s, Slot(s.cur, n)) || InTransit(s, Slot(s.cur, n));
    CurKeeps(s, Goto(s, Runs(num)));
  }

  /**
    When _pipe_is_closed is about to return, its two counts are one snapshot, and the
    snapshot is the present state. If it answers yes, the other end is open nowhere; and
    when nobody is in the middle of a close or dup, it answers yes only and exactly then.
  */
  lemma ClosedIsClosed(s: State)
    requires Inv(s) && Allowed(s, Go) && Returns(s)
    ensures var k := Slot(s.cur, PcOf(s, s.cur).num);
            && IsPipe(s, k)
            && (Answer(s) ==> Slots(s, OtherEnd(s.fd[k])) == {})
            && ((forall l :: !InTransit(s, l)) ==> (Answer(s) <==> Slots(s, OtherEnd(s.fd[k])) == {}))
  {
    var k := Slot(s.cur, PcOf(s, s.cur).num);
    assert PcOk(s, s.cur);
    SameCount(PcOf(s, s.cur).at, RunsOf(s, s.cur));
    if Answer(s) {
      EqualMeansClosed(s, s.fd[k]);
    }
    if (forall l :: !InTransit(s, l)) && Slots(s, OtherEnd(s.fd[k])) == {} {
      ClosedMeansEqual(s, s.fd[k]);
    }
  }

  /** Fewer than 2^32 turns apart, wrapped counters are equal only if the counters are. */
  lemma SameCount(a: nat, b: nat)
    requires a <= b < a + WORD && a % WORD == b % WORD
    ensures a == b
  {
  }

  function Run(s: State, evs: seq<Event>): State
    decreases evs
  {
    if evs == [] then s else Run(Step(s, evs[0]), evs[1..])
  }

  ghost predicate RunAllowed(s: State, evs: seq<Event>)
    decreases evs
  {
    evs == [] || (Allowed(s, evs[0]) && RunAllowed(Step(s, evs[0]), evs[1..]))
  }

  /** At every preemption point of every run the pipe page has enough references. */
  lemma {:induction false} RunKeeps(s: State, evs: seq<Event>)
    requires Inv(s) && RunAllowed(s, evs)
    ensures var t := Run(s, evs); Inv(t) && |Slots(t, ReadEnd)| + |Slots(t, WriteEnd)| <= |t.data|
    decreases evs
  {
    if evs == [] {
      EnoughReferences(s);
    } else {
      StepKeeps(s, evs[0]);
      RunKeeps(Step(s, evs[0]), evs[1..]);
    }
  }

  /** pipe() has just returned descriptors r and w to environment e. */
  lemma NewPipe(e: nat, r: nat, w: nat, runs: map<nat, nat>)
    requires r != w
    ensures Inv(State(map[Slot(e, r) := ReadEnd, Slot(e, w) := WriteEnd], {Slot(e, r), Slot(e, w)}, e, runs, map[]))
  {
    var s := State(map[Slot(e, r) := ReadEnd, Slot(e, w) := WriteEnd], {Slot(e, r), Slot(e, w)}, e, runs, map[]);
    forall f ensures PcOk(s, f) {
    }
    assert IsPipe(s, Slot(e, r)) && IsPipe(s, Slot(e, w));
  }
}
