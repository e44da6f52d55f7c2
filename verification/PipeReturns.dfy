/**
  What one pipe_read and one pipe_write report, told from the events of a run: the bytes
  that passed during the call, and what must have been seen before a call ends short.
*/
module PipeReturns {
  import opened PipeFifo

  /** The state after the first i events. */
  function After(s: State, evs: seq<Event>, i: nat): State
    requires |s.buf| == BY2PIPE && i <= |evs|
  {
    Run(s, evs[..i])
  }

  lemma {:induction false} RunAppend(s: State, evs: seq<Event>, ev: Event)
    requires Inv(s)
    ensures Inv(Run(s, evs)) && Run(s, evs + [ev]) == Step(Run(s, evs), ev)
    decreases evs
  {
    hide ReaderStep, WriterStep, ReaderOk, WriterOk;
    if evs == [] {
      StepKeeps(s, ev);
      assert [ev][1..] == [];
    } else {
      StepKeeps(s, evs[0]);
      RunAppend(Step(s, evs[0]), evs[1..], ev);
      assert (evs + [ev])[1..] == evs[1..] + [ev];
    }
  }

  lemma AfterNone(s: State, evs: seq<Event>)
    requires Inv(s)
    ensures |s.buf| == BY2PIPE && After(s, evs, 0) == s
  {
  }

  lemma AfterNext(s: State, evs: seq<Event>, i: nat)
    requires Inv(s) && i < |evs|
    ensures Inv(After(s, evs, i)) && After(s, evs, i + 1) == Step(After(s, evs, i), evs[i])
    ensures Inv(After(s, evs, i + 1))
  {
    RunAppend(s, evs[..i], evs[i]);
    assert evs[..i + 1] == evs[..i] + [evs[i]];
    StepKeeps(After(s, evs, i), evs[i]);
  }

  lemma AfterInv(s: State, evs: seq<Event>, i: nat)
    requires Inv(s) && i <= |evs|
    ensures Inv(After(s, evs, i))
  {
    Fifo(s, evs[..i]);
  }

  lemma AfterCalls(s: State, evs: seq<Event>, i: nat)
    requires Inv(s) && Calls(s) && i <= |evs|
    ensures Calls(After(s, evs, i))
  {
    CallsKeep(s, evs[..i]);
  }

  // ----- pipe_read

  /** Event c calls pipe_read for n bytes, and the call has not returned after i events. */
  ghost predicate ReadRuns(s: State, evs: seq<Event>, c: nat, n: nat, i: nat)
    requires |s.buf| == BY2PIPE
  {
    && c < i <= |evs| && evs[c] == CallRead(n) && After(s, evs, c).reader.Out?
    && forall k :: c < k <= i ==> !After(s, evs, k).reader.Out?
  }

  /** The pipe was empty after j events, and nothing was taken from it until i. */
  ghost predicate EmptyAt(s: State, evs: seq<Event>, c: nat, i: nat, j: nat)
    requires |s.buf| == BY2PIPE
  {
    c < j <= i <= |evs| && After(s, evs, j).put == After(s, evs, j).taken == After(s, evs, i).taken
  }

  ghost predicate WasEmpty(s: State, evs: seq<Event>, c: nat, i: nat)
    requires |s.buf| == BY2PIPE
  {
    exists j :: EmptyAt(s, evs, c, i, j)
  }

  /** w is p_wpos after j events, and nothing was taken until i. */
  ghost predicate WposAt(s: State, evs: seq<Event>, c: nat, i: nat, j: nat, w: nat)
    requires |s.buf| == BY2PIPE
  {
    c < j <= i <= |evs| && After(s, evs, j).taken == After(s, evs, i).taken && At(w, W(After(s, evs, j)))
  }

  ghost predicate SeenWpos(s: State, evs: seq<Event>, c: nat, i: nat, w: nat)
    requires |s.buf| == BY2PIPE
  {
    exists j :: WposAt(s, evs, c, i, j, w)
  }

  /** The call is for n bytes and has not got more. */
  predicate Asked(r: Reader, n: nat) {
    match r
    case Out => false
    case Top(m, got) => m == n && |got| <= n
    case Inc(m, got) => m == n && |got| <= n
    case IncTo(m, got, _) => m == n && |got| <= n
    case _ => r.n == n && |r.got| < n
  }

  /** What holds while the call is under way. */
  ghost predicate ReadSeen(s: State, evs: seq<Event>, c: nat, n: nat, i: nat)
    requires |s.buf| == BY2PIPE && c < i <= |evs|
  {
    var t := After(s, evs, i);
    && Asked(t.reader, n) && t.returned == After(s, evs, c).returned
    && (t.reader.SawWpos? ==> SeenWpos(s, evs, c, i, t.reader.w))
    && (t.reader.Empty? ==> WasEmpty(s, evs, c, i))
  }

  /** A step of the call either goes on with it or returns what it has got. */
  lemma AskedStep(s: State, ev: Event, n: nat)
    requires |s.buf| == BY2PIPE && Asked(s.reader, n)
    ensures var t := Step(s, ev);
            if t.reader.Out? then
              && ev.Reads? && t.taken == s.taken && t.put == s.put && t.returned == s.returned + [s.reader.got]
              && (if s.reader.Empty? then s.reader.got != [] || ev.closed else |s.reader.got| == n)
            else Asked(t.reader, n) && t.returned == s.returned
  {
    hide IsFull;
  }

  /** How the reader comes to hold p_wpos. */
  lemma WposStep(s: State, ev: Event)
    requires |s.buf| == BY2PIPE && Step(s, ev).reader.SawWpos?
    ensures var t := Step(s, ev);
            && t.taken == s.taken
            && t.reader.w == if s.reader.SawWpos? then s.reader.w else t.wpos
  {
    hide IsFull;
  }

  /** How it comes to find the positions equal. */
  lemma EmptyStep(s: State, ev: Event)
    requires |s.buf| == BY2PIPE && Step(s, ev).reader.Empty?
    ensures var t := Step(s, ev);
            && t.taken == s.taken
            && (match s.reader
                case Empty(_, _) => true
                case SawRpos(_, _, r) => r == t.wpos && t.put == s.put
                case SawWpos(_, _, w) => w == s.rpos
                case _ => false)
  {
    hide IsFull;
  }

  lemma ReadsWpos(s: State, evs: seq<Event>, c: nat, n: nat, i: nat)
    requires Inv(s) && c < i < |evs| && ReadSeen(s, evs, c, n, i) && After(s, evs, i + 1).reader.SawWpos?
    ensures SeenWpos(s, evs, c, i + 1, After(s, evs, i + 1).reader.w)
  {
    AfterNext(s, evs, i);
    var t, u := After(s, evs, i), After(s, evs, i + 1);
    WposStep(t, evs[i]);
    hide Step, WriterOk, ReaderOk;
    if t.reader.SawWpos? {
      var j :| WposAt(s, evs, c, i, j, t.reader.w);
      assert WposAt(s, evs, c, i + 1, j, u.reader.w);
    } else {
      assert WposAt(s, evs, c, i + 1, i + 1, u.reader.w);
    }
  }

  lemma ReadsEmpty(s: State, evs: seq<Event>, c: nat, n: nat, i: nat)
    requires Inv(s) && c < i < |evs| && ReadSeen(s, evs, c, n, i) && After(s, evs, i + 1).reader.Empty?
    ensures WasEmpty(s, evs, c, i + 1)
  {
    AfterNext(s, evs, i);
    var t, u := After(s, evs, i), After(s, evs, i + 1);
    EmptyStep(t, evs[i]);
    hide Step, WriterOk;
    match t.reader {
      case Empty(_, _) =>
        var j :| EmptyAt(s, evs, c, i, j);
        assert EmptyAt(s, evs, c, i + 1, j);
      case SawRpos(_, _, r) =>
        WrapExact(R(u), W(u));
        assert EmptyAt(s, evs, c, i + 1, i + 1);
      case SawWpos(_, _, w) =>
        var j :| WposAt(s, evs, c, i, j, w);
        AfterInv(s, evs, j);
        WrapExact(R(After(s, evs, j)), W(After(s, evs, j)));
        assert EmptyAt(s, evs, c, i + 1, j);
    }
  }

  lemma {:induction false} ReadGoesOn(s: State, evs: seq<Event>, c: nat, n: nat, i: nat)
    requires Inv(s) && ReadRuns(s, evs, c, n, i)
    ensures ReadSeen(s, evs, c, n, i)
    decreases i
  {
    hide ReaderOk, WriterOk, At, Run;
    AfterNext(s, evs, i - 1);
    if i > c + 1 {
      ReadGoesOn(s, evs, c, n, i - 1);
      AskedStep(After(s, evs, i - 1), evs[i - 1], n);
      hide Step;
      if After(s, evs, i).reader.SawWpos? {
        ReadsWpos(s, evs, c, n, i - 1);
      } else if After(s, evs, i).reader.Empty? {
        ReadsEmpty(s, evs, c, n, i - 1);
      }
    }
  }

  /** The last step of the call, and what it leaves in the caller's buffer. */
  lemma ReadEndsWith(s: State, evs: seq<Event>, c: nat, n: nat, i: nat)
    requires Inv(s) && i < |evs| && ReadRuns(s, evs, c, n, i) && After(s, evs, i + 1).reader.Out?
    ensures var u, t, v := After(s, evs, c), After(s, evs, i), After(s, evs, i + 1);
            && evs[i].Reads? && v.taken == t.taken && v.put == t.put && !t.reader.Out? && |t.reader.got| <= n
            && v.returned == u.returned + [t.reader.got]
            && (|t.reader.got| < n ==> WasEmpty(s, evs, c, i) && (t.reader.got != [] || evs[i].closed))
  {
    hide ReaderOk, WriterOk, At, Run;
    ReadGoesOn(s, evs, c, n, i);
    AfterNext(s, evs, i);
    AskedStep(After(s, evs, i), evs[i], n);
    hide Step, WasEmpty;
  }

  /** Some bytes of the pipe are left after t exactly if they were put since the pipe was empty. */
  ghost predicate LeftSince(s: State, evs: seq<Event>, c: nat, i: nat, t: State)
    requires |s.buf| == BY2PIPE
  {
    exists j :: EmptyAt(s, evs, c, i, j) && (t.taken != t.put <==> t.put != After(s, evs, j).put)
  }

  /**
    pipe_read returns the bytes taken during the call, at most n. Fewer are returned only
    if the pipe was empty at a moment of the call after the last of them was taken, and there
    is one at least or the last answer of _pipe_is_closed was yes. Bytes are left
    behind exactly if some were put after that moment.
  */
  lemma ReadReturns(s: State, evs: seq<Event>, c: nat, n: nat, i: nat)
    requires Inv(s) && Calls(s) && i < |evs| && ReadRuns(s, evs, c, n, i) && After(s, evs, i + 1).reader.Out?
    ensures var u, t := After(s, evs, c), After(s, evs, i + 1);
            && u.taken <= t.taken
            && var got := t.taken[|u.taken|..];
               && t.returned == u.returned + [got] && |got| <= n && evs[i].Reads?
               && (|got| < n ==> LeftSince(s, evs, c, i, t) && (got != [] || evs[i].closed))
  {
    hide ReaderOk, WriterOk, At, Run, Step, InPipe;
    ReadEndsWith(s, evs, c, n, i);
    AfterCalls(s, evs, c);
    AfterCalls(s, evs, i + 1);
    var u, t, got := After(s, evs, c), After(s, evs, i + 1), After(s, evs, i).reader.got;
    FlatAppend(u.returned, got);
    assert t.taken == u.taken + got;
    if |got| < n {
      var j :| EmptyAt(s, evs, c, i, j);
      assert t.taken == After(s, evs, j).put;
    }
  }

  // ----- a pipe_read that does not return

  /** The accesses of the reader among these events. */
  function ReadSteps(evs: seq<Event>): nat {
    if evs == [] then 0 else ReadSteps(evs[..|evs| - 1]) + if evs[|evs| - 1].Reads? then 1 else 0
  }

  /** The accesses it takes at most to return, if the pipe is not found empty and open. */
  function ReadRank(r: Reader, n: nat): (k: nat)
    requires Asked(r, n)
    ensures k >= 1
  {
    match r
    case Top(_, got) => 6 * (n - |got|) + 1
    case Empty(_, _) => 1
    case Fetch(_, got) => 6 * (n - |got|) - 1
    case Index(_, got, _) => 6 * (n - |got|) - 2
    case Inc(_, got) => 6 * (n - |got|) + 3
    case IncTo(_, got, _) => 6 * (n - |got|) + 2
    case SawRpos(_, got, _) => 6 * (n - |got|)
    case SawWpos(_, got, _) => 6 * (n - |got|)
  }

  /** Event i is an access that was told the pipe is open, after it had been seen empty with no byte yet taken. */
  ghost predicate ReadWaits(s: State, evs: seq<Event>, i: nat)
    requires |s.buf| == BY2PIPE
  {
    && 0 < i < |evs| && evs[i].Reads? && !evs[i].closed
    && WasEmpty(s, evs, 0, i) && After(s, evs, i).taken == s.taken
  }

  lemma RankStep(s: State, ev: Event, n: nat)
    requires |s.buf| == BY2PIPE && Asked(s.reader, n) && Asked(Step(s, ev).reader, n)
    requires s.reader.Empty? && s.reader.got == [] && ev.Reads? ==> ev.closed
    ensures ReadRank(Step(s, ev).reader, n) + (if ev.Reads? then 1 else 0) <= ReadRank(s.reader, n)
  {
    hide IsFull;
  }

  lemma {:induction false} RanksDown(s: State, evs: seq<Event>, n: nat, i: nat)
    requires Inv(s) && Calls(s) && ReadRuns(s, evs, 0, n, i) && forall k :: !ReadWaits(s, evs, k)
    ensures Asked(After(s, evs, i).reader, n)
    ensures ReadRank(After(s, evs, i).reader, n) + ReadSteps(evs[..i]) <= 6 * n + 1
    decreases i
  {
    hide ReaderOk, WriterOk, At, Asked, ReadRank, Flat, Step;
    ReadGoesOn(s, evs, 0, n, i);
    assert After(s, evs, 0) == s;
    hide Run;
    assert evs[..i][..i - 1] == evs[..i - 1];
    if i == 1 {
      FirstRank(s, evs, n);
    } else {
      RanksDown(s, evs, n, i - 1);
      AfterNext(s, evs, i - 1);
      ReadGoesOn(s, evs, 0, n, i - 1);
      AfterCalls(s, evs, i - 1);
      var t := After(s, evs, i - 1);
      assert !ReadWaits(s, evs, i - 1);
      RankStep(t, evs[i - 1], n);
    }
  }

  lemma FirstRank(s: State, evs: seq<Event>, n: nat)
    requires Inv(s) && ReadRuns(s, evs, 0, n, 1)
    ensures Asked(After(s, evs, 1).reader, n) && ReadRank(After(s, evs, 1).reader, n) + ReadSteps(evs[..1]) == 6 * n + 1
  {
    AfterNext(s, evs, 0);
    assert After(s, evs, 1).reader == Top(n, []);
    assert evs[..1] == [evs[0]] && evs[..1][..0] == [];
  }

  /** After i events the call has returned. */
  ghost predicate ReadDone(s: State, evs: seq<Event>, i: nat)
    requires |s.buf| == BY2PIPE
  {
    0 < i <= |evs| && After(s, evs, i).reader.Out? && |After(s, evs, i).returned| == |s.returned| + 1
  }

  lemma {:induction false} FirstDone(s: State, evs: seq<Event>, n: nat, i: nat)
    requires Inv(s) && s.reader.Out? && 0 < i <= |evs| && evs[0] == CallRead(n) && After(s, evs, i).reader.Out?
    ensures exists j :: ReadDone(s, evs, j)
    decreases i
  {
    AfterNone(s, evs);
    AfterNext(s, evs, 0);
    hide Inv, Run;
    if k :| 0 < k < i && After(s, evs, k).reader.Out? {
      FirstDone(s, evs, n, k);
    } else {
      assert After(s, evs, 1).reader == Top(n, []);
      ReadEndsWith(s, evs, 0, n, i - 1);
      assert ReadDone(s, evs, i);
    }
  }

  /**
    However it is interleaved with the writer, pipe_read returns within 6n+1 accesses of
    its own, unless it is told that the pipe is open after it was empty and before a byte was taken.
  */
  lemma ReadEnds(s: State, evs: seq<Event>, n: nat)
    requires Inv(s) && Calls(s) && s.reader.Out? && evs != [] && evs[0] == CallRead(n) && ReadSteps(evs) > 6 * n
    ensures (exists i :: ReadDone(s, evs, i)) || (exists i :: ReadWaits(s, evs, i))
  {
    hide Inv, Calls, Run, WasEmpty, Asked, ReadRank;
    AfterNone(s, evs);
    if i :| 0 < i <= |evs| && After(s, evs, i).reader.Out? {
      FirstDone(s, evs, n, i);
    } else if forall i :: !ReadWaits(s, evs, i) {
      assert evs[..|evs|] == evs;
      RanksDown(s, evs, n, |evs|);
    }
  }

  // ----- pipe_write

  /** Event c calls pipe_write with these bytes, and the call has not returned after i events. */
  ghost predicate WriteRuns(s: State, evs: seq<Event>, c: nat, data: seq<Byte>, i: nat)
    requires |s.buf| == BY2PIPE
  {
    && c < i <= |evs| && evs[c] == CallWrite(data) && After(s, evs, c).writer.Off?
    && forall k :: c < k <= i ==> !After(s, evs, k).writer.Off?
  }

  /** The ring was full after j events, and nothing was put until i. */
  ghost predicate FullAt(s: State, evs: seq<Event>, c: nat, i: nat, j: nat)
    requires |s.buf| == BY2PIPE
  {
    && c < j <= i <= |evs| && After(s, evs, j).put == After(s, evs, i).put
    && W(After(s, evs, j)) == R(After(s, evs, j)) + BY2PIPE
  }

  ghost predicate WasFull(s: State, evs: seq<Event>, c: nat, i: nat)
    requires |s.buf| == BY2PIPE
  {
    exists j :: FullAt(s, evs, c, i, j)
  }

  /** r is p_rpos after j events, and nothing was put until i. */
  ghost predicate RposAt(s: State, evs: seq<Event>, c: nat, i: nat, j: nat, r: nat)
    requires |s.buf| == BY2PIPE
  {
    c < j <= i <= |evs| && After(s, evs, j).put == After(s, evs, i).put && At(r, R(After(s, evs, j)))
  }

  ghost predicate SeenRpos(s: State, evs: seq<Event>, c: nat, i: nat, r: nat)
    requires |s.buf| == BY2PIPE
  {
    exists j :: RposAt(s, evs, c, i, j, r)
  }

  /** The call is for these bytes, and before its last test it has some of them to write. */
  predicate Given(w: Writer, data: seq<Byte>) {
    !w.Off? && w.data == data && if w.Start? then w.done <= |data| else w.done < |data|
  }

  ghost predicate WriteSeen(s: State, evs: seq<Event>, c: nat, data: seq<Byte>, i: nat)
    requires |s.buf| == BY2PIPE && c < i <= |evs|
  {
    var t := After(s, evs, i);
    && Given(t.writer, data) && t.sent == After(s, evs, c).sent
    && (t.writer.HaveRpos? ==> SeenRpos(s, evs, c, i, t.writer.r))
    && (t.writer.Full? ==> WasFull(s, evs, c, i))
  }

  lemma GivenStep(s: State, ev: Event, data: seq<Byte>)
    requires |s.buf| == BY2PIPE && Given(s.writer, data)
    ensures var t := Step(s, ev);
            if t.writer.Off? then
              && ev.Writes? && t.taken == s.taken && t.put == s.put && t.sent == s.sent + [data[..s.writer.done]]
              && (if s.writer.Full? then ev.closed else s.writer.done == |data|)
            else Given(t.writer, data) && t.sent == s.sent
  {
    hide IsFull;
  }

  lemma RposStep(s: State, ev: Event)
    requires |s.buf| == BY2PIPE && Step(s, ev).writer.HaveRpos?
    ensures var t := Step(s, ev);
            && t.put == s.put
            && if s.writer.HaveRpos? then t.writer.r == s.writer.r else t.writer.r == t.rpos
  {
    hide IsFull;
  }

  lemma FullStep(s: State, ev: Event)
    requires |s.buf| == BY2PIPE && Step(s, ev).writer.Full?
    ensures var t := Step(s, ev);
            && t.put == s.put
            && (match s.writer
                case Full(_, _) => true
                case HaveWpos(_, _, w) => IsFull(w, t.rpos) && t.taken == s.taken
                case HaveRpos(_, _, r) => IsFull(s.wpos, r)
                case _ => false)
  {
    hide IsFull;
  }

  lemma ReadsRpos(s: State, evs: seq<Event>, c: nat, data: seq<Byte>, i: nat)
    requires Inv(s) && c < i < |evs| && WriteSeen(s, evs, c, data, i) && After(s, evs, i + 1).writer.HaveRpos?
    ensures SeenRpos(s, evs, c, i + 1, After(s, evs, i + 1).writer.r)
  {
    AfterNext(s, evs, i);
    var t, u := After(s, evs, i), After(s, evs, i + 1);
    RposStep(t, evs[i]);
    hide Step, WriterOk, ReaderOk;
    if t.writer.HaveRpos? {
      var j :| RposAt(s, evs, c, i, j, t.writer.r);
      assert RposAt(s, evs, c, i + 1, j, u.writer.r);
    } else {
      assert RposAt(s, evs, c, i + 1, i + 1, u.writer.r);
    }
  }

  lemma ReadsFull(s: State, evs: seq<Event>, c: nat, data: seq<Byte>, i: nat)
    requires Inv(s) && c < i < |evs| && WriteSeen(s, evs, c, data, i) && After(s, evs, i + 1).writer.Full?
    ensures WasFull(s, evs, c, i + 1)
  {
    AfterNext(s, evs, i);
    var t, u := After(s, evs, i), After(s, evs, i + 1);
    FullStep(t, evs[i]);
    hide Step, ReaderOk, IsFull;
    match t.writer {
      case Full(_, _) =>
        var j :| FullAt(s, evs, c, i, j);
        assert FullAt(s, evs, c, i + 1, j);
      case HaveWpos(_, _, w) =>
        WrapExact(R(u), W(u));
        assert FullAt(s, evs, c, i + 1, i + 1);
      case HaveRpos(_, _, r) =>
        var j :| RposAt(s, evs, c, i, j, r);
        AfterInv(s, evs, j);
        WrapExact(R(After(s, evs, j)), W(After(s, evs, j)));
        assert FullAt(s, evs, c, i + 1, j);
    }
  }

  lemma {:induction false} WriteGoesOn(s: State, evs: seq<Event>, c: nat, data: seq<Byte>, i: nat)
    requires Inv(s) && WriteRuns(s, evs, c, data, i)
    ensures WriteSeen(s, evs, c, data, i)
    decreases i
  {
    hide ReaderOk, WriterOk, At, Run;
    AfterNext(s, evs, i - 1);
    if i > c + 1 {
      WriteGoesOn(s, evs, c, data, i - 1);
      GivenStep(After(s, evs, i - 1), evs[i - 1], data);
      hide Step;
      if After(s, evs, i).writer.HaveRpos? {
        ReadsRpos(s, evs, c, data, i - 1);
      } else if After(s, evs, i).writer.Full? {
        ReadsFull(s, evs, c, data, i - 1);
      }
    }
  }

  lemma WriteEndsWith(s: State, evs: seq<Event>, c: nat, data: seq<Byte>, i: nat)
    requires Inv(s) && i < |evs| && WriteRuns(s, evs, c, data, i) && After(s, evs, i + 1).writer.Off?
    ensures var u, t, v := After(s, evs, c), After(s, evs, i), After(s, evs, i + 1);
            && evs[i].Writes? && v.put == t.put && !t.writer.Off? && t.writer.done <= |data|
            && v.sent == u.sent + [data[..t.writer.done]]
            && (t.writer.done < |data| ==> WasFull(s, evs, c, i) && evs[i].closed)
  {
    hide ReaderOk, WriterOk, At, Run;
    WriteGoesOn(s, evs, c, data, i);
    AfterNext(s, evs, i);
    GivenStep(After(s, evs, i), evs[i], data);
    hide Step, WasFull;
  }

  /**
    pipe_write reports the bytes put during the call, which are the first ones of its data.
    They are not all only if the ring was full at a moment of the call after the last of
    them was put and the last answer of _pipe_is_closed was yes.
  */
  lemma WriteReturns(s: State, evs: seq<Event>, c: nat, data: seq<Byte>, i: nat)
    requires Inv(s) && Calls(s) && i < |evs| && WriteRuns(s, evs, c, data, i) && After(s, evs, i + 1).writer.Off?
    ensures var u, t := After(s, evs, c), After(s, evs, i + 1);
            && u.put <= t.put
            && var done := t.put[|u.put|..];
               && t.sent == u.sent + [done] && done <= data && evs[i].Writes?
               && (done != data ==> WasFull(s, evs, c, i) && evs[i].closed)
  {
    hide ReaderOk, WriterOk, At, Run, Step, InHand, WasFull;
    WriteEndsWith(s, evs, c, data, i);
    AfterCalls(s, evs, c);
    AfterCalls(s, evs, i + 1);
    var u, t, done := After(s, evs, c), After(s, evs, i + 1), data[..After(s, evs, i).writer.done];
    FlatAppend(u.sent, done);
    assert t.put == u.put + done;
  }

  // ----- a pipe_write that does not return

  /** The accesses of the writer among these events. */
  function WriteSteps(evs: seq<Event>): nat {
    if evs == [] then 0 else WriteSteps(evs[..|evs| - 1]) + if evs[|evs| - 1].Writes? then 1 else 0
  }

  /** The accesses it takes at most to return, if the ring is not found full and open. */
  function WriteRank(w: Writer, data: seq<Byte>): (k: nat)
    requires Given(w, data)
    ensures k >= 1
  {
    match w
    case Start(_, done) => 6 * (|data| - done) + 1
    case HaveWpos(_, done, _) => 6 * (|data| - done)
    case HaveRpos(_, done, _) => 6 * (|data| - done)
    case Full(_, _) => 1
    case Place(_, done) => 6 * (|data| - done) - 1
    case Slot(_, done, _) => 6 * (|data| - done) - 2
    case Bump(_, done) => 6 * (|data| - done) - 3
    case BumpTo(_, done, _) => 6 * (|data| - done) - 4
  }

  /** Event i is an access that was told the pipe is open, after the ring had been seen full. */
  ghost predicate WriteWaits(s: State, evs: seq<Event>, i: nat)
    requires |s.buf| == BY2PIPE
  {
    0 < i < |evs| && evs[i].Writes? && !evs[i].closed && WasFull(s, evs, 0, i)
  }

  lemma WriteRankStep(s: State, ev: Event, data: seq<Byte>)
    requires |s.buf| == BY2PIPE && Given(s.writer, data) && Given(Step(s, ev).writer, data)
    requires s.writer.Full? && ev.Writes? ==> ev.closed
    ensures WriteRank(Step(s, ev).writer, data) + (if ev.Writes? then 1 else 0) <= WriteRank(s.writer, data)
  {
    hide IsFull;
  }

  lemma {:induction false} WriteRanksDown(s: State, evs: seq<Event>, data: seq<Byte>, i: nat)
    requires Inv(s) && WriteRuns(s, evs, 0, data, i) && forall k :: !WriteWaits(s, evs, k)
    ensures Given(After(s, evs, i).writer, data)
    ensures WriteRank(After(s, evs, i).writer, data) + WriteSteps(evs[..i]) <= 6 * |data| + 1
    decreases i
  {
    hide ReaderOk, WriterOk, At, Given, WriteRank, Step;
    WriteGoesOn(s, evs, 0, data, i);
    hide Run;
    assert evs[..i][..i - 1] == evs[..i - 1];
    if i == 1 {
      FirstWriteRank(s, evs, data);
    } else {
      WriteRanksDown(s, evs, data, i - 1);
      AfterNext(s, evs, i - 1);
      WriteGoesOn(s, evs, 0, data, i - 1);
      assert !WriteWaits(s, evs, i - 1);
      WriteRankStep(After(s, evs, i - 1), evs[i - 1], data);
    }
  }

  lemma FirstWriteRank(s: State, evs: seq<Event>, data: seq<Byte>)
    requires Inv(s) && WriteRuns(s, evs, 0, data, 1)
    ensures Given(After(s, evs, 1).writer, data)
    ensures WriteRank(After(s, evs, 1).writer, data) + WriteSteps(evs[..1]) == 6 * |data| + 1
  {
    AfterNext(s, evs, 0);
    assert After(s, evs, 1).writer == Start(data, 0);
    assert evs[..1] == [evs[0]] && evs[..1][..0] == [];
  }

  /** After i events the call has returned. */
  ghost predicate WriteDone(s: State, evs: seq<Event>, i: nat)
    requires |s.buf| == BY2PIPE
  {
    0 < i <= |evs| && After(s, evs, i).writer.Off? && |After(s, evs, i).sent| == |s.sent| + 1
  }

  lemma {:induction false} FirstWriteDone(s: State, evs: seq<Event>, data: seq<Byte>, i: nat)
    requires Inv(s) && s.writer.Off? && 0 < i <= |evs| && evs[0] == CallWrite(data) && After(s, evs, i).writer.Off?
    ensures exists j :: WriteDone(s, evs, j)
    decreases i
  {
    AfterNone(s, evs);
    AfterNext(s, evs, 0);
    hide Inv, Run;
    if k :| 0 < k < i && After(s, evs, k).writer.Off? {
      FirstWriteDone(s, evs, data, k);
    } else {
      assert After(s, evs, 1).writer == Start(data, 0);
      WriteEndsWith(s, evs, 0, data, i - 1);
      assert WriteDone(s, evs, i);
    }
  }

  /**
    pipe_write returns within 6n+1 accesses of its own, unless it is told that the pipe is
    open after the ring was full.
  */
  lemma WriteEnds(s: State, evs: seq<Event>, data: seq<Byte>)
    requires Inv(s) && s.writer.Off? && evs != [] && evs[0] == CallWrite(data) && WriteSteps(evs) > 6 * |data|
    ensures (exists i :: WriteDone(s, evs, i)) || (exists i :: WriteWaits(s, evs, i))
  {
    hide Inv, Run, WasFull, Given, WriteRank;
    AfterNone(s, evs);
    if i :| 0 < i <= |evs| && After(s, evs, i).writer.Off? {
      FirstWriteDone(s, evs, data, i);
    } else if forall i :: !WriteWaits(s, evs, i) {
      assert evs[..|evs|] == evs;
      WriteRanksDown(s, evs, data, |evs|);
    }
  }

  // ----- the end of the stream

  lemma RunFrom(s: State, evs: seq<Event>, i: nat)
    requires |s.buf| == BY2PIPE && i < |evs| && |Step(s, evs[i]).buf| == BY2PIPE
    ensures Run(s, evs[i..]) == Run(Step(s, evs[i]), evs[i + 1..])
  {
    assert evs[i..][0] == evs[i] && evs[i..][1..] == evs[i + 1..];
    hide Step;
  }

  /** A writer comes, puts one byte and goes, while a reader that found the pipe empty does nothing. */
  function MissedEnd(b: Byte): seq<Event> {
    var read, write := Reads(true, false), Writes(true, false);
    [CallRead(1), read, read, CallWrite([b]), write, write, write, write, write, write, write, Reads(true, true)]
  }

  lemma ReaderFindsNone(s: State, evs: seq<Event>)
    requires |s.buf| == BY2PIPE && s.reader.Out? && s.rpos == s.wpos
    requires |evs| >= 3 && evs[..3] == [CallRead(1), Reads(true, false), Reads(true, false)]
    ensures Run(s, evs) == Run(s.(reader := Empty(1, [])), evs[3..])
  {
    hide Run, IsFull;
    assert evs[0..] == evs && forall k :: 0 <= k < 3 ==> evs[k] == evs[..3][k];
    RunFrom(s, evs, 0);
    RunFrom(s.(reader := Top(1, [])), evs, 1);
    RunFrom(s.(reader := SawRpos(1, [], s.rpos)), evs, 2);
  }

  lemma WriterPuts(s: State, evs: seq<Event>, i: nat, b: Byte)
    requires |s.buf| == BY2PIPE && s.writer.Off? && s.rpos == s.wpos == 0
    requires i + 5 <= |evs| && evs[i] == CallWrite([b]) && forall k :: i < k < i + 5 ==> evs[k] == Writes(true, false)
    ensures Run(s, evs[i..]) == Run(s.(writer := Bump([b], 0), buf := s.buf[0 := b]), evs[i + 5..])
  {
    hide Run;
    RunFrom(s, evs, i);
    RunFrom(s.(writer := Start([b], 0)), evs, i + 1);
    RunFrom(s.(writer := HaveWpos([b], 0, 0)), evs, i + 2);
    RunFrom(s.(writer := Place([b], 0)), evs, i + 3);
    RunFrom(s.(writer := Slot([b], 0, 0)), evs, i + 4);
  }

  lemma WriterGoes(s: State, evs: seq<Event>, i: nat, b: Byte)
    requires |s.buf| == BY2PIPE && s.writer == Bump([b], 0) && s.wpos == 0
    requires i + 3 <= |evs| && forall k :: i <= k < i + 3 ==> evs[k] == Writes(true, false)
    ensures Run(s, evs[i..]) == Run(s.(writer := Off, wpos := 1, put := s.put + [b], sent := s.sent + [[b]]), evs[i + 3..])
  {
    hide Run, IsFull;
    RunFrom(s, evs, i);
    RunFrom(s.(writer := BumpTo([b], 0, 0)), evs, i + 1);
    RunFrom(s.(writer := Start([b], 1), wpos := 1, put := s.put + [b]), evs, i + 2);
    assert First([b], 1) == [b];
  }

  /**
    pipe_read can report the end although a byte is left: the byte is put and the writer
    closes its end between the test for an empty pipe and the answer of _pipe_is_closed.
  */
  lemma EndMissed(buf: seq<Byte>, b: Byte)
    requires |buf| == BY2PIPE
    ensures var t := Run(State(0, 0, buf, Out, Off, [], [], [], []), MissedEnd(b));
            t.returned == [[]] && t.sent == [[b]] && t.taken == [] && t.put == [b]
  {
    hide Run, IsFull;
    var s, evs := State(0, 0, buf, Out, Off, [], [], [], []), MissedEnd(b);
    var u := s.(reader := Empty(1, []), writer := Bump([b], 0), buf := buf[0 := b]);
    var v := u.(writer := Off, wpos := 1, put := [b], sent := [[b]]);
    ReaderFindsNone(s, evs);
    WriterPuts(s.(reader := Empty(1, [])), evs, 3, b);
    WriterGoes(u, evs, 8, b);
    assert u.put + [b] == [b] && u.sent + [[b]] == [[b]];
    RunFrom(v, evs, 11);
    assert v.returned + [[]] == [[]];
    RunNone(v.(reader := Out, returned := [[]]), evs[12..]);
  }

  lemma RunNone(s: State, evs: seq<Event>)
    requires |s.buf| == BY2PIPE && evs == []
    ensures Run(s, evs) == s
  {
  }
}
