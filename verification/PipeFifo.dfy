/**
  The pipe's ring buffer (user/lib/pipe.c) with one reader and one writer that can be
  preempted at every access to the shared page.
*/
module PipeFifo {

  type Byte = bv8

  const BY2PIPE: nat := 32
  const WORD: nat := 0x1_0000_0000 // positions are u_int and wrap

  /** Where pipe_read is: i bytes of n are done and `got` holds them. */
  datatype Reader =
    | Out
    | Top(n: nat, got: seq<Byte>)                        // loop test, then the emptiness test
    | SawRpos(n: nat, got: seq<Byte>, r: nat)            // read p_rpos, p_wpos comes next
    | SawWpos(n: nat, got: seq<Byte>, w: nat)            // the other order
    | Empty(n: nat, got: seq<Byte>)                      // positions were equal
    | Fetch(n: nat, got: seq<Byte>)                      // not empty: read p_rpos for the index
    | Index(n: nat, got: seq<Byte>, r: nat)              // read p_buf[r % BY2PIPE]
    | Inc(n: nat, got: seq<Byte>)                        // byte taken: p_rpos++ reads ...
    | IncTo(n: nat, got: seq<Byte>, r: nat)              // ... and writes

  /** Where pipe_write is: `done` bytes of `data` are written. */
  datatype Writer =
    | Off
    | Start(data: seq<Byte>, done: nat)
    | HaveWpos(data: seq<Byte>, done: nat, w: nat)
    | HaveRpos(data: seq<Byte>, done: nat, r: nat)
    | Full(data: seq<Byte>, done: nat)
    | Place(data: seq<Byte>, done: nat)                  // not full: read p_wpos for the index
    | Slot(data: seq<Byte>, done: nat, w: nat)           // write p_buf[w % BY2PIPE]
    | Bump(data: seq<Byte>, done: nat)                   // p_wpos++ reads ...
    | BumpTo(data: seq<Byte>, done: nat, w: nat)         // ... and writes

  /**
    The shared page, the two program counters, all bytes taken and put so far, and for every
    call that has returned the bytes in the caller's buffer: those pipe_read filled in, and
    those pipe_write reports as written.
  */
  datatype State = State(
    rpos: nat, wpos: nat, buf: seq<Byte>, reader: Reader, writer: Writer,
    taken: seq<Byte>, put: seq<Byte>, returned: seq<seq<Byte>>, sent: seq<seq<Byte>>)

  /** The first `done` bytes of data. */
  function First(data: seq<Byte>, done: nat): seq<Byte> {
    if done <= |data| then data[..done] else data
  }

  /**
    One access of the reader. C leaves open which of the two positions a comparison reads
    first: `first` says whether it is p_rpos. `closed` is what _pipe_is_closed answers.
  */
  function ReaderStep(s: State, first: bool, closed: bool): State
    requires |s.buf| == BY2PIPE
  {
    match s.reader
    case Out => s
    case Top(n, got) =>
      if |got| >= n then s.(reader := Out, returned := s.returned + [got])
      else if first then s.(reader := SawRpos(n, got, s.rpos))
      else s.(reader := SawWpos(n, got, s.wpos))
    case SawRpos(n, got, r) => s.(reader := if r == s.wpos then Empty(n, got) else Fetch(n, got))
    case SawWpos(n, got, w) => s.(reader := if s.rpos == w then Empty(n, got) else Fetch(n, got))
    case Empty(n, got) =>
      if |got| > 0 || closed then s.(reader := Out, returned := s.returned + [got]) else s.(reader := Top(n, got))
    case Fetch(n, got) => s.(reader := Index(n, got, s.rpos))
    case Index(n, got, r) => s.(reader := Inc(n, got + [s.buf[r % BY2PIPE]]))
    case Inc(n, got) => s.(reader := IncTo(n, got, s.rpos))
    case IncTo(n, got, r) =>
      s.(rpos := (r + 1) % WORD, reader := Top(n, got), taken := if got == [] then s.taken else s.taken + [got[|got| - 1]])
  }

  /** One access of the writer. */
  function WriterStep(s: State, first: bool, closed: bool): State
    requires |s.buf| == BY2PIPE
  {
    match s.writer
    case Off => s
    case Start(data, done) =>
      if done >= |data| then s.(writer := Off, sent := s.sent + [First(data, done)])
      else if first then s.(writer := HaveWpos(data, done, s.wpos))
      else s.(writer := HaveRpos(data, done, s.rpos))
    case HaveWpos(data, done, w) => s.(writer := if IsFull(w, s.rpos) then Full(data, done) else Place(data, done))
    case HaveRpos(data, done, r) => s.(writer := if IsFull(s.wpos, r) then Full(data, done) else Place(data, done))
    case Full(data, done) =>
      if closed then s.(writer := Off, sent := s.sent + [First(data, done)]) else s.(writer := Start(data, done))
    case Place(data, done) => s.(writer := Slot(data, done, s.wpos))
    case Slot(data, done, w) =>
      if done >= |data| then s else s.(buf := s.buf[w % BY2PIPE := data[done]], writer := Bump(data, done))
    case Bump(data, done) => s.(writer := BumpTo(data, done, s.wpos))
    case BumpTo(data, done, w) =>
      if done >= |data| then s
      else s.(wpos := (w + 1) % WORD, writer := Start(data, done + 1), put := s.put + [data[done]])
  }

  /** p_wpos - p_rpos == BY2PIPE in 32-bit arithmetic. */
  predicate IsFull(w: nat, r: nat) {
    (w - r) % WORD == BY2PIPE
  }

  datatype Event =
    | CallRead(n: nat)
    | CallWrite(data: seq<Byte>)
    | Reads(first: bool, closed: bool)
    | Writes(first: bool, closed: bool)

  function Step(s: State, ev: Event): State
    requires |s.buf| == BY2PIPE
  {
    match ev
    case CallRead(n) => if s.reader.Out? then s.(reader := Top(n, [])) else s
    case CallWrite(data) => if s.writer.Off? then s.(writer := Start(data, 0)) else s
    case Reads(first, closed) => ReaderStep(s, first, closed)
    case Writes(first, closed) => WriterStep(s, first, closed)
  }

  // ----- the invariant

  function R(s: State): nat { |s.taken| }

  function W(s: State): nat { |s.put| }

  /** x is the position k, wrapped. */
  predicate At(x: nat, k: nat) { x == k % WORD }

  /** The reader knows that a byte is there. */
  predicate ReaderOk(s: State) {
    match s.reader
    case SawRpos(n, got, r) => At(r, R(s))
    case SawWpos(n, got, w) => exists k: nat :: R(s) <= k <= W(s) && At(w, k)
    case Fetch(n, got) => R(s) < W(s)
    case Index(n, got, r) => R(s) < W(s) && At(r, R(s))
    case Inc(n, got) => R(s) < W(s) && got != [] && got[|got| - 1] == s.put[R(s)]
    case IncTo(n, got, r) => R(s) < W(s) && got != [] && got[|got| - 1] == s.put[R(s)] && At(r, R(s))
    case _ => true
  }

  /** The writer knows that a place is free, and later that its byte is in it. */
  predicate WriterOk(s: State)
    requires |s.buf| == BY2PIPE
  {
    match s.writer
    case HaveWpos(data, done, w) => done < |data| && At(w, W(s))
    case HaveRpos(data, done, r) => done < |data| && exists k: nat :: k <= R(s) && W(s) <= k + BY2PIPE && At(r, k)
    case Place(data, done) => done < |data| && W(s) < R(s) + BY2PIPE
    case Slot(data, done, w) => done < |data| && W(s) < R(s) + BY2PIPE && At(w, W(s))
    case Bump(data, done) => done < |data| && W(s) < R(s) + BY2PIPE && s.buf[W(s) % BY2PIPE] == data[done]
    case BumpTo(data, done, w) =>
      done < |data| && W(s) < R(s) + BY2PIPE && s.buf[W(s) % BY2PIPE] == data[done] && At(w, W(s))
    case _ => true
  }

  ghost predicate Inv(s: State) {
    && |s.buf| == BY2PIPE
    && R(s) <= W(s) <= R(s) + BY2PIPE
    && At(s.rpos, R(s)) && At(s.wpos, W(s))
    && s.taken == s.put[..R(s)]
    && (forall k: nat :: R(s) <= k < W(s) ==> s.buf[k % BY2PIPE] == s.put[k])
    && ReaderOk(s) && WriterOk(s)
  }

  /** Wrapped positions at most a buffer apart are equal only if the positions are. */
  lemma WrapExact(j: nat, k: nat)
    requires j <= k <= j + BY2PIPE
    ensures k % WORD == j % WORD <==> k == j
    ensures IsFull(k % WORD, j % WORD) <==> k == j + BY2PIPE
    ensures k % WORD % BY2PIPE == k % BY2PIPE && (k % WORD + 1) % WORD == (k + 1) % WORD
    ensures k < j + BY2PIPE && j < k ==> k % BY2PIPE != j % BY2PIPE
  {
    WrapIndex(k);
    WrapDistance(j, k);
    if j < k < j + BY2PIPE {
      NearIndex(j, k);
    }
  }

  /** The distance of two wrapped positions is their real one. */
  lemma WrapDistance(j: nat, k: nat)
    requires j <= k <= j + BY2PIPE
    ensures (k % WORD - j % WORD) % WORD == k - j
  {
    var q, r := k / WORD, j / WORD;
    assert k % WORD - j % WORD == k - j - (q - r) * WORD;
    assert q - r == 0 || q - r == 1;
  }

  lemma NearIndex(j: nat, k: nat)
    requires j < k < j + BY2PIPE
    ensures k % BY2PIPE != j % BY2PIPE
  {
  }

  /** The buffer size divides 2^32, so a wrapped position has the same index in the buffer. */
  lemma WrapIndex(k: nat)
    ensures k % WORD % BY2PIPE == k % BY2PIPE && (k % WORD + 1) % WORD == (k + 1) % WORD
  {
  }

  lemma ReaderTakes(s: State, first: bool, closed: bool)
    requires Inv(s) && s.reader.Index?
    ensures Inv(ReaderStep(s, first, closed))
  {
    WrapExact(R(s), R(s));
    hide WriterOk;
  }

  lemma ReaderAdvances(s: State, first: bool, closed: bool)
    requires Inv(s) && s.reader.IncTo?
    ensures Inv(ReaderStep(s, first, closed))
  {
    var t := ReaderStep(s, first, closed);
    WrapExact(R(s), R(s));
    assert t.put[..R(s) + 1] == s.put[..R(s)] + [s.put[R(s)]];
    hide WriterOk;
  }

  /** What the writer knows does not depend on where the reader is. */
  lemma SameWriter(s: State, t: State)
    requires |s.buf| == BY2PIPE && t.writer == s.writer && t.buf == s.buf && R(t) == R(s) && W(t) == W(s)
    ensures WriterOk(t) <==> WriterOk(s)
  {
    hide At;
  }

  lemma ReaderLooks(s: State, first: bool, closed: bool)
    requires Inv(s) && !s.reader.Index? && !s.reader.IncTo?
    ensures ReaderOk(ReaderStep(s, first, closed))
  {
    hide WriterOk;
    match s.reader {
      case SawRpos(n, got, r) => WrapExact(R(s), W(s));
      case SawWpos(n, got, w) =>
        var k: nat :| R(s) <= k <= W(s) && At(w, k);
        WrapExact(R(s), k);
      case _ =>
    }
  }

  lemma ReaderKeeps(s: State, first: bool, closed: bool)
    requires Inv(s)
    ensures Inv(ReaderStep(s, first, closed))
  {
    if s.reader.IncTo? {
      ReaderAdvances(s, first, closed);
    } else if s.reader.Index? {
      ReaderTakes(s, first, closed);
    } else {
      ReaderLooks(s, first, closed);
      hide ReaderOk, WriterOk, At;
      SameWriter(s, ReaderStep(s, first, closed));
    }
  }

  lemma WriterLooks(s: State, first: bool, closed: bool)
    requires Inv(s) && !s.writer.Slot? && !s.writer.BumpTo?
    ensures |WriterStep(s, first, closed).buf| == BY2PIPE && WriterOk(WriterStep(s, first, closed))
  {
    match s.writer {
      case HaveWpos(data, done, w) => WrapExact(R(s), W(s));
      case HaveRpos(data, done, r) =>
        var k: nat :| k <= R(s) && W(s) <= k + BY2PIPE && At(r, k);
        WrapExact(k, W(s));
      case _ =>
    }
    hide ReaderOk;
  }

  lemma WriterPlaces(s: State, first: bool, closed: bool)
    requires Inv(s) && s.writer.Slot?
    ensures Inv(WriterStep(s, first, closed))
  {
    var t := WriterStep(s, first, closed);
    WrapExact(W(s), W(s));
    forall k: nat | R(s) <= k < W(s) ensures t.buf[k % BY2PIPE] == t.put[k] {
      WrapExact(k, W(s));
    }
    hide ReaderOk;
  }

  lemma WriterAdvances(s: State, first: bool, closed: bool)
    requires Inv(s) && s.writer.BumpTo?
    ensures Inv(WriterStep(s, first, closed))
  {
    var t := WriterStep(s, first, closed);
    WrapExact(W(s), W(s));
    assert t.put[..R(s)] == s.put[..R(s)];
    hide ReaderOk;
  }

  lemma WriterKeeps(s: State, first: bool, closed: bool)
    requires Inv(s)
    ensures Inv(WriterStep(s, first, closed))
  {
    if s.writer.Slot? {
      WriterPlaces(s, first, closed);
    } else if s.writer.BumpTo? {
      WriterAdvances(s, first, closed);
    } else {
      WriterLooks(s, first, closed);
      hide WriterOk, At, IsFull;
    }
  }

  function Run(s: State, evs: seq<Event>): State
    requires |s.buf| == BY2PIPE
    decreases evs
  {
    if evs == [] then s
    else
      var t := Step(s, evs[0]);
      if |t.buf| == BY2PIPE then Run(t, evs[1..]) else s
  }

  lemma StepKeeps(s: State, ev: Event)
    requires Inv(s)
    ensures Inv(Step(s, ev))
  {
    match ev {
      case CallRead(n) =>
      case CallWrite(data) =>
      case Reads(first, closed) => ReaderKeeps(s, first, closed);
      case Writes(first, closed) => WriterKeeps(s, first, closed);
    }
  }

  /**
    Whatever the interleaving, the bytes taken are a prefix of the bytes put, and never more
    than a buffer behind, also after the 32-bit positions have wrapped around.
  */
  lemma {:induction false} Fifo(s: State, evs: seq<Event>)
    requires Inv(s)
    ensures var t := Run(s, evs); Inv(t) && t.taken <= t.put && |t.put| - |t.taken| <= BY2PIPE
    decreases evs
  {
    if evs != [] {
      StepKeeps(s, evs[0]);
      Fifo(Step(s, evs[0]), evs[1..]);
    }
  }

  /** A new pipe: page zeroed, nobody reading or writing. */
  lemma NewPipe(buf: seq<Byte>)
    requires |buf| == BY2PIPE
    ensures var s := State(0, 0, buf, Out, Off, [], [], [], []); Inv(s) && Calls(s)
  {
  }

  // ----- what the two calls report

  function Flat(bufs: seq<seq<Byte>>): seq<Byte> {
    if bufs == [] then [] else Flat(bufs[..|bufs| - 1]) + bufs[|bufs| - 1]
  }

  lemma FlatAppend(bufs: seq<seq<Byte>>, b: seq<Byte>)
    ensures Flat(bufs + [b]) == Flat(bufs) + b
  {
    assert (bufs + [b])[..|bufs|] == bufs;
  }

  /** The bytes of the call under way that count as taken: all in its buffer, up to p_rpos++. */
  function InHand(r: Reader): seq<Byte> {
    match r
    case Out => []
    case Inc(n, got) => First(got, |got| - if got == [] then 0 else 1)
    case IncTo(n, got, r) => First(got, |got| - if got == [] then 0 else 1)
    case _ => r.got
  }

  function InPipe(w: Writer): seq<Byte> {
    if w.Off? then [] else First(w.data, w.done)
  }

  /** The stream is what the finished calls report, in order, and what the current ones have done. */
  ghost predicate Calls(s: State) {
    && s.taken == Flat(s.returned) + InHand(s.reader)
    && s.put == Flat(s.sent) + InPipe(s.writer)
    && (s.reader.Inc? || s.reader.IncTo? ==> s.reader.got != [])
    && (!s.writer.Off? ==> s.writer.done <= |s.writer.data|)
  }

  lemma ReadsKeep(s: State, first: bool, closed: bool)
    requires |s.buf| == BY2PIPE && Calls(s)
    ensures Calls(ReaderStep(s, first, closed))
  {
    hide Flat, InPipe;
    var t := ReaderStep(s, first, closed);
    if s.reader.IncTo? {
      var got := s.reader.got;
      assert got == got[..|got| - 1] + [got[|got| - 1]];
    } else if s.reader.Index? {
      assert t.reader.got[..|t.reader.got| - 1] == s.reader.got;
    } else if t.reader.Out? && !s.reader.Out? {
      FlatAppend(s.returned, s.reader.got);
    }
  }

  lemma WritesKeep(s: State, first: bool, closed: bool)
    requires |s.buf| == BY2PIPE && Calls(s)
    ensures Calls(WriterStep(s, first, closed))
  {
    hide Flat, InHand, IsFull;
    var t := WriterStep(s, first, closed);
    if s.writer.BumpTo? && s.writer.done < |s.writer.data| {
      var data, done := s.writer.data, s.writer.done;
      assert data[..done + 1] == data[..done] + [data[done]];
    } else if t.writer.Off? && !s.writer.Off? {
      FlatAppend(s.sent, InPipe(s.writer));
    }
  }

  lemma CallsStep(s: State, ev: Event)
    requires Inv(s) && Calls(s)
    ensures Calls(Step(s, ev))
  {
    match ev {
      case CallRead(n) =>
      case CallWrite(data) =>
      case Reads(first, closed) => ReadsKeep(s, first, closed);
      case Writes(first, closed) => WritesKeep(s, first, closed);
    }
    hide Inv, At, IsFull, WriterOk, ReaderOk, Flat, ReaderStep, WriterStep;
  }

  /**
    Over every run, what the finished pipe_reads returned is, one after the other, a prefix
    of what the pipe_writes report as written followed by what the current one has written.
  */
  lemma {:induction false} CallsKeep(s: State, evs: seq<Event>)
    requires Inv(s) && Calls(s)
    ensures var t := Run(s, evs); Calls(t) && Flat(t.returned) <= Flat(t.sent) + InPipe(t.writer)
    decreases evs
  {
    if evs == [] {
      assert s.taken <= s.put;
      hide Flat, InHand, InPipe, ReaderOk, WriterOk;
    } else {
      StepKeeps(s, evs[0]);
      CallsStep(s, evs[0]);
      CallsKeep(Step(s, evs[0]), evs[1..]);
    }
  }
}
