/**
  Intrusive tail queues and lists (include/queue.h). Elements are numbered; a `prev` link
  is the address of a pointer, which is either the head's or some element's next field;
  it is NULL in an element that has never been on a queue.
*/
module Queue {
  import opened Mmu

  datatype Link = Null | Head | NextOf(elem: nat)

  /** TAILQ: `last` is the address of the final next pointer. */
  datatype Tailq = Tailq(first: Option<nat>, last: Link, next: seq<Option<nat>>, prev: seq<Link>)

  predicate LinkIn(l: Link, n: nat) {
    l.NextOf? ==> l.elem < n
  }

  predicate PtrIn(p: Option<nat>, n: nat) {
    p.Some? ==> p.value < n
  }

  /** Every pointer, also the left-over ones of elements off the queue, is an element's. */
  predicate Sized(q: Tailq) {
    && |q.next| == |q.prev|
    && PtrIn(q.first, |q.next|) && LinkIn(q.last, |q.next|)
    && (forall i :: 0 <= i < |q.next| ==> PtrIn(q.next[i], |q.next|))
    && (forall i :: 0 <= i < |q.prev| ==> LinkIn(q.prev[i], |q.next|))
  }

  /** *l */
  function Load(q: Tailq, l: Link): Option<nat>
    requires Sized(q) && LinkIn(l, |q.next|) && !l.Null?
  {
    if l.Head? then q.first else q.next[l.elem]
  }

  /** *l = p. A store through NULL reaches no word of the queue; the caller must provide for it. */
  function Assign(q: Tailq, l: Link, p: Option<nat>): (r: Tailq)
    requires Sized(q) && LinkIn(l, |q.next|) && PtrIn(p, |q.next|)
    ensures Sized(r) && |r.next| == |q.next| && r.prev == q.prev && r.last == q.last
  {
    match l
    case Null => q
    case Head => q.(first := p)
    case NextOf(x) => q.(next := q.next[x := p])
  }

  /** TAILQ_INSERT_HEAD */
  function InsertHead(q: Tailq, e: nat): (r: Tailq)
    requires Sized(q) && e < |q.next|
    ensures Sized(r) && |r.next| == |q.next|
  {
    var r := q.(next := q.next[e := q.first]);
    var r := if r.next[e].Some? then r.(prev := r.prev[r.next[e].value := NextOf(e)]) else r.(last := NextOf(e));
    var r := r.(first := Some(e));
    r.(prev := r.prev[e := Head])
  }

  /** TAILQ_INSERT_TAIL */
  function InsertTail(q: Tailq, e: nat): (r: Tailq)
    requires Sized(q) && e < |q.next|
    ensures Sized(r) && |r.next| == |q.next|
  {
    var r := q.(next := q.next[e := None], prev := q.prev[e := q.last]);
    var r := Assign(r, r.last, Some(e));
    r.(last := NextOf(e))
  }

  /** TAILQ_REMOVE */
  function Remove(q: Tailq, e: nat): (r: Tailq)
    requires Sized(q) && e < |q.next|
    ensures Sized(r) && |r.next| == |q.next|
  {
    var r := if q.next[e].Some? then q.(prev := q.prev[q.next[e].value := q.prev[e]]) else q.(last := q.prev[e]);
    Assign(r, r.prev[e], r.next[e])
  }

  // ----- the sequence a queue stands for

  ghost predicate Distinct(s: seq<nat>) {
    forall i, j :: 0 <= i < j < |s| ==> s[i] != s[j]
  }

  function PtrAt(s: seq<nat>, i: nat): Option<nat> {
    if i < |s| then Some(s[i]) else None
  }

  /** The address of the pointer to position i of s. */
  function LinkAt(s: seq<nat>, i: nat): Link
    requires i <= |s|
  {
    if i == 0 then Head else NextOf(s[i - 1])
  }

  /** The links of the element at position i of s. */
  predicate NodeOk(q: Tailq, s: seq<nat>, i: nat)
    requires |q.next| == |q.prev| && i < |s|
  {
    s[i] < |q.next| && q.next[s[i]] == PtrAt(s, i + 1) && q.prev[s[i]] == LinkAt(s, i)
  }

  ghost predicate Rep(q: Tailq, s: seq<nat>) {
    && Sized(q) && Distinct(s)
    && q.first == PtrAt(s, 0)
    && q.last == LinkAt(s, |s|)
    && (forall i: nat {:trigger NodeOk(q, s, i)} :: i < |s| ==> NodeOk(q, s, i))
  }

  /** A queue stands for one sequence only. */
  lemma RepUnique(q: Tailq, s: seq<nat>, t: seq<nat>)
    requires Rep(q, s) && Rep(q, t)
    ensures s == t
  {
    RepPrefix(q, s, t, |s|);
    RepPrefix(q, t, s, |t|);
    assert s == s[..|s|] && t == t[..|t|];
  }

  lemma {:induction false} RepPrefix(q: Tailq, s: seq<nat>, t: seq<nat>, n: nat)
    requires Rep(q, s) && Rep(q, t) && n <= |s|
    ensures n <= |t| && s[..n] == t[..n]
  {
    if n > 0 {
      RepPrefix(q, s, t, n - 1);
      if n > 1 {
        assert s[n - 2] == s[..n - 1][n - 2] == t[..n - 1][n - 2] == t[n - 2];
        assert NodeOk(q, s, n - 2) && NodeOk(q, t, n - 2);
      }
      assert s[..n] == s[..n - 1] + [s[n - 1]];
    }
  }

  /** Every member of a queue is one of its elements. */
  lemma RepMembers(q: Tailq, s: seq<nat>)
    requires Rep(q, s)
    ensures forall e :: e in s ==> e < |q.next|
  {
    forall e | e in s ensures e < |q.next| {
      var i: nat :| i < |s| && s[i] == e;
      assert NodeOk(q, s, i);
    }
  }

  lemma InsertHeadRep(q: Tailq, s: seq<nat>, e: nat)
    requires Rep(q, s) && e < |q.next| && e !in s
    ensures Rep(InsertHead(q, e), [e] + s)
  {
    var r, t := InsertHead(q, e), [e] + s;
    forall i: nat | i < |t| ensures NodeOk(r, t, i) {
      if i > 0 {
        assert NodeOk(q, s, i - 1) && t[i] == s[i - 1];
      }
    }
  }

  lemma InsertTailRep(q: Tailq, s: seq<nat>, e: nat)
    requires Rep(q, s) && e < |q.next| && e !in s
    ensures Rep(InsertTail(q, e), s + [e])
  {
    var r, t := InsertTail(q, e), s + [e];
    if s != [] {
      assert NodeOk(q, s, |s| - 1);
    }
    forall i: nat | i < |t| ensures NodeOk(r, t, i) {
      if i < |s| {
        assert NodeOk(q, s, i) && t[i] == s[i];
      }
    }
  }

  function Drop(s: seq<nat>, k: nat): seq<nat>
    requires k < |s|
  {
    s[..k] + s[k + 1..]
  }

  lemma RemoveRep(q: Tailq, s: seq<nat>, k: nat)
    requires Rep(q, s) && k < |s|
    ensures s[k] < |q.next| && Rep(Remove(q, s[k]), Drop(s, k))
  {
    assert NodeOk(q, s, k);
    var e, r, t := s[k], Remove(q, s[k]), Drop(s, k);
    forall i: nat | i < |t| ensures t[i] == s[if i < k then i else i + 1] {
    }
    forall i: nat | i < |t| ensures NodeOk(r, t, i) {
      var m := if i < k then i else i + 1;
      assert NodeOk(q, s, m);
      if i + 1 == k {
        assert r.next[s[m]] == q.next[e];
      }
    }
  }

  // ----- removing an element that is not on the queue

  /** The neighbours the element remembers are still adjacent. */
  predicate Stale(q: Tailq, e: nat)
    requires Sized(q) && e < |q.next| && !q.prev[e].Null?
  {
    && Load(q, q.prev[e]) == q.next[e]
    && (if q.next[e].Some? then q.prev[q.next[e].value] else q.last) == q.prev[e]
  }

  /** A removal changes nothing exactly when the remembered neighbours are adjacent. */
  lemma RemoveNothingIff(q: Tailq, e: nat)
    requires Sized(q) && e < |q.next| && !q.prev[e].Null?
    ensures Remove(q, e) == q <==> Stale(q, e)
  {
    var l, p := q.prev[e], q.next[e];
    var r := if p.Some? then q.(prev := q.prev[p.value := l]) else q.(last := l);
    if Remove(q, e) == q {
      assert r.prev == q.prev && r.last == q.last;
      assert p.Some? ==> r.prev[p.value] == l;
    }
    if Stale(q, e) {
      assert p.Some? ==> q.prev[p.value := l] == q.prev;
      assert r == q;
      assert l.NextOf? ==> q.next[l.elem := p] == q.next;
    }
  }

  /** Removing the same element twice in a row is removing it once. */
  lemma RemoveTwice(q: Tailq, s: seq<nat>, k: nat)
    requires Rep(q, s) && k < |s| && s[k] < |q.next|
    ensures Remove(Remove(q, s[k]), s[k]) == Remove(q, s[k])
  {
    assert NodeOk(q, s, k);
    var e, r := s[k], Remove(q, s[k]);
    if k + 1 < |s| {
      assert NodeOk(q, s, k + 1);
    }
    if k > 0 {
      assert NodeOk(q, s, k - 1);
    }
    RemoveNothingIff(r, e);
  }

  /** With an insertion in between, the second removal loses the inserted element. */
  lemma StaleRemoveLoses(q: Tailq, e: nat, f: nat)
    requires Rep(q, [e]) && e < |q.next| && f < |q.next| && f != e
    ensures var r := InsertTail(Remove(q, e), f);
            Rep(r, [f]) && Rep(Remove(r, e), [])
  {
    RemoveRep(q, [e], 0);
    assert Drop([e], 0) == [];
    InsertTailRep(Remove(q, e), [], f);
    assert [] + [f] == [f];
    assert [e][0] == e;
  }

  // ----- when such a removal leaves the queue alone

  /** Removing e overwrites no word of an element that `on` says is queued. */
  predicate Apart(q: Tailq, on: nat -> bool, e: nat)
    requires Sized(q) && e < |q.next|
  {
    var l, p := q.prev[e], q.next[e];
    && (if p.Some? then on(p.value) ==> q.prev[p.value] == l else q.last == l)
    && match l
       case Null => true
       case Head => q.first == p
       case NextOf(x) => on(x) ==> q.next[x] == p
  }

  /** l is the link to some position of s. */
  predicate LinkOf(s: seq<nat>, l: Link) {
    l == Head || (l.NextOf? && l.elem in s)
  }

  /** Each position of a queue has one link to it. */
  lemma OneLink(q: Tailq, s: seq<nat>, l: Link, i: nat)
    requires Rep(q, s) && i <= |s| && LinkOf(s, l) && LinkIn(l, |q.next|) && Load(q, l) == PtrAt(s, i)
    ensures l == LinkAt(s, i)
  {
    if l.NextOf? {
      var k: nat :| k < |s| && s[k] == l.elem;
      assert NodeOk(q, s, k);
    }
  }

  lemma LinkLoads(q: Tailq, s: seq<nat>, i: nat)
    requires Rep(q, s) && i <= |s|
    ensures var l := LinkAt(s, i); LinkOf(s, l) && LinkIn(l, |q.next|) && Load(q, l) == PtrAt(s, i)
  {
    if i > 0 {
      assert NodeOk(q, s, i - 1);
    }
  }

  /** Two queues of the same elements cannot differ in one next word alone. */
  lemma OneWord(q: Tailq, s: seq<nat>, r: Tailq, t: seq<nat>, l: Link)
    requires Rep(q, s) && Rep(r, t) && |r.next| == |q.next| && (forall x :: x in s <==> x in t)
    requires forall k :: LinkOf(s, k) && LinkIn(k, |q.next|) && k != l ==> Load(r, k) == Load(q, k)
    requires LinkOf(s, l) && LinkIn(l, |q.next|)
    ensures Load(r, l) == Load(q, l)
  {
    var i: nat := if l.Head? then 0 else 1 + IndexOf(s, l.elem);
    assert l == LinkAt(s, i);
    LinkLoads(q, s, i);
    var j: nat := if i < |s| then IndexOf(t, s[i]) else |t|;
    LinkLoads(r, t, j);
    assert i < |s| ==> s[i] in s;
    OneLinkUnless(q, s, r, t, l, i, j);
  }

  lemma OneLinkUnless(q: Tailq, s: seq<nat>, r: Tailq, t: seq<nat>, l: Link, i: nat, j: nat)
    requires Rep(q, s) && Rep(r, t) && |r.next| == |q.next| && i <= |s| && j <= |t| && PtrAt(t, j) == PtrAt(s, i)
    requires l == LinkAt(s, i)
    requires var k := LinkAt(t, j);
             LinkOf(s, k) && LinkIn(k, |q.next|) && Load(r, k) == PtrAt(s, i) && (k != l ==> Load(r, k) == Load(q, k))
    ensures LinkIn(l, |q.next|) && Load(r, l) == PtrAt(s, i)
  {
    if LinkAt(t, j) != l {
      OneLink(q, s, LinkAt(t, j), i);
    }
  }

  function IndexOf(s: seq<nat>, x: nat): (k: nat)
    requires x in s
    ensures k < |s| && s[k] == x
  {
    if s[0] == x then 0 else 1 + IndexOf(s[1..], x)
  }

  ghost predicate On(s: seq<nat>, on: nat -> bool) {
    forall x :: on(x) <==> x in s
  }

  lemma ApartKeeps(q: Tailq, s: seq<nat>, on: nat -> bool, e: nat)
    requires Rep(q, s) && e < |q.next| && e !in s && On(s, on) && Apart(q, on, e)
    ensures Rep(Remove(q, e), s)
  {
    var r := Remove(q, e);
    forall i: nat | i < |s| ensures NodeOk(r, s, i) {
      assert NodeOk(q, s, i) && s[i] in s;
    }
  }

  /** The next words first: the queue would have to be the same sequence, in the same words. */
  lemma ApartNext(q: Tailq, s: seq<nat>, e: nat, t: seq<nat>, k: Link)
    requires Rep(q, s) && e < |q.next| && e !in s
    requires Rep(Remove(q, e), t) && forall x :: x in s <==> x in t
    requires LinkOf(s, k) && LinkIn(k, |q.next|)
    ensures Load(Remove(q, e), k) == Load(q, k)
  {
    var l, r := q.prev[e], Remove(q, e);
    assert forall j :: LinkIn(j, |q.next|) && j != l && !j.Null? ==> Load(r, j) == Load(q, j);
    if k == l {
      OneWord(q, s, r, t, l);
    }
  }

  /** The link of a queue's position is the one its element remembers. */
  lemma PrevIsLink(q: Tailq, s: seq<nat>, i: nat)
    requires Rep(q, s) && i <= |s|
    ensures i < |s| ==> s[i] < |q.next| && q.prev[s[i]] == LinkAt(s, i)
    ensures i == |s| ==> q.last == LinkAt(s, i)
  {
    if i < |s| {
      assert NodeOk(q, s, i);
    }
  }

  /** Removing an element off the queue leaves it a queue of the same elements only so. */
  lemma ApartIff(q: Tailq, s: seq<nat>, on: nat -> bool, e: nat)
    requires Rep(q, s) && e < |q.next| && e !in s && On(s, on)
    ensures Apart(q, on, e) ==> Rep(Remove(q, e), s)
    ensures (exists t :: Rep(Remove(q, e), t) && On(t, on)) ==> Apart(q, on, e)
  {
    if Apart(q, on, e) {
      ApartKeeps(q, s, on, e);
    }
    forall t | Rep(Remove(q, e), t) && On(t, on) ensures Apart(q, on, e) {
      ApartOnly(q, s, on, e, t);
    }
  }

  lemma ApartOnly(q: Tailq, s: seq<nat>, on: nat -> bool, e: nat, t: seq<nat>)
    requires Rep(q, s) && e < |q.next| && e !in s && On(s, on)
    requires Rep(Remove(q, e), t) && On(t, on)
    ensures Apart(q, on, e)
  {
    var r, l, p := Remove(q, e), q.prev[e], q.next[e];
    if LinkOf(s, l) {
      ApartNext(q, s, e, t, l);
    }
    if p == None || on(p.value) {
      var i := if p.Some? then IndexOf(s, p.value) else |s|;
      var j := if p.Some? then IndexOf(t, p.value) else |t|;
      PrevIsLink(q, s, i);
      PrevIsLink(r, t, j);
      LinkLoads(q, s, i);
      LinkLoads(r, t, j);
      var k := LinkAt(t, j);
      assert LinkOf(s, k);
      ApartNext(q, s, e, t, k);
      OneLink(q, s, k, i);
    }
  }

  // ----- the macros in place

  class TailQueue {
    const next: array<Option<nat>>
    const prev: array<Link>
    var first: Option<nat>
    var last: Link

    ghost function View(): Tailq
      reads this, next, prev
    {
      Tailq(first, last, next[..], prev[..])
    }

    ghost function Footprint(): set<object> {
      {this, next, prev}
    }

    /** TAILQ_INIT over an array of n elements. */
    constructor (n: nat)
      ensures View() == Tailq(None, Head, seq(n, _ => None), seq(n, _ => Null)) && fresh(Footprint())
      ensures Rep(View(), [])
    {
      next := new Option<nat>[n](_ => None);
      prev := new Link[n](_ => Null);
      first := None;
      last := Head;
      new;
      assert next[..] == seq(n, _ => None) && prev[..] == seq(n, _ => Null);
    }

    method InsertAtHead(e: nat)
      requires Sized(View()) && e < next.Length
      modifies Footprint()
      ensures View() == InsertHead(old(View()), e)
    {
      next[e] := first;
      if next[e].Some? {
        prev[next[e].value] := NextOf(e);
      } else {
        last := NextOf(e);
      }
      first := Some(e);
      prev[e] := Head;
    }

    method InsertAtTail(e: nat)
      requires Sized(View()) && e < next.Length
      modifies Footprint()
      ensures View() == InsertTail(old(View()), e)
    {
      next[e] := None;
      prev[e] := last;
      Put(last, Some(e));
      last := NextOf(e);
    }

    method Delete(e: nat)
      requires Sized(View()) && e < next.Length
      modifies Footprint()
      ensures View() == Remove(old(View()), e)
    {
      if next[e].Some? {
        prev[next[e].value] := prev[e];
      } else {
        last := prev[e];
      }
      Put(prev[e], next[e]);
    }

    method Put(l: Link, p: Option<nat>)
      requires Sized(View()) && LinkIn(l, next.Length) && PtrIn(p, next.Length)
      modifies this`first, next
      ensures View() == Assign(old(View()), l, p)
    {
      match l {
        case Null =>
        case Head => first := p;
        case NextOf(x) => next[x] := p;
      }
    }
  }
}
