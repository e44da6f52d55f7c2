/**
  The LIST macros (include/queue.h), on which page_free_list and env_free_list are built:
  a head pointer and no tail.
*/
module FreeList {
  import opened Mmu
  import Queue

  type Link = Queue.Link

  datatype List = List(first: Option<nat>, next: seq<Option<nat>>, prev: seq<Link>)

  predicate Sized(q: List) {
    && |q.next| == |q.prev|
    && Queue.PtrIn(q.first, |q.next|)
    && (forall i :: 0 <= i < |q.next| ==> Queue.PtrIn(q.next[i], |q.next|))
    && (forall i :: 0 <= i < |q.prev| ==> Queue.LinkIn(q.prev[i], |q.next|))
  }

  /** *l = p */
  function Assign(q: List, l: Link, p: Option<nat>): (r: List)
    requires Sized(q) && Queue.LinkIn(l, |q.next|) && Queue.PtrIn(p, |q.next|)
    ensures Sized(r) && |r.next| == |q.next| && r.prev == q.prev
  {
    match l
    case Null => q
    case Head => q.(first := p)
    case NextOf(x) => q.(next := q.next[x := p])
  }

  /** LIST_INSERT_HEAD */
  function InsertHead(q: List, e: nat): (r: List)
    requires Sized(q) && e < |q.next|
    ensures Sized(r) && |r.next| == |q.next|
  {
    var r := q.(next := q.next[e := q.first]);
    var r := if r.first.Some? then r.(prev := r.prev[r.first.value := Queue.NextOf(e)]) else r;
    var r := r.(first := Some(e));
    r.(prev := r.prev[e := Queue.Head])
  }

  /** LIST_INSERT_AFTER(at, e) */
  function InsertAfter(q: List, at: nat, e: nat): (r: List)
    requires Sized(q) && e < |q.next| && at < |q.next|
    ensures Sized(r) && |r.next| == |q.next|
  {
    var r := q.(next := q.next[e := q.next[at]]);
    var r := if r.next[e].Some? then r.(prev := r.prev[r.next[e].value := Queue.NextOf(e)]) else r;
    var r := r.(next := r.next[at := Some(e)]);
    r.(prev := r.prev[e := Queue.NextOf(at)])
  }

  /** LIST_INSERT_BEFORE(at, e) */
  function InsertBefore(q: List, at: nat, e: nat): (r: List)
    requires Sized(q) && e < |q.next| && at < |q.next|
    ensures Sized(r) && |r.next| == |q.next|
  {
    var r := q.(prev := q.prev[e := q.prev[at]], next := q.next[e := Some(at)]);
    var r := Assign(r, r.prev[at], Some(e));
    r.(prev := r.prev[at := Queue.NextOf(e)])
  }

  /** LIST_REMOVE */
  function Remove(q: List, e: nat): (r: List)
    requires Sized(q) && e < |q.next|
    ensures Sized(r) && |r.next| == |q.next|
  {
    var r := if q.next[e].Some? then q.(prev := q.prev[q.next[e].value := q.prev[e]]) else q;
    Assign(r, r.prev[e], r.next[e])
  }

  predicate NodeOk(q: List, s: seq<nat>, i: nat)
    requires |q.next| == |q.prev| && i < |s|
  {
    s[i] < |q.next| && q.next[s[i]] == Queue.PtrAt(s, i + 1) && q.prev[s[i]] == Queue.LinkAt(s, i)
  }

  ghost predicate Rep(q: List, s: seq<nat>) {
    && Sized(q) && Queue.Distinct(s)
    && q.first == Queue.PtrAt(s, 0)
    && (forall i: nat {:trigger NodeOk(q, s, i)} :: i < |s| ==> NodeOk(q, s, i))
  }

  /** Position k of s now holds e. */
  function Splice(s: seq<nat>, k: nat, e: nat): seq<nat>
    requires k <= |s|
  {
    s[..k] + [e] + s[k..]
  }

  lemma InsertHeadRep(q: List, s: seq<nat>, e: nat)
    requires Rep(q, s) && e < |q.next| && e !in s
    ensures Rep(InsertHead(q, e), Splice(s, 0, e))
  {
    var r, t := InsertHead(q, e), Splice(s, 0, e);
    forall i: nat | i < |t| ensures NodeOk(r, t, i) {
      if i > 0 {
        assert NodeOk(q, s, i - 1);
      }
    }
  }

  lemma InsertAfterRep(q: List, s: seq<nat>, k: nat, e: nat)
    requires Rep(q, s) && k < |s| && e < |q.next| && e !in s
    ensures s[k] < |q.next| && Rep(InsertAfter(q, s[k], e), Splice(s, k + 1, e))
  {
    assert NodeOk(q, s, k);
    var r, t := InsertAfter(q, s[k], e), Splice(s, k + 1, e);
    forall i: nat | i < |t| ensures NodeOk(r, t, i) {
      if i != k + 1 {
        assert NodeOk(q, s, if i <= k then i else i - 1);
      }
    }
  }

  lemma InsertBeforeRep(q: List, s: seq<nat>, k: nat, e: nat)
    requires Rep(q, s) && k < |s| && e < |q.next| && e !in s
    ensures s[k] < |q.next| && Rep(InsertBefore(q, s[k], e), Splice(s, k, e))
  {
    assert NodeOk(q, s, k);
    var r, t := InsertBefore(q, s[k], e), Splice(s, k, e);
    forall i: nat | i < |t| ensures NodeOk(r, t, i) {
      if i != k {
        assert NodeOk(q, s, if i < k then i else i - 1);
      }
    }
  }

  lemma RemoveRep(q: List, s: seq<nat>, k: nat)
    requires Rep(q, s) && k < |s|
    ensures s[k] < |q.next| && Rep(Remove(q, s[k]), Queue.Drop(s, k))
  {
    assert NodeOk(q, s, k);
    var e, r, t := s[k], Remove(q, s[k]), Queue.Drop(s, k);
    forall i: nat | i < |t| ensures t[i] == s[if i < k then i else i + 1] {
    }
    forall i: nat | i < |t| ensures NodeOk(r, t, i) {
      var m := if i < k then i else i + 1;
      assert NodeOk(q, s, m);
      if i + 1 == k {
        assert r.next[s[m]] == q.next[e];
      }
    }
  }

  /** page_alloc and page_free: taking the head undoes putting an element there. */
  lemma TakeUndoesPut(q: List, s: seq<nat>, e: nat)
    requires Rep(q, s) && e < |q.next| && e !in s
    ensures var r := InsertHead(q, e); r.first == Some(e) && Rep(Remove(r, e), s)
  {
    var r, t := InsertHead(q, e), Splice(s, 0, e);
    InsertHeadRep(q, s, e);
    RemoveRep(r, t, 0);
    assert t[0] == e && Queue.Drop(t, 0) == s;
  }

  /** A list in place, the next and prev words of every element in arrays. */
  class LinkedList {
    const next: array<Option<nat>>
    const prev: array<Link>
    var first: Option<nat>

    ghost function View(): List
      reads this, next, prev
    {
      List(first, next[..], prev[..])
    }

    ghost function Footprint(): set<object> {
      {this, next, prev}
    }

    /** LIST_INIT over an array of n elements. */
    constructor (n: nat)
      ensures View() == List(None, seq(n, _ => None), seq(n, _ => Queue.Null)) && fresh(Footprint())
      ensures Rep(View(), [])
    {
      next := new Option<nat>[n](_ => None);
      prev := new Link[n](_ => Queue.Null);
      first := None;
      new;
      assert next[..] == seq(n, _ => None) && prev[..] == seq(n, _ => Queue.Null);
    }

    method InsertAtHead(e: nat)
      requires Sized(View()) && e < next.Length
      modifies Footprint()
      ensures View() == InsertHead(old(View()), e)
    {
      next[e] := first;
      if next[e].Some? {
        prev[first.value] := Queue.NextOf(e);
      }
      first := Some(e);
      prev[e] := Queue.Head;
    }

    method AddAfter(at: nat, e: nat)
      requires Sized(View()) && e < next.Length && at < next.Length
      modifies Footprint()
      ensures View() == InsertAfter(old(View()), at, e)
    {
      next[e] := next[at];
      if next[e].Some? {
        prev[next[e].value] := Queue.NextOf(e);
      }
      next[at] := Some(e);
      prev[e] := Queue.NextOf(at);
    }

    method AddBefore(at: nat, e: nat)
      requires Sized(View()) && e < next.Length && at < next.Length
      modifies Footprint()
      ensures View() == InsertBefore(old(View()), at, e)
    {
      prev[e] := prev[at];
      next[e] := Some(at);
      Put(prev[at], Some(e));
      prev[at] := Queue.NextOf(e);
    }

    method Delete(e: nat)
      requires Sized(View()) && e < next.Length
      modifies Footprint()
      ensures View() == Remove(old(View()), e)
    {
      if next[e].Some? {
        prev[next[e].value] := prev[e];
      }
      Put(prev[e], next[e]);
    }

    /** *l = p */
    method Put(l: Link, p: Option<nat>)
      requires Sized(View()) && Queue.LinkIn(l, next.Length) && Queue.PtrIn(p, next.Length)
      modifies this`first, next
      ensures View() == Assign(old(View()), l, p)
    {
      match l {
        case Null =>
        case Head => first := p;
        case NextOf(x) => next[x] := p;
      }
    }
  }
}
