/**
  One fork from start to end, what cow_entry produces, and the interleaving in which
  duppage gives the child a page the parent can still write.
*/
module CowFork {
  import opened Mmu
  import opened Cow
  import opened CowRel
  import opened CowDup

  // ----- cow_entry on its own

  /** n steps of cow_entry in environment e; the allocation yields page p. */
  function RunHandler(s: State, e: nat, p: nat, n: nat): State
    decreases n
  {
    if n == 0 then s else RunHandler(HandleStep(s, e, p), e, p, n - 1)
  }

  /** memcpy: the bytes from `done` on reach UCOW, and nothing else changes. */
  lemma {:induction false} CopyRuns(s: State, e: nat, p: nat, vpn: nat, done: nat)
    requires done <= BY2PG && HandlerOf(s, e) == Copy(vpn, done)
    requires Key(e, vpn) in s.pt && Key(e, UCOW_VPN) in s.pt
    requires s.pt[Key(e, UCOW_VPN)].page == p && s.pt[Key(e, vpn)].page != p
    requires PageOf(s, p)[..done] == PageOf(s, s.pt[Key(e, vpn)].page)[..done]
    ensures var t, src := RunHandler(s, e, p, BY2PG - done), s.pt[Key(e, vpn)].page;
            && HandlerOf(t, e) == Copy(vpn, BY2PG) && t.pt == s.pt && t.dup == s.dup && t.running == s.running
            && PageOf(t, p) == PageOf(s, src)
            && (forall q :: q != p ==> PageOf(t, q) == PageOf(s, q))
    decreases BY2PG - done
  {
    var src := s.pt[Key(e, vpn)].page;
    if done == BY2PG {
      assert PageOf(s, p)[..BY2PG] == PageOf(s, p) && PageOf(s, src)[..BY2PG] == PageOf(s, src);
    } else {
      var r := HandleStep(s, e, p);
      assert r == CopyStep(s, e, vpn, done);
      assert PageOf(r, p)[..done + 1] == PageOf(s, p)[..done] + [PageOf(s, src)[done]];
      assert PageOf(r, src)[..done + 1] == PageOf(s, src)[..done] + [PageOf(s, src)[done]];
      CopyRuns(r, e, p, vpn, done + 1);
    }
  }

  /** The page of `own` was replaced by a copy in page p. */
  ghost predicate Replaced(s: State, t: State, own: Key, p: nat) {
    && own in s.pt && t.pt == s.pt[own := Pte(p, PTE_D | PTE_V)] && t.dup == s.dup && t.running == s.running
    && PageOf(t, p) == PageOf(s, s.pt[own].page)
    && forall q :: q != p ==> PageOf(t, q) == PageOf(s, q)
  }

  /** Once memcpy is done: install the copy, unmap UCOW, return. */
  lemma InstallRuns(s: State, e: nat, p: nat, vpn: nat)
    requires HandlerOf(s, e) == Copy(vpn, BY2PG) && Key(e, vpn) in s.pt && Key(e, UCOW_VPN) in s.pt
    requires s.pt[Key(e, UCOW_VPN)].page == p && vpn != UCOW_VPN
    ensures var t := RunHandler(s, e, p, 2);
            && HandlerOf(t, e).Idle? && t.mem == s.mem && t.dup == s.dup && t.running == s.running
            && t.pt == s.pt[Key(e, vpn) := Pte(p, PTE_D | PTE_V)] - {Key(e, UCOW_VPN)}
  {
    var r := InstallStep(s, e, vpn);
    assert HandleStep(s, e, p) == r && HandleStep(r, e, p) == UnmapStep(r, e);
    assert RunHandler(r, e, p, 1) == UnmapStep(r, e);
    assert CowPerm(s.pt[Key(e, vpn)].flags) | PTE_V == PTE_D | PTE_V;
  }

  ghost predicate Faulted(s: State, e: nat, p: nat) {
    && HandlerOf(s, e).Alloc? && Key(e, HandlerOf(s, e).vpn) in s.pt && HandlerOf(s, e).vpn != UCOW_VPN
    && Key(e, UCOW_VPN) !in s.pt && s.pt[Key(e, HandlerOf(s, e).vpn)].page != p
  }

  /** From the fault to the end of memcpy. */
  lemma CopyDone(s: State, e: nat, p: nat, n: nat)
    requires Faulted(s, e, p) && n == BY2PG + 1
    ensures var t, vpn := RunHandler(s, e, p, n), HandlerOf(s, e).vpn;
            && HandlerOf(t, e) == Copy(vpn, BY2PG) && t.dup == s.dup && t.running == s.running
            && t.pt == s.pt[Key(e, UCOW_VPN) := Pte(p, PTE_D | PTE_V)]
            && PageOf(t, p) == PageOf(s, s.pt[Key(e, vpn)].page) && (forall q :: q != p ==> PageOf(t, q) == PageOf(s, q))
  {
    var vpn, u := HandlerOf(s, e).vpn, Key(e, UCOW_VPN);
    var r := AllocStep(s, e, vpn, p);
    assert HandleStep(s, e, p) == r;
    assert PageOf(r, p)[..0] == [] == PageOf(r, r.pt[Key(e, vpn)].page)[..0];
    assert forall q :: q != p ==> PageOf(r, q) == PageOf(s, q);
    assert HandlerOf(r, e) == Copy(vpn, 0) && r.pt == s.pt[u := Pte(p, PTE_D | PTE_V)];
    assert r.dup == s.dup && r.running == s.running;
    hide AllocStep, HandleStep;
    CopyRuns(r, e, p, vpn, 0);
  }

  /** cow_entry as a whole: a private writable copy at the same address, and nothing else. */
  lemma CowEntry(s: State, e: nat, p: nat, n: nat)
    requires Faulted(s, e, p) && n == BY2PG + 3
    ensures var t := RunHandler(s, e, p, n);
            HandlerOf(t, e).Idle? && Replaced(s, t, Key(e, HandlerOf(s, e).vpn), p)
  {
    hide RunHandler;
    var vpn, r := HandlerOf(s, e).vpn, RunHandler(s, e, p, n - 2);
    CopyDone(s, e, p, n - 2);
    RunHandlerAdd(s, e, p, n - 2, 2);
    InstallRuns(r, e, p, vpn);
    AddedThenGone(s.pt, Key(e, UCOW_VPN), Pte(p, PTE_D | PTE_V), Key(e, vpn), Pte(p, PTE_D | PTE_V));
    hide HandlerOf;
    assert RunHandler(s, e, p, n).pt == s.pt[Key(e, vpn) := Pte(p, PTE_D | PTE_V)];
  }

  lemma AddedThenGone(m: map<Key, Pte>, u: Key, x: Pte, k: Key, y: Pte)
    requires u !in m && u != k
    ensures m[u := x][k := y] - {u} == m[k := y]
  {
  }

  lemma {:induction false} RunHandlerAdd(s: State, e: nat, p: nat, m: nat, n: nat)
    ensures RunHandler(s, e, p, m + n) == RunHandler(RunHandler(s, e, p, m), e, p, n)
    decreases m
  {
    if m > 0 {
      RunHandlerAdd(HandleStep(s, e, p), e, p, m - 1, n);
    }
  }

  // ----- the excluded interleaving

  lemma LateFacts(s: State, a: Eager, e: nat)
    requires Rel(s, a) && DupOf(s, e).Read? && HandlerOf(s, e).Idle?
    ensures FlagsOk(s) && DupOk(s, a, e) && HandlerOk(s, a, e)
  {
  }

  /**
    duppage has read a copy-on-write permission and the parent then stores to that very
    page, as when the call of syscall_mem_map pushes on a stack page being duplicated. The
    fault is served, the child is mapped to the fresh page, and the parent keeps it
    writable: a later store of the parent appears in the child's memory.
  */
  lemma LateFaultLeaks(s: State, a: Eager, e: nat, p: nat, off: nat, b: Byte, n: nat)
    requires Rel(s, a) && DupOf(s, e).Read? && IsCow(DupOf(s, e).perm)
    requires Enabled(s, Store(Own(s, e), off, b)) && !Writable(s.pt[Own(s, e)].flags) && Unused(s, p)
    requires n == BY2PG + 3
    ensures var k, l := Own(s, e), Child(s, e);
            var r := RunHandler(Step(s, Store(k, off, b)), e, p, n);    // fault and cow_entry
            var t := Step(Step(r, DupMap(e)), Store(k, off, b));               // child's map, store again
            && l in t.pt && k in t.pt && t.pt[l].page == t.pt[k].page
            && PageOf(t, t.pt[l].page)[off] == b
  {
    var k, l := Own(s, e), Child(s, e);
    LateFacts(s, a, e);
    hide Rel, RunHandler;
    var f := Step(s, Store(k, off, b));
    CowEntry(f, e, p, n);
    var r := RunHandler(f, e, p, n);
    assert DupOf(r, e) == DupOf(s, e);
    LateStore(r, e, off, b);
  }

  /** The child's map and the parent's next store, with the parent's page writable. */
  lemma LateStore(r: State, e: nat, off: nat, b: Byte)
    requires DupOf(r, e).Read? && IsCow(DupOf(r, e).perm) && Own(r, e) in r.pt && off < BY2PG
    requires Writable(r.pt[Own(r, e)].flags) && Own(r, e) != Child(r, e)
    ensures var k, l := Own(r, e), Child(r, e);
            var t := Step(Step(r, DupMap(e)), Store(k, off, b));
            l in t.pt && k in t.pt && t.pt[l].page == t.pt[k].page && PageOf(t, t.pt[l].page)[off] == b
  {
    var c := Step(r, DupMap(e));
    assert c == ChildStep(r, e);
    hide Writable, IsCow, IsLibrary, DupPerm;
    assert c.pt[Own(r, e)] == r.pt[Own(r, e)];
  }

  /** A page read as copy-on-write has since been served to the parent, or is as it was. */
  ghost predicate LateCase(s: State, a: Eager, e: nat) {
    && Views(s, a) && DupOf(s, e).Read? && DupOf(s, e).vpn != UCOW_VPN && DupOf(s, e).child in s.live
    && IsCow(DupOf(s, e).perm) && !Writable(DupOf(s, e).perm) && !IsLibrary(DupOf(s, e).perm)
    && Own(s, e) in s.pt && Own(s, e) in a.view && Child(s, e) !in s.pt && !Pending(s, Child(s, e))
    && !IsLibrary(s.pt[Own(s, e)].flags) && (IsCow(s.pt[Own(s, e)].flags) <==> !Writable(s.pt[Own(s, e)].flags))
  }

  /**
    The exact condition: duppage's map of such a page is the eager copy if and only if the
    parent's page is still not writable when the child gets it.
  */
  lemma LateMapIff(s: State, a: Eager, e: nat)
    requires LateCase(s, a, e)
    ensures Views(ChildStep(s, e), Do(a, CopyTo(Own(s, e), Child(s, e)))) <==> !Writable(s.pt[Own(s, e)].flags)
  {
    var t, k, l := ChildStep(s, e), Own(s, e), Child(s, e);
    var c := Do(a, CopyTo(k, l));
    PendingWithout(s, t, e);
    FlagFacts(DupOf(s, e).perm);
    if Writable(s.pt[k].flags) {
      assert c.view[k] != c.view[l] && t.pt[k] == s.pt[k] && t.pt[l].page == t.pt[k].page;
    } else {
      assert CanAdd(s, t, a, k, l) by { hide Views; }
      hide CanAdd, Views, ChildStep, Do;
      CopyToSame(s, t, a, k, l);
      CopyToRegions(s, t, a, k, l);
      assert Views(t, c) by { JoinViews(t, c); }
    }
  }

  lemma JoinViews(t: State, c: Eager)
    requires SameViews(t, c) && SameContents(t, c) && Apart(t, c) && Together(t, c) && FlagsOk(t) && LiveOk(t)
    ensures Views(t, c)
  {
    hide SameViews, SameContents, Apart, Together, FlagsOk, LiveOk;
  }

  // ----- a whole fork

  /** duppage on one page, uninterrupted. */
  function Duppage(s: State, e: nat, child: nat, vpn: nat): State
    requires Key(e, vpn) in s.pt
  {
    var r := ReadStep(s, e, child, vpn);
    var c := ChildStep(r, e);
    if DupOf(c, e).Mapped? then RemapStep(c, e) else c
  }

  /** The mapping duppage promises for parent and child. */
  predicate DupedAs(was: Pte, parent: Pte, child: Pte) {
    && child.page == was.page && parent.page == was.page
    && child.flags == DupPerm(was.flags) | PTE_V
    && (if Writable(was.flags) && !IsLibrary(was.flags)
        then parent.flags == child.flags && !Writable(child.flags) && IsCow(child.flags)
        else parent.flags == was.flags && child.flags == was.flags | PTE_V)
  }

  /** Private writable pages: the child's map and the remap. */
  lemma DuppagePrivate(s: State, e: nat, child: nat, vpn: nat)
    requires Key(e, vpn) in s.pt && child != e
    requires Writable(s.pt[Key(e, vpn)].flags) && !IsLibrary(s.pt[Key(e, vpn)].flags)
    ensures var t, was := Duppage(s, e, child, vpn), s.pt[Key(e, vpn)];
            var to := Pte(was.page, DupPerm(was.flags) | PTE_V);
            t.mem == s.mem && t.pt == s.pt[Key(child, vpn) := to][Key(e, vpn) := to]
  {
    hide Writable, IsCow, IsLibrary, DupPerm;
  }

  lemma DuppageIs(s: State, e: nat, child: nat, vpn: nat)
    requires Key(e, vpn) in s.pt && child != e
    ensures var t, k, l := Duppage(s, e, child, vpn), Key(e, vpn), Key(child, vpn);
            && k in t.pt && l in t.pt && DupedAs(s.pt[k], t.pt[k], t.pt[l])
            && t.mem == s.mem && (forall m :: m in t.pt <==> m in s.pt || m == l)
            && (forall m :: m in s.pt && m != k && m != l ==> t.pt[m] == s.pt[m])
  {
    var was := s.pt[Key(e, vpn)];
    var to := Pte(was.page, DupPerm(was.flags) | PTE_V);
    DupedFlags(was);
    if Writable(was.flags) && !IsLibrary(was.flags) {
      DuppagePrivate(s, e, child, vpn);
    }
    hide Duppage, Writable, IsCow, IsLibrary, DupPerm, DupedAs;
  }

  lemma DupedFlags(was: Pte)
    ensures var to := Pte(was.page, DupPerm(was.flags) | PTE_V);
            DupedAs(was, if !Writable(was.flags) || IsLibrary(was.flags) then was else to, to)
  {
    FlagFacts(was.flags);
    FlagFacts(DupPerm(was.flags));
  }

  /** Every page of the parent below vpn has been duplicated, the others not yet touched. */
  ghost predicate DupedBelow(s: State, t: State, e: nat, child: nat, vpn: nat) {
    && t.mem == s.mem
    && (forall v: nat :: v < vpn ==>
          && (Key(e, v) in t.pt <==> Key(e, v) in s.pt) && (Key(child, v) in t.pt <==> Key(e, v) in s.pt)
          && (Key(e, v) in s.pt ==> DupedAs(s.pt[Key(e, v)], t.pt[Key(e, v)], t.pt[Key(child, v)])))
    && (forall k: Key :: (k.env != e && k.env != child) || k.vpn >= vpn ==>
          (k in t.pt <==> k in s.pt) && (k in s.pt ==> t.pt[k] == s.pt[k]))
  }

  lemma DupNext(s: State, t: State, e: nat, child: nat, i: nat)
    requires DupedBelow(s, t, e, child, i) && child != e && Key(e, i) in t.pt
    ensures DupedBelow(s, Duppage(t, e, child, i), e, child, i + 1)
  {
    DuppageIs(t, e, child, i);
    assert Key(e, i) in s.pt && t.pt[Key(e, i)] == s.pt[Key(e, i)];
    hide Duppage, DupedAs;
    var u := Duppage(t, e, child, i);
    forall v: nat | v < i + 1
      ensures (Key(e, v) in u.pt <==> Key(e, v) in s.pt) && (Key(child, v) in u.pt <==> Key(e, v) in s.pt)
      ensures Key(e, v) in s.pt ==> DupedAs(s.pt[Key(e, v)], u.pt[Key(e, v)], u.pt[Key(child, v)])
    {
      assert v == i || v < i;
    }
  }

  class Parent {
    var s: State
    /** The directory entries that are present, as vpd shows them. */
    const vpd: set<nat>

    constructor (s: State, vpd: set<nat>)
      ensures this.s == s && this.vpd == vpd
    {
      this.s := s;
      this.vpd := vpd;
    }

    /**
      The loop of fork, uninterrupted: afterwards the child has every page the parent has
      below USTACKTOP, at the same address and with the same contents, both sides are
      copy-on-write where the page was private and writable, and other pages are untouched.
    */
    method Fork(e: nat, child: nat)
      requires child != e && forall v: nat :: Key(child, v) !in s.pt
      requires forall v: nat :: Key(e, v) in s.pt ==> v / ENTRIES in vpd
      modifies this
      ensures DupedBelow(old(s), s, e, child, STACK_VPN)
    {
      ghost var s0 := s;
      var i := 0;
      hide Duppage, DupedAs;
      while i < STACK_VPN
        invariant i <= STACK_VPN && DupedBelow(s0, s, e, child, i)
      {
        if i / ENTRIES in vpd && Key(e, i) in s.pt {
          DupNext(s0, s, e, child, i);
          s := Duppage(s, e, child, i);
        }
        i := i + 1;
      }
    }
  }

  /** A page both sides see has one content, so the child starts with the parent's memory. */
  lemma ForkCopies(s: State, t: State, e: nat, child: nat, v: nat)
    requires DupedBelow(s, t, e, child, STACK_VPN) && v < STACK_VPN && Key(e, v) in s.pt
    ensures Key(child, v) in t.pt && Key(e, v) in t.pt
    ensures PageOf(t, t.pt[Key(child, v)].page) == PageOf(s, s.pt[Key(e, v)].page)
    ensures PageOf(t, t.pt[Key(e, v)].page) == PageOf(s, s.pt[Key(e, v)].page)
    ensures Writable(t.pt[Key(child, v)].flags) ==> IsLibrary(s.pt[Key(e, v)].flags)
  {
    FlagFacts(s.pt[Key(e, v)].flags);
    FlagFacts(DupPerm(s.pt[Key(e, v)].flags));
  }
}
