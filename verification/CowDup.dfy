/**
  The steps of duppage: sharing, pending and the moment of the eager copy.
*/
module CowDup {
  import opened Mmu
  import opened Cow
  import opened CowRel

  // ----- duppage

  lemma PendingWithout(s: State, t: State, e: nat)
    requires !DupOf(s, e).Mapped? && !DupOf(t, e).Mapped?
    requires forall f :: f != e ==> DupOf(t, f) == DupOf(s, f)
    ensures forall k :: Pending(t, k) == Pending(s, k)
  {
    forall k ensures Pending(t, k) == Pending(s, k) {
      if Pending(s, k) {
        var f :| PendingBy(s, k, f);
        assert PendingBy(t, k, f);
      }
      if Pending(t, k) {
        var f :| PendingBy(t, k, f);
        assert PendingBy(s, k, f);
      }
    }
  }

  lemma ReadOthers(s: State, a: Eager, e: nat, child: nat, vpn: nat, f: nat)
    requires Rel(s, a) && Enabled(s, DupRead(e, child, vpn))
    ensures DupOk(ReadStep(s, e, child, vpn), a, f) && HandlerOk(ReadStep(s, e, child, vpn), a, f)
  {
    NotPending(s, a, Key(e, vpn));
    assert Key(e, vpn) in a.view && child in s.live && e in s.running;
    assert HandlerOf(s, e).Idle? && DupOk(s, a, f) && HandlerOk(s, a, f);
    hide Rel, Pending, Writable, IsCow, IsLibrary;
  }

  lemma ReadSim(s: State, a: Eager, e: nat, child: nat, vpn: nat)
    requires Rel(s, a) && Enabled(s, DupRead(e, child, vpn))
    ensures Rel(ReadStep(s, e, child, vpn), a)
  {
    PendingWithout(s, ReadStep(s, e, child, vpn), e);
    hide Pending, Writable, IsCow, IsLibrary, DupOk, HandlerOk;
    assert Views(ReadStep(s, e, child, vpn), a);
    hide Views, ReadStep;
    forall f ensures DupOk(ReadStep(s, e, child, vpn), a, f) && HandlerOk(ReadStep(s, e, child, vpn), a, f) {
      ReadOthers(s, a, e, child, vpn, f);
    }
  }

  /** duppage is about to map the page into the child. */
  ghost predicate ChildCase(s: State, a: Eager, e: nat) {
    Rel(s, a) && HandlerOf(s, e).Idle? && DupOf(s, e).Read?
  }

  function Child(s: State, e: nat): Key
    requires !DupOf(s, e).NoDup?
  {
    Key(DupOf(s, e).child, DupOf(s, e).vpn)
  }

  function Own(s: State, e: nat): Key
    requires !DupOf(s, e).NoDup?
  {
    Key(e, DupOf(s, e).vpn)
  }

  /** The child's page is all that is new. */
  ghost predicate Added(s: State, t: State, k: Key, l: Key) {
    && k in s.pt && l in t.pt && t.pt == s.pt[l := t.pt[l]] && t.pt[l].page == s.pt[k].page
    && t.mem == s.mem && t.live == s.live && t.running == s.running
    && (forall m :: Pending(t, m) == Pending(s, m))
  }

  lemma ChildAdded(s: State, a: Eager, e: nat)
    requires ChildCase(s, a, e) && (IsLibrary(DupOf(s, e).perm) || !Writable(DupOf(s, e).perm))
    ensures Own(s, e) in s.pt && !Pending(s, Child(s, e))
    ensures Added(s, ChildStep(s, e), Own(s, e), Child(s, e))
    ensures var f, p := ChildStep(s, e).pt[Child(s, e)].flags, DupOf(s, e).perm;
            Writable(f) == Writable(p) && IsCow(f) == IsCow(p) && IsLibrary(f) == IsLibrary(p)
  {
    hide HandlerOk, SameContents, Apart, Together, FlagsOk, LiveOk;
    PendingWithout(s, ChildStep(s, e), e);
    FlagFacts(DupOf(s, e).perm);
    hide Rel, Writable, IsCow, IsLibrary, Pending;
  }

  ghost predicate CanAdd(s: State, t: State, a: Eager, k: Key, l: Key) {
    && Views(s, a) && Added(s, t, k, l) && k in a.view && l !in s.pt && !Pending(s, l)
    && l.vpn != UCOW_VPN && l.env in s.live
    && Writable(t.pt[l].flags) == Writable(s.pt[k].flags) && IsCow(t.pt[l].flags) == IsCow(s.pt[k].flags)
    && IsLibrary(t.pt[l].flags) == IsLibrary(s.pt[k].flags)
  }

  lemma ShareSame(s: State, t: State, a: Eager, k: Key, l: Key)
    requires CanAdd(s, t, a, k, l)
    ensures var c := Do(a, ShareWith(k, l)); SameViews(t, c) && SameContents(t, c) && FlagsOk(t) && LiveOk(t)
  {
    hide Pending, Writable, IsCow, IsLibrary, Apart, Together;
  }

  lemma ShareRegions(s: State, t: State, a: Eager, k: Key, l: Key)
    requires CanAdd(s, t, a, k, l) && IsLibrary(s.pt[k].flags)
    ensures var c := Do(a, ShareWith(k, l)); Apart(t, c) && Together(t, c)
  {
    hide Pending, Writable, IsCow, IsLibrary, SameContents, FlagsOk, LiveOk;
    var c := Do(a, ShareWith(k, l));
    assert forall m :: m in a.view ==> m in s.pt;
    assert l !in a.view && c.view == a.view[l := a.view[k]];
    hide SameViews, Do;
  }

  lemma CopyToSame(s: State, t: State, a: Eager, k: Key, l: Key)
    requires CanAdd(s, t, a, k, l)
    ensures var c := Do(a, CopyTo(k, l)); SameViews(t, c) && SameContents(t, c) && FlagsOk(t) && LiveOk(t)
  {
    hide Pending, Writable, IsCow, IsLibrary, Apart, Together;
  }

  lemma CopyToRegions(s: State, t: State, a: Eager, k: Key, l: Key)
    requires CanAdd(s, t, a, k, l) && !IsLibrary(s.pt[k].flags) && !Writable(s.pt[k].flags)
    ensures var c := Do(a, CopyTo(k, l)); Apart(t, c) && Together(t, c)
  {
    var c := Do(a, CopyTo(k, l));
    assert forall m :: m in a.view ==> m in s.pt && a.view[m] < a.next;
    assert l !in a.view && c.view == a.view[l := a.next];
    hide Pending, Writable, IsCow, IsLibrary, SameViews, SameContents, FlagsOk, LiveOk, Do;
    forall m | m in a.view && s.pt[m].page == s.pt[k].page ensures !Writable(s.pt[m].flags) {
    }
  }

  /** duppage's first map call keeps every other environment's business. */
  lemma ChildDups(s: State, a: Eager, c: Eager, e: nat, f: nat)
    requires ChildCase(s, a, e) && forall m :: m in a.view ==> m in c.view
    ensures Own(s, e) in s.pt && DupOk(ChildStep(s, e), c, f)
  {
    FlagFacts(DupOf(s, e).perm);
    FlagFacts(DupPerm(DupOf(s, e).perm));
    assert DupOk(s, a, f) && DupOk(s, a, e);
    hide Rel, Writable, IsCow, IsLibrary, DupPerm;
  }

  lemma ChildUntouched(s: State, a: Eager, c: Eager, e: nat, f: nat)
    requires DupOf(s, e).Read? && Own(s, e) in s.pt && f != e && f != DupOf(s, e).child
    requires Key(f, UCOW_VPN) in s.pt ==> s.pt[Key(f, UCOW_VPN)].page != s.pt[Own(s, e)].page
    requires forall m :: m in a.view ==> m in c.view
    ensures Untouched(s, ChildStep(s, e), a, c, f)
  {
    hide Writable, IsCow, IsLibrary, DupPerm;
  }

  lemma ChildHandlers(s: State, a: Eager, c: Eager, e: nat, f: nat)
    requires ChildCase(s, a, e) && forall m :: m in a.view ==> m in c.view
    ensures Own(s, e) in s.pt && HandlerOk(ChildStep(s, e), c, f)
  {
    assert HandlerOk(s, a, f);
    hide Rel, Writable, IsCow, IsLibrary, DupPerm;
    if f == e || f == DupOf(s, e).child {
      assert HandlerOf(s, f).Idle?;
    } else {
      ChildUntouched(s, a, c, e, f);
      hide HandlerOk, Untouched, ChildStep;
      HandlerFrame(s, ChildStep(s, e), a, c, f);
    }
  }

  lemma PendingNow(s: State, a: Eager, e: nat)
    requires ChildCase(s, a, e) && Writable(DupOf(s, e).perm) && !IsLibrary(DupOf(s, e).perm)
    ensures Own(s, e) in s.pt
    ensures forall m :: Pending(ChildStep(s, e), m) <==> Pending(s, m) || m == Child(s, e)
  {
    var t := ChildStep(s, e);
    forall m ensures Pending(t, m) <==> Pending(s, m) || m == Child(s, e) {
      if Pending(s, m) {
        var f :| PendingBy(s, m, f);
        assert PendingBy(t, m, f);
      }
      if Pending(t, m) {
        var f :| PendingBy(t, m, f);
        assert f != e ==> PendingBy(s, m, f);
      }
      assert PendingBy(t, Child(s, e), e);
    }
  }

  /** A private writable page: the child's side is pending, and the eager machine waits. */
  lemma PendFacts(s: State, a: Eager, e: nat)
    requires ChildCase(s, a, e)
    ensures DupOf(s, e).child in s.live && Child(s, e) !in s.pt && Child(s, e) !in a.view
  {
    assert DupOk(s, a, e);
    hide HandlerOk, Apart, Together, FlagsOk, LiveOk;
  }

  lemma PendViews(s: State, a: Eager, e: nat)
    requires ChildCase(s, a, e) && Writable(DupOf(s, e).perm) && !IsLibrary(DupOf(s, e).perm)
    ensures Own(s, e) in s.pt && Views(ChildStep(s, e), a)
  {
    hide DupOk, HandlerOk, Writable, IsCow, IsLibrary, Pending, SameViews, SameContents, Apart, Together, FlagsOk, LiveOk;
    PendFacts(s, a, e);
    PendingNow(s, a, e);
    FlagFacts(DupPerm(DupOf(s, e).perm));
    FlagFacts(DupOf(s, e).perm);
    var t, l := ChildStep(s, e), Child(s, e);
    assert t.pt == s.pt[l := t.pt[l]] && t.mem == s.mem && t.live == s.live && t.running == s.running;
    AddedFlags(s, t, l);
    hide ChildStep, DupPerm, Child, Own;
    AddedPending(s, t, a, l);
  }

  /** A page that is pending has no region yet. */
  lemma AddedPending(s: State, t: State, a: Eager, l: Key)
    requires SameViews(s, a) && SameContents(s, a) && Apart(s, a) && Together(s, a)
    requires l in t.pt && l !in a.view && t.pt == s.pt[l := t.pt[l]] && t.mem == s.mem
    requires forall m :: Pending(t, m) <==> Pending(s, m) || m == l
    ensures SameViews(t, a) && SameContents(t, a) && Apart(t, a) && Together(t, a)
  {
    hide Pending, Writable, IsLibrary;
  }

  lemma AddedFlags(s: State, t: State, l: Key)
    requires FlagsOk(s) && LiveOk(s) && l in t.pt && t.pt == s.pt[l := t.pt[l]] && t.live == s.live && t.running == s.running
    requires l.env in s.live && (IsCow(t.pt[l].flags) ==> !Writable(t.pt[l].flags) && !IsLibrary(t.pt[l].flags))
    ensures FlagsOk(t) && LiveOk(t)
  {
    hide Writable, IsCow, IsLibrary;
  }

  lemma ChildShared(s: State, a: Eager, e: nat)
    requires ChildCase(s, a, e) && IsLibrary(DupOf(s, e).perm)
    ensures Own(s, e) in s.pt && Views(ChildStep(s, e), Do(a, ShareWith(Own(s, e), Child(s, e))))
  {
    var t, k, l := ChildStep(s, e), Own(s, e), Child(s, e);
    ChildAdded(s, a, e);
    assert Views(s, a) by { hide Views, DupOk, HandlerOk; }
    hide Rel, Added, SameViews, SameContents, Apart, Together, FlagsOk, LiveOk, Writable, IsCow, IsLibrary, ChildStep, Do;
    ShareSame(s, t, a, k, l);
    ShareRegions(s, t, a, k, l);
  }

  lemma ChildCopied(s: State, a: Eager, e: nat)
    requires ChildCase(s, a, e) && !IsLibrary(DupOf(s, e).perm) && !Writable(DupOf(s, e).perm)
    ensures Own(s, e) in s.pt && Views(ChildStep(s, e), Do(a, CopyTo(Own(s, e), Child(s, e))))
  {
    var t, k, l := ChildStep(s, e), Own(s, e), Child(s, e);
    ChildAdded(s, a, e);
    assert Views(s, a) by { hide Views, DupOk, HandlerOk; }
    hide Rel, Added, SameViews, SameContents, Apart, Together, FlagsOk, LiveOk, Writable, IsCow, IsLibrary, ChildStep, Do;
    CopyToSame(s, t, a, k, l);
    CopyToRegions(s, t, a, k, l);
  }

  lemma ChildViews(s: State, a: Eager, e: nat)
    requires ChildCase(s, a, e)
    ensures Own(s, e) in s.pt && Views(ChildStep(s, e), Do(a, ChildMeaning(s, e)))
  {
    hide Rel, Views, Writable, IsLibrary, ChildStep;
    if IsLibrary(DupOf(s, e).perm) {
      ChildShared(s, a, e);
    } else if !Writable(DupOf(s, e).perm) {
      ChildCopied(s, a, e);
    } else {
      PendViews(s, a, e);
    }
  }

  lemma ChildSim(s: State, a: Eager, e: nat)
    requires ChildCase(s, a, e)
    ensures Own(s, e) in s.pt && Rel(ChildStep(s, e), Do(a, ChildMeaning(s, e)))
  {
    var t, c := ChildStep(s, e), Do(a, ChildMeaning(s, e));
    assert forall m :: m in a.view ==> m in c.view;
    ChildViews(s, a, e);
    hide Views, DupOk, HandlerOk, ChildStep, Do, ChildMeaning;
    forall f ensures DupOk(t, c, f) {
      ChildDups(s, a, c, e, f);
    }
    forall f ensures HandlerOk(t, c, f) {
      ChildHandlers(s, a, c, e, f);
    }
  }

  // ----- the remap

  ghost predicate RemapCase(s: State, a: Eager, e: nat) {
    Rel(s, a) && HandlerOf(s, e).Idle? && DupOf(s, e).Mapped?
  }

  lemma RemapFacts(s: State, a: Eager, e: nat)
    requires RemapCase(s, a, e)
    ensures var k, l := Own(s, e), Child(s, e);
            && k in s.pt && k in a.view && k != l && l in s.pt && l !in a.view && PendingBy(s, l, e)
            && Writable(s.pt[k].flags) && !IsLibrary(s.pt[k].flags)
            && s.pt[k].flags == DupOf(s, e).perm && s.pt[l].page == s.pt[k].page
            && !Writable(s.pt[l].flags) && IsCow(s.pt[l].flags)
            && l.env !in s.running && l.vpn != UCOW_VPN
  {
    assert DupOk(s, a, e) && PendingBy(s, Child(s, e), e);
    hide HandlerOk, Apart, Together, SameContents;
  }

  /** Nobody else uses the page that is being remapped. */
  lemma RemapAlone(s: State, a: Eager, e: nat, m: Key)
    requires RemapCase(s, a, e) && m in a.view && m != Own(s, e)
    ensures Own(s, e) in s.pt && m in s.pt && s.pt[m].page != s.pt[Own(s, e)].page
  {
    RemapFacts(s, a, e);
    hide HandlerOk, DupOk, SameContents;
  }

  lemma PendingLess(s: State, a: Eager, e: nat)
    requires RemapCase(s, a, e)
    ensures Own(s, e) in s.pt
    ensures forall m :: Pending(RemapStep(s, e), m) <==> Pending(s, m) && m != Child(s, e)
  {
    RemapFacts(s, a, e);
    var t := RemapStep(s, e);
    forall m ensures Pending(t, m) <==> Pending(s, m) && m != Child(s, e) {
      if Pending(s, m) && m != Child(s, e) {
        var f :| PendingBy(s, m, f);
        assert PendingBy(t, m, f);
      }
      if Pending(t, m) {
        var f :| PendingBy(t, m, f);
        assert PendingBy(s, m, f) && f != e;
        assert DupOk(s, a, f) && DupOk(s, a, e);
      }
    }
  }

  /** The parent's page k turns copy-on-write and the child's page l stops being pending. */
  ghost predicate Remapped(s: State, t: State, a: Eager, k: Key, l: Key) {
    && k in s.pt && k in a.view && l in s.pt && l !in a.view && s.pt[l].page == s.pt[k].page && l.vpn != UCOW_VPN
    && k in t.pt && t.pt == s.pt[k := t.pt[k]] && t.pt[k].page == s.pt[k].page
    && t.mem == s.mem && t.live == s.live && t.running == s.running
    && !Writable(t.pt[k].flags) && !IsLibrary(t.pt[k].flags) && !Writable(s.pt[l].flags) && !IsLibrary(s.pt[l].flags)
    && (forall m :: Pending(t, m) <==> Pending(s, m) && m != l)
    && (forall m :: m in a.view && m != k ==> m in s.pt && s.pt[m].page != s.pt[k].page)
  }

  lemma RemapIs(s: State, a: Eager, e: nat)
    requires RemapCase(s, a, e)
    ensures Own(s, e) in s.pt && Remapped(s, RemapStep(s, e), a, Own(s, e), Child(s, e))
  {
    RemapFacts(s, a, e);
    PendingLess(s, a, e);
    FlagFacts(DupPerm(DupOf(s, e).perm));
    FlagFacts(DupOf(s, e).perm);
    assert FlagsOk(s);
    forall m | m in a.view && m != Own(s, e) ensures m in s.pt && s.pt[m].page != s.pt[Own(s, e)].page {
      RemapAlone(s, a, e, m);
    }
    hide Rel, Pending, Writable, IsCow, IsLibrary, DupPerm;
  }

  lemma RemapSame(s: State, t: State, a: Eager, k: Key, l: Key)
    requires Views(s, a) && Remapped(s, t, a, k, l)
    ensures var c := Do(a, CopyTo(k, l)); SameViews(t, c) && SameContents(t, c) && FlagsOk(t) && LiveOk(t)
  {
    hide Pending, Writable, IsCow, IsLibrary, Apart, Together;
  }

  lemma RemapApart(s: State, t: State, a: Eager, k: Key, l: Key)
    requires Views(s, a) && Remapped(s, t, a, k, l)
    ensures Apart(t, Do(a, CopyTo(k, l)))
  {
    hide Pending, Writable, IsCow, IsLibrary, FlagsOk, LiveOk, Together;
    assert forall m :: m in a.view ==> a.view[m] < a.next;
    hide SameViews, SameContents;
  }

  lemma RemapTogether(s: State, t: State, a: Eager, k: Key, l: Key)
    requires Views(s, a) && Remapped(s, t, a, k, l)
    ensures Together(t, Do(a, CopyTo(k, l)))
  {
    hide Pending, Writable, IsCow, IsLibrary, FlagsOk, LiveOk, Apart;
    assert forall m :: m in a.view ==> a.view[m] < a.next;
    hide SameViews, SameContents;
  }

  lemma RemapViews(s: State, a: Eager, e: nat)
    requires RemapCase(s, a, e)
    ensures Own(s, e) in s.pt && Views(RemapStep(s, e), Do(a, CopyTo(Own(s, e), Child(s, e))))
  {
    RemapIs(s, a, e);
    hide Remapped, DupOk, HandlerOk, SameViews, SameContents, Apart, Together, FlagsOk, LiveOk, RemapStep, Do;
    RemapSame(s, RemapStep(s, e), a, Own(s, e), Child(s, e));
    RemapApart(s, RemapStep(s, e), a, Own(s, e), Child(s, e));
    RemapTogether(s, RemapStep(s, e), a, Own(s, e), Child(s, e));
  }

  lemma RemapDups(s: State, a: Eager, e: nat, f: nat)
    requires RemapCase(s, a, e)
    ensures Own(s, e) in s.pt && DupOk(RemapStep(s, e), Do(a, CopyTo(Own(s, e), Child(s, e))), f)
  {
    RemapFacts(s, a, e);
    assert DupOk(s, a, f) && DupOk(s, a, e);
    hide Rel, Writable, IsCow, IsLibrary, DupPerm;
  }

  lemma RemapHandlers(s: State, a: Eager, e: nat, f: nat)
    requires RemapCase(s, a, e)
    ensures Own(s, e) in s.pt && HandlerOk(RemapStep(s, e), Do(a, CopyTo(Own(s, e), Child(s, e))), f)
  {
    RemapFacts(s, a, e);
    assert HandlerOk(s, a, f) && HandlerOk(s, a, e);
    hide Rel, Writable, IsCow, IsLibrary, DupPerm;
    if !HandlerOf(s, f).Idle? {
      RemapUntouched(s, a, e, f);
      hide HandlerOk, Untouched, RemapStep, Do;
      HandlerFrame(s, RemapStep(s, e), a, Do(a, CopyTo(Own(s, e), Child(s, e))), f);
    }
  }

  lemma RemapUntouched(s: State, a: Eager, e: nat, f: nat)
    requires DupOf(s, e).Mapped? && Own(s, e) in s.pt && f != e
    ensures Untouched(s, RemapStep(s, e), a, Do(a, CopyTo(Own(s, e), Child(s, e))), f)
  {
    hide Writable, IsCow, IsLibrary, DupPerm;
  }

  lemma RemapSim(s: State, a: Eager, e: nat)
    requires RemapCase(s, a, e)
    ensures Own(s, e) in s.pt && Rel(RemapStep(s, e), Do(a, CopyTo(Own(s, e), Child(s, e))))
  {
    RemapViews(s, a, e);
    var t, c := RemapStep(s, e), Do(a, CopyTo(Own(s, e), Child(s, e)));
    hide Views, DupOk, HandlerOk, RemapStep, Do;
    forall f ensures DupOk(t, c, f) {
      RemapDups(s, a, e, f);
    }
    forall f ensures HandlerOk(t, c, f) {
      RemapHandlers(s, a, e, f);
    }
  }
}
