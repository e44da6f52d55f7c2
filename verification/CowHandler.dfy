/**
  The steps of cow_entry keep the relation while the eager machine stands still.
*/
module CowHandler {
  import opened Mmu
  import opened Cow
  import opened CowRel

  // ----- cow_entry

  lemma FaultOthers(s: State, a: Eager, k: Key, off: nat, b: Byte, e: nat)
    requires Rel(s, a) && Allowed(s, Store(k, off, b)) && !Writable(s.pt[k].flags)
    ensures var t := Step(s, Store(k, off, b)); DupOk(t, a, e) && HandlerOk(t, a, e)
  {
    hide Apart, Together, SameContents;
    NotPending(s, a, k);
    assert DupOk(s, a, e) && HandlerOk(s, a, e);
    hide SameViews, LiveOk;
  }

  lemma FaultViews(s: State, a: Eager, k: Key, off: nat, b: Byte)
    requires Rel(s, a) && Allowed(s, Store(k, off, b)) && !Writable(s.pt[k].flags)
    ensures Views(Step(s, Store(k, off, b)), a)
  {
    SamePending(s, Step(s, Store(k, off, b)));
    hide Pending, Writable, IsCow, IsLibrary, DupOk, HandlerOk;
  }

  lemma AllocViews(s: State, a: Eager, e: nat, p: nat)
    requires Rel(s, a) && HandlerOf(s, e).Alloc? && Unused(s, p)
    ensures Views(AllocStep(s, e, HandlerOf(s, e).vpn, p), a)
  {
    hide Writable, IsCow, IsLibrary, DupOk, Pending;
    var t := AllocStep(s, e, HandlerOf(s, e).vpn, p);
    SamePending(s, t);
    FlagFacts(0);
    assert HandlerOk(s, a, e);
    assert e in s.live && Key(e, UCOW_VPN) !in s.pt;
    hide HandlerOk;
  }

  lemma AllocDup(s: State, a: Eager, e: nat, p: nat, f: nat)
    requires Rel(s, a) && HandlerOf(s, e).Alloc? && Unused(s, p)
    ensures DupOk(AllocStep(s, e, HandlerOf(s, e).vpn, p), a, f)
  {
    assert DupOk(s, a, f);
    hide Rel, Writable, IsCow, IsLibrary;
  }

  lemma AllocUntouched(s: State, a: Eager, e: nat, vpn: nat, p: nat, f: nat)
    requires Unused(s, p) && e != f
    ensures Untouched(s, AllocStep(s, e, vpn, p), a, a, f)
  {
    hide Writable, IsCow, IsLibrary;
  }

  lemma AllocHandler(s: State, a: Eager, e: nat, p: nat, f: nat)
    requires Rel(s, a) && HandlerOf(s, e).Alloc? && Unused(s, p)
    ensures HandlerOk(AllocStep(s, e, HandlerOf(s, e).vpn, p), a, f)
  {
    var vpn := HandlerOf(s, e).vpn;
    var t := AllocStep(s, e, vpn, p);
    assert HandlerOk(s, a, e) && HandlerOk(s, a, f);
    hide Rel;
    if e != f {
      AllocUntouched(s, a, e, vpn, p, f);
      hide HandlerOk, Untouched, AllocStep;
      HandlerFrame(s, t, a, a, f);
    } else {
      FlagFacts(0);
      hide Writable, IsCow, IsLibrary;
    }
  }

  lemma CopyViews(s: State, a: Eager, e: nat)
    requires Rel(s, a) && HandlerOf(s, e).Copy? && HandlerOf(s, e).done < BY2PG
    ensures Key(e, HandlerOf(s, e).vpn) in s.pt && Key(e, UCOW_VPN) in s.pt
    ensures Views(CopyStep(s, e, HandlerOf(s, e).vpn, HandlerOf(s, e).done), a)
  {
    assert HandlerOk(s, a, e);
    var t := CopyStep(s, e, HandlerOf(s, e).vpn, HandlerOf(s, e).done);
    SamePending(s, t);
    hide Writable, IsCow, IsLibrary, DupOk, Pending;
  }

  lemma CopyDup(s: State, a: Eager, e: nat, f: nat)
    requires Rel(s, a) && HandlerOf(s, e).Copy? && HandlerOf(s, e).done < BY2PG
    ensures Key(e, HandlerOf(s, e).vpn) in s.pt && Key(e, UCOW_VPN) in s.pt
    ensures DupOk(CopyStep(s, e, HandlerOf(s, e).vpn, HandlerOf(s, e).done), a, f)
  {
    assert HandlerOk(s, a, e) && DupOk(s, a, f);
    hide Rel, Writable, IsCow, IsLibrary;
  }

  lemma CopyElsewhere(s: State, a: Eager, e: nat, f: nat)
    requires HandlerOk(s, a, e) && HandlerOk(s, a, f) && HandlerOf(s, e).Copy? && HandlerOf(s, e).done < BY2PG && e != f
    ensures Key(e, HandlerOf(s, e).vpn) in s.pt && Key(e, UCOW_VPN) in s.pt
    ensures HandlerOk(CopyStep(s, e, HandlerOf(s, e).vpn, HandlerOf(s, e).done), a, f)
  {
    OtherPages(s, a, e, f);
    hide Writable, IsCow, IsLibrary;
  }

  lemma CopyHandler(s: State, a: Eager, e: nat, f: nat)
    requires Rel(s, a) && HandlerOf(s, e).Copy? && HandlerOf(s, e).done < BY2PG
    ensures Key(e, HandlerOf(s, e).vpn) in s.pt && Key(e, UCOW_VPN) in s.pt
    ensures HandlerOk(CopyStep(s, e, HandlerOf(s, e).vpn, HandlerOf(s, e).done), a, f)
  {
    assert HandlerOk(s, a, e) && HandlerOk(s, a, f);
    hide Rel, Writable, IsCow, IsLibrary;
    if f != e {
      hide HandlerOk, CopyStep;
      CopyElsewhere(s, a, e, f);
    } else {
      var vpn, done := HandlerOf(s, e).vpn, HandlerOf(s, e).done;
      var t := CopyStep(s, e, vpn, done);
      var u, k := s.pt[Key(e, UCOW_VPN)].page, s.pt[Key(e, vpn)].page;
      assert PageOf(t, u)[..done + 1] == PageOf(s, u)[..done] + [PageOf(s, k)[done]];
      assert PageOf(t, k)[..done + 1] == PageOf(s, k)[..done] + [PageOf(s, k)[done]];
    }
  }

  /** What the handler of another environment reads and writes is not the page copied to. */
  lemma OtherPages(s: State, a: Eager, e: nat, f: nat)
    requires HandlerOk(s, a, e) && HandlerOk(s, a, f) && HandlerOf(s, e).Copy? && e != f
    ensures var u := s.pt[Key(e, UCOW_VPN)].page;
            && (Key(f, UCOW_VPN) in s.pt ==> s.pt[Key(f, UCOW_VPN)].page != u)
            && (HandlerOf(s, f).Copy? ==> s.pt[Key(f, HandlerOf(s, f).vpn)].page != u)
  {
  }

  lemma InstallViews(s: State, a: Eager, e: nat)
    requires Rel(s, a) && HandlerOf(s, e).Copy? && HandlerOf(s, e).done == BY2PG
    ensures Key(e, HandlerOf(s, e).vpn) in s.pt && Key(e, UCOW_VPN) in s.pt
    ensures Views(InstallStep(s, e, HandlerOf(s, e).vpn), a)
  {
    hide Writable, IsCow, IsLibrary, DupOk, Pending;
    assert HandlerOk(s, a, e);
    var k, u := Key(e, HandlerOf(s, e).vpn), Key(e, UCOW_VPN);
    var t := InstallStep(s, e, HandlerOf(s, e).vpn);
    SamePending(s, t);
    FlagFacts(s.pt[k].flags);
    FlagFacts(CowPerm(s.pt[k].flags));
    assert PageOf(s, s.pt[u].page) == PageOf(s, s.pt[u].page)[..BY2PG];
    assert PageOf(s, s.pt[k].page) == PageOf(s, s.pt[k].page)[..BY2PG];
    assert forall l :: l in a.view ==> l in s.pt && (l != k ==> s.pt[l].page != s.pt[u].page && a.view[l] != a.view[k]);
    hide CowPerm, HandlerOk;
  }

  lemma InstallDup(s: State, a: Eager, e: nat, f: nat)
    requires Rel(s, a) && HandlerOf(s, e).Copy? && HandlerOf(s, e).done == BY2PG
    ensures Key(e, HandlerOf(s, e).vpn) in s.pt && Key(e, UCOW_VPN) in s.pt
    ensures DupOk(InstallStep(s, e, HandlerOf(s, e).vpn), a, f)
  {
    assert HandlerOk(s, a, e) && DupOk(s, a, f);
    NotPending(s, a, Key(e, HandlerOf(s, e).vpn));
    hide Rel, Writable, IsCow, IsLibrary, CowPerm;
  }

  lemma InstallHandler(s: State, a: Eager, e: nat, f: nat)
    requires Rel(s, a) && HandlerOf(s, e).Copy? && HandlerOf(s, e).done == BY2PG
    ensures Key(e, HandlerOf(s, e).vpn) in s.pt && Key(e, UCOW_VPN) in s.pt
    ensures HandlerOk(InstallStep(s, e, HandlerOf(s, e).vpn), a, f)
  {
    hide Views, DupOk;
    assert HandlerOk(s, a, e) && HandlerOk(s, a, f);
    var k := Key(e, HandlerOf(s, e).vpn);
    FlagFacts(CowPerm(s.pt[k].flags));
    FlagFacts(s.pt[k].flags);
    hide Rel, Writable, IsCow, IsLibrary, CowPerm;
    if f != e {
      OtherPages(s, a, e, f);
    }
  }

  lemma UnmapViews(s: State, a: Eager, e: nat)
    requires Rel(s, a) && HandlerOf(s, e).Unmap?
    ensures Views(UnmapStep(s, e), a)
  {
    SamePending(s, UnmapStep(s, e));
    hide Writable, IsCow, IsLibrary, DupOk, Pending, HandlerOk;
  }

  lemma UnmapDup(s: State, a: Eager, e: nat, f: nat)
    requires Rel(s, a) && HandlerOf(s, e).Unmap?
    ensures DupOk(UnmapStep(s, e), a, f)
  {
    assert DupOk(s, a, f);
    hide Rel, Writable, IsCow, IsLibrary;
  }

  lemma UnmapHandler(s: State, a: Eager, e: nat, f: nat)
    requires Rel(s, a) && HandlerOf(s, e).Unmap?
    ensures HandlerOk(UnmapStep(s, e), a, f)
  {
    assert HandlerOk(s, a, e) && HandlerOk(s, a, f);
    hide Rel, Writable, IsCow, IsLibrary;
    if f != e {
      hide HandlerOk, Untouched, UnmapStep;
      UnmapUntouched(s, a, e, f);
      HandlerFrame(s, UnmapStep(s, e), a, a, f);
    }
  }

  lemma UnmapUntouched(s: State, a: Eager, e: nat, f: nat)
    requires f != e
    ensures Untouched(s, UnmapStep(s, e), a, a, f)
  {
    hide Writable, IsCow, IsLibrary;
  }
}
