/**
  Fresh and dropped pages, new and exiting environments: each keeps the relation.
*/
module CowPages {
  import opened Mmu
  import opened Cow
  import opened CowRel

  // ----- fresh pages and dropped ones

  lemma MapViews(s: State, a: Eager, k: Key, p: nat, perm: Flags)
    requires Rel(s, a) && Enabled(s, Map(k, p, perm))
    ensures var t, c := MapStep(s, k, p, perm), Do(a, Fresh(k)); SameViews(t, c) && SameContents(t, c)
  {
    hide Writable, IsCow, IsLibrary, DupOk, HandlerOk, Pending, Apart, Together, FlagsOk, LiveOk;
    var t, c := MapStep(s, k, p, perm), Do(a, Fresh(k));
    SamePending(s, t);
    NotPending(s, a, k);
    assert forall l :: l in s.pt ==> s.pt[l].page != p;
    hide Enabled;
  }

  lemma MapTogether(s: State, a: Eager, k: Key, p: nat, perm: Flags)
    requires Together(s, a) && SameViews(s, a) && SameContents(s, a) && Unused(s, p)
    ensures Together(MapStep(s, k, p, perm), Do(a, Fresh(k)))
  {
    hide Writable, IsCow, IsLibrary, Pending, PageOf;
  }

  lemma MapDup(s: State, a: Eager, k: Key, p: nat, perm: Flags, e: nat)
    requires Rel(s, a) && Enabled(s, Map(k, p, perm))
    ensures DupOk(MapStep(s, k, p, perm), Do(a, Fresh(k)), e)
  {
    assert DupOk(s, a, e);
    assert Ready(s, k) && !InDup(s, k);
    hide Rel, Writable, IsCow, IsLibrary, Enabled;
  }

  lemma MapUntouched(s: State, a: Eager, k: Key, p: nat, perm: Flags, e: nat)
    requires Unused(s, p) && e != k.env
    ensures Untouched(s, MapStep(s, k, p, perm), a, Do(a, Fresh(k)), e)
  {
    hide Writable, IsCow, IsLibrary;
  }

  lemma MapHandler(s: State, a: Eager, k: Key, p: nat, perm: Flags, e: nat)
    requires Rel(s, a) && Enabled(s, Map(k, p, perm))
    ensures HandlerOk(MapStep(s, k, p, perm), Do(a, Fresh(k)), e)
  {
    assert HandlerOk(s, a, e) && Unused(s, p) && Ready(s, k);
    hide Rel, Enabled;
    if e != k.env {
      MapUntouched(s, a, k, p, perm, e);
      hide HandlerOk, Untouched, Writable, IsCow, IsLibrary, MapStep, Do;
      HandlerFrame(s, MapStep(s, k, p, perm), a, Do(a, Fresh(k)), e);
    }
  }

  lemma DropViews(s: State, a: Eager, k: Key)
    requires Rel(s, a) && Enabled(s, Drop(k))
    ensures Views(DropStep(s, k), Do(a, Forget(k)))
  {
    hide Writable, IsCow, IsLibrary, DupOk, HandlerOk, Pending, Apart, Together;
    SamePending(s, DropStep(s, k));
    DropRegions(s, a, k);
  }

  lemma DropRegions(s: State, a: Eager, k: Key)
    requires Apart(s, a) && Together(s, a)
    ensures var t, c := DropStep(s, k), Do(a, Forget(k)); Apart(t, c) && Together(t, c)
  {
    hide Writable, IsCow, IsLibrary;
  }

  lemma DropDup(s: State, a: Eager, k: Key, e: nat)
    requires Rel(s, a) && Enabled(s, Drop(k))
    ensures DupOk(DropStep(s, k), Do(a, Forget(k)), e)
  {
    assert DupOk(s, a, e);
    hide Rel, Writable, IsCow, IsLibrary;
  }

  lemma DropUntouched(s: State, a: Eager, k: Key, e: nat)
    requires e != k.env
    ensures Untouched(s, DropStep(s, k), a, Do(a, Forget(k)), e)
  {
    hide Writable, IsCow, IsLibrary;
  }

  lemma DropHandler(s: State, a: Eager, k: Key, e: nat)
    requires Rel(s, a) && Enabled(s, Drop(k))
    ensures HandlerOk(DropStep(s, k), Do(a, Forget(k)), e)
  {
    assert HandlerOk(s, a, e);
    hide Rel, Writable, IsCow, IsLibrary;
    if e != k.env {
      DropUntouched(s, a, k, e);
      hide HandlerOk, Untouched, DropStep, Do;
      HandlerFrame(s, DropStep(s, k), a, Do(a, Forget(k)), e);
    } else {
      assert HandlerOf(s, e).Idle?;
    }
  }

  // ----- environments

  lemma ExoforkOthers(s: State, a: Eager, e: nat, child: nat, f: nat)
    requires Rel(s, a) && Enabled(s, Exofork(e, child))
    ensures var t := s.(live := s.live + {child}, parent := s.parent[child := e]); DupOk(t, a, f) && HandlerOk(t, a, f)
  {
    assert DupOk(s, a, f) && HandlerOk(s, a, f);
    hide Rel, Writable, IsCow, IsLibrary;
  }

  lemma ExoforkSim(s: State, a: Eager, e: nat, child: nat)
    requires Rel(s, a) && Enabled(s, Exofork(e, child))
    ensures Rel(Step(s, Exofork(e, child)), a)
  {
    var t := s.(live := s.live + {child}, parent := s.parent[child := e]);
    assert Step(s, Exofork(e, child)) == t;
    SamePending(s, t);
    hide Pending, Writable, IsCow, IsLibrary, Step, DupOk, HandlerOk;
    assert Views(t, a);
    hide Views;
    forall f ensures DupOk(t, a, f) && HandlerOk(t, a, f) {
      ExoforkOthers(s, a, e, child, f);
    }
  }

  lemma StartOthers(s: State, a: Eager, child: nat, f: nat)
    requires Rel(s, a) && Enabled(s, Start(child))
    ensures var t := s.(running := s.running + {child}); DupOk(t, a, f) && HandlerOk(t, a, f)
  {
    assert DupOk(s, a, f) && HandlerOk(s, a, f);
    assert DupOf(s, f).NoDup? || DupOf(s, f).child != child;
    hide Rel, Writable, IsCow, IsLibrary, Enabled;
  }

  lemma StartSim(s: State, a: Eager, child: nat)
    requires Rel(s, a) && Enabled(s, Start(child))
    ensures Rel(Step(s, Start(child)), a)
  {
    var t := s.(running := s.running + {child});
    assert Step(s, Start(child)) == t;
    SamePending(s, t);
    hide Pending, Writable, IsCow, IsLibrary, Step, DupOk, HandlerOk;
    assert Views(t, a);
    hide Views;
    forall f ensures DupOk(t, a, f) && HandlerOk(t, a, f) {
      StartOthers(s, a, child, f);
    }
  }

  lemma ExitViews(s: State, a: Eager, e: nat)
    requires Rel(s, a) && Enabled(s, Exit(e))
    ensures Views(ExitStep(s, e), Do(a, ForgetAll(e)))
  {
    hide Pending, Writable, IsCow, IsLibrary, DupOk, HandlerOk, Enabled;
    SamePending(s, ExitStep(s, e));
    ExitRegions(s, a, e);
    hide Apart, Together;
  }

  lemma ExitRegions(s: State, a: Eager, e: nat)
    requires Apart(s, a) && Together(s, a)
    ensures var t, c := ExitStep(s, e), Do(a, ForgetAll(e)); Apart(t, c) && Together(t, c)
  {
    hide Writable, IsCow, IsLibrary;
  }

  lemma ExitDups(s: State, a: Eager, e: nat, f: nat)
    requires Rel(s, a) && Enabled(s, Exit(e))
    ensures DupOk(ExitStep(s, e), Do(a, ForgetAll(e)), f)
  {
    assert DupOk(s, a, f);
    hide Rel, Writable, IsCow, IsLibrary;
  }

  lemma ExitUntouched(s: State, a: Eager, e: nat, f: nat)
    requires f != e
    ensures Untouched(s, ExitStep(s, e), a, Do(a, ForgetAll(e)), f)
  {
    hide Writable, IsCow, IsLibrary;
  }

  lemma ExitHandlers(s: State, a: Eager, e: nat, f: nat)
    requires Rel(s, a) && Enabled(s, Exit(e))
    ensures HandlerOk(ExitStep(s, e), Do(a, ForgetAll(e)), f)
  {
    assert HandlerOk(s, a, f);
    hide Rel, Writable, IsCow, IsLibrary;
    if f != e {
      hide HandlerOk, ExitStep, Do, Untouched;
      ExitUntouched(s, a, e, f);
      HandlerFrame(s, ExitStep(s, e), a, Do(a, ForgetAll(e)), f);
    } else {
      assert HandlerOf(s, e).Idle?;
    }
  }
}
