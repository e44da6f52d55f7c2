/**
  Copy-on-write fork refines eager copying: every read of every interleaving returns what
  the machine that copies at fork would return.
*/
module CowSim {
  import opened Mmu
  import opened Cow
  import opened CowRel
  import opened CowPages
  import opened CowHandler
  import opened CowDup

  lemma HandleSim(s: State, a: Eager, e: nat, p: nat)
    requires Rel(s, a) && Enabled(s, Handle(e, p))
    ensures Rel(HandleStep(s, e, p), a)
  {
    var t := HandleStep(s, e, p);
    assert HandlerOk(s, a, e);
    var h := HandlerOf(s, e);
    if h.Alloc? {
      AllocViews(s, a, e, p);
    } else if h.Unmap? {
      UnmapViews(s, a, e);
    } else if h.done < BY2PG {
      CopyViews(s, a, e);
    } else {
      InstallViews(s, a, e);
    }
    hide Views, DupOk, HandlerOk;
    forall f ensures DupOk(t, a, f) && HandlerOk(t, a, f) {
      if h.Alloc? {
        AllocDup(s, a, e, p, f);
        AllocHandler(s, a, e, p, f);
      } else if h.Unmap? {
        UnmapDup(s, a, e, f);
        UnmapHandler(s, a, e, f);
      } else if h.done < BY2PG {
        CopyDup(s, a, e, f);
        CopyHandler(s, a, e, f);
      } else {
        InstallDup(s, a, e, f);
        InstallHandler(s, a, e, f);
      }
    }
  }

  lemma MapApart(s: State, a: Eager, k: Key, p: nat, perm: Flags)
    requires Apart(s, a) && Unused(s, p) && forall l :: l in s.pt ==> s.pt[l].page != p
    ensures Apart(MapStep(s, k, p, perm), Do(a, Fresh(k)))
  {
    hide Writable;
  }

  lemma MapFlags(s: State, k: Key, p: nat, perm: Flags)
    requires FlagsOk(s) && LiveOk(s) && k.env in s.running && !IsCow(perm)
    ensures FlagsOk(MapStep(s, k, p, perm)) && LiveOk(MapStep(s, k, p, perm))
  {
    FlagFacts(perm);
    hide Writable, IsCow, IsLibrary;
  }

  lemma MapAllViews(s: State, a: Eager, k: Key, p: nat, perm: Flags)
    requires Rel(s, a) && Enabled(s, Map(k, p, perm))
    ensures Views(MapStep(s, k, p, perm), Do(a, Fresh(k)))
  {
    hide DupOk, HandlerOk, SameViews, SameContents, Together, Apart, FlagsOk, LiveOk;
    MapViews(s, a, k, p, perm);
    MapTogether(s, a, k, p, perm);
    MapApart(s, a, k, p, perm);
    MapFlags(s, k, p, perm);
  }

  lemma MapSim(s: State, a: Eager, k: Key, p: nat, perm: Flags)
    requires Rel(s, a) && Enabled(s, Map(k, p, perm))
    ensures Rel(MapStep(s, k, p, perm), Do(a, Fresh(k)))
  {
    MapAllViews(s, a, k, p, perm);
    hide Views, DupOk, HandlerOk, MapStep, Do, Enabled;
    forall f ensures DupOk(MapStep(s, k, p, perm), Do(a, Fresh(k)), f) {
      MapDup(s, a, k, p, perm, f);
    }
    forall f ensures HandlerOk(MapStep(s, k, p, perm), Do(a, Fresh(k)), f) {
      MapHandler(s, a, k, p, perm, f);
    }
  }

  lemma DropSim(s: State, a: Eager, k: Key)
    requires Rel(s, a) && Enabled(s, Drop(k))
    ensures Rel(DropStep(s, k), Do(a, Forget(k)))
  {
    DropViews(s, a, k);
    hide Views, DupOk, HandlerOk, DropStep, Do, Enabled;
    forall f ensures DupOk(DropStep(s, k), Do(a, Forget(k)), f) {
      DropDup(s, a, k, f);
    }
    forall f ensures HandlerOk(DropStep(s, k), Do(a, Forget(k)), f) {
      DropHandler(s, a, k, f);
    }
  }

  lemma ExitSim(s: State, a: Eager, e: nat)
    requires Rel(s, a) && Enabled(s, Exit(e))
    ensures Rel(ExitStep(s, e), Do(a, ForgetAll(e)))
  {
    ExitViews(s, a, e);
    hide Views, DupOk, HandlerOk, ExitStep, Do, Enabled;
    forall f ensures DupOk(ExitStep(s, e), Do(a, ForgetAll(e)), f) {
      ExitDups(s, a, e, f);
    }
    forall f ensures HandlerOk(ExitStep(s, e), Do(a, ForgetAll(e)), f) {
      ExitHandlers(s, a, e, f);
    }
  }

  lemma FaultSim(s: State, a: Eager, k: Key, off: nat, b: Byte)
    requires Rel(s, a) && Allowed(s, Store(k, off, b)) && !Writable(s.pt[k].flags)
    ensures Rel(Step(s, Store(k, off, b)), a)
  {
    FaultViews(s, a, k, off, b);
    hide Views, DupOk, HandlerOk, Step;
    forall f ensures DupOk(Step(s, Store(k, off, b)), a, f) {
      FaultOthers(s, a, k, off, b, f);
    }
    forall f ensures HandlerOk(Step(s, Store(k, off, b)), a, f) {
      FaultOthers(s, a, k, off, b, f);
    }
  }

  /** Forward simulation: one step of the kernel and its library is one act of the eager machine. */
  lemma StepSim(s: State, a: Eager, ev: Event)
    requires Rel(s, a) && Allowed(s, ev)
    ensures Rel(Step(s, ev), Do(a, Meaning(s, ev)))
  {
    hide Rel, Writable, IsCow, IsLibrary;
    assert Do(a, Nothing) == a;
    hide Do;
    match ev {
      case Load(k, off) =>
      case Store(k, off, b) =>
        if Writable(s.pt[k].flags) {
          StoreSim(s, a, k, off, b);
        } else {
          FaultSim(s, a, k, off, b);
        }
      case Map(k, p, perm) => MapSim(s, a, k, p, perm);
      case Drop(k) => DropSim(s, a, k);
      case Handle(e, p) => HandleSim(s, a, e, p);
      case Exofork(e, child) => ExoforkSim(s, a, e, child);
      case DupRead(e, child, vpn) => ReadSim(s, a, e, child, vpn);
      case DupMap(e) => ChildSim(s, a, e);
      case DupRemap(e) =>
        RemapFacts(s, a, e);
        RemapSim(s, a, e);
      case Start(child) => StartSim(s, a, child);
      case Exit(e) => ExitSim(s, a, e);
    }
  }

  /** What the loads of a run return, in order. */
  function Answers(s: State, evs: seq<Event>): seq<Byte>
    decreases evs
  {
    if evs == [] then []
    else
      var ev := evs[0];
      (if ev.Load? && ev.key in s.pt && ev.off < BY2PG then [PageOf(s, s.pt[ev.key].page)[ev.off]] else [])
      + Answers(Step(s, ev), evs[1..])
  }

  /** What the eager machine answers to the same loads. */
  function EagerAnswers(s: State, a: Eager, evs: seq<Event>): seq<Byte>
    decreases evs
  {
    if evs == [] then []
    else
      var ev := evs[0];
      (if ev.Load? && ev.key in a.view && ev.off < BY2PG then [Region(a, a.view[ev.key])[ev.off]] else [])
      + EagerAnswers(Step(s, ev), Do(a, Meaning(s, ev)), evs[1..])
  }

  ghost predicate RunAllowed(s: State, evs: seq<Event>)
    decreases evs
  {
    evs == [] || (Allowed(s, evs[0]) && RunAllowed(Step(s, evs[0]), evs[1..]))
  }

  /**
    Copy-on-write fork is indistinguishable from eager copying: over every interleaving of
    forks, stores, faults and exits, all loads return what the eager machine holds.
  */
  lemma {:induction false} ForkRefinesCopy(s: State, a: Eager, evs: seq<Event>)
    requires Rel(s, a) && RunAllowed(s, evs)
    ensures Answers(s, evs) == EagerAnswers(s, a, evs)
    decreases evs
  {
    if evs != [] {
      var ev := evs[0];
      StepSim(s, a, ev);
      ForkRefinesCopy(Step(s, ev), Do(a, Meaning(s, ev)), evs[1..]);
      if ev.Load? {
        LoadSame(s, a, ev.key, ev.off);
      }
    }
  }

  /** Before any page is mapped the two machines agree. */
  lemma StartRel(live: set<nat>)
    ensures Rel(State(map[], map[], map[], map[], live, live, map[]), Eager(map[], map[], 0))
  {
    var s, a := State(map[], map[], map[], map[], live, live, map[]), Eager(map[], map[], 0);
    forall e ensures DupOk(s, a, e) && HandlerOk(s, a, e) {
    }
  }
}
