/**
  The interleaving of CowFork.LateFaultLeaks starts from a state that two forks reach.
*/
module CowReached {
  import opened Mmu
  import opened Cow
  import opened CowRel
  import opened CowSim
  import CowFork

  const VPN: nat := 0x400 // UTEXT / BY2PG

  /** Environment 0 maps a page, forks environment 1 and starts to fork environment 2. */
  function TwoForks(): seq<Event> {
    [Map(Key(0, VPN), 0, PTE_D), Exofork(0, 1), DupRead(0, 1, VPN), DupMap(0), DupRemap(0), Exofork(0, 2), DupRead(0, 2, VPN)]
  }

  function After(s: State, evs: seq<Event>): State
    decreases evs
  {
    if evs == [] then s else After(Step(s, evs[0]), evs[1..])
  }

  function Boot(): State {
    State(map[], map[], map[], map[], {0}, {0}, map[])
  }

  /** The state in between: the page is shared copy-on-write, and duppage has just read that. */
  function Late(): State {
    var pte := Pte(0, PTE_COW | PTE_V);
    State(map[Key(0, VPN) := pte, Key(1, VPN) := pte], map[0 := Zeros()], map[],
          map[0 := Read(2, VPN, PTE_COW | PTE_V)], {0, 1, 2}, {0}, map[1 := 0, 2 := 0])
  }

  lemma FlagsInForks()
    ensures var f := PTE_D | PTE_V; Writable(f) && !IsCow(f) && !IsLibrary(f) && !IsCow(PTE_D)
    ensures var f := PTE_D | PTE_V; DupPerm(f) | PTE_V == PTE_COW | PTE_V
    ensures var f := PTE_COW | PTE_V; !Writable(f) && IsCow(f) && !IsLibrary(f)
  {
  }

  /** One shared page at most, as all states of this run have it. */
  function Stage(pt: map<Key, Pte>, dup: map<nat, Dup>, live: set<nat>, parent: map<nat, nat>): State {
    State(pt, map[0 := Zeros()], map[], dup, live, {0}, parent)
  }

  lemma Cons(s: State, ev: Event, t: State, evs: seq<Event>)
    requires Allowed(s, ev) && Step(s, ev) == t
    ensures RunAllowed(s, [ev] + evs) == RunAllowed(t, evs) && After(s, [ev] + evs) == After(t, evs)
  {
    hide Allowed, Step;
    assert ([ev] + evs)[1..] == evs;
  }

  /** The first fork, of environment 1. */
  lemma FirstFork(evs: seq<Event>)
    ensures var k, f := Key(0, VPN), PTE_COW | PTE_V;
            var s := Boot();
            var t := Stage(map[k := Pte(0, f), Key(1, VPN) := Pte(0, f)], map[0 := NoDup], {0, 1}, map[1 := 0]);
            var run := [Map(k, 0, PTE_D)] + ([Exofork(0, 1)] + ([DupRead(0, 1, VPN)] + ([DupMap(0)] + ([DupRemap(0)] + evs))));
            RunAllowed(s, run) == RunAllowed(t, evs) && After(s, run) == After(t, evs)
  {
    FlagsInForks();
    var k, l, d, f := Key(0, VPN), Key(1, VPN), PTE_D | PTE_V, PTE_COW | PTE_V;
    assert DupPerm(d) | PTE_V == f;
    hide Writable, IsCow, IsLibrary, DupPerm, RunAllowed, After;
    var s1 := Stage(map[k := Pte(0, d)], map[], {0}, map[]);
    var s2 := Stage(map[k := Pte(0, d)], map[], {0, 1}, map[1 := 0]);
    var s3 := Stage(map[k := Pte(0, d)], map[0 := Read(1, VPN, d)], {0, 1}, map[1 := 0]);
    var s4 := Stage(map[k := Pte(0, d), l := Pte(0, f)], map[0 := Mapped(1, VPN, d)], {0, 1}, map[1 := 0]);
    var s5 := Stage(map[k := Pte(0, f), l := Pte(0, f)], map[0 := NoDup], {0, 1}, map[1 := 0]);
    ForkBegins(k, d);
    ForkEnds(k, l, d, f);
    hide Stage, Boot, Allowed, Step;
    Cons(Boot(), Map(k, 0, PTE_D), s1, [Exofork(0, 1)] + ([DupRead(0, 1, VPN)] + ([DupMap(0)] + ([DupRemap(0)] + evs))));
    Cons(s1, Exofork(0, 1), s2, [DupRead(0, 1, VPN)] + ([DupMap(0)] + ([DupRemap(0)] + evs)));
    Cons(s2, DupRead(0, 1, VPN), s3, [DupMap(0)] + ([DupRemap(0)] + evs));
    Cons(s3, DupMap(0), s4, [DupRemap(0)] + evs);
    Cons(s4, DupRemap(0), s5, evs);
  }

  lemma ForkBegins(k: Key, d: Flags)
    requires k == Key(0, VPN) && d == PTE_D | PTE_V
    ensures var s1 := Stage(map[k := Pte(0, d)], map[], {0}, map[]);
            var s2 := Stage(map[k := Pte(0, d)], map[], {0, 1}, map[1 := 0]);
            var s3 := Stage(map[k := Pte(0, d)], map[0 := Read(1, VPN, d)], {0, 1}, map[1 := 0]);
            && Allowed(Boot(), Map(k, 0, PTE_D)) && Step(Boot(), Map(k, 0, PTE_D)) == s1
            && Allowed(s1, Exofork(0, 1)) && Step(s1, Exofork(0, 1)) == s2
            && Allowed(s2, DupRead(0, 1, VPN)) && Step(s2, DupRead(0, 1, VPN)) == s3
  {
    FlagsInForks();
    hide Writable, IsCow, IsLibrary, DupPerm;
  }

  lemma ForkEnds(k: Key, l: Key, d: Flags, f: Flags)
    requires k == Key(0, VPN) && l == Key(1, VPN) && d == PTE_D | PTE_V && f == PTE_COW | PTE_V && DupPerm(d) | PTE_V == f
    ensures var s3 := Stage(map[k := Pte(0, d)], map[0 := Read(1, VPN, d)], {0, 1}, map[1 := 0]);
            var s4 := Stage(map[k := Pte(0, d), l := Pte(0, f)], map[0 := Mapped(1, VPN, d)], {0, 1}, map[1 := 0]);
            && Allowed(s3, DupMap(0)) && Step(s3, DupMap(0)) == s4
            && Allowed(s4, DupRemap(0))
            && Step(s4, DupRemap(0)) == Stage(map[k := Pte(0, f), l := Pte(0, f)], map[0 := NoDup], {0, 1}, map[1 := 0])
  {
    FlagsInForks();
    hide Writable, IsCow, IsLibrary, DupPerm;
  }

  lemma TwoForksReach()
    ensures RunAllowed(Boot(), TwoForks()) && After(Boot(), TwoForks()) == Late()
  {
    FlagsInForks();
    hide Writable, IsCow, IsLibrary, DupPerm;
    var k, l, f := Key(0, VPN), Key(1, VPN), PTE_COW | PTE_V;
    var last := [Exofork(0, 2)] + ([DupRead(0, 2, VPN)] + []);
    var s5 := Stage(map[k := Pte(0, f), l := Pte(0, f)], map[0 := NoDup], {0, 1}, map[1 := 0]);
    var s6 := s5.(live := {0, 1, 2}, parent := map[1 := 0, 2 := 0]);
    FirstFork(last);
    assert TwoForks() == [Map(k, 0, PTE_D)] + ([Exofork(0, 1)] + ([DupRead(0, 1, VPN)] + ([DupMap(0)] + ([DupRemap(0)] + last))));
    Cons(s5, Exofork(0, 2), s6, [DupRead(0, 2, VPN)] + []);
    Cons(s6, DupRead(0, 2, VPN), Late(), []);
  }

  lemma {:induction false} RelAfter(s: State, a: Eager, evs: seq<Event>) returns (b: Eager)
    requires Rel(s, a) && RunAllowed(s, evs)
    ensures Rel(After(s, evs), b)
    decreases evs
  {
    hide Rel, Step, Meaning, Do, Allowed;
    if evs == [] {
      b := a;
    } else {
      StepSim(s, a, evs[0]);
      b := RelAfter(Step(s, evs[0]), Do(a, Meaning(s, evs[0])), evs[1..]);
    }
  }

  /** From boot, seven steps later, the parent's store is one that leaks into environment 2. */
  lemma LeakReached(off: nat, b: Byte)
    requires off < BY2PG
    ensures RunAllowed(Boot(), TwoForks())
    ensures var k, l, s := Key(0, VPN), Key(2, VPN), After(Boot(), TwoForks());
            var r := CowFork.RunHandler(Step(s, Store(k, off, b)), 0, 1, BY2PG + 3);
            var t := Step(Step(r, DupMap(0)), Store(k, off, b));
            && Enabled(s, Store(k, off, b))
            && l in t.pt && k in t.pt && t.pt[l].page == t.pt[k].page && PageOf(t, t.pt[l].page)[off] == b
  {
    TwoForksReach();
    StartRel({0});
    var a := RelAfter(Boot(), Eager(map[], map[], 0), TwoForks());
    FlagsInForks();
    hide Rel, Writable, IsCow, IsLibrary, RunAllowed, After;
    CowFork.LateFaultLeaks(Late(), a, 0, 1, off, b, BY2PG + 3);
  }
}
