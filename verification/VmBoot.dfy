/**
  From page_init to the state before the first environment: env_init allocates the template
  directory and maps the kernel's page and environment arrays into it (kern/env.c).
*/
module VmBoot {
  import opened Mmu
  import opened Vm
  import opened VmRefs
  import opened VmCalls

  /** What page_init leaves: the first `low` pages are the kernel's, all others are free. */
  ghost predicate AfterPageInit(s: State, low: nat) {
    && low <= s.npage
    && s.spaces == map[] && s.tlb == map[] && s.mem == map[] && s.held == {}
    && (forall p: nat :: p in s.reserved <==> p < low)
    && |s.free| == s.npage - low && (forall k: nat :: k < |s.free| ==> s.free[k] == s.npage - 1 - k)
    && (forall p: nat :: Ref(s, p) == if p < low then 1 else 0)
  }

  /** The template directory; page_insert is called on it with ASID 0. */
  function NewBase(s: State): State
    requires s.free != []
  {
    var p := s.free[0];
    IncRef(Alloc(s), p).(base := p, spaces := map[0 := p], reserved := s.reserved + {p})
  }

  /** The loop of map_segment from page j on: it does not look at what page_insert returns. */
  function MapSegment(s: State, i: nat, pa: nat, j: nat, n: nat): State
    requires 0 in s.spaces
    decreases n - j
  {
    if j >= n then s
    else
      var t := Insert(s, 0, pa + j, i, j, Plain(PTE_G)).state;
      if 0 in t.spaces then MapSegment(t, i, pa, j + 1, n) else t
  }

  /** The memory part of env_init: n pages of struct Page at `pages`, m of struct Env at `envs`. */
  function EnvInit(s: State, pages: nat, n: nat, envs: nat, m: nat): State
    requires s.free != []
  {
    var t := MapSegment(NewBase(s), PDX_UPAGES, pages, 0, n);
    if 0 !in t.spaces then t
    else
      var u := MapSegment(t, PDX_UTOP, envs, 0, m);
      u.(spaces := map[],
         reserved := u.reserved + {Word(u, u.base, PDX_UPAGES).ppn, Word(u, u.base, PDX_UTOP).ppn})
  }

  /** t is s with a table q for directory entry i, its first j entries the pages from pa on, for reading by all. */
  ghost predicate Segment(s: State, t: State, i: nat, q: nat, pa: nat, j: nat) {
    && s.free != [] && t == s.(free := s.free[1..], mem := t.mem, ref := t.ref)
    && Word(t, s.base, i) == Entry(q, PTE_D | PTE_V)
    && Table(t, q, pa, j)
    && (forall p: nat, k: nat :: p != q && (p, k) != (s.base, i) ==> Word(t, p, k) == Word(s, p, k))
  }

  /** Table q maps n pages from pa on, for reading by all. */
  ghost predicate Table(t: State, q: nat, pa: nat, n: nat) {
    forall k: nat :: Word(t, q, k) == if k < n then Entry(pa + k, PTE_G | PTE_V) else ZERO
  }

  /** The two windows show the pages of the two arrays and nothing else. */
  ghost predicate Showing(t: State, pages: nat, n: nat, envs: nat, m: nat) {
    && Table(t, Word(t, t.base, PDX_UPAGES).ppn, pages, n)
    && Table(t, Word(t, t.base, PDX_UTOP).ppn, envs, m)
  }

  ghost predicate SameCounts(s: State, t: State, pa: nat, n: nat, q: nat) {
    forall p: nat :: p != q && !(pa <= p < pa + n) ==> Ref(t, p) == Ref(s, p)
  }

  /** A directory entry that is still empty, with a page for its table. */
  ghost predicate CanMap(s: State, i: nat, pa: nat, n: nat, low: nat) {
    && s.spaces == map[0 := s.base] && s.tlb == map[] && s.held == {}
    && s.free != [] && s.free[0] !in s.free[1..] && s.free[0] >= low && s.base >= low && s.free[0] != s.base
    && !IsValid(Word(s, s.base, i)) && pa + n <= low && Ref(s, s.free[0]) == 0
  }

  lemma GlobalReadOnly()
    ensures IsValid(Entry(0, PTE_G | PTE_V)) && !IsWritable(Entry(0, PTE_G | PTE_V)) && IsValid(Entry(0, PTE_D | PTE_V))
    ensures !IsValid(ZERO)
  {
  }

  lemma FirstPage(s: State, i: nat, pa: nat, n: nat, low: nat)
    requires CanMap(s, i, pa, n, low) && n > 0
    ensures var t := Insert(s, 0, pa, i, 0, Plain(PTE_G)).state;
            Segment(s, t, i, s.free[0], pa, 1) && SameCounts(s, t, pa, n, s.free[0])
  {
    GlobalReadOnly();
    var q := s.free[0];
    assert Lookup(s, s.base, i, 0) == None;
    assert Flush(s, 0, i, 0) == s;
    var w := IncRef(SetWord(Alloc(s), s.base, i, Entry(q, PTE_D | PTE_V)), q);
    assert WalkCreate(s, s.base, i) == Ok(w);
    assert w.held == {};
    forall p: nat, k: nat
      ensures Word(w, p, k) == if (p, k) == (s.base, i) then Entry(q, PTE_D | PTE_V) else if p == q then ZERO else Word(s, p, k)
    {
    }
    hide WalkCreate;
    var t := IncRef(SetWord(w, q, 0, Entry(pa, PTE_G | PTE_V)), pa);
    assert Insert(s, 0, pa, i, 0, Plain(PTE_G)) == Ok(t);
    assert t.held == {};
  }

  lemma NextPage(s: State, t: State, i: nat, q: nat, pa: nat, j: nat, n: nat, low: nat)
    requires CanMap(s, i, pa, n, low) && q == s.free[0] && 0 < j < n
    requires Segment(s, t, i, q, pa, j) && SameCounts(s, t, pa, n, q)
    ensures var u := Insert(t, 0, pa + j, i, j, Plain(PTE_G)).state;
            Segment(s, u, i, q, pa, j + 1) && SameCounts(s, u, pa, n, q)
  {
    GlobalReadOnly();
    assert Lookup(t, s.base, i, j) == None;
    assert Flush(t, 0, i, j) == t;
    assert WalkCreate(t, s.base, i) == Ok(t);
    hide WalkCreate;
    var u := IncRef(SetWord(t, q, j, Entry(pa + j, PTE_G | PTE_V)), pa + j);
    assert Insert(t, 0, pa + j, i, j, Plain(PTE_G)) == Ok(u);
    assert u.held == {};
    forall p: nat, k: nat
      ensures Word(u, p, k) == if (p, k) == (q, j) then Entry(pa + j, PTE_G | PTE_V) else Word(t, p, k)
    {
    }
    hide Insert, Lookup, IsValid;
  }

  lemma {:induction false} RestMapped(s: State, t: State, i: nat, q: nat, pa: nat, j: nat, n: nat, low: nat)
    requires CanMap(s, i, pa, n, low) && q == s.free[0] && 0 < j <= n
    requires Segment(s, t, i, q, pa, j) && SameCounts(s, t, pa, n, q)
    ensures var u := MapSegment(t, i, pa, j, n); Segment(s, u, i, q, pa, n) && SameCounts(s, u, pa, n, q)
    decreases n - j
  {
    hide Insert;
    if j < n {
      NextPage(s, t, i, q, pa, j, n, low);
      RestMapped(s, Insert(t, 0, pa + j, i, j, Plain(PTE_G)).state, i, q, pa, j + 1, n, low);
    }
  }

  /** map_segment: one table, all entries of the segment global and read-only. */
  lemma SegmentMapped(s: State, i: nat, pa: nat, n: nat, low: nat)
    requires CanMap(s, i, pa, n, low) && n > 0
    ensures var u := MapSegment(s, i, pa, 0, n);
            Segment(s, u, i, s.free[0], pa, n) && SameCounts(s, u, pa, n, s.free[0])
  {
    hide Insert;
    FirstPage(s, i, pa, n, low);
    RestMapped(s, Insert(s, 0, pa, i, 0, Plain(PTE_G)).state, i, s.free[0], pa, 1, n, low);
  }

  lemma BaseReady(s: State, low: nat, pa: nat, n: nat)
    requires AfterPageInit(s, low) && |s.free| >= 3 && pa + n <= low
    ensures var t := NewBase(s);
            && CanMap(t, PDX_UPAGES, pa, n, low) && t.base == s.free[0] && t.free == s.free[1..]
            && t.npage == s.npage && t.reserved == s.reserved + {s.free[0]}
            && (forall p: nat, k: nat :: Word(t, p, k) == ZERO)
            && (forall p: nat :: p != s.free[0] ==> Ref(t, p) == Ref(s, p))
  {
    GlobalReadOnly();
    var t := NewBase(s);
    assert Alloc(s).mem == map[];
    assert t.free[0] == s.free[1];
    assert s.free[1] == s.npage - 2 && s.free[0] == s.npage - 1;
    assert Ref(s, s.free[1]) == 0;
    assert forall p: nat :: p != s.free[0] ==> Ref(t, p) == Ref(s, p);
  }

  lemma SecondReady(s: State, t: State, low: nat, pages: nat, n: nat, pa: nat, m: nat, q: nat)
    requires AfterPageInit(s, low) && |s.free| >= 3 && pa + m <= low
    requires var b := NewBase(s);
             && CanMap(b, PDX_UPAGES, 0, 0, low) && b.base == s.free[0] && b.free == s.free[1..] && q == s.free[1]
             && Segment(b, t, PDX_UPAGES, q, pages, n) && (forall p: nat, k: nat :: Word(b, p, k) == ZERO)
             && forall p: nat :: p >= low && p != q ==> Ref(t, p) == Ref(b, p)
    requires forall p: nat :: p != s.free[0] ==> Ref(NewBase(s), p) == Ref(s, p)
    ensures CanMap(t, PDX_UTOP, pa, m, low) && t.free == s.free[2..] && t.free[0] == s.free[2]
    ensures Word(t, t.base, PDX_UPAGES) == Entry(q, PTE_D | PTE_V)
  {
    GlobalReadOnly();
    hide NewBase;
    assert t.free[0] == s.free[2];
    assert s.free[2] == s.npage - 3 && s.free[0] == s.npage - 1 && s.free[1] == s.npage - 2;
    assert Word(t, t.base, PDX_UTOP) == ZERO;
  }

  /** The template directory, once both segments are mapped. */
  lemma TemplateReady(t: State, u: State, v: State, q1: nat, q2: nat, pages: nat, n: nat, envs: nat, m: nat)
    requires Segment(t, u, PDX_UTOP, q2, envs, m) && Word(t, t.base, PDX_UPAGES) == Entry(q1, PTE_D | PTE_V)
    requires Table(t, q1, pages, n)
    requires t.base != q1 && t.base != q2 && q1 != q2
    requires v.mem == u.mem && v.base == u.base && {t.base, q1, q2} <= v.reserved
    ensures Template(v) && Showing(v, pages, n, envs, m)
  {
    GlobalReadOnly();
    assert forall p: nat, k: nat :: Word(v, p, k) == Word(u, p, k);
    assert Word(u, u.base, PDX_UPAGES) == Entry(q1, PTE_D | PTE_V);
    assert forall k: nat :: Word(u, q1, k) == Word(t, q1, k);
  }

  /**
    page_init and env_init together reach the state the runs start from, three pages poorer,
    wherever the two arrays lie among the kernel's pages and as long as each fits one table. The
    windows at UPAGES and UENVS then show exactly the arrays' pages.
  */
  lemma BootReached(s: State, low: nat, pages: nat, n: nat, envs: nat, m: nat)
    requires AfterPageInit(s, low) && |s.free| >= 3
    requires 0 < n <= ENTRIES && pages + n <= low && 0 < m <= ENTRIES && envs + m <= low
    ensures var t := EnvInit(s, pages, n, envs, m);
            AfterBoot(t) && |t.free| == |s.free| - 3 && Showing(t, pages, n, envs, m)
  {
    var b := NewBase(s);
    var t := MapSegment(b, PDX_UPAGES, pages, 0, n);
    hide MapSegment, NewBase, Segment, CanMap, AfterPageInit;
    FirstSegment(s, low, pages, n, envs, m);
    SegmentMapped(t, PDX_UTOP, envs, m, low);
    EndReached(s, t, low, pages, n, envs, m);
  }

  /** After the first segment. */
  lemma FirstSegment(s: State, low: nat, pages: nat, n: nat, envs: nat, m: nat)
    requires AfterPageInit(s, low) && |s.free| >= 3 && 0 < n <= ENTRIES && pages + n <= low && envs + m <= low
    ensures 0 in NewBase(s).spaces
    ensures var t := MapSegment(NewBase(s), PDX_UPAGES, pages, 0, n);
            CanMap(t, PDX_UTOP, envs, m, low) && ReadyForEnvs(s, t, low, pages, n)
  {
    var b := NewBase(s);
    BaseReady(s, low, pages, n);
    hide NewBase, MapSegment;
    SegmentMapped(b, PDX_UPAGES, pages, n, low);
    var t := MapSegment(b, PDX_UPAGES, pages, 0, n);
    SecondReady(s, t, low, pages, n, envs, m, s.free[1]);
  }

  ghost predicate ReadyForEnvs(s: State, t: State, low: nat, pages: nat, n: nat) {
    && |s.free| >= 3 && t.npage == s.npage && t.reserved == s.reserved + {s.free[0]} && t.held == {} && t.tlb == map[]
    && t.free == s.free[2..] && t.base == s.free[0] && Word(t, t.base, PDX_UPAGES) == Entry(s.free[1], PTE_D | PTE_V)
    && Table(t, s.free[1], pages, n)
    && forall p: nat :: p >= low && p != s.free[0] && p != s.free[1] ==> Ref(t, p) == Ref(s, p)
  }

  /** After the second. */
  lemma EndReached(s: State, t: State, low: nat, pages: nat, n: nat, envs: nat, m: nat)
    requires AfterPageInit(s, low) && ReadyForEnvs(s, t, low, pages, n) && envs + m <= low && 0 in t.spaces
    requires 0 in NewBase(s).spaces && t == MapSegment(NewBase(s), PDX_UPAGES, pages, 0, n)
    requires var u := MapSegment(t, PDX_UTOP, envs, 0, m);
             Segment(t, u, PDX_UTOP, t.free[0], envs, m) && SameCounts(t, u, envs, m, t.free[0])
    ensures var v := EnvInit(s, pages, n, envs, m);
            AfterBoot(v) && |v.free| == |s.free| - 3 && Showing(v, pages, n, envs, m)
  {
    hide MapSegment, NewBase, Segment, SameCounts, EnvInit, Template, NoDup;
    var u := MapSegment(t, PDX_UTOP, envs, 0, m);
    var v := EnvInit(s, pages, n, envs, m);
    EndShape(s, t, low, pages, n, envs, m);
    PageNumbers(s, low);
    BootFree(s, v, low);
    hide AfterPageInit, Ref;
    TemplateReady(t, u, v, s.free[1], s.free[2], pages, n, envs, m);
  }

  lemma PageNumbers(s: State, low: nat)
    requires AfterPageInit(s, low) && |s.free| >= 3
    ensures s.free[0] == s.npage - 1 && s.free[1] == s.npage - 2 && s.free[2] == s.npage - 3 >= low
  {
  }

  lemma EndShape(s: State, t: State, low: nat, pages: nat, n: nat, envs: nat, m: nat)
    requires AfterPageInit(s, low) && ReadyForEnvs(s, t, low, pages, n) && envs + m <= low && 0 in t.spaces
    requires 0 in NewBase(s).spaces && t == MapSegment(NewBase(s), PDX_UPAGES, pages, 0, n)
    requires var u := MapSegment(t, PDX_UTOP, envs, 0, m);
             Segment(t, u, PDX_UTOP, t.free[0], envs, m) && SameCounts(t, u, envs, m, t.free[0])
    ensures var u, v := MapSegment(t, PDX_UTOP, envs, 0, m), EnvInit(s, pages, n, envs, m);
            && v.mem == u.mem && v.base == u.base == t.base && v.free == s.free[3..] && v.npage == s.npage
            && v.spaces == map[] && v.tlb == map[] && v.held == {}
            && v.reserved == s.reserved + {s.free[0], s.free[1], s.free[2]}
            && forall p: nat :: p in v.free ==> Ref(v, p) == Ref(s, p)
  {
    hide NewBase, MapSegment;
    PageNumbers(s, low);
    var u, v := MapSegment(t, PDX_UTOP, envs, 0, m), EnvInit(s, pages, n, envs, m);
    assert u.free == s.free[3..];
    assert Word(u, u.base, PDX_UPAGES) == Entry(s.free[1], PTE_D | PTE_V);
    assert v == u.(spaces := map[], reserved := u.reserved + {s.free[1], s.free[2]});
    forall p: nat | p in v.free ensures Ref(v, p) == Ref(s, p) {
      assert Ref(t, p) == Ref(s, p);
    }
  }

  lemma BootFree(s: State, t: State, low: nat)
    requires AfterPageInit(s, low) && |s.free| >= 3 && t.free == s.free[3..] && t.npage == s.npage
    requires t.reserved == s.reserved + {s.free[0], s.free[1], s.free[2]}
    requires forall p: nat :: p in t.free ==> Ref(t, p) == Ref(s, p)
    ensures NoDup(t.free) && (forall p: nat :: p in t.free <==> p < t.npage && p !in t.reserved)
    ensures forall p: nat :: p in t.free ==> Ref(t, p) == 0
  {
    hide Ref;
    forall p: nat ensures p in t.free <==> low <= p < s.npage - 3 {
      if low <= p < s.npage - 3 {
        assert t.free[s.npage - 4 - p] == p;
      }
    }
  }
}
