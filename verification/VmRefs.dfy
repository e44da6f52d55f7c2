/**
  Reference-count conservation: which page-table slots name a page, the invariant over
  counts, free list, table shape and TLB, and the counting lemmas every operation uses.
*/
module VmRefs {
  import opened Mmu
  import opened Vm

  /** The places of an address space that hold a counted reference to a page. */
  datatype Slot = Dir(asid: nat) | Table(asid: nat, i: nat) | Leaf(asid: nat, i: nat, j: nat)

  /** The page a slot names. The [UTOP, UVPT) copies and the UVPT self-map are not slots. */
  function Target(s: State, x: Slot): Option<nat> {
    match x
    case Dir(a) => if a in s.spaces then Some(s.spaces[a]) else None
    case Table(a, i) =>
      if a in s.spaces && i < PDX_UTOP && IsValid(Word(s, s.spaces[a], i))
      then Some(Word(s, s.spaces[a], i).ppn) else None
    case Leaf(a, i, j) =>
      if a in s.spaces && i < PDX_UTOP && j < ENTRIES && Lookup(s, s.spaces[a], i, j).Some?
      then Some(Lookup(s, s.spaces[a], i, j).value.ppn) else None
  }

  function AllSlots(asids: set<nat>): set<Slot> {
    (set a | a in asids :: Dir(a))
    + (set a, i: nat | a in asids && i < PDX_UTOP :: Table(a, i))
    + (set a, i: nat, j: nat | a in asids && i < PDX_UTOP && j < ENTRIES :: Leaf(a, i, j))
  }

  function Refs(s: State, p: nat): set<Slot> {
    set x | x in AllSlots(s.spaces.Keys) && Target(s, x) == Some(p)
  }

  lemma RefsAre(s: State, p: nat)
    ensures forall x :: x in Refs(s, p) <==> Target(s, x) == Some(p)
  {
    forall x | Target(s, x) == Some(p) ensures x in AllSlots(s.spaces.Keys) {
      match x {
        case Dir(a) =>
        case Table(a, i) =>
        case Leaf(a, i, j) =>
      }
    }
  }

  // ----- the invariant

  ghost predicate InRange(s: State) {
    forall x :: Target(s, x).Some? ==> Target(s, x).value < s.npage && Target(s, x).value !in s.reserved
  }

  /** A directory or page-table page is named by no other slot. */
  ghost predicate Exclusive(s: State) {
    forall x: Slot, y: Slot :: !x.Leaf? && x != y && Target(s, x).Some? ==> Target(s, y) != Target(s, x)
  }

  ghost predicate Counted(s: State) {
    forall p: nat :: p < s.npage && p !in s.reserved ==> Ref(s, p) == |Refs(s, p)|
  }

  ghost predicate NoDup(q: seq<nat>) {
    forall m, n :: 0 <= m < n < |q| ==> q[m] != q[n]
  }

  /** A page nobody names with a count of one: it is neither free nor will it be. */
  ghost predicate Orphan(s: State, p: nat) {
    p < s.npage && p !in s.reserved && p !in s.free && Refs(s, p) == {} && Ref(s, p) == 1
  }

  lemma OrphanMiscounts(s: State, p: nat)
    requires Orphan(s, p)
    ensures !Counted(s)
  {
  }

  /** A page is on the free list, exactly once, iff it is unreferenced and nobody holds it. */
  ghost predicate FreeOk(s: State) {
    && NoDup(s.free)
    && (forall p: nat :: p in s.free <==> p < s.npage && p !in s.reserved && p !in s.held && Refs(s, p) == {})
    && (forall p: nat :: p in s.held ==> p < s.npage && p !in s.reserved && Refs(s, p) == {})
  }

  ghost predicate DirOk(s: State, pgdir: nat) {
    && Word(s, pgdir, PDX_UTOP) == Word(s, s.base, PDX_UTOP)
    && Word(s, pgdir, PDX_UPAGES) == Word(s, s.base, PDX_UPAGES)
    && Word(s, pgdir, PDX_UVPT) == Entry(pgdir, PTE_V)
    && (forall i: nat :: PDX_ULIM <= i ==> !IsValid(Word(s, pgdir, i)))
    && (forall i: nat :: i < PDX_UTOP && IsValid(Word(s, pgdir, i)) ==> Word(s, pgdir, i).flags == PTE_D | PTE_V)
  }

  /** No entry of this page table may be written through. */
  ghost predicate ReadOnly(s: State, pt: nat) {
    forall j: nat {:trigger Word(s, pt, j)} :: IsValid(Word(s, pt, j)) ==> !IsWritable(Word(s, pt, j))
  }

  /** The template directory has two tables for the windows on envs and pages, all kernel pages. */
  ghost predicate Template(s: State) {
    var envs, pages := Word(s, s.base, PDX_UTOP), Word(s, s.base, PDX_UPAGES);
    && s.base in s.reserved && envs.ppn in s.reserved && pages.ppn in s.reserved
    && IsValid(envs) && IsValid(pages) && envs.ppn != s.base && pages.ppn != s.base && envs.ppn != pages.ppn
    && ReadOnly(s, envs.ppn) && ReadOnly(s, pages.ppn)
  }

  /** Directories extend the template. */
  ghost predicate Windows(s: State) {
    && Template(s)
    && (forall a :: a in s.spaces ==> DirOk(s, s.spaces[a]))
  }

  ghost predicate NoUserGlobal(s: State) {
    forall a, i: nat, j: nat :: a in s.spaces && i < PDX_UTOP && j < ENTRIES && Lookup(s, s.spaces[a], i, j).Some?
      ==> !IsGlobal(Lookup(s, s.spaces[a], i, j).value)
  }

  /** The pages whose translation every address space takes from the template directory. */
  predicate Shared(i: nat, j: nat) {
    || i == PDX_UTOP || i == PDX_UPAGES
    || (i == PDX_UVPT && (j == PDX_UTOP || j == PDX_UPAGES))
  }

  function SharedEntry(s: State, i: nat, j: nat): Option<Entry> {
    if i == PDX_UVPT then
      if IsValid(Word(s, s.base, j)) then Some(Word(s, s.base, j)) else None
    else
      Lookup(s, s.base, i, j)
  }

  /** A cached entry is the current one of its live address space, or a shared one. */
  ghost predicate TagOk(s: State, tag: Tag) {
    && tag in s.tlb
    && tag.i < PDX_ULIM && tag.j < ENTRIES
    && if Shared(tag.i, tag.j) then
         SharedEntry(s, tag.i, tag.j) == Some(s.tlb[tag])
       else
         && tag.asid in s.spaces
         && Lookup(s, s.spaces[tag.asid], tag.i, tag.j) == Some(s.tlb[tag])
  }

  ghost predicate Coherent(s: State) {
    forall tag :: tag in s.tlb ==> TagOk(s, tag)
  }

  ghost predicate Inv(s: State) {
    InRange(s) && Exclusive(s) && Counted(s) && FreeOk(s) && Windows(s) && NoUserGlobal(s) && Coherent(s)
  }

  // ----- counting: one slot changes

  ghost predicate OnlySlot(s: State, t: State, x: Slot) {
    forall y :: y != x ==> Target(t, y) == Target(s, y)
  }

  lemma RefsChange(s: State, t: State, x: Slot, p: nat)
    requires OnlySlot(s, t, x)
    ensures Refs(t, p) == Refs(s, p) - {x} + (if Target(t, x) == Some(p) then {x} else {})
  {
    RefsAre(s, p);
    RefsAre(t, p);
  }

  lemma RefsLinked(s: State, t: State, x: Slot, p: nat)
    requires OnlySlot(s, t, x) && Target(s, x) == None && Target(t, x) == Some(p)
    ensures forall q: nat :: Refs(t, q) == if q == p then Refs(s, q) + {x} else Refs(s, q)
    ensures x in Refs(t, p) && |Refs(t, p)| == |Refs(s, p)| + 1
  {
    forall q: nat ensures Refs(t, q) == if q == p then Refs(s, q) + {x} else Refs(s, q) {
      RefsChange(s, t, x, q);
      RefsAre(s, q);
    }
    RefsAre(s, p);
  }

  lemma RefsUnlinked(s: State, t: State, x: Slot, p: nat)
    requires OnlySlot(s, t, x) && Target(s, x) == Some(p) && Target(t, x) == None
    ensures forall q: nat :: Refs(t, q) == if q == p then Refs(s, q) - {x} else Refs(s, q)
    ensures x in Refs(s, p) && |Refs(t, p)| == |Refs(s, p)| - 1
  {
    forall q: nat ensures Refs(t, q) == if q == p then Refs(s, q) - {x} else Refs(s, q) {
      RefsChange(s, t, x, q);
      RefsAre(s, q);
    }
    RefsAre(s, p);
  }

  /** A slot starts to name p and p's count goes up by one. */
  lemma LinkCounts(s: State, t: State, x: Slot, p: nat)
    requires Counted(s) && FreeOk(s)
    requires OnlySlot(s, t, x) && Target(s, x) == None && Target(t, x) == Some(p)
    requires t.npage == s.npage && t.reserved == s.reserved && t.free == s.free && p !in s.free
    requires p < s.npage && p !in s.reserved && Ref(s, p) + 1 < REF_LIMIT
    requires t.held == s.held - {p}
    requires Ref(t, p) == Ref(s, p) + 1 && forall q: nat :: q != p ==> Ref(t, q) == Ref(s, q)
    ensures Counted(t) && FreeOk(t)
  {
    RefsLinked(s, t, x, p);
  }

  /** A slot stops naming p and page_decref runs on p. */
  lemma UnlinkCounts(s: State, t: State, x: Slot, p: nat)
    requires Counted(s) && FreeOk(s)
    requires OnlySlot(s, t, x) && Target(s, x) == Some(p) && Target(t, x) == None
    requires t.npage == s.npage && t.reserved == s.reserved && t.held == s.held
    requires p < s.npage && p !in s.reserved
    requires t.ref == DecRef(s, p).ref && t.free == DecRef(s, p).free
    ensures Ref(s, p) > 0 && Counted(t) && FreeOk(t)
  {
    RefsUnlinked(s, t, x, p);
    assert Ref(s, p) == |Refs(s, p)|;
    assert p !in s.free && p !in s.held;
    assert Counted(t);
    assert Refs(t, p) == {} <==> Ref(s, p) == 1;
    assert NoDup(t.free);
  }

  /** An operation that moves no reference keeps the counts. */
  lemma SameCounts(s: State, t: State)
    requires Counted(s) && FreeOk(s)
    requires forall x :: Target(t, x) == Target(s, x)
    requires t.npage == s.npage && t.reserved == s.reserved
    requires forall p: nat :: Ref(t, p) == Ref(s, p)
    requires NoDup(t.free) && forall p: nat :: p in t.free <==> (p in s.free && p !in t.held)
    requires s.held <= t.held && forall p: nat :: p in t.held && p !in s.held ==> p in s.free
    ensures Counted(t) && FreeOk(t)
  {
    forall p: nat ensures Refs(t, p) == Refs(s, p) {
      RefsAre(s, p);
      RefsAre(t, p);
    }
  }
}
