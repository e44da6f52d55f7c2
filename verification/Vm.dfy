/**
  Virtual memory as values: reference-counted physical pages, the free list, two-level
  page tables and the TLB (kern/pmap.c, kern/env.c, kern/tlbex.c, kern/tlb_asm.S).
  Each function is one kernel routine acting on the whole memory state.
*/
module Vm {
  import opened Errors
  import opened Mmu

  /** Word `index` of physical page `page`. */
  datatype Loc = Loc(page: nat, index: nat)

  /** A TLB tag: an ASID and a virtual page, given by its two table indices. */
  datatype Tag = Tag(asid: nat, i: nat, j: nat)

  /**
    `spaces` maps each ASID in use to its page directory. `mem` holds the words of
    physical memory that were written and `ref` the counts that were; the others are zero. `base` is the page of the
    template directory. Two sets only record who holds a page: `reserved` pages are never
    handed out (boot memory, the template directory and its tables, directories dropped by
    a failed env_alloc), `held` pages were allocated and are not mapped yet.
  */
  datatype State = State(
    npage: nat,
    ref: map<nat, nat>,
    free: seq<nat>,
    mem: map<Loc, Entry>,
    spaces: map<nat, nat>,
    tlb: map<Tag, Entry>,
    base: nat,
    reserved: set<nat>,
    held: set<nat>)

  /** A routine returns 0, returns -E_NO_MEM, or panics; each leaves a memory state. */
  datatype Outcome = Ok(state: State) | NoMem(state: State) | Panic(state: State)

  const REF_LIMIT: nat := 0x1_0000 // pp_ref is a u_short

  // ----- memory words and page tables

  function Word(s: State, page: nat, index: nat): Entry {
    if Loc(page, index) in s.mem then s.mem[Loc(page, index)] else ZERO
  }

  function SetWord(s: State, page: nat, index: nat, e: Entry): State {
    s.(mem := s.mem[Loc(page, index) := e])
  }

  /** The two-level walk of page_lookup: the valid leaf entry for (i, j), if there is one. */
  function Lookup(s: State, pgdir: nat, i: nat, j: nat): Option<Entry> {
    var pde := Word(s, pgdir, i);
    if !IsValid(pde) then None
    else
      var pte := Word(s, pde.ppn, j);
      if IsValid(pte) then Some(pte) else None
  }

  function Flush(s: State, a: nat, i: nat, j: nat): State {
    s.(tlb := s.tlb - {Tag(a, i, j)})
  }

  // ----- physical pages

  /** page_alloc: take the first free page and clear it. */
  function Alloc(s: State): State
    requires s.free != []
  {
    var p := s.free[0];
    s.(free := s.free[1..],
       mem := map l | l in s.mem && l.page != p :: s.mem[l],
       held := s.held + {p})
  }

  function Ref(s: State, p: nat): nat {
    if p in s.ref then s.ref[p] else 0
  }

  /** pp_ref++ in sixteen bits. */
  function IncRef(s: State, p: nat): State {
    s.(ref := s.ref[p := (Ref(s, p) + 1) % REF_LIMIT], held := s.held - {p})
  }

  /** page_decref; the source asserts that the count is positive. */
  function DecRef(s: State, p: nat): State {
    if Ref(s, p) == 0 then s
    else s.(ref := s.ref[p := Ref(s, p) - 1],
            free := if Ref(s, p) == 1 then [p] + s.free else s.free)
  }

  // ----- mapping operations on the address space of ASID a

  /** pgdir_walk with `create` set. */
  function WalkCreate(s: State, pgdir: nat, i: nat): Outcome {
    if IsValid(Word(s, pgdir, i)) then Ok(s)
    else if s.free == [] then NoMem(s)
    else Ok(IncRef(SetWord(Alloc(s), pgdir, i, Entry(s.free[0], PTE_D | PTE_V)), s.free[0]))
  }

  /** page_remove */
  function Remove(s: State, a: nat, i: nat, j: nat): State
    requires a in s.spaces
  {
    var pgdir := s.spaces[a];
    match Lookup(s, pgdir, i, j)
    case None => s
    case Some(pte) =>
      Flush(SetWord(DecRef(s, pte.ppn), Word(s, pgdir, i).ppn, j, ZERO), a, i, j)
  }

  /** page_insert */
  function Insert(s: State, a: nat, p: nat, i: nat, j: nat, perm: Perm): Outcome
    requires a in s.spaces
  {
    var pgdir := s.spaces[a];
    var entry := Entry(OrPage(p, perm.hi), perm.flags | PTE_V);
    var cur := Lookup(s, pgdir, i, j);
    if cur.Some? && cur.value.ppn == p then
      Ok(SetWord(Flush(s, a, i, j), Word(s, pgdir, i).ppn, j, entry))
    else
      match WalkCreate(Flush(Remove(s, a, i, j), a, i, j), pgdir, i)
      case Ok(t) => Ok(IncRef(SetWord(t, Word(t, pgdir, i).ppn, j, entry), p))
      case failed => failed
  }

  // ----- address spaces

  /** env_setup_vm for the ASID a that asid_alloc returned. */
  function Setup(s: State, a: nat): Outcome {
    if s.free == [] then NoMem(s)
    else
      var p := s.free[0];
      var t := IncRef(Alloc(s), p);
      var t := SetWord(t, p, PDX_UTOP, Word(t, s.base, PDX_UTOP));
      var t := SetWord(t, p, PDX_UPAGES, Word(t, s.base, PDX_UPAGES));
      var t := SetWord(t, p, PDX_UVPT, Entry(p, PTE_V));
      Ok(t.(spaces := t.spaces[a := p]))
  }

  /** The inner loop of env_free from entry j on. */
  function ClearLeaves(s: State, a: nat, i: nat, j: nat): (t: State)
    requires a in s.spaces
    ensures t.spaces == s.spaces
    decreases ENTRIES - j
  {
    if j >= ENTRIES then s
    else ClearLeaves(Remove(s, a, i, j), a, i, j + 1)
  }

  /** One pass of the outer loop of env_free: a page table and the pages it maps. */
  function ClearTable(s: State, a: nat, i: nat): State
    requires a in s.spaces
  {
    var pgdir := s.spaces[a];
    if !IsValid(Word(s, pgdir, i)) then s
    else
      var t := ClearLeaves(s, a, i, 0);
      Flush(DecRef(SetWord(t, pgdir, i, ZERO), Word(s, pgdir, i).ppn), a, PDX_UVPT, i)
  }

  /** The outer loop of env_free from directory entry i on. */
  function ClearTables(s: State, a: nat, i: nat): State
    requires a in s.spaces
    decreases PDX_UTOP - i
  {
    if i >= PDX_UTOP then s
    else ClearTables(ClearTable(s, a, i), a, i + 1)
  }

  /** The memory part of env_free. */
  function Free(s: State, a: nat): State
    requires a in s.spaces
  {
    var t := DecRef(ClearTables(s, a, 0), s.spaces[a]);
    Flush(t.(spaces := t.spaces - {a}), a, PDX_UVPT, PDX_UVPT)
  }

  // ----- refill

  /** The addresses for which passive_alloc allocates instead of panicking. */
  predicate PassiveOk(va: Addr) {
    && UTEMP <= va < ULIM
    && !(USTACKTOP <= va < USTACKTOP + BY2PG)
    && !(UENVS <= va < UVPT)
  }

  /** passive_alloc: every failure is a kernel panic. */
  function Passive(s: State, a: nat, va: Addr): Outcome
    requires a in s.spaces
  {
    if !PassiveOk(va) || s.free == [] then Panic(s)
    else
      match Insert(Alloc(s), a, s.free[0], Pdx(va), Ptx(va), Plain(PTE_D))
      case Ok(t) => Ok(t)
      case failed => Panic(failed.state)
  }

  /** tlbwr: the new entry replaces some others. */
  function Fill(s: State, tag: Tag, e: Entry, evicted: set<Tag>): State {
    s.(tlb := (s.tlb - evicted)[tag := e])
  }

  /** A TLB access in the context of ASID a: a global entry matches every ASID. */
  ghost predicate Hit(s: State, a: nat, i: nat, j: nat, e: Entry) {
    exists tag :: tag in s.tlb && s.tlb[tag] == e && tag.i == i && tag.j == j
                  && (tag.asid == a || IsGlobal(e))
  }
}
