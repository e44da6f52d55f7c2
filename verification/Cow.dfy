/**
  Copy-on-write fork (user/lib/fork.c) as interleaved steps of many environments, each
  system call or memory access being one step, and the eager machine it should behave as.
*/
module Cow {
  import opened Mmu

  type Byte = bv8
  type Content = c: seq<Byte> | |c| == BY2PG witness Zeros()

  function Zeros(): seq<Byte> {
    seq(BY2PG, _ => 0)
  }

  const UCOW_VPN: nat := 0x3ff        // UCOW / BY2PG
  const STACK_VPN: nat := 0x7f3fe     // USTACKTOP / BY2PG

  /** A virtual page of an environment. */
  datatype Key = Key(env: nat, vpn: nat)

  datatype Pte = Pte(page: nat, flags: Flags)

  predicate Writable(f: Flags) { f & PTE_D != 0 }
  predicate IsCow(f: Flags) { f & PTE_COW != 0 }
  predicate IsLibrary(f: Flags) { f & PTE_LIBRARY != 0 }

  /** Where an environment is inside cow_entry: the faulting page and what comes next. */
  datatype Handler =
    | Idle
    | Alloc(vpn: nat)              // map a new page at UCOW
    | Copy(vpn: nat, done: nat)    // memcpy has copied `done` bytes
    | Unmap(vpn: nat)              // the copy is mapped at the page; unmap UCOW

  /** Where an environment is inside duppage. */
  datatype Dup =
    | NoDup
    | Read(child: nat, vpn: nat, perm: Flags)      // perm was read from vpt
    | Mapped(child: nat, vpn: nat, perm: Flags)    // child mapped, own page not yet remapped

  datatype State = State(
    pt: map<Key, Pte>, mem: map<nat, Content>,
    handler: map<nat, Handler>, dup: map<nat, Dup>,
    live: set<nat>, running: set<nat>, parent: map<nat, nat>)

  function PageOf(s: State, p: nat): Content {
    if p in s.mem then s.mem[p] else Zeros()
  }

  function HandlerOf(s: State, e: nat): Handler {
    if e in s.handler then s.handler[e] else Idle
  }

  function DupOf(s: State, e: nat): Dup {
    if e in s.dup then s.dup[e] else NoDup
  }

  /** page_alloc finds a page that nothing maps. */
  ghost predicate Unused(s: State, p: nat) {
    forall k :: k in s.pt ==> s.pt[k].page != p
  }

  /** Line 30 of fork.c: !PTE_COW is 0 in C, so only PTE_D is left. */
  function CowPerm(perm: Flags): Flags {
    (perm & 0) | PTE_D
  }

  function DupPerm(perm: Flags): Flags {
    if !Writable(perm) || IsLibrary(perm) then perm else (perm & !PTE_D) | PTE_COW
  }

  // ----- steps

  datatype Event =
    | Load(key: Key, off: nat)
    | Store(key: Key, off: nat, b: Byte)
    | Map(key: Key, p: nat, perm: Flags)      // a fresh page: passive_alloc or syscall_mem_alloc
    | Drop(key: Key)                          // syscall_mem_unmap
    | Handle(e: nat, p: nat)                  // the next step of cow_entry
    | Exofork(e: nat, child: nat)
    | DupRead(e: nat, child: nat, vpn: nat)
    | DupMap(e: nat)
    | DupRemap(e: nat)
    | Start(child: nat)
    | Exit(e: nat)

  /** A page that user code uses: UCOW is reserved for cow_entry. */
  predicate Ready(s: State, k: Key) {
    k.env in s.running && HandlerOf(s, k.env).Idle? && k.vpn != UCOW_VPN
  }

  /** duppage of e is between two of its steps on this page. */
  predicate InDup(s: State, k: Key) {
    DupOf(s, k.env) != NoDup && DupOf(s, k.env).vpn == k.vpn
  }

  ghost predicate Enabled(s: State, ev: Event) {
    match ev
    case Load(k, off) => Ready(s, k) && k in s.pt && off < BY2PG
    case Store(k, off, b) =>
      Ready(s, k) && k in s.pt && off < BY2PG && (Writable(s.pt[k].flags) || IsCow(s.pt[k].flags))
    case Map(k, p, perm) => Ready(s, k) && !InDup(s, k) && Unused(s, p) && !IsCow(perm)
    case Drop(k) => Ready(s, k) && !InDup(s, k) && k in s.pt
    case Handle(e, p) => !HandlerOf(s, e).Idle? && (HandlerOf(s, e).Alloc? ==> Unused(s, p))
    case Exofork(e, child) => e in s.running && HandlerOf(s, e).Idle? && DupOf(s, e).NoDup? && child !in s.live
    case DupRead(e, child, vpn) =>
      && Ready(s, Key(e, vpn)) && DupOf(s, e).NoDup? && Key(e, vpn) in s.pt && vpn < STACK_VPN
      && child in s.live && child !in s.running && child in s.parent && s.parent[child] == e
      && Key(child, vpn) !in s.pt
    case DupMap(e) => HandlerOf(s, e).Idle? && DupOf(s, e).Read?
    case DupRemap(e) => HandlerOf(s, e).Idle? && DupOf(s, e).Mapped?
    case Start(child) => child in s.live && forall e :: DupOf(s, e).NoDup? || DupOf(s, e).child != child
    case Exit(e) => e in s.running && HandlerOf(s, e).Idle? && DupOf(s, e).NoDup?
  }

  function StoreByte(s: State, p: nat, off: nat, b: Byte): State
    requires off < BY2PG
  {
    s.(mem := s.mem[p := PageOf(s, p)[off := b]])
  }

  function MapStep(s: State, k: Key, p: nat, perm: Flags): State {
    s.(pt := s.pt[k := Pte(p, perm | PTE_V)], mem := s.mem[p := Zeros()])
  }

  function DropStep(s: State, k: Key): State {
    s.(pt := s.pt - {k})
  }

  /** cow_entry, step 3: a new page at UCOW. */
  function AllocStep(s: State, e: nat, vpn: nat, p: nat): State {
    s.(pt := s.pt[Key(e, UCOW_VPN) := Pte(p, PTE_D | PTE_V)], mem := s.mem[p := Zeros()],
       handler := s.handler[e := Copy(vpn, 0)])
  }

  /** Step 4: one byte of memcpy. */
  function CopyStep(s: State, e: nat, vpn: nat, done: nat): State
    requires Key(e, vpn) in s.pt && Key(e, UCOW_VPN) in s.pt && done < BY2PG
  {
    var src, dst := s.pt[Key(e, vpn)].page, s.pt[Key(e, UCOW_VPN)].page;
    StoreByte(s, dst, done, PageOf(s, src)[done]).(handler := s.handler[e := Copy(vpn, done + 1)])
  }

  /** Step 5: the copy replaces the page. */
  function InstallStep(s: State, e: nat, vpn: nat): State
    requires Key(e, vpn) in s.pt && Key(e, UCOW_VPN) in s.pt
  {
    var k := Key(e, vpn);
    s.(pt := s.pt[k := Pte(s.pt[Key(e, UCOW_VPN)].page, CowPerm(s.pt[k].flags) | PTE_V)],
       handler := s.handler[e := Unmap(vpn)])
  }

  /** Steps 6 and 7: unmap UCOW and return. */
  function UnmapStep(s: State, e: nat): State {
    s.(pt := s.pt - {Key(e, UCOW_VPN)}, handler := s.handler[e := Idle])
  }

  /** One step of cow_entry. */
  function HandleStep(s: State, e: nat, p: nat): State {
    match HandlerOf(s, e)
    case Idle => s
    case Alloc(vpn) => AllocStep(s, e, vpn, p)
    case Copy(vpn, done) =>
      if Key(e, vpn) !in s.pt || Key(e, UCOW_VPN) !in s.pt then s
      else if done < BY2PG then CopyStep(s, e, vpn, done)
      else InstallStep(s, e, vpn)
    case Unmap(vpn) => UnmapStep(s, e)
  }

  /** duppage, step 1: read the permission of the page. */
  function ReadStep(s: State, e: nat, child: nat, vpn: nat): State
    requires Key(e, vpn) in s.pt
  {
    s.(dup := s.dup[e := Read(child, vpn, s.pt[Key(e, vpn)].flags)])
  }

  /** Step 2: map the page, whatever it is by now, into the child. */
  function ChildStep(s: State, e: nat): State
    requires DupOf(s, e).Read? && Key(e, DupOf(s, e).vpn) in s.pt
  {
    var Read(child, vpn, perm) := DupOf(s, e);
    s.(pt := s.pt[Key(child, vpn) := Pte(s.pt[Key(e, vpn)].page, DupPerm(perm) | PTE_V)],
       dup := s.dup[e := if !Writable(perm) || IsLibrary(perm) then NoDup else Mapped(child, vpn, perm)])
  }

  /** Step 3: remap the parent's own page copy-on-write. */
  function RemapStep(s: State, e: nat): State
    requires DupOf(s, e).Mapped? && Key(e, DupOf(s, e).vpn) in s.pt
  {
    var Mapped(child, vpn, perm) := DupOf(s, e);
    s.(pt := s.pt[Key(e, vpn) := Pte(s.pt[Key(e, vpn)].page, DupPerm(perm) | PTE_V)], dup := s.dup[e := NoDup])
  }

  function ExitStep(s: State, e: nat): State {
    s.(pt := map l | l in s.pt && l.env != e :: s.pt[l], live := s.live - {e}, running := s.running - {e})
  }

  function Step(s: State, ev: Event): State {
    match ev
    case Load(k, off) => s
    case Store(k, off, b) =>
      if k !in s.pt || off >= BY2PG then s
      else if Writable(s.pt[k].flags) then StoreByte(s, s.pt[k].page, off, b)
      else s.(handler := s.handler[k.env := Alloc(k.vpn)])    // TLB Mod; the store is tried again later
    case Map(k, p, perm) => MapStep(s, k, p, perm)
    case Drop(k) => DropStep(s, k)
    case Handle(e, p) => HandleStep(s, e, p)
    case Exofork(e, child) =>
      s.(live := s.live + {child}, parent := s.parent[child := e])
    case DupRead(e, child, vpn) => if Key(e, vpn) in s.pt then ReadStep(s, e, child, vpn) else s
    case DupMap(e) => if DupOf(s, e).Read? && Key(e, DupOf(s, e).vpn) in s.pt then ChildStep(s, e) else s
    case DupRemap(e) => if DupOf(s, e).Mapped? && Key(e, DupOf(s, e).vpn) in s.pt then RemapStep(s, e) else s
    case Start(child) => s.(running := s.running + {child})
    case Exit(e) => ExitStep(s, e)
  }

  // ----- the eager machine

  /** Each page of an environment is a region; only library pages share one. */
  datatype Eager = Eager(view: map<Key, nat>, mem: map<nat, Content>, next: nat)

  datatype Act =
    | Nothing
    | Put(key: Key, off: nat, b: Byte)
    | Fresh(key: Key)
    | Forget(key: Key)
    | ForgetAll(env: nat)
    | CopyTo(from: Key, to: Key)
    | ShareWith(from: Key, to: Key)

  function Region(a: Eager, r: nat): Content {
    if r in a.mem then a.mem[r] else Zeros()
  }

  function Do(a: Eager, act: Act): Eager {
    match act
    case Nothing => a
    case Put(k, off, b) =>
      if k in a.view && off < BY2PG then a.(mem := a.mem[a.view[k] := Region(a, a.view[k])[off := b]]) else a
    case Fresh(k) => a.(view := a.view[k := a.next], mem := a.mem[a.next := Zeros()], next := a.next + 1)
    case Forget(k) => a.(view := a.view - {k})
    case ForgetAll(e) => a.(view := map l | l in a.view && l.env != e :: a.view[l])
    case CopyTo(k, l) =>
      if k in a.view then
        a.(view := a.view[l := a.next], mem := a.mem[a.next := Region(a, a.view[k])], next := a.next + 1)
      else a
    case ShareWith(k, l) => if k in a.view then a.(view := a.view[l := a.view[k]]) else a
  }

  /** The child's copy is made at the only map call if the parent's page was not writable. */
  function ChildMeaning(s: State, e: nat): Act {
    match DupOf(s, e)
    case Read(child, vpn, perm) =>
      if IsLibrary(perm) then ShareWith(Key(e, vpn), Key(child, vpn))
      else if !Writable(perm) then CopyTo(Key(e, vpn), Key(child, vpn))
      else Nothing
    case _ => Nothing
  }

  /** Otherwise it is made when the parent's page is remapped. */
  function RemapMeaning(s: State, e: nat): Act {
    match DupOf(s, e)
    case Mapped(child, vpn, perm) => CopyTo(Key(e, vpn), Key(child, vpn))
    case _ => Nothing
  }

  /**
    What a step means to the eager machine: a faulting store and all of cow_entry mean
    nothing, duppage means one copy, and library pages are shared.
  */
  function Meaning(s: State, ev: Event): Act {
    match ev
    case Store(k, off, b) => if k in s.pt && Writable(s.pt[k].flags) then Put(k, off, b) else Nothing
    case Map(k, p, perm) => Fresh(k)
    case Drop(k) => Forget(k)
    case DupMap(e) => ChildMeaning(s, e)
    case DupRemap(e) => RemapMeaning(s, e)
    case Exit(e) => ForgetAll(e)
    case _ => Nothing
  }
}
