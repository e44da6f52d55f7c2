/**
  Address spaces come and go: env_setup_vm and env_free (kern/env.c).
*/
module VmSpaces {
  import opened Mmu
  import opened Vm
  import opened VmRefs
  import opened VmFrames
  import opened VmOps

  /** The translations left when those of a through directory entry i, from leaf j on, are gone. */
  ghost predicate MapsCleared(s: State, t: State, a: nat, i: nat, j: nat) {
    t.spaces == s.spaces && forall b, k: nat, l: nat :: b in s.spaces && k < PDX_ULIM && l < ENTRIES ==>
      Lookup(t, t.spaces[b], k, l) == if b == a && k == i && l >= j then None else Lookup(s, s.spaces[b], k, l)
  }

  ghost predicate SlotsCleared(s: State, t: State, a: nat, i: nat, j: nat) {
    forall x :: Target(t, x) == if x.Leaf? && x.asid == a && x.i == i && x.j >= j then None else Target(s, x)
  }

  lemma ClearLeavesKeeps(s: State, a: nat, i: nat, j: nat)
    requires Inv(s) && a in s.spaces && i < PDX_UTOP && j <= ENTRIES
    ensures var t := ClearLeaves(s, a, i, j);
            Inv(t) && SameFrame(s, t) && t.held == s.held && SlotsCleared(s, t, a, i, j) && MapsCleared(s, t, a, i, j)
    decreases ENTRIES - j
  {
    hide Inv;
    var t := ClearLeaves(s, a, i, j);
    if j < ENTRIES {
      var r := Remove(s, a, i, j);
      RemoveKeeps(s, a, i, j);
      ClearLeavesKeeps(r, a, i, j + 1);
      forall x ensures Target(t, x) == if x.Leaf? && x.asid == a && x.i == i && x.j >= j then None else Target(s, x) {
        assert x != Leaf(a, i, j) ==> Target(r, x) == Target(s, x);
        assert Target(r, Leaf(a, i, j)) == None;
      }
    }
  }

  /** Nothing of a is left in directory entries lo <= k < hi. */
  ghost predicate TablesCleared(s: State, t: State, a: nat, lo: nat, hi: nat) {
    && t.spaces == s.spaces
    && (forall x: Slot :: Target(t, x) ==
          if !x.Dir? && x.asid == a && lo <= x.i < hi then None else Target(s, x))
    && (forall b, k: nat, l: nat :: b in s.spaces && k < PDX_ULIM && l < ENTRIES ==>
          Lookup(t, t.spaces[b], k, l) ==
            if b == a && (lo <= k < hi || (k == PDX_UVPT && lo <= l < hi)) then None
            else Lookup(s, s.spaces[b], k, l))
  }

  lemma ClearTableKeeps(s: State, a: nat, i: nat)
    requires Inv(s) && a in s.spaces && i < PDX_UTOP
    ensures var t := ClearTable(s, a, i); Inv(t) && SameFrame(s, t) && t.held == s.held && TablesCleared(s, t, a, i, i + 1)
  {
    hide Inv, MapsCleared, SlotsCleared, OnlySlot, SameMapsBut, NoLeaves, TablesCleared;
    if IsValid(Word(s, s.spaces[a], i)) {
      var r := ClearLeaves(s, a, i, 0);
      ClearLeavesKeeps(s, a, i, 0);
      LeavesGone(s, r, a, i);
      DropTableKeeps(r, a, i);
      TableGone(s, r, ClearTable(s, a, i), a, i);
    } else {
      NoTable(s, a, i);
    }
  }

  /** After the inner loop the table is empty and still there. */
  lemma LeavesGone(s: State, r: State, a: nat, i: nat)
    requires Inv(s) && Inv(r) && a in s.spaces && i < PDX_UTOP && r.spaces == s.spaces
    requires SlotsCleared(s, r, a, i, 0) && MapsCleared(s, r, a, i, 0)
    requires IsValid(Word(s, s.spaces[a], i))
    ensures NoLeaves(r, a, i) && Word(r, r.spaces[a], i) == Word(s, s.spaces[a], i)
  {
    hide Counted, FreeOk, InRange, Exclusive, NoUserGlobal, Coherent;
    assert Target(s, Table(a, i)) == Some(Word(s, s.spaces[a], i).ppn);
    assert Target(r, Table(a, i)) == Target(s, Table(a, i));
    assert DirOk(s, s.spaces[a]) && DirOk(r, r.spaces[a]);
  }

  /** And then it is gone, with its entry in the window. */
  lemma TableGone(s: State, r: State, t: State, a: nat, i: nat)
    requires a in s.spaces && i < PDX_UTOP && SameFrame(s, r) && SameFrame(r, t)
    requires SlotsCleared(s, r, a, i, 0) && MapsCleared(s, r, a, i, 0) && OnlySlot(r, t, Table(a, i)) && SameMapsBut(r, t, a, PDX_UVPT, i)
    requires Target(t, Table(a, i)) == None && Lookup(t, t.spaces[a], PDX_UVPT, i) == None
    ensures TablesCleared(s, t, a, i, i + 1)
  {
    hide Target, Lookup;
  }

  lemma NoTable(s: State, a: nat, i: nat)
    requires Inv(s) && a in s.spaces && i < PDX_UTOP && !IsValid(Word(s, s.spaces[a], i))
    ensures TablesCleared(s, s, a, i, i + 1)
  {
    hide Counted, FreeOk, InRange, Exclusive, NoUserGlobal, Coherent;
    SelfMap(s, a, i);
  }

  /** Through the UVPT window an address space reads its own directory. */
  lemma SelfMap(s: State, a: nat, j: nat)
    requires Windows(s) && a in s.spaces
    ensures Lookup(s, s.spaces[a], PDX_UVPT, j) ==
              if IsValid(Word(s, s.spaces[a], j)) then Some(Word(s, s.spaces[a], j)) else None
  {
    assert DirOk(s, s.spaces[a]);
  }

  /** Clearing a directory entry whose table is empty. */
  lemma DropTableKeeps(s: State, a: nat, i: nat)
    requires Inv(s) && a in s.spaces && i < PDX_UTOP && NoLeaves(s, a, i)
    requires IsValid(Word(s, s.spaces[a], i))
    ensures var pt := Word(s, s.spaces[a], i).ppn;
            var t := Flush(DecRef(SetWord(s, s.spaces[a], i, ZERO), pt), a, PDX_UVPT, i);
            && Inv(t) && SameFrame(s, t) && Target(t, Table(a, i)) == None
            && OnlySlot(s, t, Table(a, i)) && SameMapsBut(s, t, a, PDX_UVPT, i)
            && Lookup(t, t.spaces[a], PDX_UVPT, i) == None && Ref(s, pt) > 0
  {
    var pt := Word(s, s.spaces[a], i).ppn;
    var t := Flush(DecRef(SetWord(s, s.spaces[a], i, ZERO), pt), a, PDX_UVPT, i);
    assert Target(s, Table(a, i)) == Some(pt);
    TableWriteFrame(s, t, a, i, ZERO);
    UnlinkCounts(s, t, Table(a, i), pt);
    ShapeKept(s, t, Table(a, i));
    CoherentKept(s, t, a, PDX_UVPT, i);
    NoGlobalKept(s, t, a, PDX_UVPT, i);
  }

  lemma ClearTablesKeeps(s: State, a: nat, i: nat)
    requires Inv(s) && a in s.spaces && i <= PDX_UTOP
    ensures var t := ClearTables(s, a, i); Inv(t) && SameFrame(s, t) && t.held == s.held && TablesCleared(s, t, a, i, PDX_UTOP)
    decreases PDX_UTOP - i
  {
    hide Inv;
    if i < PDX_UTOP {
      ClearTableKeeps(s, a, i);
      ClearTablesKeeps(ClearTable(s, a, i), a, i + 1);
    }
  }

  ghost predicate Emptied(s: State, a: nat) {
    && a in s.spaces
    && (forall x: Slot :: !x.Dir? && x.asid == a ==> Target(s, x) == None)
    && (forall l: nat :: l < PDX_UTOP ==> Lookup(s, s.spaces[a], PDX_UVPT, l) == None)
  }

  function DropDir(s: State, a: nat): State
    requires a in s.spaces
  {
    var r := DecRef(s, s.spaces[a]);
    Flush(r.(spaces := r.spaces - {a}), a, PDX_UVPT, PDX_UVPT)
  }

  lemma DropDirMaps(s: State, a: nat)
    requires Inv(s) && Emptied(s, a)
    ensures var t := DropDir(s, a);
            && OnlySlot(s, t, Dir(a)) && Target(t, Dir(a)) == None && SameMaps(s, t) && SameShared(s, t)
            && Windows(t) && NoUserGlobal(t)
  {
    hide Counted, FreeOk, InRange, Exclusive, Coherent;
    var t := DropDir(s, a);
    assert forall p: nat, k: nat :: Word(t, p, k) == Word(s, p, k);
    assert forall p: nat, k: nat, l: nat :: Lookup(t, p, k, l) == Lookup(s, p, k, l);
    DropDirWindows(s, t);
    hide Windows, DirOk, NoUserGlobal, Word, DropDir;
    forall x | x != Dir(a) ensures Target(t, x) == Target(s, x) {
      assert x.asid == a ==> Target(s, x) == None;
    }
  }

  /** The same memory, and some of the address spaces. */
  lemma DropDirWindows(s: State, t: State)
    requires Windows(s) && NoUserGlobal(s) && t.base == s.base && t.reserved == s.reserved
    requires forall b :: b in t.spaces ==> b in s.spaces && t.spaces[b] == s.spaces[b]
    requires forall p: nat, k: nat :: Word(t, p, k) == Word(s, p, k)
    requires forall p: nat, k: nat, l: nat :: Lookup(t, p, k, l) == Lookup(s, p, k, l)
    ensures Windows(t) && NoUserGlobal(t)
  {
    hide Word, Lookup;
    forall b | b in t.spaces ensures DirOk(t, t.spaces[b]) {
      assert DirOk(s, s.spaces[b]);
    }
  }

  /** No private translation of an emptied address space is cached, but for its self-map. */
  lemma NoPrivateTag(s: State, a: nat, tag: Tag)
    requires Windows(s) && Emptied(s, a) && TagOk(s, tag) && tag.asid == a
    ensures Shared(tag.i, tag.j) || tag == Tag(a, PDX_UVPT, PDX_UVPT)
  {
    SelfMap(s, a, tag.j);
    assert DirOk(s, s.spaces[a]);
    assert tag.i < PDX_UTOP ==> Target(s, Leaf(a, tag.i, tag.j)) == None;
  }

  lemma TagsAfterDrop(s: State, t: State, a: nat)
    requires Windows(s) && Coherent(s) && Emptied(s, a) && SameMaps(s, t) && SameShared(s, t)
    requires t.spaces == s.spaces - {a} && t.tlb == s.tlb - {Tag(a, PDX_UVPT, PDX_UVPT)}
    ensures Coherent(t) && forall tag :: tag in t.tlb && tag.asid == a ==> Shared(tag.i, tag.j)
  {
    forall tag | tag in t.tlb ensures TagOk(t, tag) && (tag.asid == a ==> Shared(tag.i, tag.j)) {
      assert TagOk(s, tag);
      hide Windows, Emptied, SharedEntry, Lookup;
      if tag.asid == a {
        NoPrivateTag(s, a, tag);
      }
    }
  }

  lemma DropDirTags(s: State, a: nat)
    requires Inv(s) && Emptied(s, a)
    ensures Coherent(DropDir(s, a))
    ensures forall tag :: tag in DropDir(s, a).tlb && tag.asid == a ==> Shared(tag.i, tag.j)
  {
    DropDirMaps(s, a);
    hide Counted, FreeOk, InRange, Exclusive, NoUserGlobal, Windows, Coherent, Emptied, Shared, SameMaps, SameShared, OnlySlot;
    TagsAfterDrop(s, DropDir(s, a), a);
  }

  /** The last step of env_free: the directory itself goes, with its ASID. */
  lemma DropDirKeeps(s: State, a: nat)
    requires Inv(s) && Emptied(s, a)
    ensures var t := DropDir(s, a);
            && Inv(t) && SameMaps(s, t) && OnlySlot(s, t, Dir(a)) && Target(t, Dir(a)) == None
            && (forall tag :: tag in t.tlb && tag.asid == a ==> Shared(tag.i, tag.j))
            && Ref(s, s.spaces[a]) > 0
  {
    var t := DropDir(s, a);
    DropDirMaps(s, a);
    DropDirTags(s, a);
    hide Windows, Coherent, NoUserGlobal;
    assert Target(s, Dir(a)) == Some(s.spaces[a]);
    UnlinkCounts(s, t, Dir(a), s.spaces[a]);
    ShapeKept(s, t, Dir(a));
  }

  /**
    env_free reclaims exactly its own memory. The references that remain are those of the
    other address spaces; a page returns to the free list iff only a used it; no other
    translation changes; and no TLB entry tagged a survives, except copies of the entries
    all address spaces share, so the ASID can be given out again.
  */
  lemma FreeKeeps(s: State, a: nat)
    requires Inv(s) && a in s.spaces
    ensures var t := Free(s, a);
            && Inv(t) && t.spaces == s.spaces - {a} && t.held == s.held
            && t.npage == s.npage && t.reserved == s.reserved
            && (forall x: Slot :: Target(t, x) == if x.asid == a then None else Target(s, x))
            && SameMaps(s, t)
            && (forall tag :: tag in t.tlb && tag.asid == a ==> Shared(tag.i, tag.j))
  {
    hide Inv;
    var r := ClearTables(s, a, 0);
    ClearTablesKeeps(s, a, 0);
    DropDirKeeps(r, a);
  }

  /** The part of a page's count that address space a holds. */
  function Share(s: State, a: nat, p: nat): set<Slot> {
    set x | x in Refs(s, p) && x.asid == a
  }

  lemma FreeReclaims(s: State, a: nat, p: nat)
    requires Inv(s) && a in s.spaces && p < s.npage && p !in s.reserved
    ensures Ref(Free(s, a), p) == Ref(s, p) - |Share(s, a, p)|
    ensures p in Free(s, a).free <==> p in s.free || (Refs(s, p) != {} && Refs(s, p) == Share(s, a, p))
  {
    hide Free, InRange, Exclusive, Windows, NoUserGlobal, Coherent, SameMaps, Target, Shared;
    var t := Free(s, a);
    FreeKeeps(s, a);
    RefsLeft(s, t, a, p);
    hide Share, Refs;
    assert Ref(s, p) == |Refs(s, p)| && Ref(t, p) == |Refs(t, p)|;
  }

  lemma RefsLeft(s: State, t: State, a: nat, p: nat)
    requires forall x: Slot :: Target(t, x) == if x.asid == a then None else Target(s, x)
    ensures Refs(t, p) == Refs(s, p) - Share(s, a, p) && Share(s, a, p) <= Refs(s, p)
    ensures |Refs(t, p)| == |Refs(s, p)| - |Share(s, a, p)|
    ensures Refs(t, p) == {} <==> Refs(s, p) == Share(s, a, p)
  {
    hide Target;
    RefsAre(s, p);
    RefsAre(t, p);
  }

  ghost predicate NewSpace(s: State, t: State, a: nat) {
    && a in t.spaces
    && (forall i: nat, j: nat :: i < PDX_UTOP && j < ENTRIES ==> Lookup(t, t.spaces[a], i, j) == None)
    && (forall i: nat, j: nat :: Shared(i, j) ==> Lookup(t, t.spaces[a], i, j) == SharedEntry(s, i, j))
  }

  /** env_setup_vm: a new, empty address space that sees the shared windows and itself. */
  lemma SetupKeeps(s: State, a: nat)
    requires Inv(s) && a !in s.spaces
    ensures match Setup(s, a) {
              case Ok(t) =>
                && Inv(t) && t.spaces == s.spaces[a := s.free[0]]
                && OnlySlot(s, t, Dir(a)) && SameMaps(s, t) && NewSpace(s, t, a)
              case NoMem(t) => t == s && s.free == []
              case Panic(_) => false
            }
  {
    hide Inv, SharedEntry;
    if s.free != [] {
      AllocKeeps(s);
      NewDirKeeps(Alloc(s), a, s.free[0]);
      assert SameShared(s, Alloc(s)) by { AllocShared(s); }
    }
  }

  lemma AllocShared(s: State)
    requires Inv(s) && s.free != []
    ensures SameShared(s, Alloc(s))
  {
    assert s.free[0] in s.free;
  }

  function InstallDir(s: State, a: nat, p: nat): State {
    var t := IncRef(s, p);
    var t := SetWord(t, p, PDX_UTOP, Word(t, s.base, PDX_UTOP));
    var t := SetWord(t, p, PDX_UPAGES, Word(t, s.base, PDX_UPAGES));
    var t := SetWord(t, p, PDX_UVPT, Entry(p, PTE_V));
    t.(spaces := t.spaces[a := p])
  }

  /** The words of the new directory, and the rest of memory. */
  lemma InstallDirWords(s: State, a: nat, p: nat)
    requires forall k: nat :: Word(s, p, k) == ZERO
    ensures var t := InstallDir(s, a, p);
            && SameWordsBut(s, t, p)
            && forall k: nat :: Word(t, p, k) ==
                 if k == PDX_UTOP || k == PDX_UPAGES then Word(s, s.base, k)
                 else if k == PDX_UVPT then Entry(p, PTE_V) else ZERO
  {
    var t := InstallDir(s, a, p);
    forall k: nat ensures Word(t, p, k) ==
      if k == PDX_UTOP || k == PDX_UPAGES then Word(s, s.base, k)
      else if k == PDX_UVPT then Entry(p, PTE_V) else ZERO
    {
      assert Word(s, p, k) == ZERO;
    }
  }

  ghost predicate CanInstall(s: State, a: nat, p: nat) {
    Inv(s) && a !in s.spaces && p in s.held && forall k: nat :: Word(s, p, k) == ZERO
  }

  /** The new directory seen before any environment has it: a page of data. */
  lemma NewDirData(s: State, a: nat, p: nat)
    requires CanInstall(s, a, p)
    ensures var r := InstallDir(s, a, p).(spaces := s.spaces);
            && Shape(r) && (forall x :: Target(r, x) == Target(s, x)) && SameMaps(s, r) && SameShared(s, r) && p != s.base
  {
    hide Coherent, NoUserGlobal;
    var r := InstallDir(s, a, p).(spaces := s.spaces);
    RefsAre(s, p);
    InstallDirWords(s, a, p);
    assert SameFrame(s, r) && DataPage(s, p) && SameWordsBut(s, r, p);
    hide InstallDir, Counted, FreeOk, DataPage;
    DataWriteFrame(s, r, p);
  }

  lemma NewDirOthers(s: State, a: nat, p: nat)
    requires CanInstall(s, a, p)
    ensures var t := InstallDir(s, a, p);
            && SameMaps(s, t) && SameShared(s, t) && p != s.base
            && forall b :: b in s.spaces ==> DirOk(t, t.spaces[b])
  {
    hide Counted, Coherent, NoUserGlobal, FreeOk, Exclusive, InRange;
    var t := InstallDir(s, a, p);
    var r := t.(spaces := s.spaces);
    NewDirData(s, a, p);
    InstallDirWords(s, a, p);
    hide InstallDir;
    forall b | b in s.spaces ensures DirOk(t, t.spaces[b]) {
      assert DirOk(r, r.spaces[b]);
    }
  }

  lemma NewDirMaps(s: State, a: nat, p: nat)
    requires CanInstall(s, a, p)
    ensures var t := InstallDir(s, a, p); NewSpace(s, t, a) && Windows(t)
  {
    var t := InstallDir(s, a, p);
    InstallDirWords(s, a, p);
    NewDirOthers(s, a, p);
    hide InstallDir, Counted, FreeOk, InRange, Exclusive, Coherent, NoUserGlobal, SameMaps;
    assert DirOk(t, p);
  }

  lemma NewDirSlots(s: State, a: nat, p: nat)
    requires CanInstall(s, a, p)
    ensures OnlySlot(s, InstallDir(s, a, p), Dir(a))
  {
    hide Counted, Coherent, NoUserGlobal, FreeOk, Exclusive, InRange, Windows, SameMaps;
    var t := InstallDir(s, a, p);
    var r := t.(spaces := s.spaces);
    NewDirData(s, a, p);
    InstallDirWords(s, a, p);
    hide InstallDir;
    forall x | x != Dir(a) ensures Target(t, x) == Target(s, x) {
      assert x.asid == a ==> Target(t, x) == None;
      assert x.asid != a ==> Target(t, x) == Target(r, x);
    }
  }

  lemma NewSpaceTags(s: State, t: State, a: nat)
    requires Coherent(s) && SameMaps(s, t) && SameShared(s, t)
    requires t.tlb == s.tlb && a !in s.spaces && t.spaces.Keys == s.spaces.Keys + {a}
    ensures Coherent(t)
  {
    forall tag | tag in t.tlb ensures TagOk(t, tag) {
      assert TagOk(s, tag);
    }
  }

  lemma NewDirTags(s: State, a: nat, p: nat)
    requires CanInstall(s, a, p)
    ensures Coherent(InstallDir(s, a, p)) && NoUserGlobal(InstallDir(s, a, p))
  {
    var t := InstallDir(s, a, p);
    NewDirOthers(s, a, p);
    NewDirMaps(s, a, p);
    hide Windows, Counted, FreeOk, InRange, Exclusive, SameMaps, SameShared, NewSpace, Coherent, NoUserGlobal;
    NewSpaceTags(s, t, a);
  }

  lemma NewDirKeeps(s: State, a: nat, p: nat)
    requires CanInstall(s, a, p)
    ensures var t := InstallDir(s, a, p);
            Inv(t) && OnlySlot(s, t, Dir(a)) && SameMaps(s, t) && NewSpace(s, t, a)
  {
    NewDirOthers(s, a, p);
    NewDirMaps(s, a, p);
    NewDirSlots(s, a, p);
    NewDirCounts(s, a, p);
    NewDirTags(s, a, p);
    hide InstallDir, Windows, Counted, FreeOk, InRange, Exclusive, NewSpace, OnlySlot, Coherent, NoUserGlobal, SameMaps;
  }

  lemma NewDirCounts(s: State, a: nat, p: nat)
    requires CanInstall(s, a, p)
    ensures var t := InstallDir(s, a, p); Counted(t) && FreeOk(t) && InRange(t) && Exclusive(t)
  {
    var t := InstallDir(s, a, p);
    NewDirSlots(s, a, p);
    hide Windows, Coherent, NoUserGlobal;
    RefsAre(s, p);
    LinkCounts(s, t, Dir(a), p);
    ShapeKept(s, t, Dir(a));
  }
}
