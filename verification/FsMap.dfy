/**
  Finding, allocating and clearing the blocks of one file: what file_block_walk,
  file_map_block and file_clear_block do to the owners of blocks.
*/
module FsMap {
  import opened Errors
  import opened Mmu
  import opened FsBlocks
  import opened FsOwners

  /** A pointer a walk can return: a data slot of f, its block in memory. */
  predicate Reachable(s: State, f: nat, n: nat) {
    f in s.files && n < NINDIRECT && (n >= NDIRECT ==> s.files[f].indirect != 0 && s.files[f].indirect in s.cache)
  }

  /** No other file has the indirect block of f, and none has one that is marked free. */
  ghost predicate TablesOk(s: State, f: nat) {
    forall g :: g in s.files ==> s.files[g].indirect !in s.free
                                 && (f in s.files && s.files[g].indirect == s.files[f].indirect != 0 ==> g == f)
  }

  lemma OwnTables(s: State, f: nat)
    requires Owned(s)
    ensures TablesOk(s, f)
  {
    forall g | g in s.files
      ensures s.files[g].indirect !in s.free
      ensures f in s.files && s.files[g].indirect == s.files[f].indirect != 0 ==> g == f
    {
      assert Owner(s, Table(g)) == s.files[g].indirect;
      assert Named(s, Owner(s, Table(g)));
      assert f in s.files ==> Owner(s, Table(f)) == s.files[f].indirect;
    }
  }

  /** A store through the pointer changes that slot and nothing else. */
  lemma PutIs(s: State, f: nat, n: nat, v: nat)
    requires TablesOk(s, f) && Reachable(s, f, n)
    ensures var t := Put(s, Data(f, n), v);
            && Frame(s, t, f) && t.free == s.free && Reachable(t, f, n)
            && (forall l :: Owner(t, l) == if l == Data(f, n) then v else Owner(s, l))
            && (forall b: nat :: b != s.files[f].indirect ==> Content(t, b) == Content(s, b))
            && t.files[f].indirect == s.files[f].indirect
  {
    var t := Put(s, Data(f, n), v);
    forall l ensures Owner(t, l) == if l == Data(f, n) then v else Owner(s, l) {
    }
  }

  /** The walk needs a new indirect block and gets one. */
  predicate TakesTable(s: State, f: nat, n: nat)
    requires f in s.files
  {
    NDIRECT <= n < NINDIRECT && s.files[f].indirect == 0 && AllocBlock(s).Got?
  }

  /** As an indirect block, b would name nothing: it is not in the cache, or zero there. */
  predicate Clean(s: State, b: nat) {
    b in s.cache ==> forall i :: NDIRECT <= i < NINDIRECT ==> s.cache[b][i] == 0
  }

  function LinkTable(s: State, f: nat): State
    requires f in s.files && AllocBlock(s).Got?
  {
    var a := AllocBlock(s);
    a.s.(files := a.s.files[f := a.s.files[f].(indirect := a.b)])
  }

  /** Linking a new indirect block: only its own slot and the slots inside it can change. */
  lemma LinkIs(s: State, f: nat)
    requires Owned(s) && f in s.files && s.files[f].indirect == 0 && AllocBlock(s).Got?
    ensures var t, b := LinkTable(s, f), AllocBlock(s).b;
            && Frame(s, t, f) && t.free == s.free - {b} && b in s.free && b in t.cache
            && t.files[f].indirect == b && t.files[f].direct == s.files[f].direct
            && (forall c: nat :: c != b ==> Content(t, c) == Content(s, c))
            && (forall i :: Owner(s, InTable(f, i)) == 0)
            && (forall l: Slot :: !(l.InTable? && l.f == f) && l != Table(f) ==> Owner(t, l) == Owner(s, l))
            && (forall i :: NDIRECT <= i < NINDIRECT ==>
                  Owner(t, InTable(f, i)) == if b in s.cache then s.cache[b][i] else 0)
  {
    AllocIs(s);
    var t, b := LinkTable(s, f), AllocBlock(s).b;
    OwnTables(s, f);
    hide AllocBlock, Owned, Content;
  }

  /** A clean block becomes an indirect block without any other slot noticing. */
  lemma LinkKeepsIff(s: State, f: nat)
    requires Owned(s) && f in s.files && s.files[f].indirect == 0 && AllocBlock(s).Got?
    ensures Clean(s, AllocBlock(s).b) ==> Gained(s, LinkTable(s, f), Table(f), AllocBlock(s).b)
    ensures Owned(LinkTable(s, f)) <==> Clean(s, AllocBlock(s).b)
  {
    LinkIs(s, f);
    var t, b := LinkTable(s, f), AllocBlock(s).b;
    hide AllocBlock, LinkTable;
    if Clean(s, b) {
      assert forall l :: Owner(t, l) == if l == Table(f) then b else Owner(s, l);
      GainKeeps(s, t, Table(f), b);
    } else {
      var i :| NDIRECT <= i < NINDIRECT && s.cache[b][i] != 0;
      assert Owner(t, Table(f)) == b;
      StrayBreaks(s, t, InTable(f, i));
    }
  }

  /** The state the pointer of a walk refers to, before the table is read into memory. */
  function Linked(s: State, f: nat, n: nat, alloc: bool): State
    requires f in s.files
  {
    if alloc && TakesTable(s, f, n) then LinkTable(s, f) else s
  }

  /** file_block_walk: the slot is the right one, and reading the table changes no owner. */
  lemma WalkIs(s: State, f: nat, n: nat, alloc: bool)
    requires f in s.files && (forall b :: b in s.free ==> b < s.nblocks)
    ensures var w := Walk(s, f, n, alloc);
            && (w.At? ==> n < NINDIRECT && w.k == Data(f, n) && Reachable(w.s, f, n) && w.s.nblocks == s.nblocks
                          && var t := Linked(s, f, n, alloc);
                          SameOwners(t, w.s) && w.s.files == t.files && w.s.disk == t.disk
                          && forall c: nat :: Content(w.s, c) == Content(t, c))
            && (w.Miss? ==> w.s == s.(pages := w.s.pages) && SameOwners(s, w.s) && n >= NDIRECT && w.code < 0)
            && (w.Miss? ==> forall c: nat :: Content(w.s, c) == Content(s, c))
            && (w.Miss? && n < NINDIRECT ==> s.files[f].indirect == 0)
  {
    var w := Walk(s, f, n, alloc);
    if w.At? && n >= NDIRECT {
      var t := Linked(s, f, n, alloc);
      ReadIs(t, t.files[f].indirect);
      if alloc && TakesTable(s, f, n) {
        AllocIs(s);
      }
      hide AllocBlock, Content, SameOwners;
    } else if w.Miss? && n < NINDIRECT && alloc {
      AllocFails(s);
    }
  }

  lemma SlotEmpty(s: State, f: nat, n: nat)
    requires f in s.files && (n >= NINDIRECT || (n >= NDIRECT && s.files[f].indirect == 0))
    ensures Owner(s, Data(f, n)) == 0
  {
  }

  /** Freeing the block a slot names and clearing the slot. */
  lemma EmptyIs(s: State, f: nat, n: nat)
    requires Owned(s) && Reachable(s, f, n) && Owner(s, Data(f, n)) != 0
    ensures var t := Put(FreeBlock(s, Owner(s, Data(f, n))), Data(f, n), 0);
            && Lost(s, t, Data(f, n)) && Owned(t) && Frame(s, t, f) && SameBlocks(s, t, f)
            && t.files[f].indirect == s.files[f].indirect
  {
    var k := Data(f, n);
    var u := FreeBlock(s, Owner(s, k));
    OwnTables(s, f);
    assert forall l :: Owner(u, l) == Owner(s, l);
    assert forall b: nat :: Content(u, b) == Content(s, b);
    if n >= NDIRECT && Owner(s, k) == s.files[f].indirect {
      assert Owner(s, Table(f)) == Owner(s, k);
    }
    TablesStay(s, f, k);
    PutIs(u, f, n, 0);
    hide Owner, Content, TablesOk;
    LossKeeps(s, Put(u, k, 0), k);
  }

  /** Freeing a data block frees nobody's indirect block. */
  lemma TablesStay(s: State, f: nat, k: Slot)
    requires Owned(s) && !k.Table?
    ensures TablesOk(FreeBlock(s, Owner(s, k)), f)
  {
    OwnTables(s, f);
    forall g | g in s.files && Owner(s, k) != 0 ensures s.files[g].indirect != Owner(s, k) {
      assert Owner(s, Table(g)) == s.files[g].indirect;
    }
    hide Owner;
  }

  /** file_clear_block empties the one slot, if it held anything, and frees its block. */
  lemma ClearIs(s: State, f: nat, n: nat)
    requires Owned(s) && f in s.files && ClearBlock(s, f, n).Ret?
    ensures var t := ClearBlock(s, f, n).s;
            && Owned(t) && Frame(s, t, f) && SameBlocks(s, t, f) && t.files[f].indirect == s.files[f].indirect
            && (forall l :: Owner(t, l) == if l == Data(f, n) then 0 else Owner(s, l))
  {
    var w := Walk(s, f, n, false);
    WalkIs(s, f, n, false);
    if w.At? {
      SameKeeps(s, w.s);
      if Owner(w.s, Data(f, n)) != 0 {
        EmptyIs(w.s, f, n);
      }
      hide Owner, Content, Owned, Put, FreeBlock, Walk;
    } else {
      SlotEmpty(s, f, n);
    }
  }

  /** Storing a newly allocated block through the pointer. */
  function Filled(s: State, f: nat, n: nat): State
    requires AllocBlock(s).Got?
  {
    Put(AllocBlock(s).s, Data(f, n), AllocBlock(s).b)
  }

  lemma FillIs(s: State, f: nat, n: nat)
    requires TablesOk(s, f) && Reachable(s, f, n) && AllocBlock(s).Got? && Owner(s, Data(f, n)) == 0
    ensures var t := Filled(s, f, n);
            && Gained(s, t, Data(f, n), AllocBlock(s).b) && Frame(s, t, f) && SameContents(s, t, f)
            && Reachable(t, f, n) && t.files[f].indirect == s.files[f].indirect
  {
    AllocIs(s);
    var u, b := AllocBlock(s).s, AllocBlock(s).b;
    assert forall l :: Owner(u, l) == Owner(s, l);
    PutIs(u, f, n, b);
    hide AllocBlock, Content, Owner;
  }

  lemma InUse(s: State)
    requires Owned(s)
    ensures forall k :: Owner(s, k) != 0 ==> Owner(s, k) !in s.free
  {
    hide Owner;
    forall k | Owner(s, k) != 0 ensures Owner(s, k) !in s.free {
      assert Named(s, Owner(s, k));
    }
  }

  /** The end of file_map_block, once the walk found the slot. */
  lemma FillKeeps(s: State, f: nat, n: nat, alloc: bool)
    requires Owned(s) && Reachable(s, f, n)
    ensures var m := Fill(s, Data(f, n), alloc);
            && m.Ret? && Owned(m.s) && Frame(s, m.s, f) && SameContents(s, m.s, f)
            && (forall l :: l != Data(f, n) ==> Owner(m.s, l) == Owner(s, l))
            && m.s.files[f].indirect == s.files[f].indirect
            && (m.code == 0 ==> m.b != 0 && m.b == Owner(m.s, Data(f, n)))
            && (m.code != 0 ==> Owner(s, Data(f, n)) == Owner(m.s, Data(f, n)) == 0)
            && (Owner(s, Data(f, n)) != 0 ==> m.s == s)
            && (Owner(s, Data(f, n)) == 0 && m.code == 0 ==> alloc && m.b in s.free)
  {
    hide Content, Owner;
    OwnTables(s, f);
    if Owner(s, Data(f, n)) == 0 && alloc {
      if AllocBlock(s).Got? {
        FillIs(s, f, n);
        AllocIs(s);
        GainKeeps(s, Filled(s, f, n), Data(f, n), AllocBlock(s).b);
      } else {
        AllocFails(s);
        AllocCodes(s);
        SameKeeps(s, AllocBlock(s).s);
      }
    }
  }

  /**
    file_map_block on a file whose new indirect block, if it takes one, is clean: the block
    found is the slot's, a new one was free before, and all other data slots are unchanged.
  */
  lemma MapKeeps(s: State, f: nat, n: nat, alloc: bool)
    requires Owned(s) && f in s.files && MapBlock(s, f, n, alloc).Ret?
    requires alloc && TakesTable(s, f, n) ==> Clean(s, AllocBlock(s).b)
    ensures var m := MapBlock(s, f, n, alloc);
            && Owned(m.s) && Frame(s, m.s, f) && SameContents(s, m.s, f)
            && (forall l :: l != Data(f, n) && l != Table(f) ==> Owner(m.s, l) == Owner(s, l))
            && m.s.files[f].indirect == Linked(s, f, n, alloc).files[f].indirect
            && (m.code == 0 ==> n < NINDIRECT && m.b != 0 && m.b == Owner(m.s, Data(f, n)))
            && (m.code != 0 ==> Owner(s, Data(f, n)) == Owner(m.s, Data(f, n)) == 0)
            && (Owner(s, Data(f, n)) != 0 ==> SameOwners(s, m.s))
            && (Owner(s, Data(f, n)) == 0 && m.code == 0 ==> alloc && m.b in s.free)
  {
    hide Content, Owner, Fill, AllocBlock, LinkTable;
    var w := Walk(s, f, n, alloc);
    WalkIs(s, f, n, alloc);
    var t := Linked(s, f, n, alloc);
    if alloc && TakesTable(s, f, n) {
      LinkIs(s, f);
      LinkKeepsIff(s, f);
    }
    hide TakesTable;
    if w.At? {
      SameKeeps(t, w.s);
      OwnTables(w.s, f);
      hide Owned, Walk;
      FillKeeps(w.s, f, n, alloc);
    } else {
      SlotEmpty(s, f, n);
      SameKeeps(s, w.s);
    }
  }

  /** Without alloc, file_map_block is a lookup, and says why it finds nothing. */
  lemma LookupIs(s: State, f: nat, n: nat)
    requires Owned(s) && f in s.files && MapBlock(s, f, n, false).Ret?
    ensures var m := MapBlock(s, f, n, false);
            && SameOwners(s, m.s) && m.s.files == s.files
            && (forall c: nat :: Content(m.s, c) == Content(s, c))
            && m.b == Owner(s, Data(f, n))
            && m.code == (if n >= NINDIRECT then -E_INVAL else if Owner(s, Data(f, n)) == 0 then -E_NOT_FOUND else 0)
  {
    WalkIs(s, f, n, false);
    hide Content, ReadBlock;
  }

  /** Reading never panics for a named block as long as there is memory for it. */
  lemma NoPanic(s: State, f: nat, n: nat)
    requires Owned(s) && f in s.files
    ensures MapBlock(s, f, n, false).Halt? <==> ClearBlock(s, f, n).Halt?
    ensures ClearBlock(s, f, n).Halt? <==>
              && NDIRECT <= n < NINDIRECT && s.files[f].indirect != 0
              && s.files[f].indirect !in s.cache && s.pages < Cost(s, s.files[f].indirect)
  {
    InUse(s);
    assert Owner(s, Table(f)) == s.files[f].indirect;
  }

  /**
    The condition of MapKeeps is exact: a block that is still cached with something in it
    must not become an indirect block, because what is in it is then taken for block numbers.
  */
  lemma MapKeepsIff(s: State, f: nat, n: nat)
    requires Owned(s) && f in s.files && MapBlock(s, f, n, true).Ret?
    ensures Owned(MapBlock(s, f, n, true).s) <==> (TakesTable(s, f, n) ==> Clean(s, AllocBlock(s).b))
    ensures Owned(MapBlock(s, f, n, true).s) || Clashes(MapBlock(s, f, n, true).s)
  {
    if TakesTable(s, f, n) && !Clean(s, AllocBlock(s).b) {
      LinkIs(s, f);
      WalkIs(s, f, n, true);
      var i :| NDIRECT <= i < NINDIRECT && s.cache[AllocBlock(s).b][i] != 0;
      hide LinkTable, Owned, Clean;
      DirtyBreaks(s, f, n, i);
    } else {
      MapKeeps(s, f, n, true);
    }
  }

  lemma DirtyBreaks(s: State, f: nat, n: nat, i: nat)
    requires Owned(s) && f in s.files && MapBlock(s, f, n, true).Ret? && TakesTable(s, f, n)
    requires NDIRECT <= i < NINDIRECT && Owner(LinkTable(s, f), InTable(f, i)) != 0
    ensures Clashes(MapBlock(s, f, n, true).s) && !Owned(MapBlock(s, f, n, true).s)
  {
    LinkIs(s, f);
    WalkIs(s, f, n, true);
    var t, u, b := LinkTable(s, f), MapBlock(s, f, n, true).s, AllocBlock(s).b;
    var w, k := Walk(s, f, n, true).s, Data(f, n);
    OwnTables(s, f);
    InUse(s);
    assert Owner(t, Table(f)) == b;
    assert TablesOk(w, f);
    hide LinkTable, Clean, Walk;
    if Owner(w, k) == 0 && AllocBlock(w).Got? {
      FillIs(w, f, n);
      assert Owner(u, k) == AllocBlock(w).b;
    } else if Owner(w, k) == 0 {
      AllocFails(w);
    }
    hide Owner, AllocBlock, Owned;
    StrayBreaks(s, u, InTable(f, i));
  }

  /** Whatever is found in a new indirect block, the slots of other files stay as they are. */
  lemma MapElsewhere(s: State, f: nat, n: nat)
    requires Owned(s) && f in s.files && MapBlock(s, f, n, true).Ret?
    ensures var m := MapBlock(s, f, n, true).s;
            m.nblocks == s.nblocks && forall l: Slot :: l.f != f ==> Owner(m, l) == Owner(s, l)
  {
    WalkIs(s, f, n, true);
    var t, w, k := Linked(s, f, n, true), Walk(s, f, n, true), Data(f, n);
    if TakesTable(s, f, n) {
      LinkIs(s, f);
    }
    OwnTables(s, f);
    if w.At? {
      assert TablesOk(w.s, f);
      hide LinkTable, Walk, TakesTable, Owned, Content;
      if Owner(w.s, k) == 0 && AllocBlock(w.s).Got? {
        FillIs(w.s, f, n);
      } else if Owner(w.s, k) == 0 {
        AllocFails(w.s);
      }
      hide Owner, AllocBlock;
    }
  }

  // ----- when file_map_block fails

  /** Out of blocks, or out of memory for the one that is next. */
  predicate NoBlock(s: State) {
    match NextFree(s, 3)
    case None => true
    case Some(b) => b !in s.cache && s.pages < Cost(s, b)
  }

  /** Once block b is in the cache too. */
  function Loaded(s: State, b: nat): State {
    if b in s.cache || s.pages < Cost(s, b) then s else s.(cache := s.cache[b := Zeros()], pages := s.pages - Cost(s, b))
  }

  /**
    The index is out of range, or the slot is empty and there is no block for it, or none
    for the indirect block it needs first.
  */
  predicate CannotMap(s: State, f: nat, n: nat)
    requires f in s.files
  {
    var table := s.files[f].indirect;
    if n >= NINDIRECT then true
    else if Owner(s, Data(f, n)) != 0 then false
    else if n < NDIRECT then NoBlock(s)
    else if table != 0 then NoBlock(Loaded(s, table))
    else NoBlock(s) || (var b := NextFree(s, 3); b.Some? && NoBlock(Loaded(s.(free := s.free - {b.value}), b.value)))
  }

  lemma NoBlockIff(s: State)
    ensures AllocBlock(s).Failed? <==> NoBlock(s)
  {
  }

  /** The search for a block sees the bitmap only, and memory counts mapped blocks only. */
  lemma SameSearch(s: State, t: State, from: nat)
    requires t.free == s.free && t.nblocks == s.nblocks
    ensures NextFree(t, from) == NextFree(s, from)
    ensures t.cache.Keys == s.cache.Keys ==> forall b :: Cost(t, b) == Cost(s, b)
    ensures from == 3 && t.cache.Keys == s.cache.Keys && t.pages == s.pages ==> (NoBlock(t) <==> NoBlock(s))
    decreases s.nblocks - from
  {
    if t.cache.Keys == s.cache.Keys {
      assert forall c :: c in t.cache <==> c in t.cache.Keys;
      assert forall c :: c in s.cache <==> c in s.cache.Keys;
    }
  }

  lemma AllocAfterWalk(s: State, f: nat, n: nat)
    requires Owned(s) && f in s.files && Walk(s, f, n, true).At?
    ensures var w := Walk(s, f, n, true).s;
            AllocBlock(w).Failed? <==>
              (if n < NDIRECT then NoBlock(s)
               else if s.files[f].indirect != 0 then NoBlock(Loaded(s, s.files[f].indirect))
               else NextFree(s, 3).Some?
                    && NoBlock(Loaded(s.(free := s.free - {NextFree(s, 3).value}), NextFree(s, 3).value)))
  {
    var w, table := Walk(s, f, n, true).s, s.files[f].indirect;
    NoBlockIff(w);
    InUse(s);
    assert Owner(s, Table(f)) == table;
    if n >= NDIRECT && table != 0 {
      SameSearch(Loaded(s, table), w, 3);
    } else if n >= NDIRECT {
      var b := NextFree(s, 3).value;
      SameSearch(Loaded(s.(free := s.free - {b}), b), w, 3);
    }
  }

  /** file_map_block fails exactly then, unless it panics. */
  lemma MapFailsIff(s: State, f: nat, n: nat)
    requires Owned(s) && f in s.files && MapBlock(s, f, n, true).Ret?
    requires TakesTable(s, f, n) ==> Clean(s, AllocBlock(s).b)
    ensures MapBlock(s, f, n, true).code != 0 <==> CannotMap(s, f, n)
  {
    var w := Walk(s, f, n, true);
    WalkIs(s, f, n, true);
    NoBlockIff(s);
    if w.At? {
      AllocAfterWalk(s, f, n);
      SlotAfterWalk(s, f, n);
      if AllocBlock(w.s).Failed? {
        AllocCodes(w.s);
      }
      hide Walk, NoBlock, Loaded, Owned, Clean, AllocBlock, NextFree;
    } else if n < NINDIRECT {
      SlotEmpty(s, f, n);
    }
  }

  lemma AllocCodes(s: State)
    requires AllocBlock(s).Failed?
    ensures AllocBlock(s).code < 0
  {
  }

  /** The walk does not change what the slot holds. */
  lemma SlotAfterWalk(s: State, f: nat, n: nat)
    requires Owned(s) && f in s.files && Walk(s, f, n, true).At?
    requires TakesTable(s, f, n) ==> Clean(s, AllocBlock(s).b)
    ensures Owner(Walk(s, f, n, true).s, Data(f, n)) == Owner(s, Data(f, n))
  {
    WalkIs(s, f, n, true);
    if TakesTable(s, f, n) {
      LinkIs(s, f);
      LinkKeepsIff(s, f);
    }
    hide Owned, Walk;
  }
}
