/**
  User stores: through a mapping of user memory, and through the windows above UTOP in which
  an environment sees its own page tables (kern/pmap.c, kern/env.c).
*/
module VmStores {
  import opened Mmu
  import opened Vm
  import opened VmRefs
  import opened VmFrames
  import opened VmOps
  import opened VmSpaces
  import opened VmTlb

  function Translate(s: State, a: nat, va: Addr): Option<Entry>
    requires a in s.spaces
  {
    Lookup(s, s.spaces[a], Pdx(va), Ptx(va))
  }

  /** The word of its page that va is in. */
  function WordOf(va: Addr): nat { va % BY2PG / 4 }

  /** A user store of one word: it takes effect through a writable mapping, wherever that leads. */
  function Store(s: State, a: nat, va: Addr, word: Entry): State
    requires a in s.spaces
  {
    match Translate(s, a, va)
    case Some(pte) => if IsWritable(pte) then SetWord(s, pte.ppn, WordOf(va), word) else s
    case None => s
  }

  /** A mapped user page can be mapped again elsewhere. */
  lemma TranslatedMappable(s: State, a: nat, va: Addr)
    requires Inv(s) && a in s.spaces && va < UTOP && Translate(s, a, va).Some?
    ensures Mappable(s, Translate(s, a, va).value.ppn)
  {
    var p := Translate(s, a, va).value.ppn;
    LayoutIndices(va);
    IndicesNamePage(va, va);
    assert Target(s, Leaf(a, Pdx(va), Ptx(va))) == Some(p);
    RefsAre(s, p);
  }

  /** Below UTOP a store reaches a page of data. */
  lemma StoreKeeps(s: State, a: nat, va: Addr, word: Entry)
    requires Inv(s) && a in s.spaces && va < UTOP
    ensures var t := Store(s, a, va, word); Inv(t) && SameMaps(s, t) && t.spaces == s.spaces
  {
    var t := Store(s, a, va, word);
    if Translate(s, a, va).Some? {
      var p := Translate(s, a, va).value.ppn;
      TranslatedMappable(s, a, va);
      if t != s {
        DataWriteFrame(s, t, p);
        SameCounts(s, t);
        StoreTags(s, t);
      }
    }
  }

  lemma StoreTags(s: State, t: State)
    requires Coherent(s) && NoUserGlobal(s) && SameMaps(s, t) && SameShared(s, t)
    requires t.spaces == s.spaces && t.tlb == s.tlb
    ensures Coherent(t) && NoUserGlobal(t)
  {
    forall tag | tag in t.tlb ensures TagOk(t, tag) {
      assert TagOk(s, tag);
    }
    forall b, k: nat, l: nat | b in t.spaces && k < PDX_UTOP && l < ENTRIES && Lookup(t, t.spaces[b], k, l).Some?
      ensures !IsGlobal(Lookup(t, t.spaces[b], k, l).value)
    {
      assert Lookup(t, t.spaces[b], k, l) == Lookup(s, s.spaces[b], k, l);
    }
  }

  // ----- stores through the UVPT window

  /** What a word is worth as a page-table entry. */
  function AsLeaf(word: Entry): Option<Entry> {
    if IsValid(word) then Some(word) else None
  }

  /**
    pgdir_walk makes directory entries writable, so an environment can rewrite its own page
    tables. Entry j of table i may become `word` if it names the same page, or as before
    none, is not global, and is not cached with other flags.
  */
  predicate TableHarmless(s: State, a: nat, i: nat, j: nat, word: Entry)
    requires a in s.spaces
  {
    var was, now := Lookup(s, s.spaces[a], i, j), AsLeaf(word);
    && was.Some? == now.Some? && (was.Some? ==> was.value.ppn == now.value.ppn)
    && (now.Some? ==> !IsGlobal(now.value))
    && (Tag(a, i, j) in s.tlb ==> now == was)
  }

  /** Likewise for the tables of the windows on envs and pages, which all environments share. */
  ghost predicate WindowHarmless(s: State, i: nat, j: nat, word: Entry) {
    && (AsLeaf(word).Some? ==> !IsWritable(word))
    && ((exists tag :: tag in s.tlb && tag.i == i && tag.j == j) ==> AsLeaf(word) == Lookup(s, s.base, i, j))
  }

  lemma SameTargetIff(s: State, t: State, x: Slot)
    requires InRange(s) && Counted(s) && OnlySlot(s, t, x) && t.npage == s.npage && t.reserved == s.reserved
    requires forall p: nat :: Ref(t, p) == Ref(s, p)
    ensures InRange(t) && Counted(t) ==> Target(t, x) == Target(s, x)
  {
    if InRange(t) && Target(t, x) != Target(s, x) {
      var p := if Target(s, x).Some? then Target(s, x).value else Target(t, x).value;
      RefsChange(s, t, x, p);
      RefsAre(s, p);
      assert x in Refs(s, p) <==> Target(s, x).Some?;
      assert |Refs(t, p)| != |Refs(s, p)|;
    }
  }

  lemma UserTableKeeps(s: State, a: nat, i: nat, j: nat, word: Entry)
    requires Inv(s) && a in s.spaces && i < PDX_UTOP && j < ENTRIES && IsValid(Word(s, s.spaces[a], i))
    requires TableHarmless(s, a, i, j, word)
    ensures Inv(SetWord(s, Word(s, s.spaces[a], i).ppn, j, word))
  {
    hide Template, DirOk;
    var t, x := SetWord(s, Word(s, s.spaces[a], i).ppn, j, word), Leaf(a, i, j);
    LeafWriteFrame(s, t, a, i, j, word);
    assert Target(t, x) == Target(s, x);
    SameCounts(s, t);
    NoGlobalKept(s, t, a, i, j);
    forall tag | tag in t.tlb ensures TagOk(t, tag) {
      assert TagOk(s, tag);
    }
  }

  lemma UserTableIff(s: State, a: nat, i: nat, j: nat, word: Entry)
    requires Inv(s) && a in s.spaces && i < PDX_UTOP && j < ENTRIES && IsValid(Word(s, s.spaces[a], i))
    ensures Inv(SetWord(s, Word(s, s.spaces[a], i).ppn, j, word)) <==> TableHarmless(s, a, i, j, word)
  {
    var t, x := SetWord(s, Word(s, s.spaces[a], i).ppn, j, word), Leaf(a, i, j);
    if TableHarmless(s, a, i, j, word) {
      UserTableKeeps(s, a, i, j, word);
    } else {
      LeafWriteFrame(s, t, a, i, j, word);
      SameTargetIff(s, t, x);
      hide Windows, Exclusive, FreeOk, Counted, SameMapsBut;
      assert Tag(a, i, j) in s.tlb ==> TagOk(s, Tag(a, i, j));
      assert Coherent(t) && Tag(a, i, j) in t.tlb ==> TagOk(t, Tag(a, i, j));
    }
  }

  predicate IsWindow(i: nat) { i == PDX_UTOP || i == PDX_UPAGES }

  /** Nothing but one entry of a shared window changes with its table. */
  lemma WindowWriteFrame(s: State, i: nat, j: nat, word: Entry)
    requires InRange(s) && Windows(s) && IsWindow(i)
    ensures var t := SetWord(s, Word(s, s.base, i).ppn, j, word);
            && (forall x :: Target(t, x) == Target(s, x))
            && (forall b :: b in s.spaces ==> DirOk(t, s.spaces[b]))
            && (forall b, k: nat, l: nat :: b in s.spaces && k < PDX_ULIM && (k, l) != (i, j)
                  ==> Lookup(t, s.spaces[b], k, l) == Lookup(s, s.spaces[b], k, l))
            && (forall k: nat, l: nat :: Shared(k, l) && (k, l) != (i, j) ==> SharedEntry(t, k, l) == SharedEntry(s, k, l))
            && SharedEntry(t, i, j) == AsLeaf(word)
            && (Template(t) <==> (AsLeaf(word).Some? ==> !IsWritable(word)))
  {
    var w := Word(s, s.base, i).ppn;
    var t := SetWord(s, w, j, word);
    WindowTemplate(s, i, j, word);
    hide Template;
    NoTableThere(s, i);
    WindowWords(s, t, w, i, j, word);
    WindowTargets(s, t, w, i);
  }

  /** The window's table is no environment's directory or page table. */
  lemma NoTableThere(s: State, i: nat)
    requires InRange(s) && Windows(s) && IsWindow(i)
    ensures var w := Word(s, s.base, i).ppn;
            && w != s.base && (forall b :: b in s.spaces ==> s.spaces[b] != w)
            && (forall b, k: nat :: b in s.spaces && k < PDX_UTOP && IsValid(Word(s, s.spaces[b], k))
                  ==> Word(s, s.spaces[b], k).ppn != w)
  {
    var w := Word(s, s.base, i).ppn;
    forall b | b in s.spaces ensures s.spaces[b] != w {
      assert Target(s, Dir(b)) == Some(s.spaces[b]);
    }
    forall b, k: nat | b in s.spaces && k < PDX_UTOP && IsValid(Word(s, s.spaces[b], k))
      ensures Word(s, s.spaces[b], k).ppn != w
    {
      assert Target(s, Table(b, k)) == Some(Word(s, s.spaces[b], k).ppn);
    }
  }

  lemma WindowTargets(s: State, t: State, w: nat, i: nat)
    requires t.spaces == s.spaces && w == Word(s, s.base, i).ppn && (forall b :: b in s.spaces ==> s.spaces[b] != w)
    requires forall b, k: nat :: b in s.spaces && k < PDX_UTOP && IsValid(Word(s, s.spaces[b], k)) ==> Word(s, s.spaces[b], k).ppn != w
    requires SameWordsBut(s, t, w)
    ensures forall x :: Target(t, x) == Target(s, x)
  {
  }

  lemma WindowWords(s: State, t: State, w: nat, i: nat, j: nat, word: Entry)
    requires InRange(s) && Windows(s) && IsWindow(i) && w == Word(s, s.base, i).ppn && t == SetWord(s, w, j, word) && w != s.base
    requires forall b :: b in s.spaces ==> s.spaces[b] != w
    requires forall b, k: nat :: b in s.spaces && k < PDX_UTOP && IsValid(Word(s, s.spaces[b], k)) ==> Word(s, s.spaces[b], k).ppn != w
    ensures SameWordsBut(s, t, w) && forall b :: b in s.spaces ==> DirOk(t, s.spaces[b])
    ensures forall b, k: nat, l: nat :: b in s.spaces && k < PDX_ULIM && (k, l) != (i, j)
              ==> Lookup(t, s.spaces[b], k, l) == Lookup(s, s.spaces[b], k, l)
    ensures forall k: nat, l: nat :: Shared(k, l) && (k, l) != (i, j) ==> SharedEntry(t, k, l) == SharedEntry(s, k, l)
    ensures SharedEntry(t, i, j) == AsLeaf(word)
  {
    assert SameWordsBut(s, t, w);
    forall b | b in s.spaces ensures DirOk(s, s.spaces[b]) {
    }
    hide InRange, Target;
  }

  lemma WindowTemplate(s: State, i: nat, j: nat, word: Entry)
    requires Template(s) && IsWindow(i)
    ensures Template(SetWord(s, Word(s, s.base, i).ppn, j, word)) <==> (AsLeaf(word).Some? ==> !IsWritable(word))
  {
    var w := Word(s, s.base, i).ppn;
    var t := SetWord(s, w, j, word);
    assert forall p: nat, k: nat :: p != w || k != j ==> Word(t, p, k) == Word(s, p, k);
    assert Word(t, w, j) == word;
  }

  lemma WindowTags(s: State, t: State, i: nat, j: nat, word: Entry)
    requires Coherent(s) && IsWindow(i) && t.tlb == s.tlb && t.spaces == s.spaces
    requires forall b, k: nat, l: nat :: b in s.spaces && k < PDX_ULIM && (k, l) != (i, j)
               ==> Lookup(t, s.spaces[b], k, l) == Lookup(s, s.spaces[b], k, l)
    requires forall k: nat, l: nat :: Shared(k, l) && (k, l) != (i, j) ==> SharedEntry(t, k, l) == SharedEntry(s, k, l)
    requires SharedEntry(t, i, j) == AsLeaf(word)
    ensures Coherent(t) <==> ((exists tag :: tag in s.tlb && tag.i == i && tag.j == j) ==> AsLeaf(word) == Lookup(s, s.base, i, j))
  {
    hide Lookup, SharedEntry;
    forall tag | tag in s.tlb
      ensures TagOk(t, tag) <==> (tag.i == i && tag.j == j ==> AsLeaf(word) == Some(s.tlb[tag]))
      ensures tag.i == i && tag.j == j ==> SharedEntry(s, i, j) == Some(s.tlb[tag])
    {
      assert TagOk(s, tag);
      if tag.i == i && tag.j == j {
        assert TagOk(t, tag) <==> AsLeaf(word) == Some(s.tlb[tag]);
      } else if Shared(tag.i, tag.j) {
        assert SharedEntry(t, tag.i, tag.j) == SharedEntry(s, tag.i, tag.j);
        assert TagOk(t, tag);
      } else {
        assert tag.asid in s.spaces && tag.i < PDX_ULIM && (tag.i, tag.j) != (i, j);
        assert Lookup(t, s.spaces[tag.asid], tag.i, tag.j) == Lookup(s, s.spaces[tag.asid], tag.i, tag.j);
        assert TagOk(t, tag);
      }
    }
    WindowEntry(s, i, j);
  }

  lemma WindowEntry(s: State, i: nat, j: nat)
    requires IsWindow(i)
    ensures SharedEntry(s, i, j) == Lookup(s, s.base, i, j)
  {
  }

  lemma WindowTableIff(s: State, i: nat, j: nat, word: Entry)
    requires Inv(s) && IsWindow(i) && j < ENTRIES
    ensures Inv(SetWord(s, Word(s, s.base, i).ppn, j, word)) <==> WindowHarmless(s, i, j, word)
  {
    var t := SetWord(s, Word(s, s.base, i).ppn, j, word);
    WindowWriteFrame(s, i, j, word);
    SameCounts(s, t);
    hide Template, DirOk, Counted, FreeOk;
    WindowTags(s, t, i, j, word);
    assert NoUserGlobal(t) by {
      forall b, k: nat, l: nat | b in t.spaces && k < PDX_UTOP && l < ENTRIES && Lookup(t, t.spaces[b], k, l).Some?
        ensures !IsGlobal(Lookup(t, t.spaces[b], k, l).value)
      {
        assert (k, l) != (i, j);
        assert Lookup(t, s.spaces[b], k, l) == Lookup(s, s.spaces[b], k, l);
      }
    }
    assert Windows(t) <==> Template(t);
    hide Windows, NoUserGlobal, Coherent, Lookup, SharedEntry;
    assert InRange(t) && Exclusive(t);
  }

  /**
    The exact condition, for every address: a user store keeps the invariant if and only if
    it goes below UTOP, finds no writable mapping, or is harmless to the page table it hits.
  */
  ghost predicate Harmless(s: State, a: nat, va: Addr, word: Entry)
    requires a in s.spaces
  {
    || va < UTOP || Translate(s, a, va) == None || !IsWritable(Translate(s, a, va).value)
    || (if IsWindow(Ptx(va)) then WindowHarmless(s, Ptx(va), WordOf(va), word)
        else TableHarmless(s, a, Ptx(va), WordOf(va), word))
  }

  /** What a writable mapping above UTOP is: a page table, the environment's own or a window's. */
  lemma WritableAbove(s: State, a: nat, va: Addr)
    requires Windows(s) && a in s.spaces && va >= UTOP
    requires Translate(s, a, va).Some? && IsWritable(Translate(s, a, va).value)
    ensures Ptx(va) < PDX_UTOP || IsWindow(Ptx(va))
    ensures IsValid(Word(s, s.spaces[a], Ptx(va))) && Translate(s, a, va).value == Word(s, s.spaces[a], Ptx(va))
    ensures IsWindow(Ptx(va)) ==> Word(s, s.spaces[a], Ptx(va)) == Word(s, s.base, Ptx(va))
  {
    LayoutIndices(va);
    IndicesNamePage(va, va);
    SelfMap(s, a, Ptx(va));
    assert DirOk(s, s.spaces[a]);
    assert PTE_V & PTE_D == 0;
  }

  lemma StoreKeepsIff(s: State, a: nat, va: Addr, word: Entry)
    requires Inv(s) && a in s.spaces
    ensures Inv(Store(s, a, va, word)) <==> Harmless(s, a, va, word)
  {
    hide Inv, TableHarmless, WindowHarmless;
    if va < UTOP {
      StoreKeeps(s, a, va, word);
    } else if Translate(s, a, va).Some? && IsWritable(Translate(s, a, va).value) {
      assert Windows(s) by { InvWindows(s); }
      WritableAbove(s, a, va);
      hide Lookup, Windows;
      if IsWindow(Ptx(va)) {
        WindowTableIff(s, Ptx(va), WordOf(va), word);
      } else {
        UserTableIff(s, a, Ptx(va), WordOf(va), word);
      }
    }
  }

  lemma InvWindows(s: State)
    requires Inv(s)
    ensures Windows(s)
  {
  }

  /** An input that fails, for any page an environment has mapped: it clears its own entry through UVPT. */
  lemma OwnEntryCleared(s: State, a: nat, i: nat, j: nat)
    requires Inv(s) && a in s.spaces && i < PDX_UTOP && j < ENTRIES && Lookup(s, s.spaces[a], i, j).Some?
    ensures var va: Addr := UVPT + i * BY2PG + 4 * j;
            && Translate(s, a, va).Some? && IsWritable(Translate(s, a, va).value)
            && !Counted(Store(s, a, va, ZERO))
  {
    var va: Addr := UVPT + i * BY2PG + 4 * j;
    WindowAddress(va, i, j);
    var pd, p := s.spaces[a], Lookup(s, s.spaces[a], i, j).value.ppn;
    SelfMap(s, a, i);
    assert DirOk(s, pd);
    assert IsWritable(Word(s, pd, i)) by { assert (PTE_D | PTE_V) & PTE_D != 0; }
    var t := SetWord(s, Word(s, pd, i).ppn, j, ZERO);
    assert Store(s, a, va, ZERO) == t;
    LeafWriteFrame(s, t, a, i, j, ZERO);
    hide Windows, Coherent, NoUserGlobal, Exclusive, FreeOk, SameMapsBut;
    assert Target(s, Leaf(a, i, j)) == Some(p);
    RefsUnlinked(s, t, Leaf(a, i, j), p);
  }

  lemma WindowAddress(va: Addr, i: nat, j: nat)
    requires i < PDX_UTOP && j < ENTRIES && va == UVPT + i * BY2PG + 4 * j
    ensures Pdx(va) == PDX_UVPT && Ptx(va) == i && WordOf(va) == j
  {
  }
}
