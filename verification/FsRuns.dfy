/**
  Whole runs of the file server: what each request does, when it keeps every block owned
  by a struct File in the tree, and requests that do not.
*/
module FsRuns {
  import opened Mmu
  import opened FsBlocks
  import opened FsOwners
  import opened FsMap
  import opened FsFiles
  import opened FsDirs
  import opened FsEntries

  /**
    What happens in the server; which requests cause it is up to its clients. `found` has
    the struct Files with a name in the block concerned, when it is a directory's.
  */
  datatype Event =
    | Get(f: nat, n: nat, found: Entries)                  // file_get_block
    | Find(f: nat, n: nat)                                 // file_dirty, file_flush: file_map_block without alloc
    | SetSize(f: nat, size: nat)
    | Remove(f: nat)                                       // file_remove: truncation to 0, and the name is cleared
    | Create(d: nat, n: nat, k: nat, file: File)           // struct File k of block n of d gets a name, its words being `file`
    | Store(f: nat, n: nat, block: Block, found: Entries)  // a client writes the page of a data block
    | Edit(f: nat, n: nat, block: Block)                   // the server's own stores into a directory's block
    | Memory(pages: nat)                                   // the kernel's free memory changes

  /** None is a panic. Requests are about struct Files that have a name. */
  function Step(s: State, ev: Event): Option<State> {
    match ev
    case Get(f, n, found) =>
      if f !in s.files then Some(s)
      else (match GetBlock(s, f, n) case None => None case Some(t) => Some(Opened(s, t, f, n, found)))
    case Find(f, n) =>
      if f !in s.files then Some(s)
      else (match MapBlock(s, f, n, false) case Halt => None case Ret(t, _, _) => Some(t))
    case SetSize(f, size) =>
      if f !in s.files then Some(s)
      else
        (match FsBlocks.SetSize(s, f, size)
         case None => None
         case Some(t) => Some(if s.files[f].size > size then Purge(t) else t))
    case Remove(f) =>
      if f !in s.files then Some(s)
      else (match Truncate(s, f, 0) case None => None case Some(t) => Some(Unnamed(Purge(t), f)))
    case Create(d, n, k, file) => Some(Created(s, d, n, k, file))
    case Store(f, n, block, found) => Some(Stored(s, f, n, block, found))
    case Edit(f, n, block) =>
      var b := Owner(s, Data(f, n));
      if b == 0 || b !in s.cache || !s.files[f].dir then Some(s) else Some(s.(cache := s.cache[b := block]))
    case Memory(pages) => Some(s.(pages := pages))
  }

  function Created(s: State, d: nat, n: nat, k: nat, file: File): State {
    if d in s.files && s.files[d].dir && Owner(s, Data(d, n)) != 0 && k < FILE2BLK
    then Enter(s, Owner(s, Data(d, n)), map[k := file]) else s
  }

  function Stored(s: State, f: nat, n: nat, block: Block, found: Entries): State {
    var b := Owner(s, Data(f, n));
    if b == 0 || b !in s.cache then s
    else if s.files[f].dir then Overwrite(s, b, block, found)
    else s.(cache := s.cache[b := block])
  }

  /** file_get_block: map the block, then read it. */
  function GetBlock(s: State, f: nat, n: nat): (r: Option<State>)
    requires f in s.files
  {
    match MapBlock(s, f, n, true)
    case Halt => None
    case Ret(t, code, b) => if code != 0 then Some(t) else ReadBlock(t, b)
  }

  /** A block that is new to a directory brings the struct Files that are in it. */
  function Opened(s: State, t: State, f: nat, n: nat, found: Entries): State
    requires f in s.files
  {
    if s.files[f].dir && Owner(s, Data(f, n)) == 0 && Owner(t, Data(f, n)) != 0
    then Enter(t, Owner(t, Data(f, n)), found) else t
  }

  /** The root directory keeps its struct File. */
  function Unnamed(s: State, f: nat): State {
    if f == ROOT then s else s.(files := s.files - {f})
  }

  /**
    When an event keeps the state sound. A block is asked for within the size or cannot be
    had; an indirect block is not taken dirty from the cache; and the struct Files that a
    directory's block brings, that lie in dropped blocks, or that are overwritten, name
    nothing or what they named before.
  */
  ghost predicate Allowed(s: State, ev: Event) {
    match ev
    case Get(f, n, found) => f in s.files ==> CanGet(s, f, n, found)
    case SetSize(f, size) => f in s.files && s.files[f].size > size ==> Spares(s, f, size)
    case Remove(f) => f in s.files ==> Spares(s, f, 0)
    case Create(d, n, k, file) =>
      d in s.files && s.files[d].dir && Owner(s, Data(d, n)) != 0 && k < FILE2BLK && FileAt(Owner(s, Data(d, n)), k) !in s.files
      ==> NamesNothing(file)
    case Store(f, n, block, found) =>
      var b := Owner(s, Data(f, n));
      b != 0 && b in s.cache && s.files[f].dir ==> Fits(s, Overwrite(s, b, block, found), b)
    case _ => true
  }

  ghost predicate CanGet(s: State, f: nat, n: nat, found: Entries)
    requires f in s.files
  {
    && (n <= s.files[f].size / BY2BLK || CannotMap(s, f, n))
    && (TakesTable(s, f, n) ==> Clean(s, AllocBlock(s).b))
    && (s.files[f].dir && Owner(s, Data(f, n)) == 0 && !CannotMap(s, f, n) ==> AllNameNothing(found))
  }

  // ----- file_get_block

  /** Before any new struct Files are looked at. */
  lemma MappedIff(s: State, f: nat, n: nat)
    requires Sound(s) && f in s.files && GetBlock(s, f, n).Some? && (TakesTable(s, f, n) ==> Clean(s, AllocBlock(s).b))
    ensures var t := GetBlock(s, f, n).value;
            && (Sound(t) <==> n <= s.files[f].size / BY2BLK || CannotMap(s, f, n))
            && (Bounded(t, f) <==> n <= s.files[f].size / BY2BLK || CannotMap(s, f, n))
            && (Owner(t, Data(f, n)) == 0 <==> Owner(s, Data(f, n)) == 0 && CannotMap(s, f, n))
            && (Owner(s, Data(f, n)) == 0 && Owner(t, Data(f, n)) != 0 ==> Owner(t, Data(f, n)) in s.free)
            && t.files.Keys == s.files.Keys && t.files[f].dir == s.files[f].dir && t.files[f].size == s.files[f].size
  {
    hide GetBlock, CannotMap, TakesTable, Clean, Owner, Owned, Bounded, Tree;
    GotIs(s, f, n);
    GotTree(s, GetBlock(s, f, n).value, f, n);
    GotBounded(s, GetBlock(s, f, n).value, f, n);
  }

  lemma GotTree(s: State, t: State, f: nat, n: nat)
    requires Sound(s) && f in s.files && Frame(s, t, f)
    requires forall l :: l != Data(f, n) && l != Table(f) ==> Owner(t, l) == Owner(s, l)
    requires Owner(s, Data(f, n)) != 0 ==> Owner(t, Data(f, n)) == Owner(s, Data(f, n))
    ensures Tree(t)
  {
    hide Owner, Tidy, Tree;
    TreeGrows(s, t);
  }

  lemma GotBounded(s: State, t: State, f: nat, n: nat)
    requires Tidy(s) && f in s.files && Frame(s, t, f)
    requires forall l :: l != Data(f, n) && l != Table(f) ==> Owner(t, l) == Owner(s, l)
    ensures forall g {:trigger Bounded(t, g)} :: g != f ==> Bounded(t, g)
  {
    hide Owner, Owned;
    forall g ensures g != f ==> Bounded(t, g) {
      if g != f {
        assert Bounded(s, g);
        BoundedStays(s, t, g);
      }
    }
  }

  /** file_get_block on a file whose new indirect block, if it takes one, is clean. */
  lemma GotIs(s: State, f: nat, n: nat)
    requires Tidy(s) && f in s.files && GetBlock(s, f, n).Some? && (TakesTable(s, f, n) ==> Clean(s, AllocBlock(s).b))
    ensures var t := GetBlock(s, f, n).value;
            && Owned(t) && Frame(s, t, f)
            && (Bounded(t, f) <==> n <= s.files[f].size / BY2BLK || CannotMap(s, f, n))
            && (forall l :: l != Data(f, n) && l != Table(f) ==> Owner(t, l) == Owner(s, l))
            && (Owner(s, Data(f, n)) != 0 ==> Owner(t, Data(f, n)) == Owner(s, Data(f, n)))
            && (Owner(t, Data(f, n)) == 0 <==> Owner(s, Data(f, n)) == 0 && CannotMap(s, f, n))
            && (Owner(s, Data(f, n)) == 0 && Owner(t, Data(f, n)) != 0 ==> Owner(t, Data(f, n)) in s.free)
  {
    var m, t := MapBlock(s, f, n, true), GetBlock(s, f, n).value;
    MapKeeps(s, f, n, true);
    MapBoundedIff(s, f, n);
    MapFailsIff(s, f, n);
    if m.code == 0 {
      ReadIs(m.s, m.b);
    }
    assert Bounded(s, f);
    if Owner(s, Data(f, n)) != 0 {
      OwnedNotCannot(s, f, n);
    }
    hide MapBlock, ReadBlock, AllocBlock, CannotMap, TakesTable, Clean, Content, Owner, SameContents, Owned;
    assert SameOwners(m.s, t);
    SameKeeps(m.s, t);
    BoundedSame(m.s, t, f);
  }

  lemma OwnedNotCannot(s: State, f: nat, n: nat)
    requires f in s.files && Owner(s, Data(f, n)) != 0
    ensures !CannotMap(s, f, n)
  {
  }

  lemma BoundedSame(s: State, t: State, f: nat)
    requires SameOwners(s, t) && (f in t.files <==> f in s.files) && (f in s.files ==> t.files[f].size == s.files[f].size)
    ensures Bounded(t, f) <==> Bounded(s, f)
  {
    hide Owner, Data;
  }

  lemma GetKeepsIff(s: State, f: nat, n: nat, found: Entries)
    requires Sound(s) && f in s.files && GetBlock(s, f, n).Some?
    ensures Sound(Opened(s, GetBlock(s, f, n).value, f, n, found)) <==> CanGet(s, f, n, found)
  {
    hide CannotMap, Clean, GetBlock, Owner, AllocBlock, Sound, Opened;
    if TakesTable(s, f, n) && !Clean(s, AllocBlock(s).b) {
      GetDirty(s, f, n, found);
      assert !Sound(Opened(s, GetBlock(s, f, n).value, f, n, found)) by {
        NotOwned(Opened(s, GetBlock(s, f, n).value, f, n, found));
      }
    } else {
      MappedIff(s, f, n);
      GetOpened(s, GetBlock(s, f, n).value, f, n, found);
    }
  }

  lemma NotOwned(s: State)
    requires !Owned(s)
    ensures !Sound(s)
  {
  }

  lemma GetDirty(s: State, f: nat, n: nat, found: Entries)
    requires Sound(s) && f in s.files && GetBlock(s, f, n).Some? && TakesTable(s, f, n) && !Clean(s, AllocBlock(s).b)
    ensures !Owned(Opened(s, GetBlock(s, f, n).value, f, n, found))
  {
    var m, t := MapBlock(s, f, n, true), GetBlock(s, f, n).value;
    MapKeepsIff(s, f, n);
    if m.code == 0 {
      ReadIs(m.s, m.b);
    }
    var u := Opened(s, t, f, n, found);
    hide MapBlock, TakesTable, Clean, AllocBlock, ReadBlock, Sound;
    OpenedMore(s, t, f, n, found);
    hide Owner, Opened, Content;
    ClashStays(m.s, u);
    ClashBreaks(u);
  }

  lemma OpenedMore(s: State, t: State, f: nat, n: nat, found: Entries)
    requires f in s.files
    ensures var u := Opened(s, t, f, n, found);
            u.free == t.free && u.nblocks == t.nblocks && forall l :: Owner(t, l) != 0 ==> Owner(u, l) == Owner(t, l)
  {
    var u := Opened(s, t, f, n, found);
    assert forall c: nat :: Content(u, c) == Content(t, c);
    hide Content, Placed;
  }

  lemma GetOpened(s: State, t: State, f: nat, n: nat, found: Entries)
    requires Sound(s) && f in s.files && t.files.Keys == s.files.Keys && t.files[f].dir == s.files[f].dir
    requires t.files[f].size == s.files[f].size && (Sound(t) <==> Bounded(t, f))
    requires Owner(s, Data(f, n)) == 0 && Owner(t, Data(f, n)) != 0 ==> Owner(t, Data(f, n)) in s.free
    ensures var opens := s.files[f].dir && Owner(s, Data(f, n)) == 0 && Owner(t, Data(f, n)) != 0;
            Sound(Opened(s, t, f, n, found)) <==> Bounded(t, f) && (opens ==> AllNameNothing(found))
  {
    if s.files[f].dir && Owner(s, Data(f, n)) == 0 && Owner(t, Data(f, n)) != 0 {
      var b := Owner(t, Data(f, n));
      forall x | x in t.files ensures Home(x) != b {
        HomeInUse(s, x);
      }
      assert NewNameNothing(t, b, found) <==> AllNameNothing(found) by {
        assert forall k: nat :: k < FILE2BLK ==> Home(FileAt(b, k)) == b;
        hide NamesNothing, Owner, Home;
      }
      hide Owner, Home, Tidy, AllNameNothing;
      if Bounded(t, f) {
        EnterKeepsIff(t, f, n, found);
      } else {
        EnterUnbounded(t, b, f, found);
      }
    }
  }

  lemma EnterUnbounded(t: State, b: nat, f: nat, found: Entries)
    requires f in t.files && !Bounded(t, f)
    ensures !Sound(Enter(t, b, found))
  {
    EnterSlots(t, b, found);
    var u := Enter(t, b, found);
    hide Owner, Enter, Home, Owned, Tree;
    var k :| k > t.files[f].size / BY2BLK && Owner(t, Data(f, k)) != 0;
    assert Owner(u, Data(f, k)) != 0;
    assert !Bounded(u, f);
  }

  /** A struct File in the tree lies in a block that is in use. */
  lemma HomeInUse(s: State, f: nat)
    requires Sound(s) && f in s.files
    ensures Home(f) !in s.free
  {
    if f == ROOT {
      RootStays(s);
    } else {
      var n: nat :| Under(s, f, n);
      var g, i :| Holds(s, g, i, f) && Under(s, g, n - 1);
      HoldsIs(s, g, i, f);
      InUse(s);
    }
  }

  // ----- the other events

  lemma RemoveKeepsIff(s: State, f: nat)
    requires Sound(s) && f in s.files && Truncate(s, f, 0).Some?
    ensures Sound(Unnamed(Purge(Truncate(s, f, 0).value), f)) <==> Spares(s, f, 0)
  {
    var u := Purge(Truncate(s, f, 0).value);
    CutKeepsIff(s, f, 0);
    RemovedSlots(s, f);
    hide Truncate, Purge, Spares, Owner, Owned, Tree, Bounded;
    if Owned(Unnamed(u, f)) {
      SameKeeps(Unnamed(u, f), u);
    }
    if Sound(u) {
      UnnamedKeeps(u, f);
    }
  }

  /** The struct File that loses its name names no block any more. */
  lemma RemovedSlots(s: State, f: nat)
    requires Sound(s) && f in s.files && Truncate(s, f, 0).Some?
    ensures var u := Purge(Truncate(s, f, 0).value);
            && SameOwners(u, Unnamed(u, f)) && SameOwners(Unnamed(u, f), u)
            && forall l: Slot :: l.f == f ==> Owner(u, l) == 0
  {
    var t := Truncate(s, f, 0).value;
    CutSlots(s, f, 0);
    TruncateIs(s, f, 0);
    PurgeSlots(t);
    hide Truncate, Purge, Owned;
    var u := Purge(t);
    forall l: Slot | l.f == f ensures Owner(u, l) == 0 {
    }
    UnnamedSlots(u, f);
  }

  lemma UnnamedSlots(u: State, f: nat)
    requires forall l: Slot :: l.f == f ==> Owner(u, l) == 0
    ensures SameOwners(u, Unnamed(u, f)) && SameOwners(Unnamed(u, f), u)
  {
    var v := Unnamed(u, f);
    assert forall b: nat :: Content(v, b) == Content(u, b);
    hide Content;
  }

  lemma UnnamedKeeps(u: State, f: nat)
    requires Sound(u) && forall l: Slot :: l.f == f ==> Owner(u, l) == 0
    requires SameOwners(u, Unnamed(u, f))
    ensures Sound(Unnamed(u, f))
  {
    var v := Unnamed(u, f);
    forall g, i, x | x in u.files && x in v.files && Holds(u, g, i, x) ensures Holds(v, g, i, x) {
      HoldsIs(u, g, i, x);
    }
    hide Owner, Holds;
    SameKeeps(u, v);
    TreeKept(u, v);
    hide Owned;
    forall g ensures Bounded(v, g) {
      assert Bounded(u, g);
    }
  }

  /** Stores that reach no struct File: into the block of a regular file, or by the server itself. */
  lemma ContentKeeps(s: State, f: nat, n: nat, block: Block)
    requires Sound(s) && Owner(s, Data(f, n)) != 0
    ensures Sound(s.(cache := s.cache[Owner(s, Data(f, n)) := block]))
  {
    var b := Owner(s, Data(f, n));
    var t := s.(cache := s.cache[b := block]);
    forall l ensures Owner(t, l) == Owner(s, l) {
      NotItsTable(s, Data(f, n), l.f);
      SameSlot(s, t, l);
    }
    SameAll(s, t);
  }

  /** Nothing that matters has changed but sizes, which may have grown. */
  lemma SameAll(s: State, t: State)
    requires Sound(s) && SameOwners(s, t) && t.files.Keys == s.files.Keys
    requires forall f :: f in s.files ==> (s.files[f].dir ==> t.files[f].dir) && t.files[f].size >= s.files[f].size
    ensures Sound(t)
  {
    SameTidy(s, t);
    forall g, i, x | x in s.files && x in t.files && Holds(s, g, i, x) ensures Holds(t, g, i, x) {
      assert g in t.files.Keys;
    }
    hide Owner, Holds, Tidy;
    TreeKept(s, t);
  }

  lemma SetSizeKeepsIff(s: State, f: nat, size: nat)
    requires Sound(s) && f in s.files && FsBlocks.SetSize(s, f, size).Some?
    ensures Sound(Step(s, SetSize(f, size)).value) <==> Allowed(s, SetSize(f, size))
  {
    if s.files[f].size > size {
      CutKeepsIff(s, f, size);
      hide Truncate, Spares, Purge;
    } else {
      ResizeIs(s, f, size);
      SameAll(s, Resize(s, f, size));
    }
  }

  lemma StoreKeepsIff(s: State, f: nat, n: nat, block: Block, found: Entries)
    requires Sound(s)
    ensures Sound(Stored(s, f, n, block, found)) <==> Allowed(s, Store(f, n, block, found))
  {
    var b := Owner(s, Data(f, n));
    hide Fits, Sound, Overwrite;
    if b != 0 && b in s.cache {
      if s.files[f].dir {
        OverwriteKeepsIff(s, f, n, block, found);
      } else {
        ContentKeeps(s, f, n, block);
      }
    }
  }

  lemma FindKeeps(s: State, f: nat, n: nat)
    requires Sound(s) && f in s.files && MapBlock(s, f, n, false).Ret?
    ensures Sound(MapBlock(s, f, n, false).s)
  {
    LookupIs(s, f, n);
    hide MapBlock, Owner, Owned;
    SameAll(s, MapBlock(s, f, n, false).s);
  }

  lemma MemoryKeeps(s: State, pages: nat)
    requires Sound(s)
    ensures Sound(s.(pages := pages))
  {
    SamePages(s, pages);
    SameAll(s, s.(pages := pages));
  }

  /** A struct File gets a name: every block keeps its one owner if, and only if, it names none. */
  lemma CreateStepIff(s: State, d: nat, n: nat, k: nat, file: File)
    requires Sound(s)
    ensures Sound(Created(s, d, n, k, file)) <==> Allowed(s, Create(d, n, k, file))
  {
    hide Sound, Enter, Owner, NamesNothing, NewNameNothing, FileAt, Owned;
    var b := Owner(s, Data(d, n));
    if d in s.files && s.files[d].dir && b != 0 && k < FILE2BLK {
      EnterKeepsIff(s, d, n, map[k := file]);
      OneEntry(s, b, k, file);
      if !Owned(Created(s, d, n, k, file)) {
        NotOwned(Created(s, d, n, k, file));
      }
    }
  }

  lemma OneEntry(s: State, b: nat, k: nat, file: File)
    requires k < FILE2BLK
    ensures NewNameNothing(s, b, map[k := file]) <==> (FileAt(b, k) !in s.files ==> NamesNothing(file))
  {
    hide NamesNothing, FileAt;
  }

  /**
    Each event keeps every block in use reserved or owned by one struct File in the tree
    if, and only if, it is allowed.
  */
  lemma StepKeepsIff(s: State, ev: Event)
    requires Sound(s) && Step(s, ev).Some?
    ensures Sound(Step(s, ev).value) <==> Allowed(s, ev)
  {
    hide Sound, CanGet, Spares;
    match ev {
      case Get(f, n, found) => if f in s.files { GetKeepsIff(s, f, n, found); }
      case Find(f, n) => if f in s.files { FindKeeps(s, f, n); }
      case SetSize(f, size) => if f in s.files { SetSizeKeepsIff(s, f, size); }
      case Remove(f) => if f in s.files { RemoveKeepsIff(s, f); }
      case Create(d, n, k, file) => CreateStepIff(s, d, n, k, file);
      case Store(f, n, block, found) => StoreKeepsIff(s, f, n, block, found);
      case Edit(f, n, block) => if Owner(s, Data(f, n)) != 0 { ContentKeeps(s, f, n, block); }
      case Memory(pages) => MemoryKeeps(s, pages);
    }
  }

  /** The state after events, None once there was a panic. */
  function Run(s: State, evs: seq<Event>): Option<State>
    decreases evs
  {
    if evs == [] then Some(s)
    else match Step(s, evs[0]) case None => None case Some(t) => Run(t, evs[1..])
  }

  ghost predicate RunAllowed(s: State, evs: seq<Event>)
    decreases evs
  {
    evs == [] || (Allowed(s, evs[0]) && (Step(s, evs[0]).Some? ==> RunAllowed(Step(s, evs[0]).value, evs[1..])))
  }

  /** Every state on the way is sound. */
  ghost predicate StaysSound(s: State, evs: seq<Event>)
    decreases evs
  {
    Sound(s) && (evs != [] && Step(s, evs[0]).Some? ==> StaysSound(Step(s, evs[0]).value, evs[1..]))
  }

  /**
    Over every run: after each event every block in use is reserved or owned by exactly one
    struct File in the tree, and no other block is in use, if and only if each is allowed.
  */
  lemma {:induction false} RunKeepsIff(s: State, evs: seq<Event>)
    requires Sound(s) && Run(s, evs).Some?
    ensures StaysSound(s, evs) <==> RunAllowed(s, evs)
    ensures RunAllowed(s, evs) ==> Sound(Run(s, evs).value)
    decreases evs
  {
    hide Sound, Allowed, Step;
    if evs != [] {
      StepKeepsIff(s, evs[0]);
      var t := Step(s, evs[0]).value;
      if Allowed(s, evs[0]) {
        RunKeepsIff(t, evs[1..]);
      }
    }
  }

  // ----- where the words of a new struct File come from

  const FILE_WORDS: nat := 64 // a struct File is 256 bytes

  /** struct File number k of a directory's block: words 32, 34 to 43, 44, and the type in word 33. */
  function StoredFile(block: Block, k: nat): File
    requires k < FILE2BLK
  {
    var w := k * FILE_WORDS;
    File(block[w + 32], block[w + 34..w + 44], block[w + 44], block[w + 33] == 1)
  }

  /**
    dir_alloc_file takes its struct File from a block alloc_block just returned: it names
    nothing exactly if the block was not cached, or was cached with zeros in these words.
  */
  lemma NewStructIff(s: State, k: nat)
    requires AllocBlock(s).Got? && k < FILE2BLK
    ensures var a, w := AllocBlock(s), k * FILE_WORDS;
            NamesNothing(StoredFile(Content(a.s, a.b), k)) <==>
              (a.b in s.cache ==> forall i :: w + 34 <= i <= w + 44 ==> s.cache[a.b][i] == 0)
    ensures Clean(s, AllocBlock(s).b) ==> NamesNothing(StoredFile(Content(AllocBlock(s).s, AllocBlock(s).b), k))
  {
    AllocIs(s);
    var a, w := AllocBlock(s), k * FILE_WORDS;
    var block := Content(a.s, a.b);
    var file := StoredFile(block, k);
    assert forall i :: 0 <= i < NDIRECT ==> file.direct[i] == block[w + 34 + i];
    assert NamesNothing(file) <==> forall i :: w + 34 <= i <= w + 44 ==> block[i] == 0 by {
      forall i | w + 34 <= i < w + 44 ensures block[i] == file.direct[i - w - 34] {
      }
    }
    hide AllocBlock, Content;
  }

  // ----- failing inputs

  /** A directory is removed, or cut, with a struct File in it that has a block: that block is lost. */
  lemma RemoveLoses(s: State, d: nat, i: nat, f: nat, n: nat)
    requires Sound(s) && d in s.files && f in s.files && Truncate(s, d, 0).Some?
    requires Holds(s, d, i, f) && Owner(s, Data(f, n)) != 0
    ensures !Allowed(s, Remove(d))
    ensures var t, b := Step(s, Remove(d)).value, Owner(s, Data(f, n));
            b !in t.free && !Reserved(t, b) && !Named(t, b)
  {
    hide Truncate, Purge, NamesNothing, Owner, Tree, Bounded, Home;
    var u := Truncate(s, d, 0).value;
    HoldsIs(s, d, i, f);
    CutSlots(s, d, 0);
    PurgedIff(s, d, 0, f);
    PurgeSlots(u);
    NotItsOwn(s, f, i);
    RemovedSlots(s, d);
    NamesNothingIff(s, f);
    DataIndex(s, d, i);
    assert d != f;
    OnlyThere(s, u, Step(s, Remove(d)).value, Data(f, n));
  }

  lemma DataIndex(s: State, f: nat, i: nat)
    requires Owner(s, Data(f, i)) != 0
    ensures i < NINDIRECT
  {
  }

  /** The block stays in use, and its one slot is gone. */
  lemma OnlyThere(s: State, u: State, t: State, l: Slot)
    requires Owned(s) && Owned(u) && u.nblocks == s.nblocks == t.nblocks && t.free == u.free
    requires Owner(s, l) != 0 && Owner(u, l) == Owner(s, l) && Owner(t, l) == 0
    requires forall k :: Owner(t, k) == Owner(u, k) || Owner(t, k) == 0
    ensures Owner(s, l) !in t.free && !Reserved(t, Owner(s, l)) && !Named(t, Owner(s, l))
  {
    hide Owner;
    var b := Owner(s, l);
    assert Named(u, b);
    forall k ensures Owner(t, k) != b {
      assert Owner(t, k) == b ==> Owner(u, k) == b;
    }
  }

  /**
    A request through a handle kept open over the removal of its file works on a struct
    File without a name: what it links is in use and owned by nobody.
  */
  lemma StaleHandleIff(s: State, f: nat, n: nat)
    requires Sound(s) && f in s.files && NamesNothing(s.files[f]) && MapBlock(s, f, n, true).Ret?
    ensures var u := s.(files := s.files - {f});
            var m := MapBlock(s, f, n, true).s;
            Owned(m.(files := m.files - {f})) <==> m.free == s.free
  {
    var m := MapBlock(s, f, n, true).s;
    MapElsewhere(s, f, n);
    NamesNothingIff(s, f);
    var u, v := s.(files := s.files - {f}), m.(files := m.files - {f});
    WithoutSlots(s, f);
    WithoutSlots(m, f);
    hide MapBlock, Owner, TakesTable, Clean, AllocBlock, NamesNothing;
    forall l: Slot ensures Owner(v, l) == Owner(s, l) {
    }
    if m.free == s.free {
      SameKeeps(s, v);
    } else if Owned(v) {
      SameNamed(s, v);
    }
  }

  lemma WithoutSlots(s: State, f: nat)
    ensures forall l: Slot :: Owner(s.(files := s.files - {f}), l) == if l.f == f then 0 else Owner(s, l)
  {
    var u := s.(files := s.files - {f});
    assert forall b: nat :: Content(u, b) == Content(s, b);
    hide Content;
  }

  /** What is free follows from what is named. */
  lemma SameNamed(s: State, t: State)
    requires Owned(s) && Owned(t) && t.nblocks == s.nblocks && forall l :: Owner(t, l) == Owner(s, l)
    ensures t.free == s.free
  {
    hide Owner;
    forall b: nat | b < s.nblocks ensures b in t.free <==> b in s.free {
      if Named(s, b) {
        var l :| Owner(s, l) == b;
        assert Owner(t, l) == b;
      }
      if Named(t, b) {
        var l :| Owner(t, l) == b;
        assert Owner(s, l) == b;
      }
    }
    assert forall b :: b in s.free ==> b < s.nblocks;
    assert forall b :: b in t.free ==> b < s.nblocks;
  }

  /** What is left after file f, empty before, was given a block, had it written and was removed. */
  function Reused(s: State, f: nat, block: Block): State
    requires AllocBlock(s).Got?
  {
    var a := AllocBlock(s);
    a.s.(free := s.free, cache := a.s.cache[a.b := block], files := s.files - {f})
  }

  predicate EmptyFile(s: State, f: nat) {
    f in s.files && f != ROOT && s.files[f] == File(0, NoDirect(), 0, false)
  }

  lemma ReusedRun(s: State, f: nat, block: Block)
    requires Sound(s) && EmptyFile(s, f) && AllocBlock(s).Got?
    ensures RunAllowed(s, [Get(f, 0, map[]), Store(f, 0, block, map[]), Remove(f)])
    ensures Run(s, [Get(f, 0, map[]), Store(f, 0, block, map[]), Remove(f)]) == Some(Reused(s, f, block))
  {
    var a, b := AllocBlock(s).s, AllocBlock(s).b;
    var t := Put(a, InFile(f, 0), b);
    var u := t.(cache := t.cache[b := block]);
    FirstSteps(s, f, block);
    hide Step, Sound;
    StepKeepsIff(s, Get(f, 0, map[]));
    StepKeepsIff(t, Store(f, 0, block, map[]));
    ReusedRemove(s, u, f, block);
    RunThree(s, Get(f, 0, map[]), t, Store(f, 0, block, map[]), u, Remove(f), Reused(s, f, block));
  }

  lemma FirstSteps(s: State, f: nat, block: Block)
    requires EmptyFile(s, f) && AllocBlock(s).Got?
    ensures var b := AllocBlock(s).b;
            var t := Put(AllocBlock(s).s, InFile(f, 0), b);
            && Step(s, Get(f, 0, map[])) == Some(t) && Allowed(s, Get(f, 0, map[]))
            && Step(t, Store(f, 0, block, map[])) == Some(t.(cache := t.cache[b := block]))
            && Allowed(t, Store(f, 0, block, map[]))
  {
  }

  lemma ReusedRemove(s: State, u: State, f: nat, block: Block)
    requires Sound(s) && EmptyFile(s, f) && AllocBlock(s).Got? && Sound(u)
    requires u == Put(AllocBlock(s).s, InFile(f, 0), AllocBlock(s).b).(cache := AllocBlock(s).s.cache[AllocBlock(s).b := block])
    ensures Step(u, Remove(f)) == Some(Reused(s, f, block)) && Allowed(u, Remove(f))
  {
    var b := AllocBlock(s).b;
    var v := u.(free := s.free, files := s.files);
    hide Sound, Truncate, Purge, Spares;
    EmptiedAgain(s, u, f, block);
    NothingPurged(s, v);
    assert Unnamed(v, f) == Reused(s, f, block);
    RegularSpares(u, f, 0);
  }

  lemma NothingPurged(s: State, t: State)
    requires Sound(s) && t.free == s.free && t.files == s.files
    ensures Purge(t) == t
  {
    forall x | x in s.files ensures Home(x) !in s.free {
      HomeInUse(s, x);
    }
    hide Home, Sound;
    assert Purge(t).files == t.files;
  }

  lemma EmptiedAgain(s: State, u: State, f: nat, block: Block)
    requires EmptyFile(s, f) && AllocBlock(s).Got?
    requires u == Put(AllocBlock(s).s, InFile(f, 0), AllocBlock(s).b).(cache := AllocBlock(s).s.cache[AllocBlock(s).b := block])
    ensures Truncate(u, f, 0) == Some(u.(free := s.free, files := s.files))
  {
    var a, b := AllocBlock(s).s, AllocBlock(s).b;
    assert a.free + {b} == s.free;
    assert u.files[f].direct[0 := 0] == NoDirect();
    var v := Put(FreeBlock(u, b), InFile(f, 0), 0);
    assert v.files[f] == s.files[f];
    assert v.files == s.files;
    assert ClearBlock(u, f, 0) == Ret(v, 0, 0);
    assert ClearFrom(v, f, 1, 1) == Some(v);
    assert Resize(v, f, 0) == v by { assert v.files[f := v.files[f]] == v.files; }
  }

  lemma RunThree(s: State, ev: Event, t: State, next: Event, u: State, last: Event, v: State)
    requires Step(s, ev) == Some(t) && Step(t, next) == Some(u) && Step(u, last) == Some(v)
    ensures Run(s, [ev, next, last]) == Some(v)
    ensures RunAllowed(s, [ev, next, last]) <==> Allowed(s, ev) && Allowed(t, next) && Allowed(u, last)
  {
    hide Step, Allowed;
    assert [ev, next, last][1..] == [next, last] && [next, last][1..] == [last];
    assert Run(u, [last]) == Some(v) && Run(t, [next, last]) == Some(v);
    assert RunAllowed(u, [last]) == Allowed(u, last);
    assert RunAllowed(t, [next, last]) == (Allowed(t, next) && Allowed(u, last));
  }

  /** From any sound state with two empty files, three requests later the next file to grow breaks ownership. */
  lemma DirtyReached(s: State, f: nat, g: nat, block: Block)
    requires Sound(s) && EmptyFile(s, f) && g in s.files && f != g && AllocBlock(s).Got?
    requires s.files[g].indirect == 0 && block[NDIRECT] != 0
    ensures var evs := [Get(f, 0, map[]), Store(f, 0, block, map[]), Remove(f)];
            && RunAllowed(s, evs) && Run(s, evs).Some?
            && var t := Run(s, evs).value;
               g in t.files && MapBlock(t, g, NDIRECT, true).Ret? && !Owned(MapBlock(t, g, NDIRECT, true).s)
  {
    var evs := [Get(f, 0, map[]), Store(f, 0, block, map[]), Remove(f)];
    ReusedRun(s, f, block);
    RunKeepsIff(s, evs);
    hide Run, RunAllowed, Owned;
    ReusedIsDirty(s, f, g, block);
    MapKeepsIff(Reused(s, f, block), g, NDIRECT);
  }

  /** The block is free again, still in the cache, and the next that is handed out. */
  lemma ReusedIsDirty(s: State, f: nat, g: nat, block: Block)
    requires AllocBlock(s).Got? && g in s.files && g != f && s.files[g].indirect == 0 && block[NDIRECT] != 0
    ensures var t := Reused(s, f, block);
            && g in t.files && TakesTable(t, g, NDIRECT) && !Clean(t, AllocBlock(t).b)
            && MapBlock(t, g, NDIRECT, true).Ret?
  {
    var t := Reused(s, f, block);
    assert NextFree(t, 3) == NextFree(s, 3);
  }
}
