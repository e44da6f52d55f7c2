/**
  The memory of the file server (fs/fs.c): every page the kernel gives it maps a cached block or is
  a page table for cached blocks, over whole runs.
*/
module FsPages {
  import opened Mmu
  import opened FsBlocks
  import opened FsEntries
  import opened FsRuns

  /** The page tables behind the cached blocks, by their 4 MB. */
  function Tables(s: State): set<nat> {
    set b | b in s.cache :: b / ENTRIES
  }

  /** The pages in use: one a cached block, and one a table. */
  function Used(s: State): nat {
    |s.cache.Keys| + |Tables(s)|
  }

  /**
    Nothing leaves the cache, and what the kernel has less is in use; only when it had too little left
    for a block and its table is a page lost, and then none is left.
  */
  ghost predicate Balance(s: State, t: State) {
    && Used(s) <= Used(t) && t.pages + Used(t) <= s.pages + Used(s)
    && (t.pages > 0 ==> t.pages + Used(t) == s.pages + Used(s))
  }

  lemma BalanceTrans(s: State, t: State, u: State)
    requires Balance(s, t) && Balance(t, u)
    ensures Balance(s, u)
  {
    hide Used;
  }

  /** Only the contents of blocks, the files and the bitmap change. */
  lemma SameCached(s: State, t: State)
    requires t.cache.Keys == s.cache.Keys && t.pages == s.pages
    ensures Balance(s, t)
  {
    assert forall b :: b in t.cache <==> b in s.cache.Keys;
    assert Tables(t) == Tables(s);
  }

  /** One block more: its page, and a table if it is the first of its 4 MB. */
  lemma Cached(s: State, t: State, b: nat)
    requires b !in s.cache && t.cache.Keys == s.cache.Keys + {b} && s.pages >= Cost(s, b) && t.pages == s.pages - Cost(s, b)
    ensures Balance(s, t)
  {
    assert forall c :: c in t.cache <==> c in s.cache.Keys || c == b;
    assert Tables(t) == Tables(s) + {b / ENTRIES};
    if b / ENTRIES in Tables(s) {
      assert Tables(t) == Tables(s);
    }
  }

  lemma AllocPaid(s: State)
    ensures match AllocBlock(s) case Got(t, _) => Balance(s, t) case Failed(t, _) => Balance(s, t)
  {
    match NextFree(s, 3) {
      case None => SameCached(s, s);
      case Some(b) =>
        if b in s.cache {
          SameCached(s, s.(free := s.free - {b}));
        } else if s.pages < Cost(s, b) {
          SameCached(s, FreeBlock(s.(free := s.free - {b}), b).(pages := s.pages));
          assert Tables(AllocBlock(s).s) == Tables(s);
        } else {
          Cached(s, AllocBlock(s).s, b);
        }
    }
  }

  lemma ReadPaid(s: State, b: nat)
    requires ReadBlock(s, b).Some?
    ensures Balance(s, ReadBlock(s, b).value)
  {
    if b in s.cache {
      SameCached(s, s);
    } else {
      Cached(s, ReadBlock(s, b).value, b);
    }
  }

  lemma PutPaid(s: State, k: Slot, v: nat)
    ensures Balance(s, Put(s, k, v))
  {
    SameCached(s, Put(s, k, v));
  }

  lemma WalkPaid(s: State, f: nat, n: nat, alloc: bool)
    requires f in s.files
    ensures match Walk(s, f, n, alloc) case At(t, _) => Balance(s, t) case Miss(t, _) => Balance(s, t) case Panic => true
  {
    hide AllocBlock, ReadBlock, Balance;
    SameCached(s, s);
    if n >= NDIRECT && n < NINDIRECT {
      if s.files[f].indirect != 0 {
        TablePaid(s, s, f, n);
      } else if alloc {
        AllocPaid(s);
        if AllocBlock(s).Got? {
          var t := AllocBlock(s).s;
          AllocFiles(s);
          var u := t.(files := t.files[f := t.files[f].(indirect := AllocBlock(s).b)]);
          SameCached(t, u);
          BalanceTrans(s, t, u);
          TablePaid(s, u, f, n);
        }
      }
    }
  }

  lemma AllocFiles(s: State)
    requires AllocBlock(s).Got?
    ensures AllocBlock(s).s.files == s.files
  {
  }

  lemma TablePaid(s: State, u: State, f: nat, n: nat)
    requires f in u.files && Balance(s, u)
    ensures match WalkTable(u, f, n) case At(t, _) => Balance(s, t) case Miss(t, _) => Balance(s, t) case Panic => true
  {
    hide ReadBlock, Balance;
    if ReadBlock(u, u.files[f].indirect).Some? {
      ReadPaid(u, u.files[f].indirect);
      BalanceTrans(s, u, ReadBlock(u, u.files[f].indirect).value);
    }
  }

  lemma MapPaid(s: State, f: nat, n: nat, alloc: bool)
    requires f in s.files && MapBlock(s, f, n, alloc).Ret?
    ensures Balance(s, MapBlock(s, f, n, alloc).s)
  {
    hide Walk, AllocBlock, Balance, Owner;
    WalkPaid(s, f, n, alloc);
    if Walk(s, f, n, alloc).At? {
      var t, k := Walk(s, f, n, alloc).s, Walk(s, f, n, alloc).k;
      AllocPaid(t);
      if AllocBlock(t).Got? {
        PutPaid(AllocBlock(t).s, k, AllocBlock(t).b);
        BalanceTrans(t, AllocBlock(t).s, Put(AllocBlock(t).s, k, AllocBlock(t).b));
      }
      SameCached(t, t);
      hide Put;
      BalanceTrans(s, t, MapBlock(s, f, n, alloc).s);
    }
  }

  lemma GetPaid(s: State, f: nat, n: nat)
    requires f in s.files && GetBlock(s, f, n).Some?
    ensures Balance(s, GetBlock(s, f, n).value)
  {
    hide MapBlock, ReadBlock, Balance;
    MapPaid(s, f, n, true);
    var m := MapBlock(s, f, n, true);
    if m.code == 0 {
      ReadPaid(m.s, m.b);
      BalanceTrans(s, m.s, GetBlock(s, f, n).value);
    }
  }

  lemma ClearPaid(s: State, f: nat, n: nat)
    requires f in s.files && ClearBlock(s, f, n).Ret?
    ensures Balance(s, ClearBlock(s, f, n).s)
  {
    hide Walk, Balance, Owner;
    WalkPaid(s, f, n, false);
    if Walk(s, f, n, false).At? {
      var t, k := Walk(s, f, n, false).s, Walk(s, f, n, false).k;
      var u := FreeBlock(t, Owner(t, k));
      SameCached(t, u);
      PutPaid(u, k, 0);
      BalanceTrans(s, t, u);
      BalanceTrans(s, u, Put(u, k, 0));
      hide Put, FreeBlock;
    }
  }

  lemma {:induction false} ClearFromPaid(s: State, f: nat, bno: nat, end: nat)
    requires f in s.files && ClearFrom(s, f, bno, end).Some?
    ensures Balance(s, ClearFrom(s, f, bno, end).value)
    decreases end - bno
  {
    hide ClearBlock, Balance;
    if bno < end {
      var t := ClearBlock(s, f, bno).s;
      ClearPaid(s, f, bno);
      ClearFromPaid(t, f, bno + 1, end);
      BalanceTrans(s, t, ClearFrom(s, f, bno, end).value);
    } else {
      SameCached(s, s);
    }
  }

  lemma TruncatePaid(s: State, f: nat, size: nat)
    requires f in s.files && Truncate(s, f, size).Some?
    ensures Balance(s, Truncate(s, f, size).value)
  {
    hide ClearFrom, Balance;
    var lo, hi := NewBlocks(size), OldBlocks(s.files[f].size);
    var c := ClearFrom(s, f, lo, hi).value;
    ClearFromPaid(s, f, lo, hi);
    SameCached(c, Truncate(s, f, size).value);
    BalanceTrans(s, c, Truncate(s, f, size).value);
  }

  /** No request gains or loses a page of memory, but when memory runs out. */
  lemma StepPaid(s: State, ev: Event)
    requires !ev.Memory? && Step(s, ev).Some?
    ensures Balance(s, Step(s, ev).value)
  {
    hide GetBlock, MapBlock, Truncate, Balance, Owner;
    SameCached(s, s);
    match ev {
      case Get(f, n, found) =>
        if f in s.files {
          GetPaid(s, f, n);
          SameCached(GetBlock(s, f, n).value, Step(s, ev).value);
          BalanceTrans(s, GetBlock(s, f, n).value, Step(s, ev).value);
        }
      case Find(f, n) =>
        if f in s.files {
          MapPaid(s, f, n, false);
        }
      case SetSize(f, size) =>
        if f in s.files {
          if s.files[f].size > size {
            TruncatePaid(s, f, size);
            SameCached(Truncate(s, f, size).value, Step(s, ev).value);
            BalanceTrans(s, Truncate(s, f, size).value, Step(s, ev).value);
          } else {
            SameCached(s, Step(s, ev).value);
          }
        }
      case Remove(f) =>
        if f in s.files {
          TruncatePaid(s, f, 0);
          SameCached(Truncate(s, f, 0).value, Step(s, ev).value);
          BalanceTrans(s, Truncate(s, f, 0).value, Step(s, ev).value);
        }
      case Create(_, _, _, _) => SameCached(s, Step(s, ev).value);
      case Store(_, _, _, _) => SameCached(s, Step(s, ev).value);
      case Edit(_, _, _) => SameCached(s, Step(s, ev).value);
    }
  }

  predicate NoMemoryEvent(evs: seq<Event>) {
    forall i :: 0 <= i < |evs| ==> !evs[i].Memory?
  }

  /** So over every run: the pages that are gone are those of the cached blocks and their tables. */
  lemma {:induction false} RunPaid(s: State, evs: seq<Event>)
    requires NoMemoryEvent(evs) && Run(s, evs).Some?
    ensures Balance(s, Run(s, evs).value)
    decreases evs
  {
    hide Step, Balance;
    if evs != [] {
      var t := Step(s, evs[0]).value;
      StepPaid(s, evs[0]);
      RunPaid(t, evs[1..]);
      BalanceTrans(s, t, Run(s, evs).value);
    } else {
      SameCached(s, s);
    }
  }
}
