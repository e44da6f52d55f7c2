/**
  Every block has one owner: the in-use bits of the disk are the reserved blocks and the
  blocks some slot names, and no block is named twice.
*/
module FsOwners {
  import opened Errors
  import opened Mmu
  import opened FsBlocks

  /** Boot block, super-block and bitmap. */
  predicate Reserved(s: State, b: nat) {
    b < 3 + s.nblocks / BIT2BLK
  }

  ghost predicate Named(s: State, b: nat) {
    exists k :: Owner(s, k) == b
  }

  ghost predicate InRange(s: State) {
    && (forall b :: b in s.free ==> b < s.nblocks && !Reserved(s, b))
    && (forall k :: Owner(s, k) != 0 ==> Owner(s, k) < s.nblocks && !Reserved(s, Owner(s, k)))
  }

  ghost predicate Unshared(s: State) {
    forall k, l :: Owner(s, k) != 0 && Owner(s, k) == Owner(s, l) ==> k == l
  }

  /** No block is lost and no named block is free. */
  ghost predicate Conserved(s: State) {
    forall b: nat :: b < s.nblocks ==> (b !in s.free <==> Reserved(s, b) || Named(s, b))
  }

  ghost predicate Owned(s: State) {
    InRange(s) && Unshared(s) && Conserved(s)
  }

  /** File f has no block past the one its last byte, or the next byte, would be in. */
  ghost predicate Bounded(s: State, f: nat) {
    f in s.files ==> forall n {:trigger Data(f, n)} :: n > s.files[f].size / BY2BLK ==> Owner(s, Data(f, n)) == 0
  }

  /** What the routines on file f leave alone. */
  ghost predicate Frame(s: State, t: State, f: nat) {
    && t.nblocks == s.nblocks && t.disk == s.disk && t.files.Keys == s.files.Keys
    && (forall g :: g in s.files && g != f ==> t.files[g] == s.files[g])
    && (f in s.files ==> t.files[f].size == s.files[f].size && t.files[f].dir == s.files[f].dir)
  }

  /** Blocks in use keep their contents, except perhaps the indirect block of f. */
  ghost predicate SameContents(s: State, t: State, f: nat) {
    forall b {:trigger Content(t, b)} ::
      b !in s.free && f in s.files && b != s.files[f].indirect ==> Content(t, b) == Content(s, b)
  }

  /** No block has new contents, except perhaps the indirect block of f. */
  ghost predicate SameBlocks(s: State, t: State, f: nat) {
    forall b: nat {:trigger Content(t, b)} ::
      f in s.files && b != s.files[f].indirect ==> Content(t, b) == Content(s, b)
  }

  /** One slot was filled with a block that was free. */
  ghost predicate Gained(s: State, t: State, k: Slot, b: nat) {
    && b in s.free && t.free == s.free - {b} && t.nblocks == s.nblocks && Owner(s, k) == 0
    && forall l :: Owner(t, l) == if l == k then b else Owner(s, l)
  }

  /** One slot was emptied and its block freed. */
  ghost predicate Lost(s: State, t: State, k: Slot) {
    && Owner(s, k) != 0 && t.free == s.free + {Owner(s, k)} && t.nblocks == s.nblocks
    && forall l :: Owner(t, l) == if l == k then 0 else Owner(s, l)
  }

  ghost predicate SameOwners(s: State, t: State) {
    t.free == s.free && t.nblocks == s.nblocks && forall l :: Owner(t, l) == Owner(s, l)
  }

  lemma GainKeeps(s: State, t: State, k: Slot, b: nat)
    requires Owned(s) && Gained(s, t, k, b)
    ensures Owned(t)
  {
    hide Owner;
    assert !Named(s, b);
    forall l | Owner(t, l) == b ensures l == k {
      assert Owner(s, l) != b;
    }
    forall c: nat | c < t.nblocks ensures c !in t.free <==> Reserved(t, c) || Named(t, c) {
      if c == b {
        assert Owner(t, k) == c;
      }
    }
  }

  lemma LossKeeps(s: State, t: State, k: Slot)
    requires Owned(s) && Lost(s, t, k)
    ensures Owned(t)
  {
    hide Owner;
    var b := Owner(s, k);
    forall c: nat | c < t.nblocks ensures c !in t.free <==> Reserved(t, c) || Named(t, c) {
      if c == b {
        assert forall l :: Owner(t, l) != b;
      }
    }
  }

  lemma SameKeeps(s: State, t: State)
    requires Owned(s) && SameOwners(s, t)
    ensures Owned(t)
  {
    hide Owner;
    forall c: nat | c < t.nblocks ensures c !in t.free <==> Reserved(t, c) || Named(t, c) {
      if Named(t, c) {
        var l :| Owner(t, l) == c;
        assert Owner(s, l) == c;
      }
      if Named(s, c) {
        var l :| Owner(s, l) == c;
        assert Owner(t, l) == c;
      }
    }
  }

  /** Some slot names a block that it cannot have; more slots do not mend that. */
  ghost predicate Clashes(s: State) {
    || !InRange(s) || !Unshared(s)
    || exists k :: Owner(s, k) != 0 && Owner(s, k) in s.free
  }

  lemma ClashBreaks(s: State)
    requires Clashes(s)
    ensures !Owned(s)
  {
    hide Owner;
    if k :| Owner(s, k) != 0 && Owner(s, k) in s.free {
      assert Named(s, Owner(s, k));
    }
  }

  lemma ClashStays(s: State, t: State)
    requires Clashes(s) && t.free == s.free && t.nblocks == s.nblocks
    requires forall l :: Owner(s, l) != 0 ==> Owner(t, l) == Owner(s, l)
    ensures Clashes(t)
  {
    hide Owner;
    if !InRange(s) {
      if forall b :: b in s.free ==> b < s.nblocks && !Reserved(s, b) {
        var k :| Owner(s, k) != 0 && !(Owner(s, k) < s.nblocks && !Reserved(s, Owner(s, k)));
        assert Owner(t, k) == Owner(s, k);
      }
    } else if !Unshared(s) {
      var k, l :| Owner(s, k) != 0 && Owner(s, k) == Owner(s, l) && k != l;
      assert Owner(t, k) == Owner(t, l);
    } else {
      var k :| Owner(s, k) != 0 && Owner(s, k) in s.free;
      assert Owner(t, k) in t.free;
    }
  }

  /** A slot that turns up holding a block nobody gave it breaks the invariant. */
  lemma StrayBreaks(s: State, t: State, k: Slot)
    requires Owned(s) && t.nblocks == s.nblocks && Owner(s, k) == 0 && Owner(t, k) != 0
    requires forall l :: Owner(s, l) != 0 ==> Owner(t, l) == Owner(s, l)
    requires forall b :: b in s.free && b !in t.free ==> exists l :: l != k && Owner(t, l) == b
    ensures Clashes(t) && !Owned(t)
  {
    hide Owner;
    var b := Owner(t, k);
    if b < s.nblocks && !Reserved(s, b) && b !in t.free {
      if b !in s.free {
        var l :| Owner(s, l) == b;
        assert Owner(t, l) == b && l != k;
      }
    }
    ClashBreaks(t);
  }

  // ----- allocation and reading

  lemma AllocIs(s: State)
    requires AllocBlock(s).Got?
    ensures var a := AllocBlock(s);
            && a.b in s.free && a.b >= 3 && a.s.free == s.free - {a.b} && a.b in a.s.cache
            && a.s.nblocks == s.nblocks && a.s.files == s.files && a.s.disk == s.disk
            && forall c: nat :: Content(a.s, c) ==
                 (if c == a.b then if c in s.cache then s.cache[c] else Zeros() else Content(s, c))
  {
  }

  lemma AllocFails(s: State)
    requires AllocBlock(s).Failed? && (forall b :: b in s.free ==> b < s.nblocks)
    ensures var t := AllocBlock(s).s;
            && t == s.(pages := t.pages) && t.pages <= s.pages && SameOwners(s, t)
            && forall c: nat :: Content(t, c) == Content(s, c)
    ensures AllocBlock(s).code == -E_NO_DISK <==> forall b :: b in s.free ==> b < 3
    ensures AllocBlock(s).code == -E_NO_MEM <==>
              match NextFree(s, 3) case None => false case Some(b) => b !in s.cache && s.pages < Cost(s, b)
    ensures if AllocBlock(s).code == -E_NO_DISK then AllocBlock(s).s == s else AllocBlock(s).s.pages == 0
  {
    AllocFailed(s);
    SamePages(s, AllocBlock(s).s.pages);
    hide Content, Owner, AllocBlock;
  }

  lemma AllocFailed(s: State)
    requires AllocBlock(s).Failed? && (forall b :: b in s.free ==> b < s.nblocks)
    ensures var a := AllocBlock(s);
            && a.s == s.(pages := a.s.pages) && a.s.pages <= s.pages
            && (a.code == -E_NO_DISK || a.code == -E_NO_MEM)
            && (a.code == -E_NO_DISK <==> NextFree(s, 3) == None)
            && (if a.code == -E_NO_DISK then a.s == s else a.s.pages == 0)
            && (a.code == -E_NO_MEM ==> NextFree(s, 3).value !in s.cache && s.pages < Cost(s, NextFree(s, 3).value))
  {
    hide Cost, FreeBlock, Content;
    if NextFree(s, 3).Some? {
      GivenBack(s, NextFree(s, 3).value);
    }
  }

  lemma GivenBack(s: State, b: nat)
    requires b in s.free && 3 <= b < s.nblocks
    ensures FreeBlock(s.(free := s.free - {b}), b) == s
  {
    assert s.free - {b} + {b} == s.free;
  }

  /** The kernel's memory is no part of who owns what. */
  lemma SamePages(s: State, pages: nat)
    ensures var t := s.(pages := pages);
            SameOwners(s, t) && forall c: nat :: Content(t, c) == Content(s, c)
  {
    assert forall c: nat :: Content(s.(pages := pages), c) == Content(s, c);
  }

  /** Reading a block into the cache changes what is cached and nothing else. */
  lemma ReadIs(s: State, b: nat)
    ensures ReadBlock(s, b).Some? ==>
              var t := ReadBlock(s, b).value;
              && b in t.cache && t == s.(cache := t.cache, pages := t.pages) && SameOwners(s, t)
              && forall c: nat :: Content(t, c) == Content(s, c)
  {
    if ReadBlock(s, b).Some? {
      var t := ReadBlock(s, b).value;
      forall c: nat ensures Content(t, c) == Content(s, c) {
      }
      hide Content;
    }
  }

  /**
    read_block panics exactly for a block off the disk, one the bitmap says is free, or, if it is not cached, without
    a page for it and one for the page table of its 4 MB unless another block there is cached.
  */
  lemma ReadPanicsIff(s: State, b: nat)
    ensures ReadBlock(s, b).None? <==>
              || b >= s.nblocks || b in s.free
              || (b !in s.cache && (s.pages == 0 || (s.pages == 1 && forall c :: c in s.cache ==> c / ENTRIES != b / ENTRIES)))
  {
  }
}
