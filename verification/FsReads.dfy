/**
  Reading back (fs/fs.c, fs/serv.c): the page a client gets for a block holds the file's bytes, and what
  it stores there is what the server reads.
*/
module FsReads {
  import opened Mmu
  import opened FsBlocks
  import opened FsOwners
  import opened FsMap
  import opened FsDirs
  import opened FsEntries
  import opened FsRuns
  import opened FsSizes

  /**
    file_get_block on a block the file has: it is in the cache afterwards, with the contents it had, and
    every byte of every file reads as before.
  */
  lemma GetReads(s: State, f: nat, n: nat)
    requires Sound(s) && f in s.files && GetBlock(s, f, n).Some? && Owner(s, Data(f, n)) != 0
    ensures var t, b := GetBlock(s, f, n).value, Owner(s, Data(f, n));
            && Owner(t, Data(f, n)) == b && b in t.cache && t.cache[b] == Content(s, b)
            && SameOwners(s, t) && forall g, p: nat :: WordOfByte(t, g, p) == WordOfByte(s, g, p)
  {
    hide GetBlock, Sound, Owned, Owner, Content;
    var t, b := GetBlock(s, f, n).value, Owner(s, Data(f, n));
    assert Owned(s) by { SoundOwned(s); }
    GetSame(s, f, n);
    InUse(s);
    forall g, p: nat ensures WordOfByte(t, g, p) == WordOfByte(s, g, p) {
      if Owner(s, Data(g, p / BY2BLK)) != 0 {
        NotItsTable(s, Data(g, p / BY2BLK), f);
      }
    }
    NotItsTable(s, Data(f, n), f);
    CachedContent(t, b);
  }

  lemma SoundOwned(s: State)
    requires Sound(s)
    ensures Owned(s)
  {
  }

  lemma CachedContent(s: State, b: nat)
    ensures b in s.cache ==> Content(s, b) == s.cache[b]
  {
  }

  /** A block of a file that is there is found, and only the cache changes. */
  lemma GetSame(s: State, f: nat, n: nat)
    requires Owned(s) && f in s.files && GetBlock(s, f, n).Some? && Owner(s, Data(f, n)) != 0
    ensures var t := GetBlock(s, f, n).value;
            && SameOwners(s, t) && SameContents(s, t, f) && Owner(s, Data(f, n)) in t.cache
  {
    hide MapBlock, ReadBlock, Owned, TakesTable, Content, Owner;
    var m := MapBlock(s, f, n, true);
    HasNoTable(s, f, n);
    MapKeeps(s, f, n, true);
    ReadIs(m.s, m.b);
  }

  /** A file with a block past the direct ones has its indirect block. */
  lemma HasNoTable(s: State, f: nat, n: nat)
    requires f in s.files && Owner(s, Data(f, n)) != 0
    ensures !TakesTable(s, f, n)
  {
  }

  /** Every byte of block n of file f reads as it stands in these words. */
  ghost predicate HasWords(s: State, f: nat, n: nat, block: Block) {
    forall p: nat :: p / BY2BLK == n ==> WordOfByte(s, f, p) == Some(block[WordIndex(p)])
  }

  /**
    A store into the page of block n of a file: those words are read back, and every other byte of every
    file is as before.
  */
  lemma StoreReads(s: State, f: nat, n: nat, block: Block, found: Entries)
    requires Sound(s) && f in s.files && !s.files[f].dir && Owner(s, Data(f, n)) != 0 && Owner(s, Data(f, n)) in s.cache
    ensures var t := Stored(s, f, n, block, found);
            && t.files == s.files && SameOwners(s, t)
            && HasWords(t, f, n, block)
            && (forall g, p: nat :: g != f || p / BY2BLK != n ==> WordOfByte(t, g, p) == WordOfByte(s, g, p))
  {
    hide Owner, Sound, Content, WordOfByte, WordIndex, Data, SameOwners;
    StoredSlots(s, f, n, block);
    var t := s.(cache := s.cache[Owner(s, Data(f, n)) := block]);
    forall p: nat | p / BY2BLK == n ensures WordOfByte(t, f, p) == Some(block[WordIndex(p)]) {
      StoredWord(s, t, f, n, block, f, p);
    }
    forall g, p: nat | g != f || p / BY2BLK != n ensures WordOfByte(t, g, p) == WordOfByte(s, g, p) {
      StoredWord(s, t, f, n, block, g, p);
    }
  }

  /** One word, in the block stored to or in another one. */
  lemma StoredWord(s: State, t: State, f: nat, n: nat, block: Block, g: nat, p: nat)
    requires SameOwners(s, t) && Owner(s, Data(f, n)) != 0 && Content(t, Owner(s, Data(f, n))) == block
    requires forall c: nat :: c != Owner(s, Data(f, n)) ==> Content(t, c) == Content(s, c)
    requires forall k :: k != Data(f, n) && Owner(s, k) != 0 ==> Owner(s, k) != Owner(s, Data(f, n))
    ensures WordOfByte(t, g, p) ==
            if g == f && p / BY2BLK == n then Some(block[WordIndex(p)]) else WordOfByte(s, g, p)
  {
    hide Owner, Content;
    assert g != f || p / BY2BLK != n ==> Data(g, p / BY2BLK) != Data(f, n);
  }

  /** The server's own stores are read back alike. */
  lemma EditReads(s: State, f: nat, n: nat, block: Block)
    requires Sound(s) && f in s.files && s.files[f].dir && Owner(s, Data(f, n)) != 0 && Owner(s, Data(f, n)) in s.cache
    ensures match Step(s, Edit(f, n, block)) {
              case Some(t) =>
                && t.files == s.files && SameOwners(s, t)
                && HasWords(t, f, n, block)
              case None => false
            }
  {
    hide Owner, Sound, GetBlock, MapBlock, Truncate, Purge, Created, Stored, Opened, Content, WordOfByte, WordIndex, Data, SameOwners;
    StoredSlots(s, f, n, block);
    var t := s.(cache := s.cache[Owner(s, Data(f, n)) := block]);
    forall p: nat | p / BY2BLK == n ensures WordOfByte(t, f, p) == Some(block[WordIndex(p)]) {
      StoredWord(s, t, f, n, block, f, p);
    }
  }

  lemma StoredSlots(s: State, f: nat, n: nat, block: Block)
    requires Sound(s) && Owner(s, Data(f, n)) != 0
    ensures var b := Owner(s, Data(f, n));
            var t := s.(cache := s.cache[b := block]);
            && SameOwners(s, t) && Content(t, b) == block && (forall c: nat :: c != b ==> Content(t, c) == Content(s, c))
            && forall k :: k != Data(f, n) && Owner(s, k) != 0 ==> Owner(s, k) != b
  {
    var t := s.(cache := s.cache[Owner(s, Data(f, n)) := block]);
    forall l ensures Owner(t, l) == Owner(s, l) {
      NotItsTable(s, Data(f, n), l.f);
      SameSlot(s, t, l);
    }
  }
}
