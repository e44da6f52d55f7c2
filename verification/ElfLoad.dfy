/**
  Loading one ELF segment (lib/elfloader.c) with a mapper that gives each page zeroed memory
  and copies file bytes into it (load_icode_mapper in kern/env.c, spawn_mapper in
  user/lib/spawn.c). What PT_LOAD means is in "Program Header", chapter 5 of the System V ABI.
*/
module ElfLoad {
  import opened Errors
  import opened Mmu

  const WORD: nat := 0x1_0000_0000
  const PF_W: bv32 := 2

  type Byte = bv8

  function Zeros(): (p: seq<Byte>)
    ensures |p| == BY2PG && forall k :: 0 <= k < BY2PG ==> p[k] == 0
  {
    seq(BY2PG, _ => 0)
  }

  type Page = p: seq<Byte> | |p| == BY2PG witness Zeros()

  /** A program header with the bytes of the binary from p_offset on. */
  datatype Segment = Segment(va: nat, filesz: nat, memsz: nat, flags: bv32, bin: seq<Byte>)

  datatype Mapped = Mapped(page: Page, perm: Flags)

  /** `pages` by virtual page number, `log` every page mapped so far in order; `left` pages of memory are free. */
  datatype Space = Space(pages: map<nat, Mapped>, log: seq<nat>, left: nat)

  datatype Result = Result(s: Space, code: int)

  function Min(a: nat, b: nat): nat {
    if a < b then a else b
  }

  function PageFlags(g: Segment): Flags {
    if g.flags & PF_W != 0 then PTE_V | PTE_D else PTE_V
  }

  /** memcpy into a page. */
  function Copied(page: Page, offset: nat, src: seq<Byte>): Page
    requires offset + |src| <= BY2PG
  {
    page[..offset] + src + page[offset + |src|..]
  }

  /** map_page: a page mapped again is replaced. */
  function MapPage(s: Space, va: nat, offset: nat, perm: Flags, src: seq<Byte>): Result
    requires offset + |src| <= BY2PG
  {
    if s.left == 0 then Result(s, -E_NO_MEM)
    else Result(Space(s.pages[va / BY2PG := Mapped(Copied(Zeros(), offset, src), perm)], s.log + [va / BY2PG], s.left - 1), 0)
  }

  /** The segment fits in the binary and, with the page after it, in the address space. */
  predicate Loadable(g: Segment) {
    g.filesz <= |g.bin| && g.filesz <= g.memsz && g.va + g.memsz + BY2PG <= WORD
  }

  function Offset(g: Segment): nat { g.va % BY2PG }

  /** How much of the file the first, unaligned page takes; the first loop starts after it. */
  function Head(g: Segment): nat {
    if Offset(g) == 0 then 0 else Min(g.filesz, BY2PG - Offset(g))
  }

  /** Where the first loop has got to when it ends. */
  function AfterFile(g: Segment, i: nat): (j: nat)
    ensures i <= j && g.filesz <= j && (i < g.filesz ==> j < g.filesz + BY2PG) && (i >= g.filesz ==> j == i)
    decreases g.filesz - i
  {
    if i >= g.filesz then i else AfterFile(g, i + BY2PG)
  }

  lemma {:induction false} WholePages(g: Segment, i: nat)
    ensures (AfterFile(g, i) - i) % BY2PG == 0
    decreases g.filesz - i
  {
    if i < g.filesz {
      WholePages(g, i + BY2PG);
      var rest: nat := AfterFile(g, i + BY2PG) - i - BY2PG;
      assert (rest + BY2PG) % BY2PG == rest % BY2PG;
    }
  }

  /** One turn of the first loop: the next page's worth of the file. */
  function FileTurn(s: Space, g: Segment, i: nat): Result
    requires Loadable(g) && i < g.filesz
  {
    MapPage(s, g.va + i, 0, PageFlags(g), g.bin[i..i + Min(g.filesz - i, BY2PG)])
  }

  /** The first loop. */
  function FileLoop(s: Space, g: Segment, i: nat): Result
    requires Loadable(g)
    decreases g.filesz - i
  {
    if i >= g.filesz then Result(s, 0)
    else
      var r := FileTurn(s, g, i);
      if r.code != 0 then r else FileLoop(r.s, g, i + BY2PG)
  }

  /** The second loop. */
  function ZeroLoop(s: Space, g: Segment, i: nat): Result
    decreases g.memsz - i
  {
    if i >= g.memsz then Result(s, 0)
    else
      var r := MapPage(s, g.va + i, 0, PageFlags(g), []);
      if r.code != 0 then r else ZeroLoop(r.s, g, i + BY2PG)
  }

  function HeadPage(s: Space, g: Segment): Result
    requires Loadable(g)
  {
    if Offset(g) == 0 then Result(s, 0) else MapPage(s, g.va, Offset(g), PageFlags(g), g.bin[..Head(g)])
  }

  /** elf_load_seg */
  function Load(s: Space, g: Segment): Result
    requires Loadable(g)
  {
    var h := HeadPage(s, g);
    if h.code != 0 then h
    else
      var f := FileLoop(h.s, g, Head(g));
      if f.code != 0 then f else ZeroLoop(f.s, g, AfterFile(g, Head(g)))
  }

  // ----- what PT_LOAD asks for

  /** The byte at address a: from the file, or zero. */
  function Wanted(g: Segment, a: nat): Byte
    requires Loadable(g)
  {
    if g.va <= a < g.va + g.filesz then g.bin[a - g.va] else 0
  }

  function WantedPage(g: Segment, p: nat): Page
    requires Loadable(g)
  {
    seq(BY2PG, k requires 0 <= k < BY2PG => Wanted(g, p * BY2PG + k))
  }

  /** The pages the segment touches. */
  function First(g: Segment): nat { g.va / BY2PG }

  function Count(g: Segment): nat {
    if g.memsz == 0 then 0 else (g.va + g.memsz - 1) / BY2PG - First(g) + 1
  }

  predicate InSegment(g: Segment, p: nat) {
    First(g) <= p < First(g) + Count(g)
  }

  /** Every byte of the segment is mapped, with the contents PT_LOAD asks for. */
  ghost predicate Realised(s: Space, g: Segment)
    requires Loadable(g)
  {
    forall p: nat, k: nat {:trigger HasByte(s, g, p, k)} ::
      k < BY2PG && g.va <= p * BY2PG + k < g.va + g.memsz ==> HasByte(s, g, p, k)
  }

  predicate HasByte(s: Space, g: Segment, p: nat, k: nat)
    requires Loadable(g)
  {
    p in s.pages && k < BY2PG && s.pages[p].page[k] == Wanted(g, p * BY2PG + k)
  }

  /** n pages from `first` on, in order: each of them once. */
  function Pages(first: nat, n: nat): seq<nat> {
    seq(n, k requires k >= 0 => first + k)
  }

  /** s has been extended to t by mapping n pages from `first` on as the segment wants them. */
  ghost predicate Extended(s: Space, t: Space, g: Segment, first: nat, n: nat)
    requires Loadable(g)
  {
    && t.log == s.log + Pages(first, n)
    && (forall p :: first <= p < first + n ==> p in t.pages && t.pages[p] == Mapped(WantedPage(g, p), PageFlags(g)))
    && (forall p :: !(first <= p < first + n) ==> (p in t.pages <==> p in s.pages))
    && (forall p :: !(first <= p < first + n) && p in s.pages ==> t.pages[p] == s.pages[p])
  }

  lemma ExtendedTrans(s: Space, t: Space, u: Space, g: Segment, first: nat, m: nat, n: nat)
    requires Loadable(g) && Extended(s, t, g, first, m) && Extended(t, u, g, first + m, n)
    ensures Extended(s, u, g, first, m + n)
  {
    assert Pages(first, m) + Pages(first + m, n) == Pages(first, m + n);
    hide Pages, WantedPage;
  }

  lemma ExtendsByNone(s: Space, g: Segment, first: nat)
    requires Loadable(g)
    ensures Extended(s, s, g, first, 0)
  {
    assert Pages(first, 0) == [];
  }

  /** One page mapped with what it should hold. */
  lemma ExtendsByOne(s: Space, g: Segment, va: nat, offset: nat, src: seq<Byte>)
    requires Loadable(g) && offset + |src| <= BY2PG && MapPage(s, va, offset, PageFlags(g), src).code == 0
    requires Copied(Zeros(), offset, src) == WantedPage(g, va / BY2PG)
    ensures Extended(s, MapPage(s, va, offset, PageFlags(g), src).s, g, va / BY2PG, 1)
  {
    assert Pages(va / BY2PG, 1) == [va / BY2PG];
    hide WantedPage, Copied, Pages;
  }

  /** From an aligned address on, the first loop maps whole pages of the file. */
  lemma {:induction false} FileLoopIs(s: Space, g: Segment, i: nat)
    requires Loadable(g) && (g.va + i) % BY2PG == 0 && FileLoop(s, g, i).code == 0
    ensures Extended(s, FileLoop(s, g, i).s, g, (g.va + i) / BY2PG, (AfterFile(g, i) - i) / BY2PG)
    decreases g.filesz - i
  {
    hide FileTurn, Extended;
    if i < g.filesz {
      var t := FileTurn(s, g, i).s;
      FileTurnIs(s, g, i);
      FileLoopIs(t, g, i + BY2PG);
      FileLoopStep(s, t, FileLoop(t, g, i + BY2PG).s, g, i, AfterFile(g, i + BY2PG));
    } else {
      ExtendsByNone(s, g, (g.va + i) / BY2PG);
    }
  }

  lemma FileTurnIs(s: Space, g: Segment, i: nat)
    requires Loadable(g) && (g.va + i) % BY2PG == 0 && i < g.filesz && FileTurn(s, g, i).code == 0
    ensures Extended(s, FileTurn(s, g, i).s, g, (g.va + i) / BY2PG, 1)
  {
    FilePage(g, i);
    ExtendsByOne(s, g, g.va + i, 0, g.bin[i..i + Min(g.filesz - i, BY2PG)]);
  }

  lemma FileLoopStep(s: Space, t: Space, u: Space, g: Segment, i: nat, j: nat)
    requires Loadable(g) && i + BY2PG <= j && Extended(s, t, g, (g.va + i) / BY2PG, 1)
    requires Extended(t, u, g, (g.va + i + BY2PG) / BY2PG, (j - i - BY2PG) / BY2PG)
    ensures Extended(s, u, g, (g.va + i) / BY2PG, (j - i) / BY2PG)
  {
    hide Extended;
    NextPage(g.va + i);
    NextPage(j - i - BY2PG);
    ExtendedTrans(s, t, u, g, (g.va + i) / BY2PG, 1, (j - i - BY2PG) / BY2PG);
  }

  lemma NextPage(va: nat)
    ensures (va + BY2PG) / BY2PG == va / BY2PG + 1 && (va + BY2PG) % BY2PG == va % BY2PG
  {
  }

  lemma FilePage(g: Segment, i: nat)
    requires Loadable(g) && (g.va + i) % BY2PG == 0 && i < g.filesz
    ensures Copied(Zeros(), 0, g.bin[i..i + Min(g.filesz - i, BY2PG)]) == WantedPage(g, (g.va + i) / BY2PG)
  {
    var n, p := Min(g.filesz - i, BY2PG), (g.va + i) / BY2PG;
    var c := Copied(Zeros(), 0, g.bin[i..i + n]);
    forall k | 0 <= k < BY2PG ensures c[k] == Wanted(g, p * BY2PG + k) {
      assert p * BY2PG == g.va + i;
      if k < n {
        assert c[k] == g.bin[i..i + n][k];
      } else {
        assert c[k] == 0 && i + k >= g.filesz;
      }
    }
  }

  /** An unaligned segment's first page, filled from its offset on. */
  lemma HeadIs(s: Space, g: Segment)
    requires Loadable(g) && Offset(g) != 0 && HeadPage(s, g).code == 0
    ensures Extended(s, HeadPage(s, g).s, g, First(g), 1)
  {
    var c := Copied(Zeros(), Offset(g), g.bin[..Head(g)]);
    forall k | 0 <= k < BY2PG ensures c[k] == Wanted(g, First(g) * BY2PG + k) {
    }
    assert c == WantedPage(g, First(g));
    ExtendsByOne(s, g, g.va, Offset(g), g.bin[..Head(g)]);
  }

  /** s has been extended to t by mapping n zero pages. */
  ghost predicate Zeroed(s: Space, t: Space, perm: Flags, first: nat, n: nat) {
    && t.log == s.log + Pages(first, n)
    && (forall p :: first <= p < first + n ==> p in t.pages && t.pages[p] == Mapped(Zeros(), perm))
    && (forall p :: !(first <= p < first + n) ==> (p in t.pages <==> p in s.pages))
    && (forall p :: !(first <= p < first + n) && p in s.pages ==> t.pages[p] == s.pages[p])
  }

  function Turns(g: Segment, i: nat): nat {
    if i >= g.memsz then 0 else (g.memsz - i + BY2PG - 1) / BY2PG
  }

  lemma {:induction false} ZeroLoopIs(s: Space, g: Segment, i: nat)
    requires ZeroLoop(s, g, i).code == 0
    ensures Zeroed(s, ZeroLoop(s, g, i).s, PageFlags(g), (g.va + i) / BY2PG, Turns(g, i))
    decreases g.memsz - i
  {
    var first := (g.va + i) / BY2PG;
    if i < g.memsz {
      var t := MapPage(s, g.va + i, 0, PageFlags(g), []).s;
      assert Copied(Zeros(), 0, []) == Zeros();
      NextPage(g.va + i);
      assert Turns(g, i) == Turns(g, i + BY2PG) + 1;
      hide Copied, PageFlags, Turns;
      ZeroLoopIs(t, g, i + BY2PG);
      assert [first] + Pages(first + 1, Turns(g, i) - 1) == Pages(first, Turns(g, i));
      hide Pages;
    } else {
      assert Pages(first, 0) == [];
    }
  }

  /** Past the file data, zero pages are what the segment wants. */
  lemma ZeroedExtends(s: Space, t: Space, g: Segment, first: nat, n: nat)
    requires Loadable(g) && Zeroed(s, t, PageFlags(g), first, n) && first * BY2PG >= g.va + g.filesz
    ensures Extended(s, t, g, first, n)
  {
    forall p | first <= p < first + n ensures WantedPage(g, p) == Zeros() {
      forall k | 0 <= k < BY2PG ensures WantedPage(g, p)[k] == 0 {
        assert p * BY2PG + k >= g.va + g.filesz;
        assert Wanted(g, p * BY2PG + k) == 0;
      }
    }
    hide Pages, PageFlags, WantedPage;
  }

  // ----- the whole segment

  /** The segment starts on a page boundary, or its file data fills the rest of the first page. */
  predicate Fills(g: Segment) {
    Offset(g) == 0 || g.filesz >= BY2PG - Offset(g)
  }

  /** 1 if the segment starts inside a page, which is then mapped before the loops. */
  function Odd(g: Segment): nat {
    if Offset(g) == 0 then 0 else 1
  }

  lemma HeadExtends(s: Space, g: Segment)
    requires Loadable(g) && Fills(g) && HeadPage(s, g).code == 0
    ensures Extended(s, HeadPage(s, g).s, g, First(g), Odd(g))
    ensures (g.va + Head(g)) % BY2PG == 0 && (g.va + Head(g)) / BY2PG == First(g) + Odd(g)
  {
    if Offset(g) == 0 {
      ExtendsByNone(s, g, First(g));
    } else {
      HeadIs(s, g);
    }
    hide WantedPage, HeadPage;
  }

  /** Each page of the segment is mapped exactly once, as PT_LOAD asks, and no other page is touched. */
  lemma LoadExtends(s: Space, g: Segment)
    requires Loadable(g) && Fills(g) && Load(s, g).code == 0
    ensures Extended(s, Load(s, g).s, g, First(g), Count(g))
  {
    hide Extended, Zeroed, HeadPage, FileLoop, ZeroLoop, Turns, Count, First, Head, AfterFile;
    var h, i := HeadPage(s, g).s, Head(g);
    HeadExtends(s, g);
    var f, j := FileLoop(h, g, i).s, AfterFile(g, i);
    FileLoopIs(h, g, i);
    WholePages(g, i);
    Alignment(g.va, i, j);
    ZeroLoopIs(f, g, j);
    ZeroedExtends(f, Load(s, g).s, g, (g.va + j) / BY2PG, Turns(g, j));
    LastPage(g, j);
    ExtendedTrans(s, h, f, g, First(g), Odd(g), (j - i) / BY2PG);
    ExtendedTrans(s, f, Load(s, g).s, g, First(g), Odd(g) + (j - i) / BY2PG, Turns(g, j));
  }

  lemma Alignment(va: nat, i: nat, j: nat)
    requires (va + i) % BY2PG == 0 && i <= j && (j - i) % BY2PG == 0
    ensures (va + j) % BY2PG == 0 && (va + j) / BY2PG == (va + i) / BY2PG + (j - i) / BY2PG
  {
  }

  /** The second loop ends with the last page of the segment. */
  lemma LastPage(g: Segment, j: nat)
    requires Fills(g) && j == AfterFile(g, Head(g)) && g.filesz <= g.memsz && (g.va + j) % BY2PG == 0
    ensures (g.va + j) / BY2PG + Turns(g, j) == First(g) + Count(g)
  {
  }

  lemma LoadRealises(s: Space, g: Segment)
    requires Loadable(g) && Fills(g) && Load(s, g).code == 0
    ensures Realised(Load(s, g).s, g)
  {
    LoadExtends(s, g);
    var t := Load(s, g).s;
    hide Load;
    forall p: nat, k: nat | k < BY2PG && g.va <= p * BY2PG + k < g.va + g.memsz ensures HasByte(t, g, p, k) {
      assert InSegment(g, p);
      assert t.pages[p].page[k] == WantedPage(g, p)[k];
    }
  }

  // ----- the case the loader gets wrong

  /** The file data is all zero. */
  predicate Blank(g: Segment)
    requires Loadable(g)
  {
    forall a :: 0 <= a < g.filesz ==> g.bin[a] == 0
  }

  /** Counting pages from the end of the file data, the last one is the segment's last. */
  predicate Reaches(g: Segment)
    requires g.filesz <= g.memsz
  {
    Turns(g, g.filesz) >= Count(g)
  }

  /**
    A first page that file data only partly fills is mapped again, as zeros, when the segment
    goes on: the loader is then right only if there was nothing but zeros to lose, and the
    last page was not missed.
  */
  lemma LoadRealisesIff(s: Space, g: Segment)
    requires Loadable(g) && Load(s, g).code == 0
    requires forall p: nat :: InSegment(g, p) ==> p !in s.pages
    ensures Realised(Load(s, g).s, g) <==> Fills(g) || g.filesz == g.memsz || (Blank(g) && Reaches(g))
  {
    if Fills(g) {
      LoadRealises(s, g);
    } else {
      PartlyFilled(s, g);
      var t := Load(s, g).s;
      hide Load;
      if g.filesz == g.memsz {
        forall p: nat, k: nat | k < BY2PG && g.va <= p * BY2PG + k < g.va + g.memsz ensures HasByte(t, g, p, k) {
          assert p == First(g);
          assert WantedPage(g, p)[k] == Wanted(g, p * BY2PG + k);
        }
      } else {
        hide Turns;
        ZeroesAreRight(t, g);
        ZeroesAreWrong(t, g);
      }
    }
  }

  /** The segment's first n pages are mapped and zero, the others not mapped at all. */
  ghost predicate OnlyZeros(t: Space, g: Segment) {
    && (forall p :: First(g) <= p < First(g) + Turns(g, g.filesz) ==> p in t.pages && t.pages[p].page == Zeros())
    && (forall p: nat :: InSegment(g, p) && p >= First(g) + Turns(g, g.filesz) ==> p !in t.pages)
  }

  lemma ZeroesAreRight(t: Space, g: Segment)
    requires Loadable(g) && OnlyZeros(t, g)
    ensures Blank(g) && Reaches(g) ==> Realised(t, g)
  {
    hide Turns;
    if Blank(g) && Reaches(g) {
      forall p: nat, k: nat | k < BY2PG && g.va <= p * BY2PG + k < g.va + g.memsz ensures HasByte(t, g, p, k) {
        assert InSegment(g, p);
        var a := p * BY2PG + k;
        assert a < g.va + g.filesz ==> g.bin[a - g.va] == 0;
      }
    }
  }

  lemma ZeroesAreWrong(t: Space, g: Segment)
    requires Loadable(g) && !Fills(g) && g.filesz < g.memsz && OnlyZeros(t, g) && Turns(g, g.filesz) > 0
    ensures Realised(t, g) ==> Blank(g) && Reaches(g)
  {
    hide Turns;
    if Realised(t, g) {
      forall a | 0 <= a < g.filesz ensures g.bin[a] == 0 {
        assert First(g) * BY2PG + Offset(g) + a == g.va + a;
        assert HasByte(t, g, First(g), Offset(g) + a);
      }
      var e := g.va + g.memsz - 1;
      assert e / BY2PG * BY2PG + e % BY2PG == e;
      assert HasByte(t, g, e / BY2PG, e % BY2PG);
      assert InSegment(g, e / BY2PG);
    }
  }

  /** What is mapped then. */
  lemma PartlyFilled(s: Space, g: Segment)
    requires Loadable(g) && !Fills(g) && Load(s, g).code == 0
    ensures var t, n := Load(s, g).s, Turns(g, g.filesz);
            && (g.filesz == g.memsz ==> First(g) in t.pages && t.pages[First(g)].page == WantedPage(g, First(g)))
            && (forall p :: First(g) <= p < First(g) + n ==> p in t.pages && t.pages[p].page == Zeros())
            && (forall p: nat :: InSegment(g, p) && p >= First(g) + n && n > 0 ==> (p in t.pages <==> p in s.pages))
  {
    HeadIs(s, g);
    var h := HeadPage(s, g).s;
    assert FileLoop(h, g, Head(g)).s == h;
    ZeroLoopIs(h, g, g.filesz);
    assert (g.va + g.filesz) / BY2PG == First(g);
    hide ZeroLoop, HeadPage, WantedPage;
  }

  // ----- permissions and memory

  /** Valid, writable exactly if the header says so, and nothing else. */
  predicate Permitted(g: Segment, perm: Flags) {
    && perm & PTE_V != 0 && (perm & PTE_D != 0 <==> g.flags & PF_W != 0)
    && perm | PTE_V | PTE_D == PTE_V | PTE_D
  }

  lemma FlagsPermitted(g: Segment)
    ensures Permitted(g, PageFlags(g))
  {
  }

  /** Pages mapped on the way have the segment's permissions and are all paid for; a failure is for want of one. */
  ghost predicate Paid(s: Space, r: Result, g: Segment) {
    && (forall p :: p in r.s.pages ==> (p in s.pages && r.s.pages[p] == s.pages[p]) || Permitted(g, r.s.pages[p].perm))
    && s.log <= r.s.log && r.s.left + |r.s.log| == s.left + |s.log|
    && (r.code == 0 || (r.code == -E_NO_MEM && r.s.left == 0))
  }

  lemma MapPaid(s: Space, g: Segment, va: nat, offset: nat, src: seq<Byte>)
    requires offset + |src| <= BY2PG
    ensures Paid(s, MapPage(s, va, offset, PageFlags(g), src), g)
  {
    FlagsPermitted(g);
    hide PageFlags, Permitted, Copied;
  }

  lemma PaidTrans(s: Space, t: Space, r: Result, g: Segment)
    requires Paid(s, Result(t, 0), g) && Paid(t, r, g)
    ensures Paid(s, r, g)
  {
    hide Permitted;
  }

  lemma {:induction false} FileLoopPaid(s: Space, g: Segment, i: nat)
    requires Loadable(g)
    ensures Paid(s, FileLoop(s, g, i), g)
    decreases g.filesz - i
  {
    hide MapPage, PageFlags, Permitted;
    if i < g.filesz {
      var r := FileTurn(s, g, i);
      MapPaid(s, g, g.va + i, 0, g.bin[i..i + Min(g.filesz - i, BY2PG)]);
      if r.code == 0 {
        FileLoopPaid(r.s, g, i + BY2PG);
        PaidTrans(s, r.s, FileLoop(r.s, g, i + BY2PG), g);
      }
    }
  }

  lemma {:induction false} ZeroLoopPaid(s: Space, g: Segment, i: nat)
    ensures Paid(s, ZeroLoop(s, g, i), g)
    decreases g.memsz - i
  {
    hide MapPage, PageFlags, Permitted;
    if i < g.memsz {
      var r := MapPage(s, g.va + i, 0, PageFlags(g), []);
      MapPaid(s, g, g.va + i, 0, []);
      if r.code == 0 {
        ZeroLoopPaid(r.s, g, i + BY2PG);
        PaidTrans(s, r.s, ZeroLoop(r.s, g, i + BY2PG), g);
      }
    }
  }

  /**
    Whether it succeeds or fails, every page elf_load_seg maps is writable exactly if the header has PF_W, and
    took one page of memory; it fails only when none is left.
  */
  lemma LoadPaid(s: Space, g: Segment)
    requires Loadable(g)
    ensures Paid(s, Load(s, g), g)
  {
    hide FileLoop, ZeroLoop, MapPage, PageFlags, Permitted, AfterFile;
    var h := HeadPage(s, g);
    if Offset(g) != 0 {
      MapPaid(s, g, g.va, Offset(g), g.bin[..Head(g)]);
    }
    if h.code == 0 {
      var f := FileLoop(h.s, g, Head(g));
      FileLoopPaid(h.s, g, Head(g));
      PaidTrans(s, h.s, f, g);
      if f.code == 0 {
        ZeroLoopPaid(f.s, g, AfterFile(g, Head(g)));
        PaidTrans(s, f.s, Load(s, g), g);
      }
    }
  }

  /** The address space being filled, changed in place by elf_load_seg. */
  class Child {
    var pages: map<nat, Mapped>
    var left: nat
    ghost var log: seq<nat>

    ghost function View(): Space
      reads this
    {
      Space(pages, log, left)
    }

    constructor (left: nat)
      ensures View() == Space(map[], [], left)
    {
      pages, this.left, log := map[], left, [];
    }

    /** load_icode_mapper, spawn_mapper: a zeroed page, `src` copied to its offset, mapped at va. */
    method Map(va: nat, offset: nat, perm: Flags, src: seq<Byte>) returns (r: int)
      requires offset + |src| <= BY2PG
      modifies this
      ensures Result(View(), r) == MapPage(old(View()), va, offset, perm, src)
    {
      if left == 0 {
        return -E_NO_MEM;
      }
      left := left - 1;
      pages := pages[va / BY2PG := Mapped(Copied(Zeros(), offset, src), perm)];
      log := log + [va / BY2PG];
      return 0;
    }

    /** elf_load_seg */
    method ElfLoadSeg(g: Segment) returns (r: int)
      requires Loadable(g)
      modifies this
      ensures Result(View(), r) == Load(old(View()), g)
    {
      hide MapPage;
      var perm := PageFlags(g);
      var offset := g.va - g.va / BY2PG * BY2PG;
      if offset != 0 {
        r := Map(g.va, offset, perm, g.bin[..Min(g.filesz, BY2PG - offset)]);
        if r != 0 {
          return;
        }
      }
      var i := if offset != 0 then Min(g.filesz, BY2PG - offset) else 0;
      ghost var head := View();
      while i < g.filesz
        invariant FileLoop(head, g, Head(g)) == FileLoop(View(), g, i)
        invariant AfterFile(g, Head(g)) == AfterFile(g, i)
      {
        r := Map(g.va + i, 0, perm, g.bin[i..i + Min(g.filesz - i, BY2PG)]);
        if r != 0 {
          return;
        }
        i := i + BY2PG;
      }
      ghost var filed := View();
      assert FileLoop(head, g, Head(g)) == Result(filed, 0);
      while i < g.memsz
        invariant ZeroLoop(filed, g, AfterFile(g, Head(g))) == ZeroLoop(View(), g, i)
      {
        r := Map(g.va + i, 0, perm, []);
        if r != 0 {
          return;
        }
        i := i + BY2PG;
      }
      return 0;
    }
  }
}
