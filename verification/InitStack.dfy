/**
  The first stack page of a spawned program (init_stack in user/lib/spawn.c): argument
  strings at the top, the array of pointers to them below, argc and argv below that. The
  page is filled at UTEMP and then mapped into the child just under USTACKTOP.
*/
module InitStack {
  import opened Errors
  import opened Mmu

  const WORD: nat := 0x1_0000_0000

  type Byte = b: nat | b < 256

  /** A C string without its terminator. */
  type Text = t: seq<Byte> | forall k :: 0 <= k < |t| ==> t[k] != 0

  /** The four bytes of a word in memory, in the byte order of the machine. */
  function Encode(w: nat, big: bool): (s: seq<Byte>)
    requires w < WORD
    ensures |s| == 4
  {
    var x := w / 0x100;
    var y := x / 0x100;
    var a, b, c, d := w % 0x100, x % 0x100, y % 0x100, y / 0x100;
    if big then [d, c, b, a] else [a, b, c, d]
  }

  function Join(hi: nat, lo: Byte): nat { hi * 0x100 + lo }

  function Decode(s: seq<Byte>, big: bool): nat
    requires |s| == 4
  {
    if big then Join(Join(Join(s[0], s[1]), s[2]), s[3]) else Join(Join(Join(s[3], s[2]), s[1]), s[0])
  }

  lemma RoundTrip(w: nat, big: bool)
    requires w < WORD
    ensures Decode(Encode(w, big), big) == w
  {
  }

  /** tot: the space the strings from `argv` on take. */
  function Total(argv: seq<Text>): nat {
    if argv == [] then 0 else |argv[0]| + 1 + Total(argv[1..])
  }

  /** ROUND(n, 4) */
  function Round4(n: nat): (r: nat)
    ensures r % 4 == 0 && n <= r < n + 4
  {
    (n + 3) / 4 * 4
  }

  predicate FitsPage(argv: seq<Text>) {
    Round4(Total(argv)) + 4 * (|argv| + 3) <= BY2PG
  }

  /** A list is refused only if its strings, a pointer each, and three words more are over a page. */
  lemma FitsIff(argv: seq<Text>)
    ensures FitsPage(argv) <==> Total(argv) + 4 * (|argv| + 3) <= BY2PG
  {
    hide Total, Round4;
    WholeWords(Total(argv), Round4(Total(argv)), |argv| + 3);
  }

  lemma WholeWords(n: nat, r: nat, k: nat)
    requires r % 4 == 0 && n <= r < n + 4
    ensures r + 4 * k <= BY2PG <==> n + 4 * k <= BY2PG
  {
    assert r == 4 * (r / 4) && BY2PG == 4 * 1024;
  }

  /** Offset of string i in the page; offset |argv| is the end of the page. */
  function StringOff(argv: seq<Text>, i: nat): int
    requires i <= |argv|
  {
    BY2PG - Total(argv[i..])
  }

  /** Offset of args[0]. */
  function ArgsOff(argv: seq<Text>): int {
    BY2PG - Round4(Total(argv)) - 4 * (|argv| + 1)
  }

  /** Where the child sees an offset of the page. */
  function ChildAddr(off: nat): nat {
    USTACKTOP - BY2PG + off
  }

  predicate StringAt(page: seq<Byte>, off: int, t: Text) {
    && 0 <= off && off + |t| < |page|
    && page[off..off + |t|] == t && page[off + |t|] == 0
  }

  function WordAt(page: seq<Byte>, off: nat, big: bool): nat
    requires off + 4 <= |page|
  {
    Decode(page[off..off + 4], big)
  }

  // ----- the layout

  /** Strings follow each other without gaps up to the end of the page. */
  lemma {:induction false} NextString(argv: seq<Text>, i: nat)
    requires i < |argv|
    ensures StringOff(argv, i + 1) == StringOff(argv, i) + |argv[i]| + 1
  {
    assert argv[i..][0] == argv[i] && argv[i..][1..] == argv[i + 1..];
  }

  /** No string overlaps another: j starts after i and its terminator. */
  lemma {:induction false} StringsApart(argv: seq<Text>, i: nat, j: nat)
    requires i < j <= |argv|
    ensures StringOff(argv, i) + |argv[i]| < StringOff(argv, j) <= BY2PG
    decreases j - i
  {
    NextString(argv, i);
    if i + 1 < j {
      StringsApart(argv, i + 1, j);
    } else {
      TotalIs(argv, j);
    }
  }

  lemma TotalIs(argv: seq<Text>, i: nat)
    requires i <= |argv|
    ensures StringOff(argv, i) <= BY2PG && (i == |argv| ==> StringOff(argv, i) == BY2PG)
  {
  }

  /** argc, argv, the pointers and the strings lie in this order in the page, the words aligned. */
  lemma LaidOut(argv: seq<Text>)
    requires FitsPage(argv)
    ensures 0 <= ArgsOff(argv) - 8 && ArgsOff(argv) % 4 == 0
    ensures ArgsOff(argv) + 4 * (|argv| + 1) <= StringOff(argv, 0) <= BY2PG
    ensures forall i :: 0 <= i < |argv| ==> StringOff(argv, 0) <= StringOff(argv, i) && StringOff(argv, i) + |argv[i]| < BY2PG
  {
    assert argv[0..] == argv;
    forall i | 0 <= i < |argv|
      ensures StringOff(argv, 0) <= StringOff(argv, i) && StringOff(argv, i) + |argv[i]| < BY2PG
    {
      if i > 0 {
        StringsApart(argv, 0, i);
      }
      StringsApart(argv, i, |argv|);
    }
  }

  // ----- what the page holds

  ghost predicate HasStrings(page: seq<Byte>, argv: seq<Text>, n: nat)
    requires n <= |argv|
  {
    forall i :: 0 <= i < n ==> StringAt(page, StringOff(argv, i), argv[i])
  }

  /** args[i] points to string i, for the child. */
  ghost predicate HasPointers(page: seq<Byte>, argv: seq<Text>, n: nat, big: bool)
    requires n <= |argv| && |page| == BY2PG && FitsPage(argv)
  {
    LaidOut(argv);
    forall i :: 0 <= i < n ==> WordAt(page, ArgsOff(argv) + 4 * i, big) == ChildAddr(StringOff(argv, i))
  }

  /** Bytes from lo to hi are the same in both pages. */
  predicate SameBytes(p: seq<Byte>, q: seq<Byte>, lo: int, hi: int) {
    && |p| == |q| && 0 <= lo && hi <= |p|
    && forall k :: lo <= k < hi ==> p[k] == q[k]
  }

  lemma StringStays(p: seq<Byte>, q: seq<Byte>, off: int, t: Text)
    requires StringAt(p, off, t) && SameBytes(p, q, off, off + |t| + 1)
    ensures StringAt(q, off, t)
  {
    assert p[off..off + |t|] == q[off..off + |t|];
  }

  lemma WordStays(p: seq<Byte>, q: seq<Byte>, off: nat, big: bool)
    requires SameBytes(p, q, off, off + 4)
    ensures WordAt(p, off, big) == WordAt(q, off, big)
  {
    assert p[off..off + 4] == q[off..off + 4];
  }

  lemma SameTrans(p: seq<Byte>, q: seq<Byte>, r: seq<Byte>, lo: int, hi: int)
    requires SameBytes(p, q, lo, hi) && SameBytes(q, r, lo, hi)
    ensures SameBytes(p, r, lo, hi)
  {
  }

  /** Another pointer stored after the first n. */
  lemma PointersGrow(p: seq<Byte>, q: seq<Byte>, argv: seq<Text>, n: nat, big: bool)
    requires n < |argv| && |p| == |q| == BY2PG && FitsPage(argv) && 0 <= ArgsOff(argv) && HasPointers(p, argv, n, big)
    requires 0 <= StringOff(argv, n)
    requires SameBytes(p, q, ArgsOff(argv), ArgsOff(argv) + 4 * n) && ArgsOff(argv) + 4 * n + 4 <= BY2PG
    requires WordAt(q, ArgsOff(argv) + 4 * n, big) == ChildAddr(StringOff(argv, n))
    ensures HasPointers(q, argv, n + 1, big)
  {
    PointersStay(p, q, argv, n, big);
  }

  lemma PointersStay(p: seq<Byte>, q: seq<Byte>, argv: seq<Text>, n: nat, big: bool)
    requires n <= |argv| && |p| == |q| == BY2PG && FitsPage(argv) && HasPointers(p, argv, n, big)
    requires 0 <= ArgsOff(argv) && SameBytes(p, q, ArgsOff(argv), ArgsOff(argv) + 4 * n)
    ensures HasPointers(q, argv, n, big)
  {
    LaidOut(argv);
    forall k | 0 <= k < n ensures WordAt(q, ArgsOff(argv) + 4 * k, big) == ChildAddr(StringOff(argv, k)) {
      WordStays(p, q, ArgsOff(argv) + 4 * k, big);
    }
  }

  /** A string as the child reads it: up to the first zero byte. */
  function Read(page: seq<Byte>, off: nat): seq<Byte>
    decreases |page| - off
  {
    if off >= |page| || page[off] == 0 then [] else [page[off]] + Read(page, off + 1)
  }

  lemma {:induction false} ReadsBack(page: seq<Byte>, off: nat, t: Text)
    requires StringAt(page, off, t)
    ensures Read(page, off) == t
    decreases |t|
  {
    if t != [] {
      assert page[off] == page[off..off + |t|][0] == t[0];
      assert page[off + 1..off + 1 + |t[1..]|] == page[off..off + |t|][1..];
      ReadsBack(page, off + 1, t[1..]);
    } else {
      assert Read(page, off) == [];
    }
  }

  // ----- filling the page

  /** *p = w for a word pointer p into the page. */
  method PutWord(page: array<Byte>, off: nat, w: nat, big: bool)
    requires off + 4 <= page.Length && w < WORD
    modifies page
    ensures WordAt(page[..], off, big) == w
    ensures SameBytes(old(page[..]), page[..], 0, off) && SameBytes(old(page[..]), page[..], off + 4, page.Length)
  {
    var s := Encode(w, big);
    page[off], page[off + 1], page[off + 2], page[off + 3] := s[0], s[1], s[2], s[3];
    RoundTrip(w, big);
    assert page[..][off..off + 4] == s;
  }

  /** strcpy by hand: t and its terminator from `off` on. */
  method CopyString(page: array<Byte>, off: nat, t: Text)
    requires off + |t| < page.Length
    modifies page
    ensures StringAt(page[..], off, t)
    ensures SameBytes(old(page[..]), page[..], 0, off)
  {
    var c, j := off, 0;
    while j < |t|
      invariant j <= |t| && c == off + j
      invariant page[off..c] == t[..j] && SameBytes(old(page[..]), page[..], 0, off)
    {
      page[c] := t[j];
      c, j := c + 1, j + 1;
    }
    page[c] := 0;
    assert page[..][off..c] == page[off..c] == t;
  }

  /** The loop that copies the strings, from `strings` to the end of the page. */
  method CopyStrings(page: array<Byte>, argv: seq<Text>)
    requires page.Length == BY2PG && FitsPage(argv)
    modifies page
    ensures HasStrings(page[..], argv, |argv|)
    ensures SameBytes(old(page[..]), page[..], 0, StringOff(argv, 0))
  {
    LaidOut(argv);
    var c: int := StringOff(argv, 0);
    var i := 0;
    while i < |argv|
      invariant i <= |argv| && c == StringOff(argv, i) && c >= StringOff(argv, 0)
      invariant HasStrings(page[..], argv, i)
      invariant SameBytes(old(page[..]), page[..], 0, StringOff(argv, 0))
    {
      ghost var was := page[..];
      NextString(argv, i);
      CopyString(page, c, argv[i]);
      forall k | 0 <= k < i ensures StringAt(page[..], StringOff(argv, k), argv[k]) {
        StringsApart(argv, k, i);
        StringStays(was, page[..], StringOff(argv, k), argv[k]);
      }
      c := c + |argv[i]| + 1;
      i := i + 1;
    }
  }

  /** The loop that fills args[0..argc-1], and the word after them. */
  method FillPointers(page: array<Byte>, argv: seq<Text>, big: bool)
    requires page.Length == BY2PG && FitsPage(argv)
    modifies page
    ensures HasPointers(page[..], argv, |argv|, big)
    ensures ArgsOff(argv) >= 0 && WordAt(page[..], ArgsOff(argv) + 4 * |argv|, big) == USTACKTOP - 1
    ensures SameBytes(old(page[..]), page[..], ArgsOff(argv) + 4 * (|argv| + 1), BY2PG)
  {
    LaidOut(argv);
    var c := ChildAddr(StringOff(argv, 0));
    var args, end := ArgsOff(argv), ArgsOff(argv) + 4 * (|argv| + 1);
    hide HasPointers, WordAt, ArgsOff, FitsPage;
    var i := 0;
    while i < |argv|
      invariant i <= |argv| && 0 <= StringOff(argv, i) && c == ChildAddr(StringOff(argv, i))
      invariant HasPointers(page[..], argv, i, big)
      invariant SameBytes(old(page[..]), page[..], end, BY2PG)
    {
      ghost var was := page[..];
      NextString(argv, i);
      TotalIs(argv, i);
      PutWord(page, args + 4 * i, c, big);
      PointersGrow(was, page[..], argv, i, big);
      SameTrans(old(page[..]), was, page[..], end, BY2PG);
      c := c + |argv[i]| + 1;
      i := i + 1;
    }
    TotalIs(argv, |argv|);
    c := c - 1;
    ghost var was := page[..];
    PutWord(page, args + 4 * |argv|, c, big);
    PointersStay(was, page[..], argv, |argv|, big);
    SameTrans(old(page[..]), was, page[..], end, BY2PG);
  }

  /** The finished page; sp is where the child's stack starts. */
  ghost predicate Built(page: seq<Byte>, argv: seq<Text>, sp: nat, big: bool) {
    && |page| == BY2PG && FitsPage(argv) && 0 <= ArgsOff(argv) - 8 && ArgsOff(argv) + 4 * (|argv| + 1) <= BY2PG
    && sp == ChildAddr(ArgsOff(argv) - 8)
    && WordAt(page, ArgsOff(argv) - 8, big) == |argv|
    && WordAt(page, ArgsOff(argv) - 4, big) == ChildAddr(ArgsOff(argv))
    && HasPointers(page, argv, |argv|, big)
    && WordAt(page, ArgsOff(argv) + 4 * |argv|, big) == USTACKTOP - 1
    && HasStrings(page, argv, |argv|)
  }

  lemma StringsStay(p: seq<Byte>, q: seq<Byte>, argv: seq<Text>)
    requires FitsPage(argv) && |p| == BY2PG && HasStrings(p, argv, |argv|) && SameBytes(p, q, StringOff(argv, 0), BY2PG)
    ensures HasStrings(q, argv, |argv|)
  {
    LaidOut(argv);
    forall k | 0 <= k < |argv| ensures StringAt(q, StringOff(argv, k), argv[k]) {
      StringStays(p, q, StringOff(argv, k), argv[k]);
    }
  }

  /** The first loop: argc, and the space for all strings. */
  method Measure(argv: seq<Text>) returns (argc: nat, tot: nat)
    ensures argc == |argv| && tot == Total(argv)
  {
    argc, tot := 0, 0;
    while argc < |argv|
      invariant argc <= |argv| && tot + Total(argv[argc..]) == Total(argv)
    {
      assert argv[argc..][0] == argv[argc] && argv[argc..][1..] == argv[argc + 1..];
      tot := tot + |argv[argc]| + 1;
      argc := argc + 1;
    }
  }

  /**
    init_stack, with what syscall_mem_alloc and syscall_mem_map answer as parameters: it is
    refused exactly when the page is too small, and otherwise builds the page in memory
    that sys_mem_alloc zeroed.
  */
  method Build(argv: seq<Text>, big: bool, memory: int, mapped: int) returns (code: int, sp: nat, page: array<Byte>)
    ensures code == (if !FitsPage(argv) then -E_NO_MEM else if memory < 0 then memory else if mapped < 0 then mapped else 0)
    ensures code == 0 ==> Built(page[..], argv, sp, big)
  {
    page := new Byte[BY2PG](_ => 0);
    sp := 0;
    var argc, tot := Measure(argv);
    if Round4(tot) + 4 * (argc + 3) > BY2PG {
      return -E_NO_MEM, sp, page;
    }
    if memory < 0 {
      return memory, sp, page;
    }
    LaidOut(argv);
    hide HasStrings, HasPointers, WordAt, SameBytes, ChildAddr;
    var args: nat := BY2PG - Round4(tot) - 4 * (argc + 1);
    CopyStrings(page, argv);
    ghost var copied := page[..];
    FillPointers(page, argv, big);
    ghost var filled := page[..];
    StringsStay(copied, filled, argv);
    PutWord(page, args - 4, ChildAddr(args), big);
    ghost var pushed := page[..];
    PutWord(page, args - 8, argc, big);
    PushedSame(filled, pushed, page[..], args);
    Pushed(filled, pushed, page[..], argv, big);
    sp := ChildAddr(args - 8);
    code := if mapped < 0 then mapped else 0;
  }

  lemma PushedSame(p: seq<Byte>, q: seq<Byte>, r: seq<Byte>, args: nat)
    requires 8 <= args
    requires SameBytes(p, q, args, BY2PG) && SameBytes(q, r, args - 4, BY2PG)
    ensures SameBytes(p, r, args, BY2PG)
  {
  }

  /** Pushing argv and argc below the array leaves the array and the strings alone. */
  lemma Pushed(p: seq<Byte>, q: seq<Byte>, r: seq<Byte>, argv: seq<Text>, big: bool)
    requires |p| == |q| == |r| == BY2PG && FitsPage(argv) && 8 <= ArgsOff(argv)
    requires HasStrings(p, argv, |argv|) && HasPointers(p, argv, |argv|, big)
    requires SameBytes(p, q, ArgsOff(argv), BY2PG) && SameBytes(q, r, ArgsOff(argv) - 4, BY2PG)
    ensures ArgsOff(argv) + 4 * (|argv| + 1) <= BY2PG
    ensures HasStrings(r, argv, |argv|) && HasPointers(r, argv, |argv|, big)
    ensures WordAt(r, ArgsOff(argv) + 4 * |argv|, big) == WordAt(p, ArgsOff(argv) + 4 * |argv|, big)
    ensures WordAt(r, ArgsOff(argv) - 4, big) == WordAt(q, ArgsOff(argv) - 4, big)
  {
    LaidOut(argv);
    assert SameBytes(p, r, ArgsOff(argv), BY2PG);
    StringsStay(p, r, argv);
    PointersStay(p, r, argv, |argv|, big);
    WordStays(p, r, ArgsOff(argv) + 4 * |argv|, big);
    WordStays(q, r, ArgsOff(argv) - 4, big);
  }

  /** A word, and a string, at an address of the child, whose last stack page is `page`. */
  function ChildWord(page: seq<Byte>, a: nat, big: bool): nat
    requires |page| == BY2PG && USTACKTOP - BY2PG <= a && a + 4 <= USTACKTOP
  {
    WordAt(page, a - (USTACKTOP - BY2PG), big)
  }

  function ChildString(page: seq<Byte>, a: nat): seq<Byte>
    requires |page| == BY2PG && USTACKTOP - BY2PG <= a
  {
    Read(page, a - (USTACKTOP - BY2PG))
  }

  /** main(argc, argv) in the child: argc at the stack pointer, argv after it, all in the page. */
  lemma ChildStarts(page: seq<Byte>, argv: seq<Text>, sp: nat, big: bool)
    requires Built(page, argv, sp, big)
    ensures USTACKTOP - BY2PG <= sp && sp % 4 == 0 && sp + 8 + 4 * (|argv| + 1) <= USTACKTOP
    ensures ChildWord(page, sp, big) == |argv|
    ensures ChildWord(page, sp + 4, big) == sp + 8
    ensures ChildWord(page, sp + 8 + 4 * |argv|, big) == USTACKTOP - 1
  {
    hide WordAt, HasStrings, HasPointers, FitsPage, ArgsOff;
    LaidOut(argv);
    Aligned(ArgsOff(argv) - 8);
  }

  lemma Aligned(off: nat)
    requires off % 4 == 0
    ensures ChildAddr(off) % 4 == 0
  {
  }

  /** Every argument pointer leads to the argument as it was given, above the pointers and inside the page. */
  lemma ChildSees(page: seq<Byte>, argv: seq<Text>, sp: nat, big: bool, i: nat)
    requires Built(page, argv, sp, big) && i < |argv|
    ensures USTACKTOP - BY2PG <= sp && sp + 8 + 4 * (|argv| + 1) <= USTACKTOP
    ensures var a := ChildWord(page, sp + 8 + 4 * i, big);
            && sp + 8 + 4 * (|argv| + 1) <= a && a + |argv[i]| < USTACKTOP
            && ChildString(page, a) == argv[i]
  {
    hide Read, StringAt, FitsPage, ArgsOff;
    LaidOut(argv);
    var off := StringOff(argv, i);
    assert WordAt(page, ArgsOff(argv) + 4 * i, big) == ChildAddr(off);
    assert StringAt(page, off, argv[i]);
    ReadsBack(page, off, argv[i]);
    hide WordAt, HasStrings, HasPointers, Built;
  }
}
