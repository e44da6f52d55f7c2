/**
  Bitmaps kept in 32-bit words: asid_bitmap in kern/env.c, the disk's block bitmap in
  fs/fs.c and tools/fsformat.c. Bit b is bit b % 32 of word b / 32.
*/
module Bitmap {

  type Words = seq<bv32>

  function Both(w: bv32, m: bv32): bv32 { w & m }

  predicate Meet(w: bv32, m: bv32) { Both(w, m) != 0 }

  function Join(w: bv32, m: bv32): bv32 { w | m }

  function Without(w: bv32, m: bv32): bv32 { w & !m }

  function Mask(k: nat): bv32
    requires k < 32
  {
    1 << k
  }

  predicate Bit(w: bv32, k: nat)
    requires k < 32
  {
    Meet(w, Mask(k))
  }

  function MarkBit(w: bv32, k: nat): bv32
    requires k < 32
  {
    Join(w, Mask(k))
  }

  function ClearBit(w: bv32, k: nat): bv32
    requires k < 32
  {
    Without(w, Mask(k))
  }

  lemma JoinMeets(w: bv32, m: bv32, n: bv32)
    ensures Meet(Join(w, m), n) <==> Meet(m, n) || Meet(w, n)
  {
    hide Both, Join;
    Distribute(w, m, n);
    OrZero(Both(w, n), Both(m, n));
  }

  lemma Distribute(w: bv32, m: bv32, n: bv32)
    ensures Both(Join(w, m), n) == Join(Both(w, n), Both(m, n))
  {
  }

  lemma OrZero(a: bv32, b: bv32)
    ensures Join(a, b) == 0 <==> a == 0 && b == 0
  {
  }

  lemma WithoutMeets(w: bv32, m: bv32, n: bv32)
    ensures !Meet(m, n) ==> Meet(Without(w, m), n) == Meet(w, n)
  {
  }

  lemma WithoutGone(w: bv32, m: bv32)
    ensures !Meet(Without(w, m), m)
  {
  }

  lemma ShiftDisjoint(k: bv6, j: bv6)
    requires k < 32 && j < 32
    ensures (1 as bv32) << k != 0
    ensures k != j ==> ((1 as bv32) << k) & (1 << j) == 0
  {
  }

  /** Powers of two in a word are distinct single bits. */
  lemma MasksMeet(k: nat, j: nat)
    requires k < 32 && j < 32
    ensures Meet(Mask(k), Mask(j)) <==> k == j
  {
    ShiftDisjoint(k as bv6, j as bv6);
    if k != j {
      Distinct(k, j);
    }
  }

  lemma Distinct(k: nat, j: nat)
    requires k < 32 && j < 32 && k != j
    ensures k as bv6 != j as bv6
  {
    assert (k as bv6) as nat == k && (j as bv6) as nat == j;
  }

  lemma WordBits(w: bv32, k: nat, j: nat)
    requires k < 32 && j < 32
    ensures Bit(MarkBit(w, k), j) <==> k == j || Bit(w, j)
    ensures Bit(ClearBit(w, k), j) <==> k != j && Bit(w, j)
  {
    hide Meet, Join, Without, Mask;
    MasksMeet(k, j);
    JoinMeets(w, Mask(k), Mask(j));
    WithoutMeets(w, Mask(k), Mask(j));
    WithoutGone(w, Mask(k));
  }

  lemma ConstBits(k: nat)
    requires k < 32
    ensures !Bit(0, k) && Bit(0xffff_ffff, k)
  {
  }

  predicate Test(words: Words, b: nat)
    requires b < |words| * 32
  {
    Bit(words[b / 32], b % 32)
  }

  function Mark(words: Words, b: nat): (r: Words)
    requires b < |words| * 32
    ensures |r| == |words|
  {
    words[b / 32 := MarkBit(words[b / 32], b % 32)]
  }

  function Clear(words: Words, b: nat): (r: Words)
    requires b < |words| * 32
    ensures |r| == |words|
  {
    words[b / 32 := ClearBit(words[b / 32], b % 32)]
  }

  /** Setting or clearing a bit changes that bit and no other. */
  lemma OneBit(words: Words, b: nat)
    requires b < |words| * 32
    ensures forall c: nat :: c < |words| * 32 ==> (Test(Mark(words, b), c) <==> c == b || Test(words, c))
    ensures forall c: nat :: c < |words| * 32 ==> (Test(Clear(words, b), c) <==> c != b && Test(words, c))
  {
    hide Bit, MarkBit, ClearBit;
    forall c: nat | c < |words| * 32
      ensures Test(Mark(words, b), c) <==> c == b || Test(words, c)
      ensures Test(Clear(words, b), c) <==> c != b && Test(words, c)
    {
      assert c == b <==> c / 32 == b / 32 && c % 32 == b % 32;
      WordBits(words[b / 32], b % 32, c % 32);
    }
  }
}
