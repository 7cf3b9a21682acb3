/**
 * The bit vectors of kitch-linux/lib/emu/FD.C: sixteen 64-bit words holding FD_MAX bits,
 * and the search for a zero bit. A word is a natural below 2^64, so a right shift is a
 * division and a low mask is a remainder.
 */
module FdBits {
  import opened Prelude

  const FD_MAX := 1024
  const WORDS := 16
  const BITS := 64
  const ONES := 0xffff_ffff_ffff_ffff

  type Word = w: nat | w <= ONES

  // ------------------------------------------------- one word

  /** Bit i of a word. */
  predicate Bit(w: nat, i: nat) {
    if i == 0 then w % 2 == 1 else Bit(w / 2, i - 1)
  }

  /** 1 << i */
  function One(i: nat): nat {
    if i == 0 then 1 else 2 * One(i - 1)
  }

  /** w | (1 << i) */
  function With(w: nat, i: nat): nat {
    if Bit(w, i) then w else w + One(i)
  }

  /** w & ~(1 << i) */
  function Without(w: nat, i: nat): int {
    if Bit(w, i) then w - One(i) else w
  }

  /** w | ((1 << k) - 1) */
  function OrLow(w: nat, k: nat): nat {
    if k == 0 then w else 2 * OrLow(w / 2, k - 1) + 1
  }

  lemma {:induction false} WithBit(w: nat, i: nat, j: nat)
    ensures Bit(With(w, i), j) <==> j == i || Bit(w, j)
    decreases i, j
  {
    if !Bit(w, i) {
      if i == 0 {
        assert (w + 1) / 2 == w / 2;
      } else {
        var x := One(i - 1);
        assert (w + 2 * x) / 2 == w / 2 + x && (w + 2 * x) % 2 == w % 2;
        if j > 0 {
          WithBit(w / 2, i - 1, j - 1);
        }
      }
    }
  }

  lemma {:induction false} WithoutBit(w: nat, i: nat, j: nat)
    ensures Without(w, i) >= 0
    ensures Bit(Without(w, i), j) <==> j != i && Bit(w, j)
    decreases i, j
  {
    if Bit(w, i) {
      if i == 0 {
        assert (w - 1) / 2 == w / 2;
      } else {
        var x := One(i - 1);
        WithoutBit(w / 2, i - 1, if j > 0 then j - 1 else 0);
        assert (w - 2 * x) / 2 == w / 2 - x && (w - 2 * x) % 2 == w % 2;
      }
    }
  }

  lemma {:induction false} OrLowBit(w: nat, k: nat, j: nat)
    ensures Bit(OrLow(w, k), j) <==> j < k || Bit(w, j)
    decreases k, j
  {
    if k > 0 && j > 0 {
      OrLowBit(w / 2, k - 1, j - 1);
    }
  }

  /** Setting a bit of the word does not leave the word. */
  lemma {:induction false} WithFits(w: nat, i: nat, n: nat)
    requires w < One(n) && i < n
    ensures With(w, i) < One(n)
    decreases n
  {
    if i > 0 {
      WithFits(w / 2, i - 1, n - 1);
    }
  }

  lemma {:induction false} OrLowFits(w: nat, k: nat, n: nat)
    requires w < One(n) && k <= n
    ensures OrLow(w, k) < One(n)
    decreases n
  {
    if k > 0 {
      OrLowFits(w / 2, k - 1, n - 1);
    }
  }

  lemma OnePlus8(k: nat)
    ensures One(k + 8) == 256 * One(k)
  {
    assert One(k + 2) == 4 * One(k);
    assert One(k + 4) == 4 * One(k + 2);
    assert One(k + 6) == 4 * One(k + 4);
  }

  lemma WordSize()
    ensures One(BITS) == ONES + 1
  {
    OnePlus8(56);
    OnePlus8(48);
    OnePlus8(40);
    OnePlus8(32);
    OnePlus8(24);
    OnePlus8(16);
    OnePlus8(8);
    OnePlus8(0);
  }

  /** The low k bits are all set. */
  ghost predicate LowSet(w: nat, k: nat) {
    forall j: nat :: j < k ==> Bit(w, j)
  }

  lemma {:induction false} HighClear(w: nat, n: nat, j: nat)
    requires w < One(n) && j >= n
    ensures !Bit(w, j)
    decreases n, j
  {
    if n > 0 {
      HighClear(w / 2, n - 1, j - 1);
    } else if j > 0 {
      HighClear(0, 0, j - 1);
    }
  }

  lemma {:induction false} OnesFromBits(w: nat, n: nat)
    requires w < One(n) && LowSet(w, n)
    ensures w == One(n) - 1
  {
    if n > 0 {
      assert Bit(w, 0);
      forall j: nat | j < n - 1
        ensures Bit(w / 2, j)
      {
        assert Bit(w, j + 1);
      }
      OnesFromBits(w / 2, n - 1);
    }
  }

  lemma {:induction false} OnesBit(n: nat, j: nat)
    requires j < n
    ensures One(n) > 0 && Bit(One(n) - 1, j)
    decreases n
  {
    if n > 1 {
      OnesBit(n - 1, if j > 0 then j - 1 else 0);
      assert (One(n) - 1) / 2 == One(n - 1) - 1;
    }
  }

  /** A 64-bit word is all ones exactly if its 64 bits are set. */
  lemma AllOnes(w: Word)
    ensures w == ONES <==> LowSet(w, BITS)
    ensures forall j: nat :: j >= BITS ==> !Bit(w, j)
  {
    WordSize();
    if w == ONES {
      forall j: nat | j < BITS
        ensures Bit(w, j)
      {
        OnesBit(BITS, j);
      }
    }
    if LowSet(w, BITS) {
      OnesFromBits(w, BITS);
    }
    forall j: nat | j >= BITS
      ensures !Bit(w, j)
    {
      HighClear(w, BITS, j);
    }
  }

  // ------------------------------------------------- halving

  lemma Shift4(w: nat, j: nat)
    ensures Bit(w, j + 4) == Bit(w / 16, j)
  {
    assert Bit(w, j + 4) == Bit(w / 2, j + 3);
    assert Bit(w / 2, j + 3) == Bit(w / 4, j + 2);
    assert Bit(w / 4, j + 2) == Bit(w / 8, j + 1);
    assert Bit(w / 8, j + 1) == Bit(w / 16, j);
  }

  lemma Shift8(w: nat, j: nat)
    ensures Bit(w, j + 8) == Bit(w / 0x100, j)
  {
    Shift4(w, j + 4);
    Shift4(w / 16, j);
    assert w / 16 / 16 == w / 0x100;
  }

  lemma Shift16(w: nat, j: nat)
    ensures Bit(w, j + 16) == Bit(w / 0x1_0000, j)
  {
    Shift8(w, j + 8);
    Shift8(w / 0x100, j);
    assert w / 0x100 / 0x100 == w / 0x1_0000;
  }

  lemma Shift32(w: nat, j: nat)
    ensures Bit(w, j + 32) == Bit(w / 0x1_0000_0000, j)
  {
    Shift16(w, j + 16);
    Shift16(w / 0x1_0000, j);
    assert w / 0x1_0000 / 0x1_0000 == w / 0x1_0000_0000;
  }

  lemma Mask2(w: nat)
    ensures w % 4 == 3 <==> LowSet(w, 2)
  {
    assert Bit(w, 0) <==> w % 2 == 1;
    assert Bit(w, 1) == Bit(w / 2, 0);
    assert w % 4 == 2 * (w / 2 % 2) + w % 2;
  }

  lemma Mask4(w: nat)
    ensures w % 16 == 15 <==> LowSet(w, 4)
  {
    Mask2(w);
    Mask2(w / 4);
    forall j: nat
      ensures Bit(w, j + 2) == Bit(w / 4, j)
    {
      assert Bit(w, j + 2) == Bit(w / 2, j + 1) == Bit(w / 4, j);
    }
    LowSetSplit(w, w / 4, 2);
    assert w % 16 == 4 * (w / 4 % 4) + w % 4;
  }

  lemma Mask8(w: nat)
    ensures w % 0x100 == 0xff <==> LowSet(w, 8)
  {
    Mask4(w);
    Mask4(w / 16);
    forall j: nat
      ensures Bit(w, j + 4) == Bit(w / 16, j)
    {
      Shift4(w, j);
    }
    LowSetSplit(w, w / 16, 4);
    assert w % 0x100 == 16 * (w / 16 % 16) + w % 16;
  }

  lemma Mask16(w: nat)
    ensures w % 0x1_0000 == 0xffff <==> LowSet(w, 16)
  {
    Mask8(w);
    Mask8(w / 0x100);
    forall j: nat
      ensures Bit(w, j + 8) == Bit(w / 0x100, j)
    {
      Shift8(w, j);
    }
    LowSetSplit(w, w / 0x100, 8);
    assert w % 0x1_0000 == 0x100 * (w / 0x100 % 0x100) + w % 0x100;
  }

  lemma Mask32(w: nat)
    ensures w % 0x1_0000_0000 == 0xffff_ffff <==> LowSet(w, 32)
  {
    Mask16(w);
    Mask16(w / 0x1_0000);
    forall j: nat
      ensures Bit(w, j + 16) == Bit(w / 0x1_0000, j)
    {
      Shift16(w, j);
    }
    LowSetSplit(w, w / 0x1_0000, 16);
    assert w % 0x1_0000_0000 == 0x1_0000 * (w / 0x1_0000 % 0x1_0000) + w % 0x1_0000;
  }

  lemma LowSetSplit(w: nat, high: nat, k: nat)
    requires forall j: nat :: Bit(w, j + k) == Bit(high, j)
    ensures LowSet(w, 2 * k) <==> LowSet(w, k) && LowSet(high, k)
  {
    if LowSet(w, k) && LowSet(high, k) {
      forall j: nat | j < 2 * k
        ensures Bit(w, j)
      {
        assert j >= k ==> Bit(w, j - k + k) == Bit(high, j - k);
      }
    }
    if LowSet(w, 2 * k) {
      forall j: nat | j < k
        ensures Bit(high, j)
      {
        assert Bit(w, j + k);
      }
    }
  }

  // ------------------------------------------------- the search in a word

  /** r is the position of the lowest zero bit. */
  ghost predicate LowestZero(w: nat, r: nat) {
    LowSet(w, r) && !Bit(w, r)
  }

  /** The lowest zero of w, when its low k bits are set and `high` is w shifted right by k. */
  ghost predicate Reduces(w: nat, k: nat, high: nat) {
    LowSet(w, k) && forall j: nat :: Bit(w, j + k) == Bit(high, j)
  }

  lemma ReducesMore(w: nat, k: nat, high: nat, m: nat, higher: nat)
    requires Reduces(w, k, high) && Reduces(high, m, higher)
    ensures Reduces(w, k + m, higher)
  {
    forall j: nat | j < k + m
      ensures Bit(w, j)
    {
      assert j >= k ==> Bit(w, j - k + k) == Bit(high, j - k);
    }
    forall j: nat
      ensures Bit(w, j + (k + m)) == Bit(higher, j)
    {
      assert Bit(w, (j + m) + k) == Bit(high, j + m);
      assert (j + m) + k == j + (k + m);
    }
  }

  lemma ReducesByOne(w: nat)
    requires w % 2 == 1
    ensures Reduces(w, 1, w / 2)
  {
  }

  lemma Halving(w: nat)
    ensures w % 0x1_0000_0000 == 0xffff_ffff ==> Reduces(w, 32, w / 0x1_0000_0000)
    ensures w % 0x1_0000 == 0xffff ==> Reduces(w, 16, w / 0x1_0000)
    ensures w % 0x100 == 0xff ==> Reduces(w, 8, w / 0x100)
    ensures w % 16 == 15 ==> Reduces(w, 4, w / 16)
  {
    Mask32(w);
    Mask16(w);
    Mask8(w);
    Mask4(w);
    forall j: nat
      ensures Bit(w, j + 32) == Bit(w / 0x1_0000_0000, j)
      ensures Bit(w, j + 16) == Bit(w / 0x1_0000, j)
      ensures Bit(w, j + 8) == Bit(w / 0x100, j)
      ensures Bit(w, j + 4) == Bit(w / 16, j)
    {
      Shift32(w, j);
      Shift16(w, j);
      Shift8(w, j);
      Shift4(w, j);
    }
  }

  lemma Found(w: Word, k: nat, high: nat)
    requires Reduces(w, k, high) && high % 2 == 0
    ensures LowestZero(w, k) && (w != ONES ==> k < BITS) && (w == ONES ==> k == BITS)
  {
    assert Bit(w, 0 + k) == Bit(high, 0);
    assert k > BITS ==> Bit(w, BITS);
    assert k >= BITS ==> LowSet(w, BITS);
    AllOnes(w);
  }

  /**
   * The binary search: for every word that is not all ones it finds the lowest zero bit, and
   * for all ones it runs off the end of the word.
   */
  method FindFirstZeroInWord(word: Word) returns (bit: nat)
    ensures LowestZero(word, bit)
    ensures word != ONES ==> bit < BITS
    ensures word == ONES ==> bit == BITS
  {
    var mask: nat := word;
    bit := 0;
    assert Reduces(word, bit, mask);
    Halving(mask);
    if mask % 0x1_0000_0000 == 0xffff_ffff {
      mask := mask / 0x1_0000_0000;
      bit := 32;
    }
    Halving(mask);
    if mask % 0x1_0000 == 0xffff {
      ReducesMore(word, bit, mask, 16, mask / 0x1_0000);
      mask := mask / 0x1_0000;
      bit := bit + 16;
    }
    Halving(mask);
    if mask % 0x100 == 0xff {
      ReducesMore(word, bit, mask, 8, mask / 0x100);
      mask := mask / 0x100;
      bit := bit + 8;
    }
    Halving(mask);
    if mask % 16 == 15 {
      ReducesMore(word, bit, mask, 4, mask / 16);
      mask := mask / 16;
      bit := bit + 4;
    }
    while mask % 2 == 1
      invariant Reduces(word, bit, mask)
      decreases mask
    {
      ReducesByOne(mask);
      ReducesMore(word, bit, mask, 1, mask / 2);
      mask := mask / 2;
      bit := bit + 1;
    }
    Found(word, bit, mask);
  }

  // ------------------------------------------------- the bit vector

  type Bits = b: seq<Word> | |b| == WORDS witness seq(WORDS, i => 0)

  predicate Has(b: Bits, i: nat) {
    i < FD_MAX && Bit(b[i / BITS], i % BITS)
  }

  function Zero(): (r: Bits)
    ensures forall i :: !Has(r, i)
  {
    var r: Bits := seq(WORDS, i => 0);
    assert forall i: nat :: !Has(r, i) by {
      forall i: nat
        ensures !Has(r, i)
      {
        HighClear(0, 0, i % BITS);
      }
    }
    r
  }

  function SetBit(b: Bits, i: nat): (r: Bits)
    requires i < FD_MAX
    ensures forall j :: Has(r, j) <==> j == i || Has(b, j)
  {
    WordSize();
    WithFits(b[i / BITS], i % BITS, BITS);
    var r: Bits := b[i / BITS := With(b[i / BITS], i % BITS)];
    assert forall j: nat :: Has(r, j) <==> j == i || Has(b, j) by {
      forall j: nat
        ensures Has(r, j) <==> j == i || Has(b, j)
      {
        WithBit(b[i / BITS], i % BITS, j % BITS);
        SamePlace(i, j);
      }
    }
    r
  }

  function ClrBit(b: Bits, i: nat): (r: Bits)
    requires i < FD_MAX
    ensures forall j :: Has(r, j) <==> j != i && Has(b, j)
  {
    WithoutBit(b[i / BITS], i % BITS, 0);
    var r: Bits := b[i / BITS := Without(b[i / BITS], i % BITS)];
    assert forall j: nat :: Has(r, j) <==> j != i && Has(b, j) by {
      forall j: nat
        ensures Has(r, j) <==> j != i && Has(b, j)
      {
        WithoutBit(b[i / BITS], i % BITS, j % BITS);
        SamePlace(i, j);
      }
    }
    r
  }

  lemma SamePlace(i: nat, j: nat)
    ensures i == j <==> i / BITS == j / BITS && i % BITS == j % BITS
  {
  }

  // ------------------------------------------------- the search in the vector

  /** Every bit in [from, to) is set. */
  ghost predicate Full(b: Bits, from: nat, to: nat) {
    forall j: nat :: from <= j < to ==> Has(b, j)
  }

  /** r is the least zero bit at or above from; None if there is none. */
  ghost predicate LeastFree(b: Bits, from: nat, r: Option<nat>) {
    match r
    case Some(i) => from <= i < FD_MAX && !Has(b, i) && Full(b, from, i)
    case None => Full(b, from, FD_MAX)
  }

  /**
   * The word of `from` has a zero bit, but none at or above `from`: the test of the word lets
   * it through and the search in it runs off its end.
   */
  predicate Gap(b: Bits, from: nat)
    requires from < FD_MAX
  {
    b[from / BITS] != ONES && OrLow(b[from / BITS], from % BITS) == ONES
  }

  /** The first bit of the word after `from`. */
  function NextWord(from: nat): nat {
    (from / BITS + 1) * BITS
  }

  lemma FullWord(b: Bits, word: nat, k: nat)
    requires word < WORDS && k <= BITS && (forall j: nat :: k <= j < BITS ==> Bit(b[word], j))
    ensures Full(b, word * BITS + k, word * BITS + BITS)
  {
  }

  /** findZero: the search from `from`, one word at a time. */
  method FindZero(b: Bits, from: nat) returns (r: Option<nat>)
    requires from < FD_MAX
    ensures Gap(b, from) ==> r == Some(NextWord(from))
    ensures !Gap(b, from) ==> LeastFree(b, from, r)
  {
    var word := from / BITS;
    var low := from % BITS;  // mask is (1 << low) - 1
    while word < WORDS
      invariant from / BITS <= word <= WORDS
      invariant low == if word == from / BITS then from % BITS else 0
      invariant from <= word * BITS + low && Full(b, from, word * BITS + low)
      invariant word > from / BITS ==> b[from / BITS] == ONES
    {
      AllOnes(b[word]);
      if b[word] != ONES {
        WordSize();
        OrLowFits(b[word], low, BITS);
        var bit := FindFirstZeroInWord(OrLow(b[word], low));
        Answer(b, from, word, low, bit);
        return Some(word * BITS + bit);
      }
      FullWord(b, word, low);
      low := 0;
      word := word + 1;
    }
    assert !Gap(b, from);
    r := None;
  }

  lemma Answer(b: Bits, from: nat, word: nat, low: nat, bit: nat)
    requires from < FD_MAX && from / BITS <= word < WORDS && b[word] != ONES
    requires low == if word == from / BITS then from % BITS else 0
    requires from <= word * BITS + low && Full(b, from, word * BITS + low)
    requires word > from / BITS ==> b[from / BITS] == ONES
    requires var w := OrLow(b[word], low);
             w <= ONES && LowestZero(w, bit) && (w != ONES ==> bit < BITS) && (w == ONES ==> bit == BITS)
    ensures Gap(b, from) ==> word * BITS + bit == NextWord(from)
    ensures !Gap(b, from) ==> LeastFree(b, from, Some(word * BITS + bit))
  {
    var w := OrLow(b[word], low);
    if !Gap(b, from) {
      assert bit < BITS;
      var i := word * BITS + bit;
      assert i / BITS == word && i % BITS == bit;
      OrLowBit(b[word], low, bit);
      assert !Has(b, i) && bit >= low;
      forall j: nat | from <= j < i
        ensures Has(b, j)
      {
        if j >= word * BITS + low {
          assert j / BITS == word && j % BITS == j - word * BITS;
          OrLowBit(b[word], low, j % BITS);
          assert Bit(w, j % BITS);
        }
      }
    }
  }

  /** The search gives the least free bit exactly when there is no gap, or the gap ends at a free bit. */
  lemma FindZeroExact(b: Bits, from: nat)
    requires from < FD_MAX && Gap(b, from)
    ensures LeastFree(b, from, Some(NextWord(from))) <==> NextWord(from) < FD_MAX && !Has(b, NextWord(from))
  {
    var word, low := from / BITS, from % BITS;
    WordSize();
    AllOnes(OrLow(b[word], low));
    forall j: nat | low <= j < BITS
      ensures Bit(b[word], j)
    {
      OrLowBit(b[word], low, j);
    }
    FullWord(b, word, low);
  }

  /** From a word boundary there is no gap. */
  lemma NoGapAtBoundary(b: Bits, from: nat)
    requires from < FD_MAX && from % BITS == 0
    ensures !Gap(b, from)
  {
  }

  /** Bit 0 free and bits 1 to 64 in use: a search from 1 gives 64. */
  lemma GapExample()
    ensures var b: Bits := Zero()[0 := ONES - 1][1 := 1];
            && Has(b, 64) && !Has(b, 65) && Gap(b, 1) && NextWord(1) == 64
  {
  }
}
