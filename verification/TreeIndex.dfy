/** Which tree bin holds which sizes, and where a bin's trie starts reading size bits. */
module TreeIndex {
  import opened Words

  const NTREEBINS := 32
  const MIN_LARGE_SIZE := 256

  /** Position of the highest set bit (31 - clz). */
  function Log2(x: nat): (k: nat)
    requires x > 0
    ensures Pow2(k) <= x < Pow2(k + 1)
  {
    if x == 1 then
      assert Pow2(1) == 2;
      0
    else
      var k := Log2(x / 2);
      assert Pow2(k + 2) == 2 * Pow2(k + 1);
      k + 1
  }

  /** compute_tree_index */
  function Index(s: nat): nat {
    var x := s / 256;
    if x == 0 then 0
    else if x > 0xFFFF then NTREEBINS - 1
    else var k := Log2(x); 2 * k + Bit(s, k + 7)
  }

  /** leftshift_for_tree_index: brings the first size bit the bin's trie inspects to the sign position. */
  function LeftShift(i: nat): int
    requires i < NTREEBINS
  {
    if i == NTREEBINS - 1 then 0 else 31 - (i / 2 + 8 - 2)
  }

  /** Number of low size bits that can differ within bin i; the trie's root sits at this height. */
  function Height(i: nat): (h: nat)
    requires i < NTREEBINS
    ensures 7 <= h <= 32
  {
    32 - LeftShift(i)
  }

  /** minsize_for_tree_index */
  function MinSize(i: nat): nat
    requires i < NTREEBINS
  {
    Pow2(i / 2 + 8) + (if i % 2 == 1 then Pow2(i / 2 + 7) else 0)
  }

  lemma {:induction false} Pow2Add(a: nat, b: nat)
    ensures Pow2(a + b) == Pow2(a) * Pow2(b)
  {
    if a > 0 {
      Pow2Add(a - 1, b);
      assert Pow2(a + b) == 2 * Pow2(a + b - 1);
      assert 2 * (Pow2(a - 1) * Pow2(b)) == Pow2(a) * Pow2(b);
    } else {
      assert Pow2(0) * Pow2(b) == Pow2(b);
    }
  }

  lemma Pow2Plus7(k: nat)
    ensures Pow2(k + 7) == 128 * Pow2(k)
  {
    Pow2Add(7, k);
    PowersOfTwo();
  }

  lemma Log2Below16(x: nat)
    requires 1 <= x <= 0xFFFF
    ensures Log2(x) <= 15
  {
    PowersOfTwo();
    if Log2(x) > 15 { Pow2Monotone(16, Log2(x)); }
  }

  lemma MiddleRange(s: nat, k: nat)
    requires 1 <= s / 256 <= 0xFFFF && k == Log2(s / 256)
    ensures k <= 15 && 2 * Pow2(k + 7) <= s < 4 * Pow2(k + 7)
  {
    Log2Below16(s / 256);
    Pow2Plus7(k);
    DoublePow2(k);
  }

  lemma ShrInRange(q: nat, p: nat, s: nat)
    requires q * p <= s < (q + 1) * p && 2 * p <= s < 4 * p
    ensures q == 2 || q == 3
  {
    if q <= 1 { MulLe(q + 1, 2, p); }
    if q >= 4 { MulLe(4, q, p); }
  }

  lemma TopBits(s: nat, k: nat)
    requires 2 * Pow2(k + 7) <= s < 4 * Pow2(k + 7)
    ensures Shr(s, k + 7) == 2 + Bit(s, k + 7)
    ensures if Bit(s, k + 7) == 1 then 3 * Pow2(k + 7) <= s else s < 3 * Pow2(k + 7)
  {
    ShrBounds(s, k + 7);
    hide Pow2, Shr;
    ShrInRange(Shr(s, k + 7), Pow2(k + 7), s);
  }

  /** The middle case: a size whose quotient by 256 fits 16 bits. */
  lemma MiddleBin(s: nat)
    requires 1 <= s / 256 <= 0xFFFF
    ensures var k := Log2(s / 256);
            k <= 15 && Shr(s, k + 7) == 2 + Bit(s, k + 7)
    ensures var k := Log2(s / 256);
            if Bit(s, k + 7) == 1 then 3 * Pow2(k + 7) <= s < 4 * Pow2(k + 7)
            else 2 * Pow2(k + 7) <= s < 3 * Pow2(k + 7)
  {
    MiddleRange(s, Log2(s / 256));
    TopBits(s, Log2(s / 256));
  }

  lemma IndexBound(s: nat)
    ensures Index(s) < NTREEBINS
  {
    if 1 <= s / 256 <= 0xFFFF { MiddleBin(s); }
  }

  lemma MiddleIndex(s: nat)
    requires 1 <= s / 256 <= 0xFFFF
    ensures Index(s) == 2 * Log2(s / 256) + Bit(s, Log2(s / 256) + 7)
  {
    hide Bit, Log2;
  }

  lemma MinSizeIs(k: nat, b: nat)
    requires k <= 15 && b <= 1
    ensures MinSize(2 * k + b) == if b == 1 then 3 * Pow2(k + 7) else 2 * Pow2(k + 7)
  {
    hide Pow2;
    DoublePow2(k + 7);
    assert (2 * k + b) / 2 == k && (2 * k + b) % 2 == b;
  }

  lemma RangeOfIndex(s: nat, k: nat, b: nat)
    requires k <= 15 && b <= 1
    requires if b == 1 then 3 * Pow2(k + 7) <= s < 4 * Pow2(k + 7) else 2 * Pow2(k + 7) <= s < 3 * Pow2(k + 7)
    ensures MinSize(2 * k + b) <= s
    ensures (2 * k + b) % 2 == b
    ensures 2 * k + b < NTREEBINS - 1 ==> s < MinSize(2 * k + b + 1) && Height(2 * k + b) == k + 7
  {
    hide Pow2, MinSize;
    MinSizeIs(k, b);
    if 2 * k + b < NTREEBINS - 1 {
      if b == 0 { MinSizeIs(k, 1); } else { MinSizeIs(k + 1, 0); DoublePow2(k + 7); }
    }
  }

  lemma MiddleBinRange(s: nat)
    requires 1 <= s / 256 <= 0xFFFF
    ensures var i := Index(s);
            && i < NTREEBINS && MinSize(i) <= s
            && (i < NTREEBINS - 1 ==> s < MinSize(i + 1) && Shr(s, Height(i)) == 2 + i % 2)
  {
    hide Pow2, Bit, MinSize, Log2, Shr, Height, Index;
    MiddleBin(s);
    var k := Log2(s / 256);
    MiddleIndex(s);
    RangeOfIndex(s, k, Bit(s, k + 7));
  }

  lemma LastBinRange(s: nat)
    requires s / 256 > 0xFFFF
    ensures Index(s) == NTREEBINS - 1 && MinSize(NTREEBINS - 1) <= s
  {
    PowersOfTwo();
    MinSizeIs(15, 1);
  }

  /** Bin i holds exactly the sizes from minsize(i) up to, but not including, minsize(i + 1). */
  lemma IndexRange(s: nat)
    requires MIN_LARGE_SIZE <= s < WORD
    ensures Index(s) < NTREEBINS
    ensures MinSize(Index(s)) <= s
    ensures Index(s) < NTREEBINS - 1 ==> s < MinSize(Index(s) + 1)
    ensures Index(s) < NTREEBINS - 1 ==> Shr(s, Height(Index(s))) == 2 + Index(s) % 2
  {
    if s / 256 <= 0xFFFF {
      MiddleBinRange(s);
    } else {
      LastBinRange(s);
    }
  }

  lemma MinSizeStep(i: nat)
    requires i + 1 < NTREEBINS
    ensures MinSize(i) <= MinSize(i + 1)
  {
    var m := i / 2;
    var p := Pow2(m + 7);
    assert Pow2(m + 8) == 2 * p;
    assert Pow2(m + 9) == 2 * Pow2(m + 8);
    if i % 2 == 0 {
      assert (i + 1) / 2 == m && (i + 1) % 2 == 1;
    } else {
      assert (i + 1) / 2 == m + 1 && (i + 1) % 2 == 0;
    }
  }

  lemma {:induction false} MinSizeMonotone(i: nat, j: nat)
    requires i <= j < NTREEBINS
    ensures MinSize(i) <= MinSize(j)
    decreases j
  {
    if i == j {
    } else {
      MinSizeMonotone(i, j - 1);
      MinSizeStep(j - 1);
    }
  }

  /** Larger sizes never sit in lower bins. */
  lemma IndexMonotone(s: nat, t: nat)
    requires MIN_LARGE_SIZE <= s <= t < WORD
    ensures Index(s) <= Index(t) < NTREEBINS
  {
    IndexRange(s);
    IndexRange(t);
    if Index(t) < Index(s) {
      MinSizeMonotone(Index(t) + 1, Index(s));
    }
  }

  /** All sizes of one bin agree on every bit at or above the bin's height. */
  lemma SameBinAgrees(s: nat, t: nat)
    requires MIN_LARGE_SIZE <= s < WORD && MIN_LARGE_SIZE <= t < WORD
    requires Index(s) == Index(t)
    ensures Index(s) < NTREEBINS && Shr(s, Height(Index(s))) == Shr(t, Height(Index(s)))
  {
    IndexRange(s);
    IndexRange(t);
    if Index(s) == NTREEBINS - 1 {
      PowersOfTwo();
      ShrUnique(s, 32, 0);
      ShrUnique(t, 32, 0);
    }
  }
}
