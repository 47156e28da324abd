/** The bit arithmetic of aligned allocation: masks, the power-of-two test, and the loop that rounds an
    alignment up. */
module Alignment {
  import opened Words
  import opened Layout

  /** a & b in n bits */
  function BitAnd(a: nat, b: nat, n: nat): nat {
    if n == 0 then 0 else 2 * BitAnd(a / 2, b / 2, n - 1) + (if a % 2 == 1 && b % 2 == 1 then 1 else 0)
  }

  lemma {:induction false} AndSelf(a: nat, n: nat)
    requires a < Pow2(n)
    ensures BitAnd(a, a, n) == a
  {
    if n == 0 {
    } else {
      AndSelf(a / 2, n - 1);
    }
  }

  ghost predicate IsPower(a: nat) {
    exists k: nat :: a == Pow2(k)
  }

  lemma OddNoPower(a: nat)
    requires a % 2 == 1 && a != 1
    ensures !IsPower(a)
  {
  }

  lemma HalfPower(a: nat)
    requires a % 2 == 0 && a > 0
    ensures IsPower(a) <==> IsPower(a / 2)
  {
    if k: nat :| a == Pow2(k) { assert a / 2 == Pow2(k - 1); }
    if k: nat :| a / 2 == Pow2(k) { assert a == Pow2(k + 1); }
  }

  /** The test (a & (a - 1)) == 0 singles out the powers of two. */
  lemma {:induction false} PowerTest(a: nat, n: nat)
    requires 0 < a < Pow2(n)
    ensures BitAnd(a, a - 1, n) == 0 <==> IsPower(a)
  {
    if a % 2 == 1 {
      assert (a - 1) / 2 == a / 2;
      AndSelf(a / 2, n - 1);
      if a == 1 {
        assert Pow2(0) == 1;
      } else {
        OddNoPower(a);
      }
    } else {
      assert (a - 1) / 2 == a / 2 - 1;
      PowerTest(a / 2, n - 1);
      HalfPower(a);
    }
  }

  lemma ModDouble(x: nat, d: nat)
    requires d > 0
    ensures x % (2 * d) == 2 * (x / 2 % d) + x % 2
  {
    var h := x / 2;
    var q, r := h / d, h % d;
    assert h == d * q + r;
    assert x == 2 * d * q + (2 * r + x % 2) by {
      assert 2 * (d * q) == 2 * d * q;
    }
    DivUnique(x, 2 * d, q, 2 * r + x % 2);
  }

  lemma Halved(p: int, b: int)
    requires 0 <= b < 2
    ensures (2 * p - b) / 2 == p - b && (2 * p - b) % 2 == b
  {
  }

  lemma AndEmpty(a: nat, b: nat)
    ensures BitAnd(a, b, 0) == 0
  {
  }

  lemma AndStep(a: nat, b: nat, n: nat)
    requires n > 0
    ensures BitAnd(a, b, n) == 2 * BitAnd(a / 2, b / 2, n - 1) + (if a % 2 == 1 && b % 2 == 1 then 1 else 0)
  {
  }

  lemma {:induction false} AndZero(x: nat, n: nat)
    ensures BitAnd(x, 0, n) == 0
  {
    if n == 0 {
    } else {
      AndZero(x / 2, n - 1);
    }
  }

  /** x & (2^k - 1) is the remainder. */
  lemma {:induction false} LowMask(x: nat, k: nat, n: nat)
    requires x < Pow2(n) && k <= n
    ensures BitAnd(x, Pow2(k) - 1, n) == x % Pow2(k)
  {
    hide BitAnd;
    if n == 0 {
      AndEmpty(x, Pow2(k) - 1);
    } else {
      if k == 0 {
        AndZero(x, n);
      } else {
        LowMask(x / 2, k - 1, n - 1);
        AndStep(x, Pow2(k) - 1, n);
        Halved(Pow2(k - 1), 1);
        ModDouble(x, Pow2(k - 1));
      }
    }
  }

  lemma {:induction false} AndOnes(x: nat, n: nat)
    requires x < Pow2(n)
    ensures BitAnd(x, Pow2(n) - 1, n) == x
  {
    if n == 0 {
    } else {
      AndOnes(x / 2, n - 1);
      assert (Pow2(n) - 1) / 2 == Pow2(n - 1) - 1;
    }
  }

  /** x & -2^k, in n bits, rounds down. */
  lemma {:induction false} HighMask(x: nat, k: nat, n: nat)
    requires x < Pow2(n) && k <= n
    ensures Pow2(k) <= Pow2(n) && BitAnd(x, Pow2(n) - Pow2(k), n) == x - x % Pow2(k)
  {
    hide BitAnd;
    if n == 0 {
      AndEmpty(x, Pow2(n) - Pow2(k));
    } else {
      if k == 0 {
        HighMask(x / 2, 0, n - 1);
        AndOnes(x, n);
      } else {
        HighMask(x / 2, k - 1, n - 1);
        AndStep(x, Pow2(n) - Pow2(k), n);
        Halved(Pow2(n - 1) - Pow2(k - 1), 0);
        ModDouble(x, Pow2(k - 1));
      }
    }
  }

  // ---- rounding an alignment up to a power of two ----

  /** The loop variable after n turns of `a <<= 1`. */
  function Doubled(n: nat): nat {
    if n == 0 then 2 * MALLOC_ALIGNMENT else Wrap(2 * Doubled(n - 1))
  }

  lemma Shifted(x: nat)
    ensures x < HALF_WORD ==> Wrap(2 * x) == 2 * x
    ensures x == HALF_WORD ==> Wrap(2 * x) == 0
  {
  }

  lemma {:induction false} DoubledIs(n: nat)
    ensures Doubled(n) == if n <= 25 then Pow2(n + 6) else 0
    ensures Doubled(n) <= HALF_WORD
  {
    hide Pow2, Wrap;
    PowersOfTwo();
    if n <= 25 { Pow2Monotone(n + 6, 31); }
    if n == 0 {
    } else {
      DoubledIs(n - 1);
      if n <= 25 { Pow2Monotone(n + 5, 30); }
      DoublePow2(n + 5);
      DoublePow2(30);
      Shifted(Doubled(n - 1));
    }
  }

  lemma Twice(x: nat)
    requires x % 64 == 0
    ensures 2 * x % 64 == 0 && 2 * x % 32 == 0
  {
    var q := x / 64;
    assert x == 64 * q;
    DivUnique(2 * x, 64, 2 * q, 0);
    DivUnique(2 * x, 32, 4 * q, 0);
  }

  lemma {:induction false} PowerMultiple(k: nat)
    requires k >= 6
    ensures Pow2(k) % 64 == 0 && Pow2(k) % 32 == 0 && Pow2(k) >= 64
    decreases k
  {
    hide Pow2;
    if k > 6 {
      PowerMultiple(k - 1);
      DoublePow2(k - 1);
      Twice(Pow2(k - 1));
    } else {
      PowersOfTwo();
    }
  }

  /** The rounding loop ends exactly for alignments up to 2^31; beyond, its variable wraps around to 0 and stays
      there. */
  lemma RoundingEnds(alignment: nat)
    requires alignment < WORD
    ensures (exists n: nat :: Doubled(n) >= alignment) <==> alignment <= HALF_WORD
  {
    if alignment <= HALF_WORD {
      DoubledIs(25);
      PowersOfTwo();
      assert Doubled(25) >= alignment;
    }
    forall n: nat
      ensures Doubled(n) <= HALF_WORD
    {
      DoubledIs(n);
    }
  }

  /** mem is a multiple of some power of two that is at least the requested alignment. */
  ghost predicate AlignedFor(mem: int, alignment: nat) {
    exists a: nat :: IsPower(a) && a >= alignment && mem % a == 0
  }

  lemma HalfDivides(x: nat, d: nat)
    requires d > 0 && x % (2 * d) == 0
    ensures x % d == 0
  {
    var q := x / (2 * d);
    assert x == 2 * d * q;
    assert x == d * (2 * q) + 0;
    DivUnique(x, d, 2 * q, 0);
  }

  lemma {:induction false} Divides(mem: nat, k: nat, j: nat)
    requires mem % Pow2(j) == 0 && (k <= j || Pow2(k) == Pow2(j))
    ensures mem % Pow2(k) == 0
    decreases j
  {
    if k >= j {
    } else {
      ModDouble(mem, Pow2(j - 1));
      HalfDivides(mem, Pow2(j - 1));
      Divides(mem, k, j - 1);
    }
  }

  /** If the requested alignment is a power of two itself, mem is a multiple of it. */
  lemma AlignedForPower(mem: nat, alignment: nat)
    requires AlignedFor(mem, alignment) && IsPower(alignment)
    ensures mem % alignment == 0
  {
    var a: nat :| IsPower(a) && a >= alignment && mem % a == 0;
    var j: nat, k: nat :| a == Pow2(j) && alignment == Pow2(k);
    if j < k { Pow2Monotone(j, k); }
    if k < j { Pow2Monotone(k, j); }
    Divides(mem, k, j);
  }

  lemma Masks(mem: nat, x: nat, alignment: nat) returns (k: nat)
    requires IsPower(alignment) && mem < WORD && x < WORD && alignment <= WORD
    ensures BitAnd(mem, alignment - 1, 32) == mem % alignment && BitAnd(x, WORD - alignment, 32) == x - x % alignment
  {
    hide BitAnd, Pow2;
    k :| alignment == Pow2(k);
    PowersOfTwo();
    DoublePow2(32);
    if k > 32 { Pow2Monotone(33, k); }
    LowMask(mem, k, 32);
    HighMask(x, k, 32);
  }

  lemma AtLeast32(k: int)
    requires 32 * k > 0
    ensures 32 * k >= 32 && 32 * k % 32 == 0
  {
  }

  lemma SpotModulo(mem: nat, alignment: nat)
    requires mem % 32 == 0 && alignment % 32 == 0 && alignment > 0 && mem % alignment != 0
    ensures var y := mem + alignment - 1 - (mem + alignment - 1) % alignment;
            mem + 32 <= y < mem + alignment && (y - mem) % 32 == 0 && y % alignment == 0
  {
    var q, r := mem / alignment, mem % alignment;
    assert mem == alignment * q + r;
    assert alignment * (q + 1) == alignment * q + alignment;
    DivUnique(mem + alignment - 1, alignment, q + 1, r - 1);
    DivUnique(alignment * (q + 1), alignment, q + 1, 0);
    var d, c := mem / 32, alignment / 32;
    assert mem == 32 * d && alignment == 32 * c;
    var e := c * q;
    assert alignment * q == 32 * e;
    AtLeast32(c + e - d);
  }

  /** The over-allocated chunk of n bytes at p has an aligned spot: the leader is zero or a whole chunk, what is left is
      larger than the request by more than a chunk, and the second candidate spot is never needed. */
  lemma AlignedSpot(p: nat, alignment: nat, nb: nat, n: nat)
    requires (p + 8) % 32 == 0 && IsPower(alignment) && alignment % 32 == 0 && alignment > 0
    requires n >= nb + alignment + MIN_CHUNK_SIZE && p + n <= WORD
    ensures BitAnd(p + 8, alignment - 1, 32) == (p + 8) % alignment
    ensures BitAnd(p + 8, alignment - 1, 32) != 0 ==>
              var br := BitAnd(p + 8 + alignment - 1, WORD - alignment, 32) - 8;
              && MIN_CHUNK_SIZE <= br - p < alignment && (br - p) % 32 == 0 && (br + 8) % alignment == 0
              && n - (br - p) > nb + MIN_CHUNK_SIZE
  {
    hide BitAnd, Pow2;
    var k := Masks(p + 8, p + 8 + alignment - 1, alignment);
    if (p + 8) % alignment != 0 {
      SpotModulo(p + 8, alignment);
    }
  }

  /** The least of x, 2 x, 4 x, ... that is at least a. */
  function AtLeast(a: nat, x: nat): (p: nat)
    requires x > 0
    ensures p >= a && p >= x
    decreases if x < a then a - x else 0
  {
    if x >= a then x else AtLeast(a, 2 * x)
  }

  /** The alignment that internal_memalign works with: the least power of two that is at least the requested one and
      32. */
  function Rounded(alignment: nat): nat {
    AtLeast(alignment, MIN_CHUNK_SIZE)
  }

  lemma {:induction false} AtLeastIs(a: nat, j: nat)
    ensures IsPower(AtLeast(a, Pow2(j)))
    ensures forall k: nat :: j <= k && Pow2(k) >= a ==> AtLeast(a, Pow2(j)) <= Pow2(k)
    decreases if Pow2(j) < a then a - Pow2(j) else 0
  {
    if Pow2(j) < a {
      DoublePow2(j);
      AtLeastIs(a, j + 1);
    } else {
      forall k: nat | j <= k
        ensures Pow2(j) <= Pow2(k)
      {
        Pow2Monotone(j, k);
      }
    }
  }

  /** What the loop finds is the rounded alignment. */
  lemma RoundedIs(alignment0: nat, alignment: nat)
    requires IsPower(alignment) && 32 <= alignment && alignment0 <= alignment
    requires forall k: nat :: Pow2(k) >= alignment0 && Pow2(k) >= 32 ==> Pow2(k) >= alignment
    ensures alignment == Rounded(alignment0)
  {
    hide Pow2;
    PowersOfTwo();
    AtLeastIs(alignment0, 5);
    var k: nat :| alignment == Pow2(k);
    if k < 5 { Pow2Monotone(k, 4); DoublePow2(4); }
  }

  lemma PowerIs32(a: nat)
    requires IsPower(a) && 32 <= a <= HALF_WORD
    ensures a % 32 == 0
  {
    var k: nat :| a == Pow2(k);
    PowersOfTwo();
    if k < 5 { Pow2Monotone(k, 4); }
    if k > 5 { PowerMultiple(k); }
  }

  lemma LastSmaller(n: nat, alignment: nat)
    requires 32 <= alignment && !IsPower(alignment) && (n > 0 ==> Pow2(n + 5) < alignment)
    ensures Pow2(n + 5) < alignment
  {
    hide Pow2;
    PowersOfTwo();
    assert alignment != Pow2(5);
  }

  lemma LeastPower(n: nat, alignment: nat)
    requires n <= 25 && 32 <= alignment <= Doubled(n) && !IsPower(alignment) && (n > 0 ==> Doubled(n - 1) < alignment)
    ensures IsPower(Doubled(n)) && 32 <= Doubled(n) <= HALF_WORD && Doubled(n) % 32 == 0
    ensures forall k: nat :: Pow2(k) >= alignment ==> Pow2(k) >= Doubled(n)
  {
    hide Doubled, Pow2;
    DoubledIs(n);
    PowerMultiple(n + 6);
    if n > 0 { DoubledIs(n - 1); }
    LastSmaller(n, alignment);
    forall k: nat | Pow2(k) >= alignment
      ensures Pow2(k) >= Pow2(n + 6)
    {
      if k <= n + 5 { Pow2Monotone(k, n + 5); } else { Pow2Monotone(n + 6, k); }
    }
  }

  /** The first lines of internal_memalign: at least a minimum chunk, and a power of two. */
  method RoundUp(alignment0: nat) returns (alignment: nat)
    requires alignment0 <= HALF_WORD
    ensures IsPower(alignment) && 32 <= alignment <= HALF_WORD && alignment0 <= alignment && alignment % 32 == 0
    ensures forall k: nat :: Pow2(k) >= alignment0 && Pow2(k) >= 32 ==> Pow2(k) >= alignment
    ensures alignment == Rounded(alignment0)
  {
    alignment := alignment0;
    if alignment < MIN_CHUNK_SIZE {
      alignment := MIN_CHUNK_SIZE;
    }
    PowersOfTwo();
    ghost var least := alignment;
    PowerTest(alignment, 32);
    if BitAnd(alignment, alignment - 1, 32) != 0 {
      var a := 2 * MALLOC_ALIGNMENT;
      ghost var n := 0;
      while a < alignment
        invariant n <= 25 && a == Doubled(n)
        invariant n > 0 ==> Doubled(n - 1) < alignment
        decreases 25 - n
      {
        DoubledIs(n);
        DoubledIs(25);
        a := Wrap(2 * a);
        n := n + 1;
      }
      LeastPower(n, alignment);
      alignment := a;
    } else {
      PowerIs32(alignment);
    }
    RoundedIs(alignment0, alignment);
  }
}
