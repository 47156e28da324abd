/** Machine words of the modelled target: 32-bit unsigned values held in `int`, with the
    shifts the allocator uses spelled out as repeated halving and doubling. */
module Words {

  const WORD := 0x1_0000_0000
  const HALF_WORD := 0x8000_0000

  type Byte = x: int | 0 <= x < 0x100

  /** Unsigned 32-bit wrap-around. */
  function Wrap(x: int): (r: int)
    ensures 0 <= r < WORD
  {
    x % WORD
  }

  /** Reading a modelled memory map; an address never written reads as 0. */
  function Rd(m: map<int, int>, a: int): int {
    if a in m then m[a] else 0
  }

  /** s >> e */
  function Shr(s: nat, e: nat): nat {
    if e == 0 then s else Shr(s, e - 1) / 2
  }

  /** Bit e of s. */
  function Bit(s: nat, e: nat): (b: nat)
    ensures b <= 1
  {
    Shr(s, e) % 2
  }

  /** s << n in 32 bits. */
  function Shl(s: nat, n: nat): nat {
    if n == 0 then s else (2 * Shl(s, n - 1)) % WORD
  }

  /** 2^n */
  function Pow2(n: nat): (p: nat)
    ensures p > 0
  {
    if n == 0 then 1 else 2 * Pow2(n - 1)
  }

  lemma DoublePow2(k: nat)
    ensures Pow2(k + 1) == 2 * Pow2(k)
  {
  }

  lemma PowersOfTwo()
    ensures Pow2(5) == 0x20 && Pow2(6) == 0x40 && Pow2(7) == 0x80 && Pow2(8) == 0x100
    ensures Pow2(15) == 0x8000 && Pow2(16) == 0x1_0000 && Pow2(22) == 0x40_0000 && Pow2(23) == 0x80_0000
    ensures Pow2(31) == HALF_WORD && Pow2(32) == WORD
  {
    assert Pow2(4) == 0x10 && Pow2(12) == 0x1000 && Pow2(20) == 0x10_0000 && Pow2(28) == 0x1000_0000;
  }

  lemma {:induction false} Pow2Monotone(a: nat, b: nat)
    requires a <= b
    ensures Pow2(a) <= Pow2(b)
    decreases b
  {
    if a == b {
    } else {
      Pow2Monotone(a, b - 1);
    }
  }

  predicate Distinct(s: seq<int>) {
    forall i, j :: 0 <= i < j < |s| ==> s[i] != s[j]
  }

  function Least(a: int, b: int): int {
    if a < b then a else b
  }

  /** a ^ b in n bits */
  function Xor(a: nat, b: nat, n: nat): nat {
    if n == 0 then 0 else 2 * Xor(a / 2, b / 2, n - 1) + (a + b) % 2
  }

  lemma ParityTwice(a: nat, b: nat, x: nat)
    requires x % 2 == (a + b) % 2
    ensures (x + b) % 2 == a % 2
  {
  }

  /** The same mask twice cancels. */
  lemma {:induction false} XorTwice(a: nat, b: nat, n: nat)
    requires a < Pow2(n)
    ensures Xor(Xor(a, b, n), b, n) == a
  {
    if n == 0 {
    } else {
      XorTwice(a / 2, b / 2, n - 1);
      var x := Xor(a, b, n);
      assert x / 2 == Xor(a / 2, b / 2, n - 1) && x % 2 == (a + b) % 2;
      ParityTwice(a, b, x);
    }
  }

  lemma {:induction false} ShrMonotone(s: nat, t: nat, e: nat)
    requires s <= t
    ensures Shr(s, e) <= Shr(t, e)
  {
    if e == 0 {
    } else {
      ShrMonotone(s, t, e - 1);
    }
  }

  lemma {:induction false} ShrHalf(s: nat, e: nat)
    ensures Shr(s, e + 1) == Shr(s / 2, e)
  {
    if e == 0 {
    } else {
      ShrHalf(s, e - 1);
    }
  }

  /** Agreement above bit e implies agreement above any higher bit. */
  lemma {:induction false} ShrAgreeUp(s: nat, t: nat, e: nat, f: nat)
    requires e <= f && Shr(s, e) == Shr(t, e)
    ensures Shr(s, f) == Shr(t, f)
    decreases f
  {
    if e == f {
    } else {
      ShrAgreeUp(s, t, e, f - 1);
    }
  }

  lemma ShrMul32(a: nat)
    ensures Shr(32 * a, 5) == a
  {
    ShrHalf(32 * a, 4);
    ShrHalf(16 * a, 3);
    ShrHalf(8 * a, 2);
    ShrHalf(4 * a, 1);
    ShrHalf(2 * a, 0);
  }

  /** Two multiples of 32 that agree above bit 5 are equal. */
  lemma ShrFive(s: nat, t: nat)
    requires s % 32 == 0 && t % 32 == 0 && Shr(s, 5) == Shr(t, 5)
    ensures s == t
  {
    ShrMul32(s / 32);
    ShrMul32(t / 32);
  }

  lemma HalveBounds(s: nat, q: nat, p: nat)
    requires q * p <= s < (q + 1) * p
    ensures (q / 2) * (2 * p) <= s < (q / 2 + 1) * (2 * p)
  {
    var h := q / 2;
    if q == 2 * h {
      assert q * p == h * (2 * p);
      assert (q + 1) * p == h * (2 * p) + p;
      assert (h + 1) * (2 * p) == h * (2 * p) + 2 * p;
    } else {
      assert q == 2 * h + 1;
      assert q * p == h * (2 * p) + p;
      assert (q + 1) * p == h * (2 * p) + 2 * p;
      assert (h + 1) * (2 * p) == h * (2 * p) + 2 * p;
    }
  }

  /** Shr is division by a power of two: s lies in the block of length 2^e that Shr(s, e) names. */
  lemma {:induction false} ShrBounds(s: nat, e: nat)
    ensures Shr(s, e) * Pow2(e) <= s < (Shr(s, e) + 1) * Pow2(e)
  {
    if e == 0 {
    } else {
      ShrBounds(s, e - 1);
      HalveBounds(s, Shr(s, e - 1), Pow2(e - 1));
    }
  }

  lemma MulLe(a: nat, b: nat, c: nat)
    requires a <= b
    ensures a * c <= b * c
  {
  }

  lemma {:induction false} ShrUnique(s: nat, e: nat, q: nat)
    requires q * Pow2(e) <= s < (q + 1) * Pow2(e)
    ensures Shr(s, e) == q
  {
    ShrBounds(s, e);
    var r, p := Shr(s, e), Pow2(e);
    if r < q {
      MulLe(r + 1, q, p);
    } else if q < r {
      MulLe(q + 1, r, p);
    }
  }

  lemma {:induction false} ShlBounded(s: nat, n: nat)
    requires s < WORD
    ensures Shl(s, n) < WORD
  {
  }

  /** Removing bit 31 does not disturb the lower bits. */
  lemma {:induction false} BitBelowTop(t: nat, j: nat)
    requires HALF_WORD <= t < WORD && j <= 30
    ensures Shr(t, j) == Shr(t - HALF_WORD, j) + Pow2(31 - j)
    ensures Bit(t, j) == Bit(t - HALF_WORD, j)
  {
    if j == 0 {
      PowersOfTwo();
    } else {
      BitBelowTop(t, j - 1);
      assert Pow2(31 - (j - 1)) == 2 * Pow2(31 - j);
    }
    assert Pow2(31 - j) == 2 * Pow2(31 - j - 1);
  }

  /** One doubling of a 32-bit word moves every bit up by one place. */
  lemma BitOfDouble(t: nat, j: nat)
    requires t < WORD && 1 <= j <= 31
    ensures Bit((2 * t) % WORD, j) == Bit(t, j - 1)
  {
    if t < HALF_WORD {
      ShrHalf(2 * t, j - 1);
    } else {
      var u := t - HALF_WORD;
      assert (2 * t) % WORD == 2 * u;
      ShrHalf(2 * u, j - 1);
      BitBelowTop(t, j - 1);
    }
  }

  /** The register `S << n` shows bit 31-n of S at its sign position. */
  lemma {:induction false} ShlBits(s: nat, n: nat, j: nat)
    requires s < WORD && n <= j <= 31
    ensures Bit(Shl(s, n), j) == Bit(s, j - n)
  {
    if n == 0 {
    } else {
      ShlBits(s, n - 1, j - 1);
      ShlBounded(s, n - 1);
      BitOfDouble(Shl(s, n - 1), j);
    }
  }

  /** The sign bit of a word is its quotient by 2^31. */
  lemma SignBit(t: nat)
    requires t < WORD
    ensures Bit(t, 31) == t / HALF_WORD
  {
    ShrBounds(t, 31);
    PowersOfTwo();
    assert Shr(t, 31) == t / HALF_WORD;
  }

  /** The branch taken by the trie walks: the sign bit of `S << n` is bit 31-n of S. */
  lemma {:induction false} ShiftRegister(s: nat, n: nat)
    requires s < WORD && n <= 31
    ensures Shl(s, n) < WORD && Shl(s, n) / HALF_WORD == Bit(s, 31 - n)
  {
    ShlBounded(s, n);
    ShlBits(s, n, 31);
    SignBit(Shl(s, n));
  }

  lemma {:induction false} Gap(d: nat, i: nat, j: nat)
    ensures i < j ==> d * i + d <= d * j
    decreases j
  {
    if i + 1 >= j {
    } else {
      Gap(d, i, j - 1);
      assert d * j == d * (j - 1) + d;
    }
  }

  lemma DivUnique(x: nat, d: nat, q: nat, r: nat)
    requires x == d * q + r && r < d
    ensures x % d == r && x / d == q
  {
    var q', r' := x / d, x % d;
    assert x == d * q' + r';
    Gap(d, q', q);
    Gap(d, q, q');
  }
}
