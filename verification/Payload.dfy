/** The bytes of memory words, and what a program's stores into its own blocks change. */
module Payload {
  import opened Words
  import opened BinOps
  import opened Tiling
  import opened Heap

  function Granule(a: int): int {
    a - (a - 24) % 32
  }

  /** Which of the eight words of its granule the word at a is. */
  function Slot(a: int): (k: nat)
    ensures k < 8
  {
    (a - 24) % 32 / 4
  }

  ghost function WordStored(m: Memory, a: int, x: int): Memory {
    var k, g := Slot(a), Granule(a);
    Memory(At(m.head, k == 1, g, x), At(m.foot, k == 0, g, x), LinkStored(m.v, k, g, x))
  }

  lemma ReadAt(f: map<int, int>, here: bool, g: int, x: int, b: int)
    ensures Rd(At(f, here, g, x), b) == if here && b == g then x else Rd(f, b)
  {
  }

  lemma SlotIs(a: int)
    requires a % 4 == 0
    ensures a == Granule(a) + 4 * Slot(a)
  {
  }

  lemma SameWord(a: int, b: int)
    requires a % 4 == 0 && b % 4 == 0
    ensures Slot(a) == Slot(b) && Granule(a) == Granule(b) <==> a == b
  {
    SlotIs(a);
    SlotIs(b);
  }

  lemma ReadStored(m: Memory, a: int, x: int, b: int)
    requires a % 4 == 0 && b % 4 == 0
    ensures Word(WordStored(m, a, x), b) == if b == a then x else Word(m, b)
  {
    hide At, Rd;
    var k, g, h := Slot(a), Granule(a), Granule(b);
    SameWord(a, b);
    ReadAt(m.head, k == 1, g, x, h);
    ReadAt(m.foot, k == 0, g, x, h);
    ReadAt(m.v.fd, k == 2, g, x, h);
    ReadAt(m.v.bk, k == 3, g, x, h);
    ReadAt(m.v.tree.child0, k == 4, g, x, h);
    ReadAt(m.v.tree.child1, k == 5, g, x, h);
    ReadAt(m.v.tree.parent, k == 6, g, x, h);
    ReadAt(m.v.tree.index, k == 7, g, x, h);
  }

  // ---- bytes: the first byte of a word is its most significant ----

  function Digit(w: int, j: nat): (d: int)
    ensures 0 <= d < 256
  {
    if j == 0 then w / 0x100_0000 % 256
    else if j == 1 then w / 0x1_0000 % 256
    else if j == 2 then w / 0x100 % 256
    else w % 256
  }

  function SetDigit(w: int, j: nat, b: int): int {
    w + (b - Digit(w, j)) * (if j == 0 then 0x100_0000 else if j == 1 then 0x1_0000 else if j == 2 then 0x100 else 1)
  }

  lemma Nested(w: int)
    ensures w / 0x100 / 256 == w / 0x1_0000 && w / 0x1_0000 / 256 == w / 0x100_0000
  {
  }

  lemma Split(w: int)
    ensures w
            == (((w / 0x100_0000 / 256 * 256 + Digit(w, 0)) * 256 + Digit(w, 1)) * 256 + Digit(w, 2)) * 256
              + Digit(w, 3)
  {
    Nested(w);
  }

  lemma Shifted(w: int, v: int, d: int)
    requires w == v * 256 + d && 0 <= d < 256
    ensures w / 256 == v && w % 256 == d
  {
  }

  lemma Digits(q: int, d0: int, d1: int, d2: int, d3: int)
    requires 0 <= d0 < 256 && 0 <= d1 < 256 && 0 <= d2 < 256 && 0 <= d3 < 256
    ensures var w := (((q * 256 + d0) * 256 + d1) * 256 + d2) * 256 + d3;
            Digit(w, 0) == d0 && Digit(w, 1) == d1 && Digit(w, 2) == d2 && Digit(w, 3) == d3
  {
    var w1 := q * 256 + d0;
    var w2 := w1 * 256 + d1;
    var w3 := w2 * 256 + d2;
    var w := w3 * 256 + d3;
    Shifted(w, w3, d3);
    Shifted(w3, w2, d2);
    Shifted(w2, w1, d1);
    Shifted(w1, q, d0);
    Nested(w);
  }

  lemma DigitSet(w: int, j: nat, b: int, i: nat)
    requires 0 <= b < 256 && i < 4 && j < 4
    ensures Digit(SetDigit(w, j, b), i) == if i == j then b else Digit(w, i)
  {
    var q, d0, d1, d2, d3 := w / 0x100_0000 / 256, Digit(w, 0), Digit(w, 1), Digit(w, 2), Digit(w, 3);
    Split(w);
    if j == 0 {
      Digits(q, b, d1, d2, d3);
    } else if j == 1 {
      Digits(q, d0, b, d2, d3);
    } else if j == 2 {
      Digits(q, d0, d1, b, d3);
    } else {
      Digits(q, d0, d1, d2, b);
    }
  }

  ghost function ByteAt(m: Memory, a: int): int {
    Digit(Word(m, a - a % 4), a % 4)
  }

  ghost function ByteStored(m: Memory, a: int, b: int): Memory {
    WordStored(m, a - a % 4, SetDigit(Word(m, a - a % 4), a % 4, b))
  }

  lemma Floor4(a: int)
    ensures (a - a % 4) % 4 == 0 && 0 <= a % 4 < 4
  {
  }

  /** A store changes its byte and no other. */
  lemma ReadByte(m: Memory, a: int, b: int, c: int)
    requires 0 <= b < 256
    ensures ByteAt(ByteStored(m, a, b), c) == if c == a then b else ByteAt(m, c)
  {
    hide WordStored, Word, SetDigit, Digit;
    Floor4(a);
    Floor4(c);
    var w := Word(m, a - a % 4);
    ReadStored(m, a - a % 4, SetDigit(w, a % 4, b), c - c % 4);
    DigitSet(w, a % 4, b, c % 4);
  }

  ghost predicate SameByte(m: Memory, p: int, m': Memory, q: int, i: int) {
    ByteAt(m', q + i) == ByteAt(m, p + i)
  }

  /** The n bytes at q in m' are those at p in m. */
  ghost predicate SameBytes(m: Memory, p: int, m': Memory, q: int, n: int) {
    forall i {:trigger SameByte(m, p, m', q, i)} :: 0 <= i < n ==> SameByte(m, p, m', q, i)
  }

  lemma WholeWords(j: int, q: int, r: int)
    requires 0 <= r < 4 && 4 * j <= 4 * q + r
    ensures 4 * j <= 4 * q
  {
  }

  lemma WordInside(p: int, n: int, a: int)
    requires Aligned(p) && n % 32 == 0 && p + 8 <= a < p + n
    ensures p + 8 <= a - a % 4 < p + n
  {
    var k, q, r := (p - 24) / 32, a / 4, a % 4;
    assert p == 32 * k + 24 && a == 4 * q + r;
    WholeWords(8 * k + 8, q, r);
  }

  /** Keeping the granules of a chunk keeps the bytes of its block. */
  lemma BytesKept(m: Memory, m': Memory, p: int, n: int)
    requires GranulesKept(m, m', p, n) && Aligned(p) && n % 32 == 0
    ensures SameBytes(m, p + 8, m', p + 8, n - 8)
  {
    hide GranulesKept, Word;
    var mem := p + 8;
    forall i | 0 <= i < n - 8
      ensures SameByte(m, mem, m', mem, i)
    {
      var a := mem + i;
      WordInside(p, n, a);
      PayloadKept(m, m', p, n, a - a % 4);
    }
  }

  lemma GranuleInside(q: int, nq: int, a: int)
    requires Aligned(q) && nq % 32 == 0 && q <= a < q + nq
    ensures q <= Granule(a) < q + nq && (a >= q + 8 && Granule(a) == q ==> Slot(a) >= 2) && Aligned(Granule(a))
  {
  }

  lemma StoreElsewhere(m: Memory, a: int, x: int, h: int)
    requires h != Granule(a)
    ensures LinksKept(m.v, WordStored(m, a, x).v, h) && TagsKept(m, WordStored(m, a, x), h)
  {
    hide At, Rd;
    var k, g := Slot(a), Granule(a);
    ReadAt(m.head, k == 1, g, x, h);
    ReadAt(m.foot, k == 0, g, x, h);
    ReadAt(m.v.fd, k == 2, g, x, h);
    ReadAt(m.v.bk, k == 3, g, x, h);
    ReadAt(m.v.tree.child0, k == 4, g, x, h);
    ReadAt(m.v.tree.child1, k == 5, g, x, h);
    ReadAt(m.v.tree.parent, k == 6, g, x, h);
    ReadAt(m.v.tree.index, k == 7, g, x, h);
  }

  /** A store into one block leaves the granules of every other chunk alone. */
  lemma StoreKeeps(m: Memory, a: int, x: int, q: int, nq: int, p: int, n: int)
    requires Aligned(q) && nq % 32 == 0 && q <= a < q + nq && Aligned(p) && n % 32 == 0
    requires p + n <= q || q + nq <= p
    ensures GranulesKept(m, WordStored(m, a, x), p, n)
  {
    hide Rd, At;
    var m', g := WordStored(m, a, x), Granule(a);
    GranuleInside(q, nq, a);
    forall h | p <= h < p + n
      ensures LinksKept(m.v, m'.v, h)
    {
      StoreElsewhere(m, a, x, h);
    }
    forall h | p < h < p + n
      ensures TagsKept(m, m', h)
    {
      StoreElsewhere(m, a, x, h);
    }
  }
}
