/** The two 32-bit bin maps and the bit tricks used to search them. */
module Bitmaps {

  // ---- bin indices as words ----

  lemma IndexFits(i: nat)
    requires i < 32
    ensures (i as bv32) < 32
  {
  }

  lemma IndexBack(i: nat)
    requires i < 32
    ensures ((i as bv32) as int) == i
  {
    IndexFits(i);
  }

  lemma SmallOrder(a: bv32, b: bv32)
    requires a < 32 && b < 32
    ensures a < b <==> (a as int) < (b as int)
  {
  }

  lemma IndexOrder(i: nat, j: nat)
    requires i < 32 && j < 32
    ensures (i as bv32) < 32 && (j as bv32) < 32
    ensures (i as bv32) < (j as bv32) <==> i < j
    ensures (i as bv32) == (j as bv32) <==> i == j
  {
    IndexFits(i);
    IndexFits(j);
    IndexBack(i);
    IndexBack(j);
    SmallOrder(i as bv32, j as bv32);
  }

  lemma SmallNext(a: bv32, b: bv32)
    requires a < 32 && b < 32 && (b as int) == (a as int) + 1
    ensures b == a + 1 && a < 31
  {
  }

  lemma IndexNext(i: nat)
    requires i < 31
    ensures (i as bv32) < 31 && (i + 1) as bv32 == (i as bv32) + 1
  {
    IndexFits(i);
    IndexFits(i + 1);
    IndexBack(i);
    IndexBack(i + 1);
    SmallNext(i as bv32, (i + 1) as bv32);
  }

  // ---- the maps ----

  function OneBit(k: bv32): bv32
    requires k < 32
  {
    (1 as bv32) << k
  }

  function ShiftRight(m: bv32, k: bv32): bv32
    requires k < 32
  {
    m >> k
  }

  function ShiftLeft(m: bv32, k: bv32): bv32
    requires k < 32
  {
    m << k
  }

  /** idx2bit */
  function IdxBit(i: nat): (b: bv32)
    requires i < 32
  {
    IndexFits(i);
    OneBit(i as bv32)
  }

  /** The small bins from idx on, bin idx at bit 0. */
  function FromBin(m: bv32, idx: nat): bv32
    requires idx < 32
  {
    IndexFits(idx);
    ShiftRight(m, idx as bv32)
  }

  function ToBin(smallbits: bv32, idx: nat): bv32
    requires idx < 32
  {
    IndexFits(idx);
    ShiftLeft(smallbits, idx as bv32)
  }

  function And(a: bv32, b: bv32): bv32 {
    a & b
  }

  function Or(a: bv32, b: bv32): bv32 {
    a | b
  }

  function AndNot(a: bv32, b: bv32): bv32 {
    a & !b
  }

  predicate Marked(m: bv32, i: nat)
    requires i < 32
  {
    And(m, IdxBit(i)) != 0
  }

  function Mark(m: bv32, i: nat): bv32
    requires i < 32
  {
    Or(m, IdxBit(i))
  }

  function Clear(m: bv32, i: nat): bv32
    requires i < 32
  {
    AndNot(m, IdxBit(i))
  }

  /** Isolates the least set bit. */
  function LeastBit(x: bv32): bv32 {
    x & -x
  }

  /** All bits to the left of the least set bit of x. */
  function LeftBits(x: bv32): bv32 {
    (x << 1) | -(x << 1)
  }

  predicate NoneBelow(x: bv32, i: nat)
    requires i <= 32
  {
    forall j: nat :: j < i ==> !Marked(x, j)
  }

  lemma BitsLowest(x: bv32)
    requires x & 0xFF != 0
    ensures exists j: nat :: j < 32 && Marked(x, j)
  {
    assert IdxBit(0) == 1 && IdxBit(1) == 2 && IdxBit(2) == 4 && IdxBit(3) == 8;
    assert IdxBit(4) == 0x10 && IdxBit(5) == 0x20 && IdxBit(6) == 0x40 && IdxBit(7) == 0x80;
    assert Marked(x, 0) || Marked(x, 1) || Marked(x, 2) || Marked(x, 3)
        || Marked(x, 4) || Marked(x, 5) || Marked(x, 6) || Marked(x, 7);
  }

  lemma BitsLow(x: bv32)
    requires x & 0xFF00 != 0
    ensures exists j: nat :: j < 32 && Marked(x, j)
  {
    assert IdxBit(8) == 0x100 && IdxBit(9) == 0x200 && IdxBit(10) == 0x400 && IdxBit(11) == 0x800;
    assert IdxBit(12) == 0x1000 && IdxBit(13) == 0x2000 && IdxBit(14) == 0x4000 && IdxBit(15) == 0x8000;
    assert Marked(x, 8) || Marked(x, 9) || Marked(x, 10) || Marked(x, 11)
        || Marked(x, 12) || Marked(x, 13) || Marked(x, 14) || Marked(x, 15);
  }

  lemma BitsHigh(x: bv32)
    requires x & 0xFF_0000 != 0
    ensures exists j: nat :: j < 32 && Marked(x, j)
  {
    assert IdxBit(16) == 0x1_0000 && IdxBit(17) == 0x2_0000 && IdxBit(18) == 0x4_0000 && IdxBit(19) == 0x8_0000;
    assert IdxBit(20) == 0x10_0000 && IdxBit(21) == 0x20_0000 && IdxBit(22) == 0x40_0000 && IdxBit(23) == 0x80_0000;
    assert Marked(x, 16) || Marked(x, 17) || Marked(x, 18) || Marked(x, 19)
        || Marked(x, 20) || Marked(x, 21) || Marked(x, 22) || Marked(x, 23);
  }

  lemma BitsHighest(x: bv32)
    requires x & 0xFF00_0000 != 0
    ensures exists j: nat :: j < 32 && Marked(x, j)
  {
    assert IdxBit(24) == 0x100_0000 && IdxBit(25) == 0x200_0000 && IdxBit(26) == 0x400_0000 && IdxBit(27) == 0x800_0000;
    assert IdxBit(28) == 0x1000_0000 && IdxBit(29) == 0x2000_0000 && IdxBit(30) == 0x4000_0000
      && IdxBit(31) == 0x8000_0000;
    assert Marked(x, 24) || Marked(x, 25) || Marked(x, 26) || Marked(x, 27)
        || Marked(x, 28) || Marked(x, 29) || Marked(x, 30) || Marked(x, 31);
  }

  lemma BitsOf(x: bv32)
    requires x != 0
    ensures exists j: nat :: j < 32 && Marked(x, j)
  {
    hide Marked;
    if x & 0xFF != 0 {
      BitsLowest(x);
    } else if x & 0xFF00 != 0 {
      BitsLow(x);
    } else if x & 0xFF_0000 != 0 {
      BitsHigh(x);
    } else {
      BitsHighest(x);
    }
  }

  lemma AllClear(x: bv32)
    ensures NoneBelow(x, 32) ==> x == 0
  {
    if x != 0 {
      BitsOf(x);
    }
  }

  /** Count of trailing zeros: the number of clear bits below the least set bit. */
  function Ctz(x: bv32, i: nat := 0): (r: nat)
    requires x != 0 && i < 32 && NoneBelow(x, i)
    ensures i <= r < 32 && Marked(x, r) && NoneBelow(x, r)
    decreases 32 - i
  {
    AllClear(x);
    if Marked(x, i) then i else Ctz(x, i + 1)
  }

  lemma SetSame(m: bv32, x: bv32)
    ensures And(Or(m, x), x) == x
  {
  }

  lemma ClearSame(m: bv32, x: bv32)
    ensures And(AndNot(m, x), x) == 0
  {
  }

  lemma SetOther(m: bv32, x: bv32, y: bv32)
    requires And(x, y) == 0
    ensures And(Or(m, x), y) == And(m, y)
  {
  }

  lemma ClearOther(m: bv32, x: bv32, y: bv32)
    requires And(x, y) == 0
    ensures And(AndNot(m, x), y) == And(m, y)
  {
  }

  // ---- single bits ----

  lemma OneHotWord(k: bv32, l: bv32)
    requires k < 32 && l < 32
    ensures OneBit(k) != 0
    ensures k == l || And(OneBit(k), OneBit(l)) == 0
  {
  }

  lemma OneHot(i: nat, j: nat)
    requires i < 32 && j < 32
    ensures IdxBit(i) != 0
    ensures i == j || And(IdxBit(i), IdxBit(j)) == 0
  {
    hide And, OneBit;
    IndexOrder(i, j);
    OneHotWord(i as bv32, j as bv32);
  }

  /** Marking or clearing one bin changes that bin's bit and no other. */
  lemma MarkClear(m: bv32, i: nat, j: nat)
    requires i < 32 && j < 32
    ensures Marked(Mark(m, i), j) <==> (i == j || Marked(m, j))
    ensures Marked(Clear(m, i), j) <==> (i != j && Marked(m, j))
  {
    hide And, Or, AndNot, IdxBit;
    OneHot(i, j);
    if i == j {
      SetSame(m, IdxBit(i));
      ClearSame(m, IdxBit(i));
    } else {
      SetOther(m, IdxBit(i), IdxBit(j));
      ClearOther(m, IdxBit(i), IdxBit(j));
    }
  }

  lemma NothingMarked(i: nat)
    requires i < 32
    ensures !Marked(0, i)
  {
  }

  lemma LeastBitNonZero(x: bv32)
    requires x != 0
    ensures LeastBit(x) != 0
  {
  }

  lemma LeastBitIs(x: bv32, i: nat)
    requires i < 32 && And(LeastBit(x), IdxBit(i)) != 0
    ensures And(x, IdxBit(i)) != 0 && And(x, IdxBit(i) - 1) == 0
  {
  }

  lemma BelowWord(k: bv32, l: bv32)
    requires l < k < 32
    ensures And(OneBit(l), OneBit(k) - 1) == OneBit(l)
  {
  }

  lemma BelowMask(i: nat, j: nat)
    requires j < i < 32
    ensures And(IdxBit(j), IdxBit(i) - 1) == IdxBit(j)
  {
    hide And, OneBit;
    IndexOrder(j, i);
    BelowWord(i as bv32, j as bv32);
  }

  lemma AndSub(x: bv32, mask: bv32, z: bv32)
    requires And(x, mask) == 0 && And(z, mask) == z
    ensures And(x, z) == 0
  {
  }

  /** The least marked bin, found through least_bit and count-trailing-zeros. */
  lemma LeastMarked(x: bv32)
    requires x != 0
    ensures LeastBit(x) != 0
    ensures Marked(x, Ctz(LeastBit(x)))
    ensures NoneBelow(x, Ctz(LeastBit(x)))
  {
    hide And, IdxBit, LeastBit;
    LeastBitNonZero(x);
    var i := Ctz(LeastBit(x));
    LeastBitIs(x, i);
    forall j: nat | j < i
      ensures !Marked(x, j)
    {
      BelowMask(i, j);
      AndSub(x, IdxBit(i) - 1, IdxBit(j));
    }
  }

  lemma LeftWord(k: bv32, l: bv32)
    requires k < 32 && l < 32
    ensures And(LeftBits(OneBit(k)), OneBit(l)) == if k < l then OneBit(l) else 0
  {
  }

  lemma LeftBitsOf(idx: nat, j: nat)
    requires idx < 32 && j < 32
    ensures And(LeftBits(IdxBit(idx)), IdxBit(j)) == if idx < j then IdxBit(j) else 0
  {
    hide And, OneBit, LeftBits;
    IndexOrder(idx, j);
    LeftWord(idx as bv32, j as bv32);
  }

  lemma KeepBit(l: bv32, m: bv32, y: bv32)
    requires And(l, y) == y
    ensures And(And(l, m), y) == And(m, y)
  {
  }

  lemma DropBit(l: bv32, m: bv32, y: bv32)
    requires And(l, y) == 0
    ensures And(And(l, m), y) == 0
  {
  }

  /** `left_bits(idx2bit(idx)) & map` keeps exactly the marked bins above idx. */
  lemma LeftOf(m: bv32, idx: nat, j: nat)
    requires idx < 32 && j < 32
    ensures Marked(And(LeftBits(IdxBit(idx)), m), j) <==> (idx < j && Marked(m, j))
  {
    hide And, IdxBit, LeftBits;
    LeftBitsOf(idx, j);
    if idx < j {
      KeepBit(LeftBits(IdxBit(idx)), m, IdxBit(j));
    } else {
      DropBit(LeftBits(IdxBit(idx)), m, IdxBit(j));
    }
  }

  /** The least bin of l, where l marks the bins above idx, is the next bin above idx. */
  lemma LeastAbove(m: bv32, idx: nat, l: bv32)
    requires idx < 32 && forall j: nat :: j < 32 ==> (Marked(l, j) <==> (idx < j && Marked(m, j)))
    ensures l == 0 ==> forall j: nat :: idx < j < 32 ==> !Marked(m, j)
    ensures l != 0 ==> LeastBit(l) != 0 && idx < Ctz(LeastBit(l)) && Marked(m, Ctz(LeastBit(l)))
    ensures l != 0 ==> forall j: nat :: idx < j < Ctz(LeastBit(l)) ==> !Marked(m, j)
  {
    hide Marked, LeastBit;
    if l == 0 {
      forall j: nat | idx < j < 32
        ensures !Marked(m, j)
      {
        NothingMarked(j);
      }
    } else {
      LeastMarked(l);
    }
  }

  /** The search for the next non-empty bin above idx. */
  lemma NextMarked(m: bv32, idx: nat)
    requires idx < 32
    ensures var l := And(LeftBits(IdxBit(idx)), m);
            && (l == 0 ==> forall j: nat :: idx < j < 32 ==> !Marked(m, j))
            && (l != 0 ==> LeastBit(l) != 0)
            && (l != 0 ==> idx < Ctz(LeastBit(l)) && Marked(m, Ctz(LeastBit(l))))
            && (l != 0 ==> forall j: nat :: idx < j < Ctz(LeastBit(l)) ==> !Marked(m, j))
  {
    hide And, IdxBit, LeftBits, LeastBit, Marked;
    var l := And(LeftBits(IdxBit(idx)), m);
    forall j: nat | j < 32
      ensures Marked(l, j) <==> (idx < j && Marked(m, j))
    {
      LeftOf(m, idx, j);
    }
    LeastAbove(m, idx, l);
  }

  lemma BackAgain(m: bv32, k: bv32, l: bv32)
    requires k <= l < 32
    ensures ((m >> k) << k) & ((1 as bv32) << l) == m & ((1 as bv32) << l)
  {
  }

  lemma ShiftBackWord(m: bv32, k: bv32, l: bv32)
    requires k <= l < 32
    ensures And(ShiftLeft(ShiftRight(m, k), k), OneBit(l)) == And(m, OneBit(l))
  {
    BackAgain(m, k, l);
  }

  /** Shifting the map right and left again only loses bins below idx. */
  lemma ShiftBack(m: bv32, idx: nat, j: nat)
    requires idx <= j < 32
    ensures Marked(ToBin(FromBin(m, idx), idx), j) <==> Marked(m, j)
  {
    hide And, OneBit, ShiftLeft, ShiftRight;
    IndexOrder(idx, j);
    ShiftBackWord(m, idx as bv32, j as bv32);
  }

  predicate LowBit(x: bv32) {
    x & 1 != 0
  }

  lemma NothingFromWord(m: bv32, k: bv32)
    requires k < 32 && And(LeftBits(OneBit(k)), m) == 0 && !LowBit(ShiftRight(m, k))
    ensures ShiftRight(m, k) == 0
  {
  }

  /** If no bin above idx is marked and bin idx is not, `map >> idx` is zero. */
  lemma NothingFrom(m: bv32, idx: nat)
    requires idx < 32 && And(LeftBits(IdxBit(idx)), m) == 0 && !LowBit(FromBin(m, idx))
    ensures FromBin(m, idx) == 0
  {
    hide And, OneBit, LeftBits, ShiftRight, LowBit;
    IndexFits(idx);
    NothingFromWord(m, idx as bv32);
  }

  lemma ShiftedOutWord(m: bv32, k: bv32, l: bv32)
    requires k <= l < 32 && ShiftRight(m, k) == 0
    ensures And(m, OneBit(l)) == 0
  {
  }

  /** If `map >> idx` is zero, no bin from idx on is marked. */
  lemma ShiftedOut(m: bv32, idx: nat, j: nat)
    requires idx <= j < 32 && FromBin(m, idx) == 0
    ensures !Marked(m, j)
  {
    hide And, OneBit, ShiftRight;
    IndexOrder(idx, j);
    ShiftedOutWord(m, idx as bv32, j as bv32);
  }

  predicate LowTwo(x: bv32) {
    x & 3 != 0
  }

  /** `(smallbits << idx) & left_bits(idx2bit(idx))` */
  function BinsAbove(smallbits: bv32, idx: nat): bv32
    requires idx < 32
  {
    And(ToBin(smallbits, idx), LeftBits(IdxBit(idx)))
  }

  lemma LowBitsWord(m: bv32, k: bv32)
    requires k < 31
    ensures LowBit(ShiftRight(m, k)) <==> And(m, OneBit(k)) != 0
    ensures LowTwo(ShiftRight(m, k)) <==> And(m, OneBit(k)) != 0 || And(m, OneBit(k + 1)) != 0
  {
  }

  /** The two lowest bits of `map >> idx` are the bits of bins idx and idx + 1. */
  lemma ShiftedMap(m: bv32, idx: nat)
    requires idx < 31
    ensures LowBit(FromBin(m, idx)) <==> Marked(m, idx)
    ensures LowTwo(FromBin(m, idx)) <==> Marked(m, idx) || Marked(m, idx + 1)
  {
    hide And, OneBit, ShiftRight, LowBit, LowTwo;
    IndexNext(idx);
    LowBitsWord(m, idx as bv32);
  }

  /** The first test on the shifted map: is bin idx or idx + 1 non-empty, and which? */
  lemma FirstTwoBins(m: bv32, idx: nat)
    requires idx < 31
    ensures LowTwo(FromBin(m, idx)) <==> Marked(m, idx) || Marked(m, idx + 1)
    ensures LowBit(FromBin(m, idx)) <==> Marked(m, idx)
    ensures FromBin(m, idx) == 0 ==> forall j: nat :: idx <= j < 32 ==> !Marked(m, j)
  {
    hide Marked, LowTwo, LowBit, ShiftRight;
    ShiftedMap(m, idx);
    if FromBin(m, idx) == 0 {
      forall j: nat | idx <= j < 32
        ensures !Marked(m, j)
      {
        ShiftedOut(m, idx, j);
      }
    }
  }

  lemma AndSwap(a: bv32, b: bv32)
    ensures And(a, b) == And(b, a)
  {
  }

  /** What is left of the shifted map are the marked bins above idx. */
  lemma AboveMarked(m: bv32, idx: nat, j: nat)
    requires idx < 32 && j < 32
    ensures Marked(BinsAbove(FromBin(m, idx), idx), j) <==> (idx < j && Marked(m, j))
  {
    hide And, IdxBit, LeftBits, Marked, ToBin, FromBin;
    var back := ToBin(FromBin(m, idx), idx);
    AndSwap(back, LeftBits(IdxBit(idx)));
    LeftOf(back, idx, j);
    if idx < j {
      ShiftBack(m, idx, j);
    }
  }

  lemma SomeAbove(m: bv32, idx: nat)
    requires idx < 32 && FromBin(m, idx) != 0 && !LowBit(FromBin(m, idx))
    ensures BinsAbove(FromBin(m, idx), idx) != 0
  {
    hide And, IdxBit, LeftBits, Marked, BinsAbove, FromBin, LowBit;
    var l := And(LeftBits(IdxBit(idx)), m);
    if l == 0 {
      NothingFrom(m, idx);
    } else {
      BitsOf(l);
      var j: nat :| j < 32 && Marked(l, j);
      LeftOf(m, idx, j);
      AboveMarked(m, idx, j);
      NothingMarked(j);
    }
  }

  /** With bin idx empty and some later bin not, the bit trick finds the first non-empty bin after idx. */
  lemma FirstBinAbove(m: bv32, idx: nat)
    requires idx < 32 && FromBin(m, idx) != 0 && !LowBit(FromBin(m, idx))
    ensures var l := BinsAbove(FromBin(m, idx), idx);
            && l != 0 && LeastBit(l) != 0 && idx < Ctz(LeastBit(l)) && Marked(m, Ctz(LeastBit(l)))
            && forall j: nat :: idx < j < Ctz(LeastBit(l)) ==> !Marked(m, j)
  {
    hide And, IdxBit, LeftBits, LeastBit, Marked, BinsAbove, FromBin, LowBit;
    SomeAbove(m, idx);
    forall j: nat | j < 32
      ensures Marked(BinsAbove(FromBin(m, idx), idx), j) <==> (idx < j && Marked(m, j))
    {
      AboveMarked(m, idx, j);
    }
    LeastAbove(m, idx, BinsAbove(FromBin(m, idx), idx));
  }
}
