/** The shift-register cipher that unlocks a memory card. */
module Cipher {

  /** One turn of the register that shifts right: its bits 0, 7, 15 and 23 decide the bit that comes in. */
  function StepRight(a: bv32): bv32 {
    var r3 := !((a >> 23) ^ ((a >> 15) ^ (a ^ (a >> 7))));
    (a >> 1) | ((r3 << 30) & 0x4000_0000)
  }

  /** One turn of the register that shifts left: its bits 31, 24, 16 and 8 decide the bit that comes in. */
  function StepLeft(a: bv32): bv32 {
    var r3 := !((a << 23) ^ ((a << 15) ^ (a ^ (a << 7))));
    (a << 1) | ((r3 >> 30) & 0x02)
  }

  function TurnRight(a: bv32, n: nat): bv32 {
    if n == 0 then a else StepRight(TurnRight(a, n - 1))
  }

  function TurnLeft(a: bv32, n: nat): bv32 {
    if n == 0 then a else StepLeft(TurnLeft(a, n - 1))
  }

  /** The body of exnor_1st's loop. */
  method RightOnce(a: bv32) returns (r: bv32)
    ensures r == StepRight(a)
  {
    var r3 := !((a >> 23) ^ ((a >> 15) ^ (a ^ (a >> 7))));
    r := (a >> 1) | ((r3 << 30) & 0x4000_0000);
  }

  /** exnor_1st */
  method ShiftRight(a0: bv32, b: nat) returns (a: bv32)
    ensures a == TurnRight(a0, b)
  {
    hide StepRight;
    a := a0;
    var c := 0;
    while c < b
      invariant 0 <= c <= b && a == TurnRight(a0, c)
    {
      a := RightOnce(a);
      c := c + 1;
    }
  }

  /** The body of exnor's loop. */
  method LeftOnce(a: bv32) returns (r: bv32)
    ensures r == StepLeft(a)
  {
    var r3 := !((a << 23) ^ ((a << 15) ^ (a ^ (a << 7))));
    r := (a << 1) | ((r3 >> 30) & 0x02);
  }

  /** exnor */
  method ShiftLeft(a0: bv32, b: nat) returns (a: bv32)
    ensures a == TurnLeft(a0, b)
  {
    hide StepLeft;
    a := a0;
    var c := 0;
    while c < b
      invariant 0 <= c <= b && a == TurnLeft(a0, c)
    {
      a := LeftOnce(a);
      c := c + 1;
    }
  }

  /** Halves, quarters, ... and single bits exchanged. */
  function Mirror(x: bv32): bv32 {
    var x1 := ((x >> 1) & 0x5555_5555) | ((x & 0x5555_5555) << 1);
    var x2 := ((x1 >> 2) & 0x3333_3333) | ((x1 & 0x3333_3333) << 2);
    var x4 := ((x2 >> 4) & 0x0F0F_0F0F) | ((x2 & 0x0F0F_0F0F) << 4);
    var x8 := ((x4 >> 8) & 0x00FF_00FF) | ((x4 & 0x00FF_00FF) << 8);
    (x8 >> 16) | (x8 << 16)
  }

  /** The result bits decided by the first c turns of bitrev's loop. */
  function Decided(c: bv32): bv32
    requires c <= 32
  {
    !(0xFFFF_FFFF >> c)
  }

  lemma OneMore(c: bv32)
    requires c < 32
    ensures Decided(c) | (0x8000_0000 >> c) == Decided(c + 1)
  {
  }

  lemma AllDecided(m: bv32)
    ensures m & Decided(0) == 0 && m & Decided(32) == m
  {
  }

  lemma Joined(m: bv32, a: bv32, b: bv32)
    ensures (m & a) | (m & b) == m & (a | b)
  {
  }

  lemma MovesUp(val: bv32, c: bv32)
    requires c <= 15
    ensures (val & (1 << c)) << (31 - c - c) == Mirror(val) & (0x8000_0000 >> c)
  {
  }

  lemma MovesDown(val: bv32, c: bv32)
    requires 16 <= c <= 30
    ensures (val & (1 << c)) >> (2 * c - 31) == Mirror(val) & (0x8000_0000 >> c)
  {
  }

  lemma LastBit(val: bv32)
    ensures val >> 31 == Mirror(val) & (0x8000_0000 >> 31)
  {
  }

  /** The loop of bitrev after cnt turns, for the result m. */
  predicate Reversing(m: bv32, cnt: bv32, ret: bv32, shift: bv32, shift1: bv32) {
    && cnt <= 32 && ret == m & Decided(cnt)
    && shift1 == (if cnt <= 16 then cnt else 16)
    && (cnt < 32 ==> shift == if cnt <= 16 then 1 else 2 * cnt - 31)
  }

  /** The body of bitrev's loop. */
  method ReverseOnce(ghost m: bv32, val: bv32, cnt: bv32, ret0: bv32, shift0: bv32, shift10: bv32)
    returns (ret: bv32, shift: bv32, shift1: bv32)
    requires cnt < 32 && m == Mirror(val) && Reversing(m, cnt, ret0, shift0, shift10)
    ensures Reversing(m, cnt + 1, ret, shift, shift1)
  {
    hide Mirror, Decided;
    ret, shift, shift1 := ret0, shift0, shift10;
    OneMore(cnt);
    Joined(m, Decided(cnt), 0x8000_0000 >> cnt);
    if cnt <= 15 {
      MovesUp(val, cnt);
      var val1 := val & (1 << cnt);
      val1 := val1 << ((31 - cnt) - shift1);
      ret := ret | val1;
      shift1 := shift1 + 1;
    } else if cnt == 31 {
      LastBit(val);
      var val1 := val >> 31;
      ret := ret | val1;
    } else {
      MovesDown(val, cnt);
      var val1 := val & (1 << cnt);
      val1 := val1 >> shift;
      ret := ret | val1;
      shift := shift + 2;
    }
  }

  lemma ReversingEnds(m: bv32)
    ensures Reversing(m, 0, 0, 1, 0)
    ensures forall ret, shift, shift1 :: Reversing(m, 32, ret, shift, shift1) ==> ret == m
  {
    AllDecided(m);
  }

  /** bitrev: the first 16 bits move up, the others down, by distances that shrink and grow in steps of two. */
  method Reverse(val: bv32) returns (ret: bv32)
    ensures ret == Mirror(val)
  {
    hide Mirror, Reversing;
    ret := 0;
    var cnt: bv32 := 0;
    var shift: bv32 := 1;
    var shift1: bv32 := 0;
    ReversingEnds(Mirror(val));
    while cnt < 32
      invariant cnt <= 32 && Reversing(Mirror(val), cnt, ret, shift, shift1)
      decreases 32 - cnt
    {
      ret, shift, shift1 := ReverseOnce(Mirror(val), val, cnt, ret, shift, shift1);
      cnt := cnt + 1;
    }
  }

  /** Bit k of x. */
  predicate BitAt(x: bv32, k: bv32)
    requires k < 32
  {
    (x >> k) & 1 == 1
  }

  /** bitrev moves bit k to bit 31 - k. */
  lemma MirrorBit(x: bv32, k: bv32)
    requires k < 32
    ensures BitAt(Mirror(x), 31 - k) == BitAt(x, k)
  {
  }

  /** bitrev is its own inverse. */
  lemma MirrorTwice(x: bv32)
    ensures Mirror(Mirror(x)) == x
  {
  }

  lemma MirrorStep(a: bv32)
    ensures Mirror(StepRight(a)) == StepLeft(Mirror(a))
  {
  }

  /** The two registers are mirror images of each other. */
  lemma {:induction false} RegistersMirror(a: bv32, n: nat)
    ensures Mirror(TurnRight(a, n)) == TurnLeft(Mirror(a), n)
  {
    if n == 0 {
    } else {
      RegistersMirror(a, n - 1);
      MirrorStep(TurnRight(a, n - 1));
    }
  }

  /** Turning m and then n times is turning m + n times. */
  lemma {:induction false} TurnLeftSum(a: bv32, m: nat, n: nat)
    ensures TurnLeft(TurnLeft(a, m), n) == TurnLeft(a, m + n)
  {
    if n == 0 {
    } else {
      TurnLeftSum(a, m, n - 1);
    }
  }
}
