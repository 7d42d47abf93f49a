/** JavaScript's bit operations: signed numbers of 32 bits in two's complement. */
module Int32 {
  const TWO_31 := 0x8000_0000
  const TWO_32 := 0x1_0000_0000

  function Pattern(n: int): (bits: nat)
    ensures bits < TWO_32
  {
    n % TWO_32
  }

  function Signed(bits: nat): (n: int)
    ensures -TWO_31 <= n < TWO_31
  {
    var low := bits % TWO_32;
    if low >= TWO_31 then low - TWO_32 else low
  }

  /** `bits` moved to the left, in as many bits as it takes. */
  function Shift(bits: nat, count: nat): nat {
    if count == 0 then bits else 2 * Shift(bits, count - 1)
  }

  function Or(a: nat, b: nat): nat {
    if a == 0 then b else 2 * Or(a / 2, b / 2) + if a % 2 == 1 || b % 2 == 1 then 1 else 0
  }

  /** n << count */
  function ShiftLeft(n: int, count: nat): int {
    Signed(Shift(Pattern(n), count))
  }

  /** a | b */
  function BitOr(a: int, b: int): int {
    Signed(Or(Pattern(a), Pattern(b)))
  }

  lemma {:induction false} PatternOfSigned(bits: nat)
    ensures Pattern(Signed(bits)) == bits % TWO_32
  {}

  /** Or adds what does not overlap. */
  lemma {:induction false} OrOfDisjoint(high: nat, count: nat, low: nat)
    requires low < Shift(1, count)
    ensures Or(Shift(high, count), low) == Shift(high, count) + low
    decreases count
  {
    if count == 0 {
      OrNothing(high);
    } else {
      OrOfDisjoint(high, count - 1, low / 2);
    }
  }

  lemma {:induction false} OrNothing(a: nat)
    ensures Or(a, 0) == a
  {
    if a > 0 {
      OrNothing(a / 2);
    }
  }

  lemma {:induction false} ShiftSplits(bits: nat, i: nat, j: nat)
    ensures Shift(Shift(bits, i), j) == Shift(bits, i + j)
  {
    if j > 0 {
      ShiftSplits(bits, i, j - 1);
    }
  }

  lemma {:induction false} ShiftByTwo(bits: nat)
    ensures Shift(bits, 2) == 4 * bits
  {
    assert Shift(bits, 1) == 2 * bits;
  }

  lemma {:induction false} ShiftByEight(bits: nat)
    ensures Shift(bits, 8) == 0x100 * bits
  {
    ShiftByTwo(bits);
    ShiftSplits(bits, 2, 2);
    ShiftByTwo(Shift(bits, 2));
    ShiftSplits(bits, 4, 4);
    ShiftSplits(Shift(bits, 4), 2, 2);
    ShiftByTwo(Shift(bits, 4));
    ShiftByTwo(Shift(Shift(bits, 4), 2));
  }

  lemma {:induction false} ShiftByBytes(bits: nat)
    ensures Shift(bits, 16) == 0x1_0000 * bits && Shift(bits, 24) == 0x100_0000 * bits
  {
    ShiftByEight(bits);
    ShiftSplits(bits, 8, 8);
    ShiftByEight(Shift(bits, 8));
    ShiftSplits(bits, 16, 8);
    ShiftByEight(Shift(bits, 16));
  }

  /** Four bytes put together have, as a pattern, their big-endian value. */
  lemma {:induction false} FourBytes(b0: nat, b1: nat, b2: nat, b3: nat)
    requires b0 < 0x100 && b1 < 0x100 && b2 < 0x100 && b3 < 0x100
    ensures Pattern(BitOr(BitOr(BitOr(ShiftLeft(b0, 24), ShiftLeft(b1, 16)), ShiftLeft(b2, 8)), b3))
         == b0 * 0x100_0000 + b1 * 0x1_0000 + b2 * 0x100 + b3
  {
    hide Shift, Or, Pattern, Signed;
    SmallPattern(b0);
    SmallPattern(b1);
    SmallPattern(b2);
    SmallPattern(b3);
    ShiftByBytes(1);
    ShiftByEight(1);
    ShiftByBytes(b0);
    ShiftByBytes(b1);
    ShiftByEight(b2);
    PatternOfSigned(Shift(b0, 24));
    PatternOfSigned(Shift(b1, 16));
    PatternOfSigned(Shift(b2, 8));
    OrOfDisjoint(b0, 24, Shift(b1, 16));
    PatternOfSigned(Shift(b0, 24) + Shift(b1, 16));
    var two := 0x100 * b0 + b1;
    ShiftByBytes(two);
    OrOfDisjoint(two, 16, Shift(b2, 8));
    PatternOfSigned(Shift(two, 16) + Shift(b2, 8));
    var three := 0x100 * two + b2;
    ShiftByEight(three);
    OrOfDisjoint(three, 8, b3);
    PatternOfSigned(Shift(three, 8) + b3);
  }

  lemma {:induction false} SmallPattern(n: nat)
    requires n < TWO_32
    ensures Pattern(n) == n
  {}
}
