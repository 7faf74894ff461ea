/** Unsigned 32-bit integers (`std::uint32_t`) and the two bitwise operators
    the scoped enumerations use, `|` and `&`. A value is a natural number
    below 2^32; bit `i` of `v` is the `i`-th binary digit of `v`, and the
    operators are defined digit by digit. The lemmas characterise both
    operators bit by bit, so that every law about them follows from the laws
    of `||` and `&&`. */
module Bits32 {

  /** 2^32, one more than the largest `std::uint32_t`. */
  const Modulus: nat := 0x1_0000_0000

  /** `std::uint32_t`. */
  type UInt32 = x: nat | x < Modulus

  /** 2^i. */
  function Pow2(i: nat): (r: nat)
    ensures r > 0
  {
    if i == 0 then 1 else 2 * Pow2(i - 1)
  }

  /** Bit `i` of `v` is set. */
  predicate Bit(v: nat, i: nat) {
    if i == 0 then v % 2 == 1 else Bit(v / 2, i - 1)
  }

  /** `v` has exactly one bit set: it is a power of two. */
  ghost predicate IsSingleBit(v: nat) {
    exists i: nat :: Pow2(i) == v
  }

  /** `a | b` on unsigned integers, one binary digit at a time. */
  function BitOr(a: nat, b: nat): nat
    decreases a + b
  {
    if a == 0 && b == 0 then 0
    else 2 * BitOr(a / 2, b / 2) + (if a % 2 == 1 || b % 2 == 1 then 1 else 0)
  }

  /** `a & b` on unsigned integers, one binary digit at a time. */
  function BitAnd(a: nat, b: nat): nat
    decreases a + b
  {
    if a == 0 || b == 0 then 0
    else 2 * BitAnd(a / 2, b / 2) + (if a % 2 == 1 && b % 2 == 1 then 1 else 0)
  }

  lemma Pow2Is2To32()
    ensures Pow2(32) == Modulus
  {
    assert Pow2(8) == 0x100;
    assert Pow2(16) == 0x1_0000;
    assert Pow2(24) == 0x100_0000;
  }

  /** Zero has no bit set. */
  lemma {:induction false} BitOfZero(i: nat)
    ensures !Bit(0, i)
  {
    if i > 0 {
      BitOfZero(i - 1);
    }
  }

  /** A number is determined by its bits. */
  lemma {:induction false} BitsDetermine(a: nat, b: nat)
    requires forall i: nat :: Bit(a, i) == Bit(b, i)
    ensures a == b
    decreases a + b
  {
    if a != 0 || b != 0 {
      assert Bit(a, 0) == Bit(b, 0);
      forall i: nat
        ensures Bit(a / 2, i) == Bit(b / 2, i)
      {
        assert Bit(a, i + 1) == Bit(b, i + 1);
      }
      BitsDetermine(a / 2, b / 2);
    }
  }

  /** Bit `i` of `a | b` is set exactly when bit `i` of `a` or of `b` is. */
  lemma {:induction false} BitOrBits(a: nat, b: nat, i: nat)
    ensures Bit(BitOr(a, b), i) <==> Bit(a, i) || Bit(b, i)
    decreases i
  {
    if a == 0 && b == 0 {
      BitOfZero(i);
    } else if i > 0 {
      BitOrBits(a / 2, b / 2, i - 1);
    }
  }

  /** Bit `i` of `a & b` is set exactly when bit `i` of both `a` and `b` is. */
  lemma {:induction false} BitAndBits(a: nat, b: nat, i: nat)
    ensures Bit(BitAnd(a, b), i) <==> Bit(a, i) && Bit(b, i)
    decreases i
  {
    if a == 0 || b == 0 {
      BitOfZero(i);
    } else if i > 0 {
      BitAndBits(a / 2, b / 2, i - 1);
    }
  }

  /** `BitOrBits` for every bit at once. */
  lemma BitOrAllBits(a: nat, b: nat)
    ensures forall i: nat :: Bit(BitOr(a, b), i) <==> Bit(a, i) || Bit(b, i)
  {
    forall i: nat
      ensures Bit(BitOr(a, b), i) <==> Bit(a, i) || Bit(b, i)
    {
      BitOrBits(a, b, i);
    }
  }

  /** `BitAndBits` for every bit at once. */
  lemma BitAndAllBits(a: nat, b: nat)
    ensures forall i: nat :: Bit(BitAnd(a, b), i) <==> Bit(a, i) && Bit(b, i)
  {
    forall i: nat
      ensures Bit(BitAnd(a, b), i) <==> Bit(a, i) && Bit(b, i)
    {
      BitAndBits(a, b, i);
    }
  }

  /** A number below 2^n has no bit set from bit `n` up. */
  lemma {:induction false} BitAbove(v: nat, n: nat, i: nat)
    requires v < Pow2(n) && n <= i
    ensures !Bit(v, i)
    decreases n
  {
    if n == 0 {
      BitOfZero(i);
    } else {
      BitAbove(v / 2, n - 1, i - 1);
    }
  }

  /** A number with no bit set from bit `n` up is below 2^n. */
  lemma {:induction false} BelowFromBits(v: nat, n: nat)
    requires forall i: nat :: n <= i ==> !Bit(v, i)
    ensures v < Pow2(n)
    decreases n
  {
    if n == 0 {
      forall i: nat
        ensures Bit(v, i) == Bit(0, i)
      {
        BitOfZero(i);
      }
      BitsDetermine(v, 0);
    } else {
      forall i: nat | n - 1 <= i
        ensures !Bit(v / 2, i)
      {
        assert !Bit(v, i + 1);
      }
      BelowFromBits(v / 2, n - 1);
    }
  }

  /** The only bit of 2^n is bit `n`. */
  lemma {:induction false} Pow2Bits(n: nat, i: nat)
    ensures Bit(Pow2(n), i) <==> i == n
    decreases n
  {
    if n == 0 {
      if i > 0 {
        BitOfZero(i - 1);
      }
    } else if i > 0 {
      Pow2Bits(n - 1, i - 1);
    }
  }

  /** The `n` lowest bits of 2^n - 1 are set, and no others. */
  lemma {:induction false} LowOnesBits(n: nat, i: nat)
    ensures Bit(Pow2(n) - 1, i) <==> i < n
    decreases n
  {
    if n == 0 {
      BitOfZero(i);
    } else if i > 0 {
      LowOnesBits(n - 1, i - 1);
    }
  }

  /** Below bit `s`, `2^s * x + low` has the bits of `low`; from bit `s` up,
      it has the bits of `x`, moved up by `s`. */
  lemma {:induction false} ShiftedBits(x: nat, s: nat, low: nat, i: nat)
    requires low < Pow2(s)
    ensures Bit(Pow2(s) * x + low, i) <==>
      (i < s && Bit(low, i)) || (s <= i && Bit(x, i - s))
    decreases s
  {
    if s == 0 {
    } else {
      var y := Pow2(s - 1) * x + low / 2;
      assert Pow2(s) * x + low == 2 * y + low % 2;
      if i > 0 {
        ShiftedBits(x, s - 1, low / 2, i - 1);
      }
    }
  }

  /** The OR of two values below 2^n is below 2^n: in particular `|` on two
      `std::uint32_t` values gives a `std::uint32_t`. */
  lemma BitOrBound(a: nat, b: nat, n: nat)
    requires a < Pow2(n) && b < Pow2(n)
    ensures BitOr(a, b) < Pow2(n)
  {
    forall i: nat | n <= i
      ensures !Bit(BitOr(a, b), i)
    {
      BitOrBits(a, b, i);
      BitAbove(a, n, i);
      BitAbove(b, n, i);
    }
    BelowFromBits(BitOr(a, b), n);
  }

  /** The AND of a value below 2^n with anything is below 2^n. */
  lemma BitAndBound(a: nat, b: nat, n: nat)
    requires a < Pow2(n) || b < Pow2(n)
    ensures BitAnd(a, b) < Pow2(n)
  {
    forall i: nat | n <= i
      ensures !Bit(BitAnd(a, b), i)
    {
      BitAndBits(a, b, i);
      if a < Pow2(n) {
        BitAbove(a, n, i);
      } else {
        BitAbove(b, n, i);
      }
    }
    BelowFromBits(BitAnd(a, b), n);
  }

  /** Two different powers of two share no bit. */
  lemma Pow2Disjoint(x: nat, y: nat)
    requires x != y
    ensures BitAnd(Pow2(x), Pow2(y)) == 0
  {
    forall i: nat
      ensures Bit(BitAnd(Pow2(x), Pow2(y)), i) == Bit(0, i)
    {
      BitAndBits(Pow2(x), Pow2(y), i);
      Pow2Bits(x, i);
      Pow2Bits(y, i);
      BitOfZero(i);
    }
    BitsDetermine(BitAnd(Pow2(x), Pow2(y)), 0);
  }
}
