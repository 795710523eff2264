/**
  Float-to-integer truncation from the raw IEEE 754 bits (unix/shared/src/ftol.rs),
  against the real value the bits encode (section 3.4 of IEEE 754-2019).
  A `u64` is a `nat` below 2^64; masks and fixed shifts are its remainders and divisions.
*/
module Ftol {

  const TWO_52: nat := 0x10_0000_0000_0000
  const TWO_63: nat := 0x8000_0000_0000_0000
  const TWO_64: nat := 0x1_0000_0000_0000_0000
  const I64_MIN: int := -0x8000_0000_0000_0000

  type Bits = b: nat | b < TWO_64

  // ---------------------------------------------------------- the kernel

  function Exponent(bits: Bits): (r: nat)
    ensures r < 2048
  {
    (bits / TWO_52) % 2048
  }

  function Fraction(bits: Bits): (r: nat)
    ensures r < TWO_52
  {
    bits % TWO_52
  }

  predicate Negative(bits: Bits) {
    bits / TWO_63 == 1
  }

  // `m << e` on a `u64`: one place at a time, losing the bit shifted out.
  function ShiftLeft(m: nat, e: nat): nat
    decreases e
  {
    if e == 0 then m else ShiftLeft((2 * m) % TWO_64, e - 1)
  }

  // `m >> e`.
  function ShiftRight(m: nat, e: nat): nat
    decreases e
  {
    if e == 0 then m else ShiftRight(m / 2, e - 1)
  }

  // `as i64`: two's complement.
  function AsI64(u: nat): int {
    if u % TWO_64 < TWO_63 then u % TWO_64 else u % TWO_64 - TWO_64
  }

  // `-x` on an `i64`, which has no positive counterpart for the least value.
  function NegateI64(x: int): int {
    if x == I64_MIN then I64_MIN else -x
  }

  // The magnitude computed for exponents from 1023 up to the last below 2^63.
  function ShiftedMantissa(bits: Bits): nat
    requires 1023 <= Exponent(bits) < 1086
  {
    var m := Fraction(bits) + TWO_52;
    if Exponent(bits) >= 1075 then ShiftLeft(m, Exponent(bits) - 1075) else ShiftRight(m, 1075 - Exponent(bits))
  }

  function Truncate(bits: Bits): int {
    var exp := Exponent(bits);
    if exp < 1023 then 0
    else if exp - 1075 >= 11 then I64_MIN
    else
      var mag := ShiftedMantissa(bits);
      if Negative(bits) then NegateI64(AsI64(mag)) else AsI64(mag)
  }

  // ----------------------------------------------------------- the meaning

  // 2^e.
  function Power(e: int): real
    decreases if e < 0 then -e else e
  {
    if e == 0 then 1.0 else if e > 0 then 2.0 * Power(e - 1) else Power(e + 1) / 2.0
  }

  predicate IsFinite(bits: Bits) {
    Exponent(bits) != 0x7FF
  }

  // x * 2^e by doubling and halving: see ScaleIsProduct.
  function Scale(x: real, e: int): real
    decreases if e < 0 then -e else e
  {
    if e == 0 then x else if e > 0 then Scale(2.0 * x, e - 1) else Scale(x / 2.0, e + 1)
  }

  // A zero exponent field is a zero or a subnormal: no leading one.
  function Significand(bits: Bits): nat {
    if Exponent(bits) == 0 then Fraction(bits) else TWO_52 + Fraction(bits)
  }

  function Binade(bits: Bits): int {
    if Exponent(bits) == 0 then -1074 else Exponent(bits) as int - 1075
  }

  // The absolute value of a finite pattern.
  function Magnitude(bits: Bits): real
    requires IsFinite(bits)
  {
    Scale(Significand(bits) as real, Binade(bits))
  }

  function RealValue(bits: Bits): real
    requires IsFinite(bits)
  {
    if Negative(bits) then -Magnitude(bits) else Magnitude(bits)
  }

  function TowardZero(x: real): int {
    if x >= 0.0 then x.Floor else -((-x).Floor)
  }

  // --------------------------------------------------------------- scaling

  lemma {:induction false} ScaleIsProduct(x: real, e: int)
    ensures Scale(x, e) == x * Power(e)
    decreases if e < 0 then -e else e
  {
    if e > 0 {
      ScaleIsProduct(2.0 * x, e - 1);
      Regroup(x, 2.0, Power(e - 1));
    } else if e < 0 {
      ScaleIsProduct(x / 2.0, e + 1);
      Regroup(x, 0.5, Power(e + 1));
      assert x / 2.0 == x * 0.5 && Power(e + 1) / 2.0 == 0.5 * Power(e + 1);
    }
  }

  lemma Regroup(x: real, y: real, z: real)
    ensures (x * y) * z == x * (y * z) && (y * x) * z == x * (y * z)
  {
  }

  // Halving `e` times takes the integer part to its `e`-place right shift.
  lemma {:induction false} ScaleDown(x: real, e: nat)
    requires x >= 0.0
    ensures Scale(x, -(e as int)).Floor == ShiftRight(x.Floor, e)
    ensures 0.0 <= Scale(x, -(e as int)) <= x
    decreases e
  {
    if e > 0 {
      ScaleDown(x / 2.0, e - 1);
      assert (x / 2.0).Floor == x.Floor / 2;
    }
  }

  // Doubling `e` times is the left shift, while the result stays below 2^63.
  lemma {:induction false} ScaleUp(m: nat, bound: nat, e: nat)
    requires m < bound && Doubled(bound, e) <= TWO_63
    ensures ShiftLeft(m, e) < Doubled(bound, e)
    ensures Scale(m as real, e) == ShiftLeft(m, e) as real
    decreases e
  {
    DoubledGrows(bound, e);
    if e > 0 {
      DoubledGrows(2 * bound, e - 1);
      ScaleUp(2 * m, 2 * bound, e - 1);
      assert (2 * m) % TWO_64 == 2 * m;
      assert 2.0 * m as real == (2 * m) as real;
    }
  }

  function Doubled(n: nat, times: nat): nat
    decreases times
  {
    if times == 0 then n else Doubled(2 * n, times - 1)
  }

  lemma {:induction false} DoubledGrows(n: nat, times: nat)
    ensures Doubled(n, times) >= n
    decreases times
  {
    if times > 0 {
      DoubledGrows(2 * n, times - 1);
    }
  }

  // At most as many halvings as doublings of one leave less than one.
  lemma {:induction false} ScaleBelowOne(x: real, n: nat, k: nat, e: nat)
    requires 0.0 <= x < n as real && n == Doubled(1, k) && k <= e
    ensures 0.0 <= Scale(x, -(e as int)) < 1.0
    decreases e
  {
    if k == 0 {
      ScaleDown(x, e);
    } else {
      DoubledTwice(1, k);
      ScaleBelowOne(x / 2.0, Doubled(1, k - 1), k - 1, e - 1);
    }
  }

  lemma {:induction false} DoubledTwice(n: nat, k: nat)
    requires k > 0
    ensures Doubled(n, k) == 2 * Doubled(n, k - 1)
    decreases k
  {
    if k > 1 {
      DoubledTwice(2 * n, k - 1);
    }
  }

  lemma {:induction false} ScaleAtLeast(x: real, n: nat, k: nat, e: nat)
    requires x >= n as real && k <= e
    ensures Scale(x, e) >= Doubled(n, k) as real
    decreases e
  {
    if k == 0 {
      ScaleGrows(x, e);
    } else {
      ScaleAtLeast(2.0 * x, 2 * n, k - 1, e - 1);
    }
  }

  lemma {:induction false} ScaleGrows(x: real, e: nat)
    requires x >= 0.0
    ensures Scale(x, e) >= x
    decreases e
  {
    if e > 0 {
      ScaleGrows(2.0 * x, e - 1);
    }
  }

  lemma {:induction false} DoubledAdds(n: nat, a: nat, b: nat)
    ensures Doubled(n, a + b) == Doubled(Doubled(n, a), b)
    decreases a
  {
    if a > 0 {
      DoubledAdds(2 * n, a - 1, b);
    }
  }

  lemma DoubledValues()
    ensures Doubled(2 * TWO_52, 10) == TWO_63 && Doubled(TWO_52, 11) == TWO_63
    ensures Doubled(1, 53) == 2 * TWO_52
  {
    DoubledAdds(2 * TWO_52, 5, 5);
    DoubledAdds(1, 10, 10);
    DoubledAdds(1, 20, 20);
    DoubledAdds(1, 40, 13);
    DoubledByTen(1);
    DoubledByTen(1024);
    DoubledByTen(0x10_0000);
    DoubledByTen(0x4000_0000);
    DoubledAdds(0x10_0000, 10, 10);
    DoubledAdds(0x100_0000_0000, 10, 3);
    DoubledByTen(0x100_0000_0000);
    DoubledByTen(2 * TWO_52);
  }

  lemma DoubledByTen(n: nat)
    ensures Doubled(n, 10) == 1024 * n
  {
    DoubledAdds(n, 5, 5);
  }

  // ------------------------------------------------------------ the proof

  // Below 1023 the magnitude is less than one.
  lemma SmallMagnitude(bits: Bits)
    requires Exponent(bits) < 1023
    ensures 0.0 <= Magnitude(bits) < 1.0
  {
    DoubledValues();
    var m, e: nat := if Exponent(bits) == 0 then Fraction(bits) else TWO_52 + Fraction(bits),
                     if Exponent(bits) == 0 then 1074 else 1075 - Exponent(bits);
    ScaleBelowOne(m as real, 2 * TWO_52, 53, e);
  }

  // From 2^63 on, the exponent alone decides.
  lemma LargeMagnitude(bits: Bits)
    requires IsFinite(bits) && Exponent(bits) >= 1086
    ensures Magnitude(bits) >= TWO_63 as real
  {
    DoubledValues();
    var m, e: nat := TWO_52 + Fraction(bits), Exponent(bits) - 1075;
    ScaleAtLeast(m as real, TWO_52, 11, e);
  }

  lemma ShiftedUp(m: nat, e: nat)
    requires m < 2 * TWO_52 && e <= 10
    ensures (Scale(m as real, e)).Floor == ShiftLeft(m, e)
    ensures 0.0 <= Scale(m as real, e) < TWO_63 as real && ShiftLeft(m, e) < TWO_63
  {
    MantissaFits(m, e);
    ScaleUp(m, 2 * TWO_52, e);
  }

  lemma ShiftedDown(m: nat, e: nat)
    requires m < 2 * TWO_52
    ensures (Scale(m as real, -(e as int))).Floor == ShiftRight(m, e)
    ensures 0.0 <= Scale(m as real, -(e as int)) < TWO_63 as real && ShiftRight(m, e) < TWO_63
  {
    ScaleDown(m as real, e);
    assert (m as real).Floor == m;
  }

  // In between, the shifted mantissa is the magnitude's integer part, and it fits.
  lemma MantissaIsFloor(bits: Bits)
    requires 1023 <= Exponent(bits) < 1086
    ensures ShiftedMantissa(bits) == Magnitude(bits).Floor
    ensures 0.0 <= Magnitude(bits) < TWO_63 as real && ShiftedMantissa(bits) < TWO_63
  {
    var m, exp := TWO_52 + Fraction(bits), Exponent(bits);
    if exp >= 1075 {
      ShiftedUp(m, exp - 1075);
    } else {
      ShiftedDown(m, 1075 - exp);
    }
  }

  lemma {:induction false} MantissaFits(m: nat, e: nat)
    requires m < 2 * TWO_52 && e <= 10
    ensures Doubled(2 * TWO_52, e) <= TWO_63
  {
    DoubledValues();
    DoubledAdds(2 * TWO_52, e, 10 - e);
    DoubledGrows(Doubled(2 * TWO_52, e), 10 - e);
  }

  // Both signs: conversion to `i64` and negation are exact below 2^63.
  lemma SignedIsTowardZero(mag: nat, x: real, negative: bool)
    requires mag < TWO_63 && 0.0 <= x && x.Floor == mag
    ensures (if negative then NegateI64(AsI64(mag)) else AsI64(mag)) == TowardZero(if negative then -x else x)
  {
    assert mag % TWO_64 == mag;
    if negative && x > 0.0 {
      assert -(-x) == x;
    }
  }

  /**
    Every pattern: the real value rounded toward zero when its magnitude is below 2^63,
    and the indefinite value for everything else, infinities and NaNs included.
  */
  lemma TruncatesTowardZero(bits: Bits)
    ensures Truncate(bits) == if IsFinite(bits) && Magnitude(bits) < TWO_63 as real
                              then TowardZero(RealValue(bits)) else I64_MIN
  {
    var exp := Exponent(bits);
    if exp < 1023 {
      SmallMagnitude(bits);
      SignedIsTowardZero(0, Magnitude(bits), Negative(bits));
    } else if exp < 1086 {
      MantissaIsFloor(bits);
      SignedIsTowardZero(ShiftedMantissa(bits), Magnitude(bits), Negative(bits));
    } else if IsFinite(bits) {
      LargeMagnitude(bits);
    }
  }

  // No shift amount leaves the word, no shifted bit is lost, and no negation overflows.
  lemma NothingOverflows(bits: Bits)
    requires 1023 <= Exponent(bits) < 1086
    ensures -63 <= Exponent(bits) as int - 1075 <= 63
    ensures Exponent(bits) >= 1075 ==>
              ShiftLeft(Fraction(bits) + TWO_52, Exponent(bits) - 1075) as real
              == Scale((Fraction(bits) + TWO_52) as real, Exponent(bits) as int - 1075)
    ensures AsI64(ShiftedMantissa(bits)) == ShiftedMantissa(bits) && ShiftedMantissa(bits) < TWO_63
  {
    MantissaIsFloor(bits);
    if Exponent(bits) >= 1075 {
      MantissaFits(Fraction(bits) + TWO_52, Exponent(bits) - 1075);
      ScaleUp(Fraction(bits) + TWO_52, 2 * TWO_52, Exponent(bits) - 1075);
    }
  }
}
