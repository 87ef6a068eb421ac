/** fp16_to_float (src/kernels/ggml_q4_k_reference.cpp) on bit patterns as numbers: "or" of disjoint
    fields is their sum. And which products of a half need no rounding in single precision. */
module HalfFloat {
  import opened GgufBits
  import opened SinglePrecision

  // ----- what the patterns mean, section 3.4 of IEEE 754 -----

  /** The magnitude of a finite half, in units of 2^-24. */
  function HalfUnits(bits: nat): nat
    requires bits < 0x10000 && bits / 1024 % 32 != 31
  {
    var e, m := bits / 1024 % 32, bits % 1024;
    if e == 0 then m else (1024 + m) * Pow2(e - 1)
  }

  /** A half as a single: 2^-24 is 2^125 units. */
  function HalfValue(bits: nat): int
    requires bits < 0x10000 && bits / 1024 % 32 != 31
  {
    Signed(bits >= 0x8000, HalfUnits(bits) * Pow2(125))
  }

  function FromHalf(bits: nat): Single
    requires bits < 0x10000
  {
    if bits / 1024 % 32 == 31 then NonFinite else Finite(HalfValue(bits))
  }

  /** The magnitude of a normal single, in units of 2^-47; exponents below 103 do not occur. */
  function SingleUnits(bits: nat): nat
    requires bits < 0x1_0000_0000 && 103 <= bits / 0x80_0000 % 256 < 255
  {
    (0x80_0000 + bits % 0x80_0000) * Pow2(bits / 0x80_0000 % 256 - 103)
  }

  /** A normal number: the fraction moves up 13 places, the exponent by 112. */
  lemma NormalAgrees(e: nat, m: nat)
    requires 1 <= e < 31 && m < 1024
    ensures (0x80_0000 + m * 0x2000) * Pow2(e + 112 - 103) == (1024 + m) * Pow2(e - 1) * 0x80_0000
  {
    TenBits();
    Pow2Adds(e - 1, 10);
    assert (0x80_0000 + m * 0x2000) == (1024 + m) * 0x2000;
    assert Pow2(e + 9) == Pow2(e - 1) * 1024;
    Rearrange(1024 + m, Pow2(e - 1), 1024);
  }

  /** A subnormal number shifted up until its leading bit is the implicit one. */
  lemma SubnormalAgrees(m: nat, e: nat, shifted: nat)
    requires 103 <= e <= 113 && shifted == m * Pow2(113 - e) && 1024 <= shifted < 2048
    ensures (0x80_0000 + (shifted - 1024) * 0x2000) * Pow2(e - 103) == m * 0x80_0000
  {
    TenBits();
    Pow2Adds(113 - e, e - 103);
    assert (0x80_0000 + (shifted - 1024) * 0x2000) == shifted * 0x2000;
    Rearrange(m, Pow2(113 - e), Pow2(e - 103));
  }

  lemma Rearrange(a: nat, b: nat, c: nat)
    ensures a * b * 0x2000 * c == a * (b * c) * 0x2000 && a * 0x2000 * (b * c) == a * b * (c * 0x2000)
  {}

  /** Units of 2^-47 and units of 2^-149. */
  lemma UnitsAgree(e: nat, f: nat, units: nat)
    requires 103 <= e < 255 && (0x80_0000 + f) * Pow2(e - 103) == units * 0x80_0000
    ensures (0x80_0000 + f) * Pow2(e - 1) == units * Pow2(125)
  {
    hide Pow2;
    SignificandIs();
    Pow2Adds(e - 103, 102);
    Pow2Adds(23, 102);
    BothScaled(0x80_0000 + f, Pow2(e - 103), units, 0x80_0000, Pow2(102));
  }

  lemma BothScaled(x: nat, a: nat, y: nat, b: nat, p: nat)
    requires x * a == y * b
    ensures x * (a * p) == y * (b * p)
  {
    assert x * (a * p) == x * a * p && y * (b * p) == y * b * p;
  }

  lemma ZeroStays(bits: nat, output: nat)
    requires bits < 0x10000 && bits % 0x8000 == 0 && output < 0x1_0000_0000 && output % 0x8000_0000 == 0
    ensures bits / 1024 % 32 == 0 && HalfUnits(bits) == 0 && Meaning(output) == Finite(0)
  {
    hide Pow2;
    assert bits == 0 || bits == 0x8000;
    assert output == 0 || output == 0x8000_0000;
  }

  /** Equal signs and magnitudes are equal numbers. */
  lemma SameMeaning(bits: nat, output: nat)
    requires bits < 0x10000 && output < 0x1_0000_0000 && output / 0x8000_0000 == bits / 0x8000
    requires bits / 1024 % 32 == 31 ==> output / 0x80_0000 % 256 == 255
    requires bits % 0x8000 == 0 ==> output % 0x8000_0000 == 0
    requires bits / 1024 % 32 != 31 && bits % 0x8000 != 0 ==>
      103 <= output / 0x80_0000 % 256 < 255 && SingleUnits(output) == HalfUnits(bits) * 0x80_0000
    ensures Meaning(output) == FromHalf(bits)
  {
    hide Pow2, HalfUnits;
    if bits / 1024 % 32 != 31 {
      if bits % 0x8000 == 0 {
        ZeroStays(bits, output);
      } else {
        UnitsAgree(output / 0x80_0000 % 256, output % 0x80_0000, HalfUnits(bits));
      }
    }
  }

  /** The conversion is exact: same sign, same magnitude; infinities stay infinite and the payload of
      a NaN moves up with the fraction. */
  method Fp16ToFloat(bits: nat) returns (output: nat)
    requires bits < 0x10000
    ensures output < 0x1_0000_0000 && output / 0x8000_0000 == bits / 0x8000
    ensures bits / 1024 % 32 == 31 ==> output / 0x80_0000 % 256 == 255 && output % 0x80_0000 == bits % 1024 * 0x2000
    ensures bits % 0x8000 == 0 ==> output % 0x8000_0000 == 0
    ensures bits / 1024 % 32 != 31 && bits % 0x8000 != 0 ==>
      103 <= output / 0x80_0000 % 256 < 255 && SingleUnits(output) == HalfUnits(bits) * 0x80_0000
    ensures Meaning(output) == FromHalf(bits)
  {
    hide Pow2, Meaning, FromHalf, HalfUnits;
    var sign := bits / 0x8000;
    var exponent, mantissa := Fields(bits);
    FieldsComeApart(sign, exponent, mantissa * 0x2000);
    output := sign * 0x8000_0000 + exponent * 0x80_0000 + mantissa * 0x2000;
    SameMeaning(bits, output);
  }

  /** Exponent and fraction of the single; both stay zero for a zero. */
  method Fields(bits: nat) returns (exponent: nat, mantissa: nat)
    requires bits < 0x10000
    ensures exponent < 256 && mantissa < 1024
    ensures bits / 1024 % 32 == 31 ==> exponent == 255 && mantissa == bits % 1024
    ensures bits % 0x8000 == 0 ==> exponent == 0 && mantissa == 0
    ensures bits / 1024 % 32 != 31 && bits % 0x8000 != 0 ==>
      && 103 <= exponent < 255
      && (0x80_0000 + mantissa * 0x2000) * Pow2(exponent - 103) == HalfUnits(bits) * 0x80_0000
  {
    hide Pow2;
    exponent, mantissa := bits / 1024 % 32, bits % 1024;
    ghost var m := mantissa;
    assert bits % 0x8000 == 1024 * exponent + mantissa;
    if exponent == 0 {
      if mantissa == 0 { return; }
      exponent, mantissa := ShiftUp(mantissa);
      SubnormalAgrees(m, exponent, mantissa);
      mantissa := mantissa - 1024;
    } else if exponent == 31 {
      exponent := 255;
    } else {
      NormalAgrees(exponent, mantissa);
      exponent := exponent + 112;
    }
  }

  /** The loop that brings the leading bit of a subnormal fraction to place 10. */
  method ShiftUp(fraction: nat) returns (exponent: nat, mantissa: nat)
    requires 0 < fraction < 1024
    ensures 103 <= exponent <= 113 && 1024 <= mantissa < 2048 && mantissa == fraction * Pow2(113 - exponent)
  {
    exponent, mantissa := 113, fraction;
    while mantissa < 1024
      invariant 103 <= exponent <= 113 && 0 < mantissa < 2048 && mantissa == fraction * Pow2(113 - exponent)
      decreases 1024 - mantissa
    {
      StillShort(fraction, 113 - exponent);
      mantissa := mantissa * 2;
      exponent := exponent - 1;
    }
  }

  /** Fewer than ten shifts while the leading bit is not reached. */
  lemma StillShort(m: nat, k: nat)
    requires m > 0 && k <= 10 && m * Pow2(k) < 1024
    ensures k < 10 && m * Pow2(k + 1) == m * Pow2(k) * 2
  {
    if k == 10 {
      TenBits();
    }
  }

  // ----- products that need no rounding -----

  /** Eleven significant bits. */
  lemma HalfSignificand(bits: nat) returns (m: nat, k: nat)
    requires bits < 0x10000 && bits / 1024 % 32 != 31
    ensures HalfUnits(bits) == m * Pow2(k) && m < 2048 && k <= 29
  {
    var e := bits / 1024 % 32;
    m, k := if e == 0 then bits % 1024 else 1024 + bits % 1024, if e == 0 then 0 else e - 1;
    assert Pow2(0) == 1;
  }

  lemma TwentyFourBits(m: nat, n: nat)
    requires m < 2048 && n <= 8192
    ensures m * n < SIGNIFICAND
  {
    ScalesUp(n, m, 2047);
  }

  /** Thirteen more fit. */
  lemma SmallMultiple(bits: nat, n: int)
    requires bits < 0x10000 && bits / 1024 % 32 != 31 && Abs(n) <= 8192
    ensures Packed(HalfValue(bits) * n) == Finite(HalfValue(bits) * n)
    ensures Abs(HalfValue(bits) * n) < Pow2(178)
  {
    hide Pow2, HalfUnits, HalfValue, Packed;
    var m, k := HalfSignificand(bits);
    Pow2Adds(k, 125);
    MagnitudeOf(bits, n, m, k);
    TwentyFourBits(m, Abs(n));
    PlacedIsExact(HalfValue(bits) * n, m * Abs(n), k + 125);
  }

  /** A number of 24 significant bits in the range of the halves is a single. */
  lemma PlacedIsExact(u: int, c: nat, k: nat)
    requires c < SIGNIFICAND && k <= 154 && Abs(u) == c * Pow2(k)
    ensures Packed(u) == Finite(u) && Abs(u) < Pow2(178)
  {
    hide Pow2, Rounded, FitsAt;
    AtPlace(c, k);
    assert Representable(u);
    RoundedIsExact(u);
    SmallProduct(c, k);
    BelowPlace(c, k);
  }

  lemma AtPlace(c: nat, k: nat)
    requires c < SIGNIFICAND
    ensures FitsAt(c * Pow2(k), k)
  {
    hide Pow2;
    MultipleDivides(c, Pow2(k));
  }

  lemma BelowPlace(c: nat, k: nat)
    requires c < SIGNIFICAND && k <= 154
    ensures c * Pow2(k) < Pow2(178)
  {
    hide Pow2;
    SignificandIs();
    var p := Pow2(k);
    Pow2Adds(24, k);
    Pow2Grows(24 + k, 178);
    ScalesUp(p, c + 1, SIGNIFICAND);
    assert (c + 1) * p == c * p + p;
  }

  lemma MagnitudeOf(bits: nat, n: int, m: nat, k: nat)
    requires bits < 0x10000 && bits / 1024 % 32 != 31 && HalfUnits(bits) == m * Pow2(k)
    requires Pow2(k + 125) == Pow2(k) * Pow2(125)
    ensures Abs(HalfValue(bits) * n) == m * Abs(n) * Pow2(k + 125)
  {
    hide Pow2, HalfUnits;
    var a, b, p := Pow2(k), Pow2(125), Abs(n);
    assert Abs(HalfValue(bits) * n) == m * a * b * p;
    assert m * a * b * p == m * p * (a * b);
  }

  /** Two products in a row are exact as long as the factors together are no more than 8192. */
  lemma ProductIsExact(bits: nat, s: int, q: int)
    requires bits < 0x10000 && Abs(s) <= 8192 && Abs(s * q) <= 8192
    ensures Times(Times(FromHalf(bits), s), q)
         == if FromHalf(bits).NonFinite? then NonFinite else Finite(HalfValue(bits) * s * q)
  {
    hide HalfValue, Packed;
    if FromHalf(bits).Finite? {
      var v := HalfValue(bits);
      SmallMultiple(bits, s);
      SmallMultiple(bits, s * q);
      Regroup(v, s, q);
    }
  }

  lemma Regroup(v: int, s: int, q: int)
    ensures v * (s * q) == v * s * q
  {}
}
