/** Single precision, section 3.4 of IEEE 754: which numbers the patterns mean, and rounding to the
    nearest of them. Every finite single is a whole number of units of 2^-149. Infinities and NaN are
    one value: products with them and differences of them are never finite. The sign of a zero is
    not kept. */
module SinglePrecision {
  import opened GgufBits

  const SIGNIFICAND: nat := 0x100_0000   // 2^24

  datatype Single = Finite(units: int) | NonFinite

  function Signed(negative: bool, n: int): int { if negative then -n else n }

  function Abs(u: int): nat { if u < 0 then -u else u }

  /** The number a pattern stands for. */
  function Meaning(pattern: nat): Single
    requires pattern < 0x1_0000_0000
  {
    var e, f := pattern / 0x80_0000 % 256, pattern % 0x80_0000;
    if e == 255 then NonFinite
    else Finite(Signed(pattern / 0x8000_0000 == 1, Magnitude(e, f)))
  }

  function Magnitude(e: nat, f: nat): nat { if e == 0 then f else (0x80_0000 + f) * Pow2(e - 1) }

  /** At most 24 significant bits, `k` places up. */
  predicate FitsAt(n: nat, k: nat) { n % Pow2(k) == 0 && n / Pow2(k) < SIGNIFICAND }

  ghost predicate Representable(u: int) { exists k: nat :: FitsAt(Abs(u), k) }

  // ----- rounding -----

  /** How many bits are too many. */
  function Excess(n: nat): nat { if n < SIGNIFICAND then 0 else 1 + Excess(n / 2) }

  /** The nearest multiple of `p`, of two equally near the even one. */
  function Nearest(n: nat, p: nat): nat
    requires p >= 1
  {
    var q, r := n / p, n % p;
    if 2 * r < p || (2 * r == p && q % 2 == 0) then q * p else (q + 1) * p
  }

  function Rounded(u: int): int { Signed(u < 0, Nearest(Abs(u), Pow2(Excess(Abs(u))))) }

  /** A result as a single: 2^128 and more is infinite. */
  function Packed(u: int): Single { if Abs(Rounded(u)) >= Pow2(277) then NonFinite else Finite(Rounded(u)) }

  /** The product with a small whole number, which is itself a single. */
  function Times(x: Single, n: int): Single { if x.NonFinite? then NonFinite else Packed(x.units * n) }

  function Minus(x: Single, y: Single): Single {
    if x.NonFinite? || y.NonFinite? then NonFinite else Packed(x.units - y.units)
  }

  // ----- powers of two -----

  lemma {:induction false} Pow2Adds(a: nat, b: nat)
    ensures Pow2(a + b) == Pow2(a) * Pow2(b)
    decreases b
  {
    if b > 0 { Pow2Adds(a, b - 1); }
  }

  lemma TenBits()
    ensures Pow2(10) == 1024
  {
    assert Pow2(3) == 8 && Pow2(5) == 4 * Pow2(3) && Pow2(7) == 4 * Pow2(5) && Pow2(9) == 4 * Pow2(7);
  }

  lemma SignificandIs()
    ensures Pow2(23) == 0x80_0000 && Pow2(24) == SIGNIFICAND
  {
    TenBits();
    Pow2Adds(10, 10);
    assert Pow2(22) == 4 * Pow2(20) && Pow2(24) == 4 * Pow2(22) && Pow2(24) == 2 * Pow2(23);
  }

  lemma Pow2Grows(a: nat, b: nat)
    requires a <= b
    ensures Pow2(a) <= Pow2(b)
  {
    Pow2Adds(a, b - a);
    ScalesUp(Pow2(a), 1, Pow2(b - a));
  }

  lemma ScalesUp(p: nat, a: nat, b: nat)
    requires a <= b
    ensures a * p <= b * p && p * a <= p * b
  {}

  lemma DivisionNests(n: nat, p: nat)
    requires p >= 1
    ensures n / (2 * p) == n / 2 / p
  {
    var q, r := n / 2 / p, n / 2 % p;
    assert n / 2 == q * p + r;
    assert q * (2 * p) == 2 * (q * p);
    DivisionIsUnique(n, 2 * p, q, 2 * r + n % 2);
  }

  lemma MultipleDivides(m: nat, p: nat)
    requires p >= 1
    ensures m * p % p == 0 && m * p / p == m
  {
    DivisionIsUnique(m * p, p, m, 0);
  }

  /** A multiple of a power is one of every smaller power. */
  lemma SmallerDivides(n: nat, j: nat, k: nat)
    requires j <= k && n % Pow2(k) == 0
    ensures n % Pow2(j) == 0 && n / Pow2(j) == n / Pow2(k) * Pow2(k - j)
  {
    var m := n / Pow2(k);
    Pow2Adds(k - j, j);
    assert n == m * Pow2(k);
    assert m * (Pow2(k - j) * Pow2(j)) == m * Pow2(k - j) * Pow2(j);
    MultipleDivides(m * Pow2(k - j), Pow2(j));
  }

  // ----- what rounding does -----

  lemma {:induction false} ExcessFits(n: nat)
    ensures var k := Excess(n);
      n / Pow2(k) < SIGNIFICAND && (k > 0 ==> SIGNIFICAND <= 2 * (n / Pow2(k)))
  {
    if n >= SIGNIFICAND {
      var k := Excess(n / 2);
      ExcessFits(n / 2);
      DivisionNests(n, Pow2(k));
      if k == 0 { assert Pow2(0) == 1; }
    }
  }

  lemma {:induction false} FewerIsTooLong(n: nat, j: nat)
    requires j < Excess(n)
    ensures n / Pow2(j) >= SIGNIFICAND
  {
    if j > 0 {
      FewerIsTooLong(n / 2, j - 1);
      DivisionNests(n, Pow2(j - 1));
    } else {
      assert Pow2(0) == 1;
    }
  }

  /** A representable number needs no rounding. */
  lemma FittingIsWhole(n: nat, k: nat)
    requires FitsAt(n, k)
    ensures n % Pow2(Excess(n)) == 0
  {
    if k < Excess(n) {
      FewerIsTooLong(n, k);
    } else {
      SmallerDivides(n, Excess(n), k);
    }
  }

  lemma WholeIsNearest(n: nat, p: nat)
    requires p >= 1 && n % p == 0
    ensures Nearest(n, p) == n
  {}

  /** What comes out of rounding has at most 24 significant bits. */
  lemma NearestFits(n: nat) returns (k: nat)
    ensures FitsAt(Nearest(n, Pow2(Excess(n))), k)
  {
    var e := Excess(n);
    var p, q := Pow2(e), n / Pow2(e);
    ExcessFits(n);
    MultipleDivides(q, p);
    MultipleDivides(q + 1, p);
    if Nearest(n, p) == q * p || q + 1 < SIGNIFICAND {
      k := e;
    } else {
      k := e + 1;
      assert (q + 1) * p == 0x80_0000 * Pow2(k);
      MultipleDivides(0x80_0000, Pow2(k));
    }
  }

  /** Rounding leaves a number alone if and only if it is representable, and what it gives is. */
  lemma RoundedIsExact(u: int)
    ensures Representable(Rounded(u))
    ensures Rounded(u) == u <==> Representable(u)
  {
    var n := Abs(u);
    var k := NearestFits(n);
    assert FitsAt(Abs(Rounded(u)), k);
    if Representable(u) {
      var j: nat :| FitsAt(n, j);
      FittingIsWhole(n, j);
      WholeIsNearest(n, Pow2(Excess(n)));
    }
  }

  /** Longer numbers lack no fewer bits. */
  lemma {:induction false} ExcessGrows(m: nat, n: nat)
    requires m <= n
    ensures Excess(m) <= Excess(n)
  {
    if m >= SIGNIFICAND { ExcessGrows(m / 2, n / 2); }
  }

  lemma {:induction false} ExcessOfScaled(m: nat, k: nat)
    requires m >= 0x80_0000
    ensures Excess(m * Pow2(k)) >= k
    decreases k
  {
    if k > 0 {
      ExcessOfScaled(m, k - 1);
      var n := m * Pow2(k - 1);
      assert m * Pow2(k) == 2 * n;
      assert n >= 0x80_0000 by { ScalesUp(m, 1, Pow2(k - 1)); }
    }
  }

  /** No representable number lies between neighbouring multiples. */
  lemma NoneBetween(n: nat, r: nat, k: nat)
    requires FitsAt(r, k)
    ensures var p := Pow2(Excess(n)); r <= n / p * p || n / p * p + p <= r
  {
    var e := Excess(n);
    var p, q := Pow2(e), n / Pow2(e);
    if q * p < r < q * p + p {
      ExcessFits(n);
      FittingIsWhole(r, k);
      if e > 0 {
        ExcessOfScaled(q, e);
        ExcessGrows(q * p, r);
        SmallerDivides(r, e, Excess(r));
      }
      DivisionIsUnique(r, p, q, r - q * p);
    }
  }

  lemma NearestIsNear(n: nat, p: nat, r: nat)
    requires p >= 1 && (r <= n / p * p || n / p * p + p <= r)
    ensures Abs(Nearest(n, p) - n) <= Abs(r - n)
  {
    assert n == n / p * p + n % p;
    assert (n / p + 1) * p == n / p * p + p;
  }

  /** No representable number is nearer than the rounded one. */
  lemma RoundedIsNearest(u: int, r: int)
    requires Representable(r)
    ensures Abs(Rounded(u) - u) <= Abs(r - u)
  {
    var n, p := Abs(u), Pow2(Excess(Abs(u)));
    var k: nat :| FitsAt(Abs(r), k);
    NoneBetween(n, Abs(r), k);
    hide Nearest, Excess;
    NearestIsNear(n, p, Abs(r));
  }

  // ----- the patterns mean exactly the representable numbers below 2^128 -----

  /** Sign, exponent and fraction of a pattern put together from its fields. */
  lemma FieldsComeApart(sign: nat, e: nat, f: nat)
    requires sign < 2 && e < 256 && f < 0x80_0000
    ensures var x := sign * 0x8000_0000 + e * 0x80_0000 + f;
      x < 0x1_0000_0000 && x / 0x8000_0000 == sign && x / 0x80_0000 % 256 == e && x % 0x80_0000 == f
  {}

  lemma PatternIsRepresentable(pattern: nat)
    requires pattern < 0x1_0000_0000 && Meaning(pattern).Finite?
    ensures Representable(Meaning(pattern).units) && Abs(Meaning(pattern).units) < Pow2(277)
  {
    hide Pow2, Meaning;
    var m, k := SignificandOf(pattern);
    MultipleDivides(m, Pow2(k));
    assert FitsAt(Abs(Meaning(pattern).units), k);
    SmallProduct(m, k);
  }

  lemma SignificandOf(pattern: nat) returns (m: nat, k: nat)
    requires pattern < 0x1_0000_0000 && Meaning(pattern).Finite?
    ensures Abs(Meaning(pattern).units) == m * Pow2(k) && m < SIGNIFICAND && k <= 253
  {
    hide Magnitude, Pow2;
    m, k := MagnitudeParts(pattern / 0x80_0000 % 256, pattern % 0x80_0000);
  }

  lemma MagnitudeParts(e: nat, f: nat) returns (m: nat, k: nat)
    requires e < 255 && f < 0x80_0000
    ensures Magnitude(e, f) == m * Pow2(k) && m < SIGNIFICAND && k <= 253
  {
    if e == 0 {
      m, k := f, 0;
      assert Pow2(0) == 1;
    } else {
      m, k := 0x80_0000 + f, e - 1;
    }
  }

  lemma SmallProduct(m: nat, k: nat)
    requires m < SIGNIFICAND && k <= 253
    ensures m * Pow2(k) < Pow2(277)
  {
    hide Pow2;
    SignificandIs();
    var p := Pow2(k);
    Pow2Adds(24, k);
    Pow2Grows(24 + k, 277);
    ScalesUp(p, m + 1, SIGNIFICAND);
    assert (m + 1) * p == m * p + p;
  }

  lemma NormalPattern(negative: bool, m: nat, k: nat) returns (pattern: nat)
    requires 0x80_0000 <= m < SIGNIFICAND && k < 254
    ensures pattern < 0x1_0000_0000 && Meaning(pattern) == Finite(Signed(negative, m * Pow2(k)))
  {
    hide Pow2;
    var sign := if negative then 1 else 0;
    FieldsComeApart(sign, k + 1, m - 0x80_0000);
    pattern := sign * 0x8000_0000 + (k + 1) * 0x80_0000 + (m - 0x80_0000);
  }

  lemma SmallPattern(u: int) returns (pattern: nat)
    requires Abs(u) < 0x80_0000
    ensures pattern < 0x1_0000_0000 && Meaning(pattern) == Finite(u)
  {
    hide Pow2;
    var sign := if u < 0 then 1 else 0;
    FieldsComeApart(sign, 0, Abs(u));
    pattern := sign * 0x8000_0000 + Abs(u);
  }

  /** A long number with its leading bit in place. */
  lemma Normalised(n: nat, j: nat) returns (m: nat, k: nat)
    requires FitsAt(n, j) && n >= 0x80_0000
    ensures n == m * Pow2(k) && 0x80_0000 <= m < SIGNIFICAND
  {
    FittingIsWhole(n, j);
    ExcessFits(n);
    k := Excess(n);
    m := n / Pow2(k);
    assert k == 0 ==> Pow2(k) == 1;
  }

  lemma RepresentableHasPattern(u: int) returns (pattern: nat)
    requires Representable(u) && Abs(u) < Pow2(277)
    ensures pattern < 0x1_0000_0000 && Meaning(pattern) == Finite(u)
  {
    hide Pow2, Meaning, FitsAt;
    if Abs(u) < 0x80_0000 {
      pattern := SmallPattern(u);
    } else {
      var j: nat :| FitsAt(Abs(u), j);
      var m, k := Normalised(Abs(u), j);
      ExponentFits(m, k);
      pattern := NormalPattern(u < 0, m, k);
    }
  }

  lemma ExponentFits(m: nat, k: nat)
    requires m >= 0x80_0000 && m * Pow2(k) < Pow2(277)
    ensures k < 254
  {
    if k >= 254 {
      hide Pow2;
      SignificandIs();
      Pow2Adds(23, k);
      Pow2Grows(277, 23 + k);
      ScalesUp(Pow2(k), 0x80_0000, m);
    }
  }
}
