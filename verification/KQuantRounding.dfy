/** Which of the decoders' single-precision operations round: none of Q6_K's, and of Q4_K's only the
    last. So fusing a product with the subtraction that follows it would change nothing. */
module KQuantRounding {
  import opened CheckedArithmetic
  import opened GgufBits
  import opened SinglePrecision
  import opened HalfFloat
  import opened KQuant
  import opened KQuantSix

  // ----- Q6_K -----

  /** The product over the integers. */
  function Q6Exact(b: Q6Block, p: nat): int
    requires Q6Valid(b) && p < 256 && FromHalf(b.delta).Finite?
  {
    HalfValue(b.delta) * b.scales[p / 16] * Q6Quant(b, p)
  }

  lemma SignedProduct(s: int, q: int, a: nat, c: nat)
    requires Abs(s) <= a && Abs(q) <= c
    ensures Abs(s * q) <= a * c
  {
    assert Abs(s * q) == Abs(s) * Abs(q);
    ScalesUp(Abs(q), Abs(s), a);
    ScalesUp(a, Abs(q), c);
  }

  /** Every decoded value is the exact product, or not finite if the block's factor is not. */
  lemma Q6NeedsNoRounding(b: Q6Block, p: nat)
    requires Q6Valid(b) && p < 256
    ensures Q6At(b, p) == if FromHalf(b.delta).Finite? then Finite(Q6Exact(b, p)) else NonFinite
  {
    QuantFits(p % 128 / 32, b.low[p / 128 * 64 + p % 64], b.high[p / 128 * 32 + p % 32]);
    var s, q := b.scales[p / 16], Q6Quant(b, p);
    hide Q6Quant, HalfValue, Times;
    SignedProduct(s, q, 128, 32);
    ProductIsExact(b.delta, s, q);
  }

  // ----- Q4_K -----

  function Q4Quant(b: Q4Block, p: nat): Byte
    requires Q4Valid(b) && p < 256
  {
    var packed := b.quants[p / 32 / 2 * 32 + p % 32];
    if p / 32 % 2 != 0 then packed >> 4 else packed & 0x0F
  }

  predicate BothFinite(b: Q4Block) { FromHalf(b.delta).Finite? && FromHalf(b.minimum).Finite? }

  /** The value over the integers. */
  function Q4Exact(b: Q4Block, p: nat): int
    requires Q4Valid(b) && p < 256 && BothFinite(b)
  {
    var (scale, minimum) := ScaleAndMinimum(b.scales, p / 32);
    HalfValue(b.delta) * (scale as int) * (Q4Quant(b, p) as int) - HalfValue(b.minimum) * (minimum as int)
  }

  lemma ByteBelow(x: Byte, y: Byte)
    requires x < y
    ensures 0 <= x as int < y as int
  {}

  lemma FactorsAreSmall(b: Q4Block, p: nat)
    requires Q4Valid(b) && p < 256
    ensures var (scale, minimum) := ScaleAndMinimum(b.scales, p / 32);
      0 <= scale as int < 64 && 0 <= minimum as int < 64 && 0 <= Q4Quant(b, p) as int < 16
  {
    var k := p / 32;
    var (scale, minimum) := ScaleAndMinimum(b.scales, k);
    var quant := Q4Quant(b, p);
    assert quant < 16;
    assert scale < 64 && minimum < 64 by {
      FieldsMake(b.scales[k % 4], b.scales[k % 4 + 8]);
      FieldsMake(b.scales[k % 4 + 4], b.scales[k % 4 + 8]);
    }
    hide ScaleAndMinimum, Q4Quant;
    ByteBelow(scale, 64);
    ByteBelow(minimum, 64);
    ByteBelow(quant, 16);
  }

  /** Rounding does not pass a power of two. */
  lemma RoundedBelow(u: int, k: nat)
    requires Abs(u) <= Pow2(k)
    ensures Abs(Rounded(u)) <= Pow2(k)
  {
    var p: int := Pow2(k);
    MultipleDivides(1, p);
    assert FitsAt(Abs(p), k) && FitsAt(Abs(-p), k);
    hide Rounded, FitsAt, Pow2;
    RoundedIsNearest(u, p);
    RoundedIsNearest(u, -p);
  }

  /** The last subtraction stays finite. */
  lemma DifferenceIsRounded(x: int, y: int)
    requires Abs(x) < Pow2(178) && Abs(y) < Pow2(178)
    ensures Packed(x - y) == Finite(Rounded(x - y))
  {
    hide Pow2, Rounded;
    Doubles(178);
    Doubles(179);
    RoundedBelow(x - y, 179);
    Pow2Grows(180, 277);
  }

  lemma Doubles(k: nat)
    ensures Pow2(k + 1) == 2 * Pow2(k) > Pow2(k)
  {}

  /** Every decoded value is the exact one rounded once, so it is exact if and only if that one has at
      most 24 significant bits. */
  lemma Q4RoundsOnce(b: Q4Block, p: nat)
    requires Q4Valid(b) && p < 256
    ensures !BothFinite(b) ==> Q4At(b, p) == NonFinite
    ensures BothFinite(b) ==>
      && Q4At(b, p) == Finite(Rounded(Q4Exact(b, p)))
      && (Q4At(b, p) == Finite(Q4Exact(b, p)) <==> Representable(Q4Exact(b, p)))
  {
    var (scale, minimum) := ScaleAndMinimum(b.scales, p / 32);
    var s, m, q := scale as int, minimum as int, Q4Quant(b, p) as int;
    FactorsAreSmall(b, p);
    Terms(b, p, s, m, q);
    hide ScaleAndMinimum, Q4At, Q4Quant, HalfValue, Times, Minus, Rounded, Representable;
    if BothFinite(b) {
      hide FromHalf;
      OneRounding(b.delta, b.minimum, s, m, q);
      RoundedIsExact(Q4Exact(b, p));
    }
  }

  /** Products exact, difference rounded. */
  lemma OneRounding(delta: u16, minimum: u16, s: int, m: int, q: int)
    requires FromHalf(delta).Finite? && FromHalf(minimum).Finite? && 0 <= s < 64 && 0 <= m < 64 && 0 <= q < 16
    ensures Minus(Times(Times(FromHalf(delta), s), q), Times(FromHalf(minimum), m))
         == Finite(Rounded(HalfValue(delta) * s * q - HalfValue(minimum) * m))
  {
    hide HalfValue, Times, Minus, Packed, Rounded, Pow2, FromHalf;
    var x := ScaledTwice(delta, s, q);
    var y := ScaledOnce(minimum, m);
    MinusRounds(Times(Times(FromHalf(delta), s), q), Times(FromHalf(minimum), m), x, y);
  }

  lemma ScaledTwice(bits: u16, s: int, q: int) returns (x: int)
    requires FromHalf(bits).Finite? && 0 <= s < 64 && 0 <= q < 16
    ensures x == HalfValue(bits) * s * q && Abs(x) < Pow2(178) && Times(Times(FromHalf(bits), s), q) == Finite(x)
  {
    hide HalfValue, Times, Pow2;
    x := HalfValue(bits) * s * q;
    SignedProduct(s, q, 64, 16);
    ProductIsExact(bits, s, q);
    RangeOf(bits, s, q);
  }

  lemma ScaledOnce(bits: u16, n: int) returns (y: int)
    requires FromHalf(bits).Finite? && 0 <= n < 64
    ensures y == HalfValue(bits) * n && Abs(y) < Pow2(178) && Times(FromHalf(bits), n) == Finite(y)
  {
    hide HalfValue, Times, Pow2, Packed;
    y := HalfValue(bits) * n;
    OneProduct(bits, n);
    SmallMultiple(bits, n);
  }

  lemma MinusRounds(a: Single, b: Single, x: int, y: int)
    requires a == Finite(x) && b == Finite(y) && Abs(x) < Pow2(178) && Abs(y) < Pow2(178)
    ensures Minus(a, b) == Finite(Rounded(x - y))
  {
    hide Packed, Rounded, Pow2;
    DifferenceIsRounded(x, y);
  }

  /** The operations of one value. */
  lemma Terms(b: Q4Block, p: nat, s: int, m: int, q: int)
    requires Q4Valid(b) && p < 256 && q == Q4Quant(b, p) as int
    requires s == ScaleAndMinimum(b.scales, p / 32).0 as int && m == ScaleAndMinimum(b.scales, p / 32).1 as int
    ensures Q4At(b, p) == Minus(Times(Times(FromHalf(b.delta), s), q), Times(FromHalf(b.minimum), m))
    ensures !BothFinite(b) ==> Q4At(b, p) == NonFinite
  {
    hide ScaleAndMinimum, FromHalf, Packed;
  }

  lemma OneProduct(bits: u16, n: int)
    requires Abs(n) <= 8192
    ensures FromHalf(bits).Finite? ==> Times(FromHalf(bits), n) == Finite(HalfValue(bits) * n)
  {
    hide HalfValue, Packed;
    if FromHalf(bits).Finite? { SmallMultiple(bits, n); }
  }

  lemma RangeOf(bits: u16, s: int, q: int)
    requires FromHalf(bits).Finite? && Abs(s * q) <= 8192
    ensures Abs(HalfValue(bits) * s * q) < Pow2(178)
  {
    hide HalfValue, Pow2;
    SmallMultiple(bits, s * q);
    Regroup(HalfValue(bits), s, q);
  }

  // ----- and it does round -----

  /** One times three, less the smallest half. */
  function RoundingBlock(): (b: Q4Block)
    ensures Q4Valid(b)
  {
    Q4Block(0x3C00, 1, seq(12, i => if i == 0 then 3 else if i == 4 then 1 else 0), seq(128, i => 1))
  }

  lemma OddNeedsItsBits(n: nat, k: nat)
    requires n % 2 == 1 && n >= SIGNIFICAND
    ensures !Representable(n * Pow2(k))
  {
    hide Pow2;
    var u := n * Pow2(k);
    forall j: nat ensures !FitsAt(u, j) {
      if FitsAt(u, j) { OddAt(n, k, j); }
    }
  }

  lemma OddAt(n: nat, k: nat, j: nat)
    requires n % 2 == 1 && FitsAt(n * Pow2(k), j)
    ensures n < SIGNIFICAND
  {
    MultipleDivides(n, Pow2(k));
    if j <= k {
      SmallerDivides(n * Pow2(k), j, k);
      ScalesUp(n, 1, Pow2(k - j));
    } else {
      SmallerDivides(n * Pow2(k), k + 1, j);
      assert Pow2(k + 1) == 2 * Pow2(k);
      NotTwice(n, Pow2(k));
    }
  }

  lemma NotTwice(n: nat, p: nat)
    requires n % 2 == 1 && p >= 1
    ensures n * p % (2 * p) != 0
  {
    assert n * p == n / 2 * (2 * p) + p by { assert n == 2 * (n / 2) + 1; }
    DivisionIsUnique(n * p, 2 * p, n / 2, p);
  }

  lemma OneAndTiny()
    ensures HalfValue(0x3C00) == SIGNIFICAND * Pow2(125) && HalfValue(1) == Pow2(125)
  {
    hide Pow2;
    FourteenBits();
    assert HalfUnits(0x3C00) == 1024 * Pow2(14) && HalfUnits(1) == 1;
    hide HalfUnits;
  }

  lemma FourteenBits()
    ensures Pow2(14) == 16384
  {
    TenBits();
    assert Pow2(12) == 4 * Pow2(10);
  }

  /** A block whose first value is rounded. */
  lemma Q4CanRound()
    ensures BothFinite(RoundingBlock()) && Q4At(RoundingBlock(), 0) != Finite(Q4Exact(RoundingBlock(), 0))
  {
    var b := RoundingBlock();
    FactorsOfIt();
    hide Pow2, HalfValue, ScaleAndMinimum, Q4Quant, Rounded, Q4At, Representable;
    OneAndTiny();
    var n := 3 * SIGNIFICAND - 1;
    assert Q4Exact(b, 0) == n * Pow2(125);
    hide RoundingBlock, Q4Exact, BothFinite;
    OddNeedsItsBits(n, 125);
    Q4RoundsOnce(b, 0);
  }

  lemma FactorsOfIt()
    ensures var b := RoundingBlock();
      && ScaleAndMinimum(b.scales, 0).0 as int == 3 && ScaleAndMinimum(b.scales, 0).1 as int == 1
      && Q4Quant(b, 0) as int == 1 && BothFinite(b)
  {
    assert ScaleAndMinimum(RoundingBlock().scales, 0) == (3, 1) && Q4Quant(RoundingBlock(), 0) == 1;
    hide HalfValue;
  }
}
