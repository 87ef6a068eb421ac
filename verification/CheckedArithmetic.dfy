/** Overflow-checked unsigned arithmetic (src/governor/checked_arithmetic.cpp).

    The bodies follow the guards of the source; the contracts say what the guards
    achieve over the unbounded integers. */
module CheckedArithmetic {

  const U64_MAX: nat := 0xFFFF_FFFF_FFFF_FFFF
  const U32_MAX: nat := 0xFFFF_FFFF
  const BASIS_POINTS: nat := 10_000

  type u64 = n: nat | n <= U64_MAX
  type u32 = n: nat | n <= U32_MAX
  type u16 = n: nat | n < 0x10000
  type u8 = n: nat | n < 256
  /** A byte taken apart bit by bit. */
  type Byte = bv8

  datatype Option<+T> = None | Some(value: T)

  datatype Rounding = Down | Up

  function CheckedAdd(left: u64, right: u64): (r: Option<u64>)
    ensures r.Some? <==> left + right <= U64_MAX
    ensures r.Some? ==> r.value == left + right
  {
    if left > U64_MAX - right then None else Some(left + right)
  }

  /** `b > m / a` is the overflow test for `a * b > m`. */
  lemma QuotientTestIsExact(a: nat, b: nat, m: nat)
    requires a != 0
    ensures b > m / a <==> a * b > m
  {
    var q := m / a;
    assert m == a * q + m % a;
    if b > q {
      assert a * b >= a * (q + 1) by { MulMonotone(a, q + 1, b); }
    } else {
      assert a * b <= a * q by { MulMonotone(a, b, q); }
    }
  }

  lemma MulMonotone(a: nat, x: nat, y: nat)
    requires x <= y
    ensures a * x <= a * y
  {
    assert a * y == a * x + a * (y - x);
  }

  function CheckedMultiply(left: u64, right: u64): (r: Option<u64>)
    ensures r.Some? <==> left * right <= U64_MAX
    ensures r.Some? ==> r.value == left * right
  {
    if left == 0 then Some(0)
    else
      QuotientTestIsExact(left, right, U64_MAX);
      if right > U64_MAX / left then None else Some(left * right)
  }

  /** The rounded-up quotient is the least `q` with `q * denominator >= numerator`. */
  function CheckedCeilDivide(numerator: u64, denominator: u64): (r: Option<u64>)
    ensures r.Some? <==> denominator != 0
    ensures r.Some? ==> r.value * denominator >= numerator
    ensures r.Some? && r.value > 0 ==> (r.value - 1) * denominator < numerator
  {
    if denominator == 0 then None
    else
      var quotient := numerator / denominator;
      assert numerator == quotient * denominator + numerator % denominator;
      CeilQuotientFits(numerator, denominator);
      if numerator % denominator == 0 then
        Some(quotient)
      else
        CheckedAdd(quotient, 1)
  }

  lemma CeilQuotientFits(n: u64, d: nat)
    requires d != 0
    ensures n / d <= n && (n % d != 0 ==> n / d + 1 <= U64_MAX)
  {
    var q := n / d;
    assert n == d * q + n % d;
    assert d * q >= q by { MulMonotone(q, 1, d); }
  }

  /** value * bp / 10000, rounded down or up, without a wide intermediate product.
      For every ratio up to 100% the result is the exact floor or ceiling. */
  function CheckedBasisPoints(value: u64, basisPoints: u32, rounding: Rounding): (r: Option<u64>)
    ensures r.Some? <==> basisPoints <= BASIS_POINTS
    ensures r.Some? && rounding.Down? ==> r.value == FloorRatio(value, basisPoints)
    ensures r.Some? && rounding.Up? ==> r.value == CeilRatio(value, basisPoints)
  {
    if basisPoints > BASIS_POINTS then None
    else
      var quotient := value / BASIS_POINTS;
      var remainder := value % BASIS_POINTS;
      SplitProduct(value, basisPoints);
      var base := CheckedMultiply(quotient, basisPoints);
      var remainderProduct := CheckedMultiply(remainder, basisPoints);
      if base.None? || remainderProduct.None? then None
      else
        var remainderQuotient := remainderProduct.value / BASIS_POINTS;
        var roundUp := rounding.Up? && remainderProduct.value % BASIS_POINTS != 0;
        var extra := CheckedAdd(remainderQuotient, if roundUp then 1 else 0);
        if extra.None? then None else CheckedAdd(base.value, extra.value)
  }

  /** Mathematical floor and ceiling of value * bp / 10000, over unbounded integers. */
  function FloorRatio(value: nat, bp: nat): nat { value * bp / BASIS_POINTS }

  function CeilRatio(value: nat, bp: nat): nat { (value * bp + (BASIS_POINTS - 1)) / BASIS_POINTS }

  lemma SplitProduct(value: u64, bp: nat)
    requires bp <= BASIS_POINTS
    ensures var q, r := value / BASIS_POINTS, value % BASIS_POINTS;
      && value * bp == BASIS_POINTS * (q * bp) + r * bp
      && q * bp <= value && r * bp < BASIS_POINTS * BASIS_POINTS
      && q * bp + r * bp / BASIS_POINTS == FloorRatio(value, bp)
      && FloorRatio(value, bp) <= value
      && q * bp + r * bp / BASIS_POINTS + (if r * bp % BASIS_POINTS != 0 then 1 else 0) == CeilRatio(value, bp)
      && CeilRatio(value, bp) <= value
  {
    var q, r := value / BASIS_POINTS, value % BASIS_POINTS;
    assert value == q * BASIS_POINTS + r;
    assert value * bp == (q * BASIS_POINTS) * bp + r * bp;
    assert (q * BASIS_POINTS) * bp == BASIS_POINTS * (q * bp);
    assert q * bp <= q * BASIS_POINTS by { MulMonotone(q, bp, BASIS_POINTS); }
    assert r * bp <= r * BASIS_POINTS by { MulMonotone(r, bp, BASIS_POINTS); }
    var x, y := q * bp, r * bp;
    assert (BASIS_POINTS * x + y) / BASIS_POINTS == x + y / BASIS_POINTS;
  }
}
