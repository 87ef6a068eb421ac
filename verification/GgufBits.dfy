/** Python's & and & ~ on non-negative integers, and what they say about powers of two. */
module GgufBits {

  function And(x: nat, y: nat): nat {
    if x == 0 || y == 0 then 0 else 2 * And(x / 2, y / 2) + (if x % 2 == 1 && y % 2 == 1 then 1 else 0)
  }

  /** x & ~y */
  function AndNot(x: nat, y: nat): nat {
    if x == 0 then 0 else 2 * AndNot(x / 2, y / 2) + (if x % 2 == 1 && y % 2 == 0 then 1 else 0)
  }

  function Pow2(k: nat): (r: nat)
    ensures r >= 1
  {
    if k == 0 then 1 else 2 * Pow2(k - 1)
  }

  ghost predicate PowerOfTwo(a: nat) { exists k: nat :: a == Pow2(k) }

  lemma {:induction false} AndSelf(x: nat)
    ensures And(x, x) == x
  {
    if x > 0 { AndSelf(x / 2); }
  }

  /** The test `a & (a - 1)` is the test for a power of two. */
  lemma {:induction false} PowerOfTwoTest(a: nat)
    requires a >= 1
    ensures And(a, a - 1) == 0 <==> PowerOfTwo(a)
    decreases a
  {
    if a == 1 {
      assert Pow2(0) == 1;
    } else if a % 2 == 0 {
      PowerOfTwoTest(a / 2);
      assert (a - 1) / 2 == a / 2 - 1;
      if PowerOfTwo(a / 2) {
        var k: nat :| a / 2 == Pow2(k);
        assert a == Pow2(k + 1);
      }
      if PowerOfTwo(a) {
        var k: nat :| a == Pow2(k);
        assert a / 2 == Pow2(k - 1);
      }
    } else {
      AndSelf(a / 2);
      assert (a - 1) / 2 == a / 2 && And(a, a - 1) == 2 * (a / 2);
      forall k: nat ensures a != Pow2(k) {}
    }
  }

  lemma {:induction false} AndNotZero(x: nat)
    ensures AndNot(x, 0) == x
  {
    if x > 0 { AndNotZero(x / 2); }
  }

  lemma ProductsApart(a: nat, b: nat, m: nat)
    requires a < b
    ensures a * m + m <= b * m
  {
    assert b * m == (a + 1) * m + (b - a - 1) * m;
  }

  lemma DivisionIsUnique(x: nat, m: nat, q: nat, r: nat)
    requires r < m && x == q * m + r
    ensures x % m == r && x / m == q
  {
    var d := x / m;
    assert x == d * m + x % m;
    if d < q {
      ProductsApart(d, q, m);
    } else if q < d {
      ProductsApart(q, d, m);
    }
  }

  lemma RemainderDoubles(x: nat, p: nat)
    requires p >= 1
    ensures x % (2 * p) == 2 * (x / 2 % p) + x % 2
  {
    var h := x / 2;
    var q, r := h / p, h % p;
    assert h == q * p + r;
    assert q * (2 * p) == 2 * (q * p);
    DivisionIsUnique(x, 2 * p, q, 2 * r + x % 2);
  }

  /** Masking off the low k bits takes away the remainder. */
  lemma {:induction false} AndNotMask(x: nat, k: nat)
    ensures AndNot(x, Pow2(k) - 1) == x - x % Pow2(k)
    decreases k
  {
    if k == 0 {
      AndNotZero(x);
    } else {
      AndNotMask(x / 2, k - 1);
      MaskStep(x, Pow2(k - 1));
    }
  }

  lemma MaskStep(x: nat, p: nat)
    requires p >= 1 && AndNot(x / 2, p - 1) == x / 2 - x / 2 % p
    ensures AndNot(x, 2 * p - 1) == x - x % (2 * p)
  {
    hide AndNot;
    MaskHalves(x, p);
    RemainderDoubles(x, p);
  }

  lemma MaskHalves(x: nat, p: nat)
    requires p >= 1
    ensures AndNot(x, 2 * p - 1) == 2 * AndNot(x / 2, p - 1)
  {
    assert (2 * p - 1) / 2 == p - 1;
  }

  /** The least multiple of a at or after x. */
  predicate RoundedUp(x: nat, a: nat, d: nat)
    requires a >= 1
  {
    d % a == 0 && x <= d < x + a
  }

  lemma RemovingRemainder(y: nat, a: nat)
    requires a >= 1
    ensures (y - y % a) % a == 0
  {
    assert y - y % a == (y / a) * a + 0;
    DivisionIsUnique(y - y % a, a, y / a, 0);
  }

  lemma {:induction false} RoundUpIsRoundedUp(x: nat, a: nat)
    requires a >= 1 && PowerOfTwo(a)
    ensures RoundedUp(x, a, AndNot(x + a - 1, a - 1))
  {
    var k: nat :| a == Pow2(k);
    var y := x + a - 1;
    AndNotMask(y, k);
    hide AndNot, Pow2;
    RemovingRemainder(y, a);
    assert y % a < a;
  }

  /** There is only one such multiple, and none is smaller. */
  lemma {:induction false} RoundedUpIsLeast(x: nat, a: nat, d: nat, e: nat)
    requires a >= 1 && RoundedUp(x, a, d) && x <= e && e % a == 0
    ensures d <= e && (e < x + a ==> e == d)
  {
    var i, j := d / a, e / a;
    assert d == i * a && e == j * a;
    if i < j {
      ProductsApart(i, j, a);
    } else if j < i {
      ProductsApart(j, i, a);
    }
  }
}
