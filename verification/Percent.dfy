/** Discount percentages: `round((1 - price / reference) * 100, 2)` over exact
    rationals, held as whole hundredths of a percent (5000 is 50.00 %).
    A tie goes to the even neighbour, as Python's `round` does. */
module Percent {

  /** The integer nearest to n / d, ties to even. */
  function RoundHalfEven(n: int, d: int): int
    requires d > 0
  {
    var q := n / d;
    var twice := 2 * (n % d);
    if twice < d || (twice == d && q % 2 == 0) then q else q + 1
  }

  lemma RoundNearest(n: int, d: int)
    requires d > 0
    ensures var r := RoundHalfEven(n, d);
            && -d <= 2 * (n - d * r) <= d
            && (2 * (n - d * r) == d || 2 * (n - d * r) == -d ==> r % 2 == 0)
  {
    var q := n / d;
    assert n == d * q + n % d;
    assert d * (q + 1) == d * q + d;
  }

  /** _discount_pct, in hundredths of a percent; 0 for a reference that is not positive. */
  function Pct(price: int, reference: int): int {
    if reference <= 0 then 0 else RoundHalfEven(10000 * (reference - price), reference)
  }

  /** What lies below an integer m after rounding: everything under m - 1/2, and
      m - 1/2 itself when m is odd. */
  lemma AtLeast(n: int, d: int, m: int)
    requires d > 0
    ensures RoundHalfEven(n, d) >= m <==> 2 * n > 2 * (d * m) - d || (2 * n == 2 * (d * m) - d && m % 2 == 0)
  {
    var r := RoundHalfEven(n, d);
    RoundNearest(n, d);
    Steps(d, m, r);
    AtLeastLinear(n, d, m, r, d * m, d * r);
  }

  /** The same with the two products named. */
  lemma AtLeastLinear(n: int, d: int, m: int, r: int, goal: int, at: int)
    requires d > 0
    requires -d <= 2 * (n - at) <= d
    requires 2 * (n - at) == d || 2 * (n - at) == -d ==> r % 2 == 0
    requires r == m ==> at == goal
    requires r == m - 1 ==> at == goal - d
    requires r >= m + 1 ==> at >= goal + d
    requires r <= m - 2 ==> at <= goal - 2 * d
    ensures r >= m <==> 2 * n > 2 * goal - d || (2 * n == 2 * goal - d && m % 2 == 0)
  {
  }

  lemma Steps(d: int, m: int, r: int)
    requires d > 0
    ensures r == m - 1 ==> d * r == d * m - d
    ensures r >= m + 1 ==> d * r >= d * m + d
    ensures r <= m - 2 ==> d * r <= d * m - 2 * d
  {
    if r >= m + 1 {
      Scale(d, m + 1, r);
    } else if r <= m - 2 {
      Scale(d, r, m - 2);
    }
  }

  lemma Scale(d: int, a: int, b: int)
    requires d > 0 && a <= b
    ensures d * a <= d * b
    ensures d * (a - 1) == d * a - d && d * (b + 2) == d * b + 2 * d
  {
  }

  /** Rounding keeps the order of two fractions. */
  lemma RoundMonotone(n1: int, d1: int, n2: int, d2: int)
    requires d1 > 0 && d2 > 0
    requires n1 * d2 <= n2 * d1
    ensures RoundHalfEven(n1, d1) <= RoundHalfEven(n2, d2)
  {
    var m := RoundHalfEven(n1, d1);
    AtLeast(n1, d1, m);
    AtLeast(n2, d2, m);
    var h := 2 * m - 1;
    HalfBelow(d1, m);
    HalfBelow(d2, m);
    CrossMultiply(n1, d1, n2, d2, h);
  }

  lemma HalfBelow(d: int, m: int)
    ensures 2 * (d * m) - d == (2 * m - 1) * d
  {
  }

  /** If 2 n1 / d1 reaches h then so does the larger fraction 2 n2 / d2. */
  lemma CrossMultiply(n1: int, d1: int, n2: int, d2: int, h: int)
    requires d1 > 0 && d2 > 0 && n1 * d2 <= n2 * d1
    ensures 2 * n1 > h * d1 ==> 2 * n2 > h * d2
    ensures 2 * n1 == h * d1 ==> 2 * n2 >= h * d2
  {
    var a, b := 2 * n1 - h * d1, 2 * n2 - h * d2;
    Excess(n1, d1, n2, d2, h);  // b * d1 - a * d2 == 2 * (n2 * d1 - n1 * d2) >= 0
    SignOfProduct(a, d2);
    SignOfProduct(b, d1);
  }

  lemma Excess(n1: int, d1: int, n2: int, d2: int, h: int)
    ensures (2 * n2 - h * d2) * d1 - (2 * n1 - h * d1) * d2 == 2 * (n2 * d1) - 2 * (n1 * d2)
  {
    var hd := h * d1;
    assert (2 * n2 - h * d2) * d1 == 2 * (n2 * d1) - (h * d2) * d1;
    assert (2 * n1 - hd) * d2 == 2 * (n1 * d2) - hd * d2;
    assert (h * d2) * d1 == h * (d2 * d1) == h * (d1 * d2) == (h * d1) * d2;
  }

  lemma SignOfProduct(a: int, d: int)
    requires d > 0
    ensures a < 0 ==> a * d < 0
    ensures a > 0 ==> a * d > 0
  {
  }

  /** The 50.00 % rule in exact integers: rounding lets a price through up to
      10001/20000 of the reference, that is down to a true discount of 49.995 %. */
  lemma HalfOffExactly(price: int, reference: int)
    requires reference > 0
    ensures Pct(price, reference) >= 5000 <==> 20000 * price <= 10001 * reference
  {
    AtLeast(10000 * (reference - price), reference, 5000);
  }

  /** The publish / hold / refuse bands of a confirmation in exact integers:
      85.00 % and 95.00 % both include the half hundredth above them. */
  lemma UpperBandsExactly(price: int, reference: int)
    requires reference > 0
    ensures Pct(price, reference) <= 8500 <==> 20000 * price >= 2999 * reference
    ensures Pct(price, reference) <= 9500 <==> 20000 * price >= 999 * reference
  {
    AtLeast(10000 * (reference - price), reference, 8501);
    AtLeast(10000 * (reference - price), reference, 9501);
  }

  /** Against a larger reference, or at a smaller price, the discount is no smaller. */
  lemma PctMonotone(price: int, cheaper: int, reference: int, larger: int)
    requires 0 <= cheaper <= price
    requires 0 < reference <= larger
    ensures Pct(price, reference) <= Pct(cheaper, larger)
  {
    var n1, n2 := 10000 * (reference - price), 10000 * (larger - cheaper);
    assert price * larger >= cheaper * reference by {
      assert price * larger >= cheaper * larger;
      assert cheaper * larger >= cheaper * reference;
    }
    assert n1 * larger == 10000 * (reference * larger) - 10000 * (price * larger);
    assert n2 * reference == 10000 * (larger * reference) - 10000 * (cheaper * reference);
    RoundMonotone(n1, reference, n2, larger);
  }

  /** A positive price under its reference has a percentage between 0 and 100. */
  lemma PctRange(price: int, reference: int)
    requires 0 < price <= reference
    ensures 0 <= Pct(price, reference) <= 10000
  {
    AtLeast(10000 * (reference - price), reference, 0);
    AtLeast(10000 * (reference - price), reference, 10001);
  }
}
