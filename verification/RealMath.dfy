/** Sums, and order facts about products and quotients of reals. */
module RealMath {

  /** In the order of an accumulation loop. */
  function Sum(s: seq<real>): real {
    if s == [] then 0.0 else Sum(s[..|s| - 1]) + s[|s| - 1]
  }

  lemma SquareNonNegative(x: real)
    ensures x * x >= 0.0
  {
  }

  lemma ProductPositive(x: real, y: real)
    requires x > 0.0 && y > 0.0
    ensures x * y > 0.0
  {
  }

  /** A positive factor can be dropped from a comparison, in both directions. */
  lemma ScaleOrder(c: real, x: real, y: real)
    requires c > 0.0
    ensures c * x <= c * y <==> x <= y
  {
    if x > y {
      ProductPositive(c, x - y);
    } else if x < y {
      ProductPositive(c, y - x);
    }
  }

  /** A non-negative factor keeps a comparison. */
  lemma ScaleKeeps(c: real, a: real, b: real)
    requires c >= 0.0 && a <= b
    ensures a * c <= b * c
  {
    if c > 0.0 {
      ScaleOrder(c, a, b);
    }
  }

  /** Dividing by a positive number turns a comparison into one of products. */
  lemma QuotientOrder(a: real, c: real, b: real)
    requires c > 0.0
    ensures a / c <= b <==> a <= b * c
  {
    assert c * (a / c) == a;
    ScaleOrder(c, a / c, b);
  }

  lemma QuotientCancel(a: real, c: real, b: real)
    requires c > 0.0 && a == c * b
    ensures a / c == b
  {
    assert c * (a / c) == a;
    ScaleOrder(c, a / c, b);
    ScaleOrder(c, b, a / c);
  }

  lemma RootOrder(a: real, b: real)
    requires b >= 0.0 && a * a <= b * b
    ensures a <= b
  {
    if a > b {
      ProductPositive(a - b, a + b);
    }
  }
}
