// Facts of integer division and of products of reals that the solver is not left to find.
module Arithmetic {

  function Abs(x: real): real {
    if x < 0.0 then -x else x
  }

  // ---------- Integer division ----------

  // Quotient and remainder are unique.
  lemma Division(x: int, q: int, d: int, r: int)
    requires 0 <= r < d && x == q * d + r
    ensures x / d == q && x % d == r
  {
    var e := q - x / d;
    assert e * d == x % d - r;
    if 0 < e {
      MultipleIsNoLess(e, d);
    } else if e < 0 {
      MultipleIsNoLess(-e, d);
    }
  }

  lemma MultipleIsNoLess(e: int, d: int)
    requires 0 < e && 0 < d
    ensures d <= e * d
  {
    assert 0 <= (e - 1) * d;
  }

  // ---------- Products of reals ----------

  lemma PositiveProduct(x: real, y: real)
    requires 0.0 < x && 0.0 < y
    ensures 0.0 < x * y
  {
  }

  lemma NonNegativeProduct(x: real, y: real)
    requires 0.0 <= x && 0.0 <= y
    ensures 0.0 <= x * y
  {
  }

  lemma NonPositiveProduct(x: real, y: real)
    requires 0.0 <= x && y <= 0.0
    ensures x * y <= 0.0
  {
    NonNegativeProduct(x, -y);
  }

  lemma ProductKeepsOrder(a: real, b: real, c: real)
    requires a <= b && 0.0 <= c
    ensures a * c <= b * c
  {
    NonNegativeProduct(b - a, c);
    assert (b - a) * c == b * c - a * c;
  }

  lemma OrderOfProducts(a: real, b: real, c: real)
    requires a * c <= b * c && 0.0 < c
    ensures a <= b
  {
    Distributes(a, b, c);
    if b < a {
      PositiveProduct(a - b, c);
    }
  }

  lemma Distributes(a: real, b: real, c: real)
    ensures (a - b) * c == a * c - b * c
  {
  }

  lemma ScaledKeepsOrder(a: real, b: real, c: real, p: real, q: real)
    requires a <= b && 0.0 <= c && p == a * c && q == b * c
    ensures p <= q
  {
    ProductKeepsOrder(a, b, c);
  }

  lemma AbsKeepsOrder(a: real, b: real, c: real, near: real, far: real)
    requires Abs(a) <= Abs(b) && 0.0 <= c && near == a * c && far == b * c
    ensures Abs(near) <= Abs(far)
  {
    if 0.0 <= b {
      ScaledKeepsOrder(-b, a, c, -far, near);
      ScaledKeepsOrder(a, b, c, near, far);
    } else {
      ScaledKeepsOrder(b, a, c, far, near);
      ScaledKeepsOrder(a, -b, c, near, -far);
    }
  }

  lemma AbsOfProduct(x: real, c: real, p: real)
    requires 0.0 <= c && p == x * c
    ensures Abs(p) == Abs(x) * c
  {
    if x < 0.0 {
      NonNegativeProduct(-x, c);
      assert Abs(x) * c == -p;
    } else {
      NonNegativeProduct(x, c);
    }
  }

  lemma Quotient(x: real, d: real)
    requires d != 0.0
    ensures x / d * d == x
  {
  }

  lemma PositiveQuotient(x: real, d: real)
    requires 0.0 < x && 0.0 < d
    ensures 0.0 < x / d
  {
    var q := x / d;
    Quotient(x, d);
    if q <= 0.0 {
      NonPositiveProduct(d, q);
    }
  }
}
