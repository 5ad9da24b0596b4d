/** Small facts about reals that several modules share. Products and quotients are named so that
    the solver meets them as whole terms. */
module Arithmetic {
  function Min(x: real, y: real): real { if x <= y then x else y }

  function Max(x: real, y: real): real { if x <= y then y else x }

  function Abs(x: real): real { if x < 0.0 then -x else x }

  function Product(x: real, y: real): real {
    x * y
  }

  function Quotient(x: real, y: real): real
    requires y != 0.0
  {
    x / y
  }

  lemma PositiveProduct(x: real, y: real)
    requires x > 0.0 && y > 0.0
    ensures Product(x, y) > 0.0
  {
  }

  lemma SignOfProduct(x: real, y: real)
    requires y > 0.0
    ensures x * y >= 0.0 <==> x >= 0.0
  {
  }

  lemma Distribute(p: real, x: real, y: real)
    ensures Product(p, x + y) == Product(p, x) + Product(p, y)
    ensures Product(x + y, p) == Product(x, p) + Product(y, p)
  {
  }

  lemma ProductAssociates(a: real, b: real, c: real)
    ensures Product(Product(a, b), c) == Product(a, Product(b, c))
  {
  }

  lemma ProductMonotone(a: real, b: real, p: real)
    requires p > 0.0
    ensures a <= b ==> a * p <= b * p
    ensures a < b ==> a * p < b * p
  {
  }

  lemma OverItself(x: real)
    requires x != 0.0
    ensures Quotient(x, x) == 1.0
  {
  }

  lemma QuotientTimes(x: real, y: real)
    requires y != 0.0
    ensures Product(Quotient(x, y), y) == x
  {
  }

  lemma QuotientIs(x: real, y: real, q: real)
    requires y != 0.0 && Product(q, y) == x
    ensures Quotient(x, y) == q
  {
  }

  lemma NonzeroProduct(x: real, y: real)
    requires x != 0.0 && y != 0.0
    ensures Product(x, y) != 0.0
  {
  }

  lemma QuotientsAdd(x: real, y: real, c: real)
    requires c != 0.0
    ensures (x + y) / c == x / c + y / c && (x - y) / c == x / c - y / c
  {
  }

  lemma QuotientMonotone(a: real, c: real, b: real)
    requires a <= c && b > 0.0
    ensures a / b <= c / b
  {
  }

  lemma QuotientOrder(a: real, c: real, b: real)
    requires b > 0.0
    ensures a <= c <==> a / b <= c / b
  {
    QuotientTimes(a, b);
    QuotientTimes(c, b);
    ProductMonotone(a / b, c / b, b);
  }

  /** A quotient by a positive number lies between two bounds when the dividend does. */
  lemma QuotientBetween(x: real, b: real, low: real, high: real)
    requires b > 0.0
    ensures low <= Quotient(x, b) <= high <==> low * b <= x <= high * b
  {
    var r := Quotient(x, b);
    QuotientTimes(x, b);
    assert (r - low) * b == x - low * b;
    assert (high - r) * b == high * b - x;
    SignOfProduct(r - low, b);
    SignOfProduct(high - r, b);
  }
}
