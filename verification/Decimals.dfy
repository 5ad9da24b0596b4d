/** Decimal rounding: Python's `round` and `Decimal.quantize` both round halves to even. */
module Decimals {
  function RoundHalfEven(x: real): (n: int)
    ensures x - 0.5 <= n as real <= x + 0.5
  {
    var below := x.Floor;
    var rest := x - below as real;
    if rest < 0.5 || (rest == 0.5 && below % 2 == 0) then below else below + 1
  }

  lemma RoundExact(n: int)
    ensures RoundHalfEven(n as real) == n
  {
  }

  lemma RoundMonotone(x: real, y: real)
    requires x <= y
    ensures RoundHalfEven(x) <= RoundHalfEven(y)
  {
    assert x.Floor <= y.Floor;
  }

  /** `round(x, 2)`. */
  function Cents(x: real): (r: real)
    ensures x - 0.005 <= r <= x + 0.005
  {
    RoundHalfEven(x * 100.0) as real / 100.0
  }

  /** `round(x, 10)`. */
  function TenPlaces(x: real): (r: real)
    ensures x - 0.00000000005 <= r <= x + 0.00000000005
  {
    RoundHalfEven(x * 10000000000.0) as real / 10000000000.0
  }

  predicate WholeCents(x: real) {
    Cents(x) == x
  }

  lemma CentsWhole(x: real)
    ensures WholeCents(Cents(x))
  {
    RoundExact(RoundHalfEven(x * 100.0));
  }

  lemma CentsMonotone(x: real, y: real)
    requires x <= y
    ensures Cents(x) <= Cents(y)
  {
    RoundMonotone(x * 100.0, y * 100.0);
  }

  /** Whole-cent amounts are the integers, counted in cents. */
  lemma WholeCentsCount(x: real) returns (n: int)
    requires WholeCents(x)
    ensures x == n as real / 100.0
  {
    n := RoundHalfEven(x * 100.0);
  }

  lemma CountIsWholeCents(n: int)
    ensures WholeCents(n as real / 100.0)
  {
    RoundExact(n);
  }

  lemma WholeCentsAdd(x: real, y: real)
    requires WholeCents(x) && WholeCents(y)
    ensures WholeCents(x + y) && WholeCents(x - y)
  {
    var m := WholeCentsCount(x);
    var n := WholeCentsCount(y);
    CountIsWholeCents(m + n);
    CountIsWholeCents(m - n);
  }

  lemma WholeCentsTimes(k: int, x: real)
    requires WholeCents(x)
    ensures WholeCents(k as real * x)
  {
    var n := WholeCentsCount(x);
    assert k as real * x == (k * n) as real / 100.0;
    CountIsWholeCents(k * n);
  }
}
