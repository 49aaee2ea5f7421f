/** Small facts of ordered-field arithmetic, each proved on its own so that proofs elsewhere
    never mix products with other reasoning. */
module Reals {

  function Max(x: real, y: real): real {
    if x >= y then x else y
  }

  function Min(x: real, y: real): real {
    if x <= y then x else y
  }

  /** A product by name, where a proof must not open it. */
  function Times(x: real, y: real): real { x * y }

  lemma Nonneg(a: real, b: real)
    requires a >= 0.0 && b >= 0.0
    ensures a * b >= 0.0
  {}

  lemma Positive(a: real, b: real)
    requires a > 0.0 && b > 0.0
    ensures a * b > 0.0
  {}

  lemma Spread(a: real, x: real, y: real)
    ensures a * (y - x) == a * y - a * x
  {}

  lemma ScaleOrder(a: real, x: real, y: real)
    requires a >= 0.0 && x <= y
    ensures a * x <= a * y
    ensures x * a <= y * a
  {
    Nonneg(a, y - x);
    Spread(a, x, y);
  }

  lemma ScaleStrict(a: real, x: real, y: real)
    requires a > 0.0 && x < y
    ensures a * x < a * y
    ensures x * a < y * a
  {
    Positive(a, y - x);
    Spread(a, x, y);
  }

  lemma Unscale(a: real, x: real, y: real)
    requires a > 0.0 && x * a <= y * a
    ensures x <= y
  {
    if x > y {
      ScaleStrict(a, y, x);
    }
  }

  lemma Cancel(a: real, x: real, y: real)
    requires a > 0.0 && x * a == y * a
    ensures x == y
  {
    Unscale(a, x, y);
    Unscale(a, y, x);
  }

  lemma DivideTimes(x: real, n: real)
    requires n != 0.0
    ensures x / n * n == x
  {}

  lemma DivideOrder(x: real, y: real, n: real)
    requires n > 0.0
    ensures x <= y * n <==> x / n <= y
  {
    DivideTimes(x, n);
    if x <= y * n { Unscale(n, x / n, y); }
    if x / n <= y { ScaleOrder(n, x / n, y); }
  }

  lemma QuotientOver(x: real, y: real, n: real)
    requires n > 0.0 && x * n <= y
    ensures x <= y / n
  {
    DivideTimes(y, n);
    Unscale(n, x, y / n);
  }

  lemma QuotientPositive(x: real, n: real)
    requires x > 0.0 && n > 0.0
    ensures x / n > 0.0
  {
    DivideTimes(x, n);
    if x / n <= 0.0 { ScaleOrder(n, x / n, 0.0); }
  }

  lemma QuotientNonneg(x: real, n: real)
    requires x >= 0.0 && n > 0.0
    ensures x / n >= 0.0
  {
    if x > 0.0 { QuotientPositive(x, n); }
  }

  lemma SelfQuotient(n: real)
    requires n != 0.0
    ensures n / n == 1.0
  {}

  lemma QuotientOrder(x: real, y: real, n: real)
    requires n > 0.0 && x <= y
    ensures x / n <= y / n
  {
    DivideTimes(y, n);
    DivideOrder(x, y / n, n);
  }
}
