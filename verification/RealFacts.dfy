/**
 Facts about products and quotients of reals, one step each. Stating them apart keeps the
 solver from searching among products in the proofs that use them.
 */
module RealFacts {

  lemma {:induction false} ScaleLe(a: real, b: real, k: real)
    requires a <= b && k >= 0.0
    ensures a * k <= b * k && k * a <= k * b
  {
  }

  lemma {:induction false} ScaleLt(a: real, b: real, k: real)
    requires a < b && k > 0.0
    ensures a * k < b * k && k * a < k * b
  {
  }

  lemma {:induction false} SameOrder(a: real, b: real, k: real)
    requires k > 0.0
    ensures a <= b <==> a * k <= b * k
  {
    if a <= b {
      ScaleLe(a, b, k);
    } else {
      ScaleLt(b, a, k);
    }
  }

  lemma {:induction false} Associate(a: real, b: real, c: real)
    ensures a * (b * c) == (a * b) * c
  {
  }

  lemma {:induction false} Distribute(n: real, a: real, b: real)
    ensures n * (a + b) == n * a + n * b && (a + b) * n == a * n + b * n
    ensures n * (a - b) == n * a - n * b && (a - b) * n == a * n - b * n
  {
  }

  lemma {:induction false} ZeroProduct(a: real, d: real)
    requires d > 0.0 && a * d == 0.0
    ensures a == 0.0
  {
  }

  lemma {:induction false} NonNegativeFactor(a: real, d: real)
    requires d > 0.0 && a * d >= 0.0
    ensures a >= 0.0
  {
  }

  lemma {:induction false} PositiveFactor(a: real, d: real)
    requires d > 0.0 && a * d > 0.0
    ensures a > 0.0
  {
  }

  lemma {:induction false} QuotientIs(n: real, d: real, q: real)
    requires d > 0.0 && q * d == n
    ensures n / d == q
  {
    var gap := n / d - q;
    assert gap * d == n / d * d - q * d;
    ZeroProduct(gap, d);
  }

  lemma {:induction false} QuotientGrows(a: real, b: real, d: real)
    requires a <= b && d > 0.0
    ensures a / d <= b / d
  {
    var p, q := a / d, b / d;
    assert p * d == a && q * d == b;
    SameOrder(p, q, d);
  }

  lemma {:induction false} QuotientAtLeast(a: real, d: real, q: real)
    requires d > 0.0
    ensures a / d >= q <==> a >= q * d
  {
    var share := a / d;
    assert share * d == a;
    SameOrder(q, share, d);
  }
}
