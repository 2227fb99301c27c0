/**
 The hand-written Newton square root used by the fairness reports, over the reals. The
 loop always takes sixteen steps from z = x. Each step squares the ratio (z - s) / (z + s)
 to the true root s, which says exactly when k steps reach a given relative accuracy.
 */
module NewtonSqrt {

  import opened RealFacts

  function Pow2(k: nat): (p: real)
    ensures p >= 1.0
  {
    if k == 0 then 1.0 else 2.0 * Pow2(k - 1)
  }

  function Improve(z: real, x: real): real
    requires z != 0.0
  {
    z - (z * z - x) / (2.0 * z)
  }

  /** One step overshoots by exactly the squared error over twice the iterate. */
  lemma {:induction false} ImproveError(z: real, s: real)
    requires z > 0.0 && s > 0.0
    ensures Improve(z, s * s) - s == (z - s) * (z - s) / (2.0 * z)
    ensures Improve(z, s * s) >= s && Improve(z, s * s) >= z / 2.0
  {
    var d := (z * z - s * s) / (2.0 * z);
    assert d * (2.0 * z) == z * z - s * s;
    assert (z - d - s) * (2.0 * z) == (z - s) * (z - s) by {
      assert (z - d - s) * (2.0 * z) == 2.0 * z * z - d * (2.0 * z) - 2.0 * s * z;
      assert (z - s) * (z - s) == z * z - 2.0 * s * z + s * s;
    }
    QuotientIs((z - s) * (z - s), 2.0 * z, z - d - s);
    SquareNonNegative(z - s);
    NonNegativeFactor(z - d - s, 2.0 * z);
    assert (z / 2.0 - d) * (2.0 * z) == s * s by {
      assert (z / 2.0 - d) * (2.0 * z) == z * z - d * (2.0 * z);
    }
    SquareNonNegative(s);
    NonNegativeFactor(z / 2.0 - d, 2.0 * z);
  }

  lemma {:induction false} SquareNonNegative(a: real)
    ensures a * a >= 0.0
  {
  }

  /** From above the root, a step at least halves the error. */
  lemma {:induction false} ImproveHalves(z: real, s: real)
    requires s > 0.0 && z >= s
    ensures Improve(z, s * s) - s <= (z - s) / 2.0
  {
    ImproveError(z, s);
    var e, q := z - s, Improve(z, s * s) - s;
    assert q == e * e / (2.0 * z);
    HalfOfError(e, z, q);
  }

  lemma {:induction false} HalfOfError(e: real, z: real, q: real)
    requires 0.0 <= e <= z && z > 0.0 && q == e * e / (2.0 * z)
    ensures q <= e / 2.0
  {
    assert q * (2.0 * z) == e * e;
    ProductNonNegative(e, z - e);
    assert e * (z - e) == e * z - e * e;
    assert (e / 2.0 - q) * (2.0 * z) == e * z - e * e;
    NonNegativeFactor(e / 2.0 - q, 2.0 * z);
  }

  lemma {:induction false} ProductNonNegative(a: real, b: real)
    requires a >= 0.0 && b >= 0.0
    ensures a * b >= 0.0
  {
  }

  /** The first step from z = x lands on (1 + x) / 2. */
  lemma {:induction false} FirstStep(x: real)
    requires x > 0.0
    ensures Improve(x, x) == (1.0 + x) / 2.0
  {
    assert (x * x - x) / (2.0 * x) == (x - 1.0) / 2.0 by {
      assert (x - 1.0) / 2.0 * (2.0 * x) == x * x - x;
      QuotientIs(x * x - x, 2.0 * x, (x - 1.0) / 2.0);
    }
  }

  /** Halving a bound k times more. */
  lemma {:induction false} HalveBound(e: real, k: nat)
    requires k > 0
    ensures e / Pow2(k - 1) / 2.0 == e / Pow2(k)
  {
    var p := Pow2(k - 1);
    var q := e / p;
    assert q * p == e;
    assert q / 2.0 * (2.0 * p) == e;
    QuotientIs(e, 2.0 * p, q / 2.0);
  }

  /** After i steps: above the root by at most (s - 1)^2 / 2^i, and at least (1 + x) / 2^i. */
  ghost predicate Within(z: real, s: real, i: nat) {
    0.0 <= z - s <= (s - 1.0) * (s - 1.0) / Pow2(i) && z >= (1.0 + s * s) / Pow2(i)
  }

  lemma {:induction false} FirstWithin(x: real, s: real)
    requires s > 0.0 && x > 0.0 && s * s == x
    ensures Within(Improve(x, x), s, 1)
  {
    FirstStep(x);
    SquareNonNegative(s - 1.0);
    assert (1.0 + x) / 2.0 - s == (s - 1.0) * (s - 1.0) / 2.0;
    assert Pow2(1) == 2.0 * Pow2(0) == 2.0;
  }

  lemma {:induction false} NextWithin(z: real, s: real, i: nat)
    requires s > 0.0 && Within(z, s, i)
    ensures Within(Improve(z, s * s), s, i + 1)
  {
    ImproveError(z, s);
    ImproveHalves(z, s);
    HalveBound((s - 1.0) * (s - 1.0), i + 1);
    HalveBound(1.0 + s * s, i + 1);
  }

  // ----- k steps from z = x -----

  lemma {:induction false} ImprovePositive(z: real, x: real)
    requires z > 0.0 && x > 0.0
    ensures Improve(z, x) > 0.0
  {
    var d := (z * z - x) / (2.0 * z);
    assert d * (2.0 * z) == z * z - x;
    ProductPositive(z, z);
    assert (z - d) * (2.0 * z) == z * z + x;
    PositiveFactor(z - d, 2.0 * z);
  }

  lemma {:induction false} ProductPositive(a: real, b: real)
    requires a > 0.0 && b > 0.0
    ensures a * b > 0.0
  {
  }

  function Iterate(x: real, k: nat): (z: real)
    requires x > 0.0
    ensures z > 0.0
  {
    if k == 0 then x
    else
      ImprovePositive(Iterate(x, k - 1), x);
      Improve(Iterate(x, k - 1), x)
  }

  /** s is the square root of x. */
  ghost predicate Root(s: real, x: real) {
    s > 0.0 && x > 0.0 && s * s == x
  }

  lemma {:induction false} IterateWithin(s: real, x: real, k: nat)
    requires Root(s, x) && k > 0
    ensures Within(Iterate(x, k), s, k)
  {
    if k == 1 {
      assert Iterate(x, 1) == Improve(Iterate(x, 0), x);
      FirstWithin(x, s);
    } else {
      IterateWithin(s, x, k - 1);
      NextWithin(Iterate(x, k - 1), s, k - 1);
    }
  }

  // ----- The ratio to the root squares at every step -----

  function Power(q: real, n: nat): real {
    if n == 0 then 1.0 else q * Power(q, n - 1)
  }

  function TwoTo(k: nat): nat {
    if k == 0 then 1 else 2 * TwoTo(k - 1)
  }

  lemma {:induction false} PowerAdd(q: real, m: nat, n: nat)
    ensures Power(q, m + n) == Power(q, m) * Power(q, n)
  {
    if m > 0 {
      PowerAdd(q, m - 1, n);
      Associate(q, Power(q, m - 1), Power(q, n));
    }
  }

  function Ratio(z: real, s: real): real
    requires z > 0.0 && s > 0.0
  {
    (z - s) / (z + s)
  }

  lemma {:induction false} RatioIs(z: real, s: real, r: real)
    requires z > 0.0 && s > 0.0
    ensures r == Ratio(z, s) <==> r * (z + s) == z - s
  {
    if r * (z + s) == z - s {
      QuotientIs(z - s, z + s, r);
    }
  }

  lemma {:induction false} SquareOfProduct(a: real, b: real)
    ensures (a * b) * (a * b) == (a * a) * (b * b)
  {
  }

  lemma {:induction false} StepSquaresRatio(z: real, s: real, x: real)
    requires z > 0.0 && Root(s, x)
    ensures Improve(z, x) > 0.0
    ensures Ratio(Improve(z, x), s) == Ratio(z, s) * Ratio(z, s)
  {
    ImprovePositive(z, x);
    var n, r := Improve(z, x), Ratio(z, s);
    RatioIs(z, s, r);
    SquareOfProduct(r, z + s);
    ImproveSum(z, s);
    Scaled(r * r, z + s, z - s, n + s, n - s, 2.0 * z);
    RatioIs(n, s, r * r);
  }

  lemma {:induction false} ImproveSum(z: real, s: real)
    requires z > 0.0 && s > 0.0
    ensures (Improve(z, s * s) + s) * (2.0 * z) == (z + s) * (z + s)
    ensures (Improve(z, s * s) - s) * (2.0 * z) == (z - s) * (z - s)
  {
    var d := (z * z - s * s) / (2.0 * z);
    assert d * (2.0 * z) == z * z - s * s;
    assert (z - d + s) * (2.0 * z) == 2.0 * (z * z) - d * (2.0 * z) + 2.0 * (s * z);
    assert (z - d - s) * (2.0 * z) == 2.0 * (z * z) - d * (2.0 * z) - 2.0 * (s * z);
    assert (z + s) * (z + s) == z * z + 2.0 * (s * z) + s * s;
    assert (z - s) * (z - s) == z * z - 2.0 * (s * z) + s * s;
  }

  /** A ratio of squares is the ratio of both sides divided by the same number. */
  lemma {:induction false} Scaled(q: real, a: real, b: real, m: real, n: real, d: real)
    requires d > 0.0 && m * d == a * a && n * d == b * b && q * (a * a) == b * b
    ensures q * m == n
  {
    Associate(q, m, d);
    assert (q * m - n) * d == q * (m * d) - n * d;
    ZeroProduct(q * m - n, d);
  }

  lemma {:induction false} RatioAtStart(s: real, x: real)
    requires Root(s, x)
    ensures Ratio(x, s) == (s - 1.0) / (s + 1.0)
  {
    var q := (s - 1.0) / (s + 1.0);
    assert q * (s + 1.0) == s - 1.0;
    Associate(q, s + 1.0, s);
    assert (s + 1.0) * s == x + s;
    assert (s - 1.0) * s == x - s;
    RatioIs(x, s, q);
  }

  /** Where the iteration starts, z = x, the ratio is (s - 1) / (s + 1); after k steps it is that number to the power 2^k. */
  lemma {:induction false} RatioAfter(s: real, x: real, k: nat)
    requires Root(s, x)
    ensures Ratio(Iterate(x, k), s) == Power((s - 1.0) / (s + 1.0), TwoTo(k))
  {
    var q := (s - 1.0) / (s + 1.0);
    if k == 0 {
      RatioAtStart(s, x);
      assert Power(q, 1) == q * Power(q, 0);
    } else {
      RatioAfter(s, x, k - 1);
      StepSquaresRatio(Iterate(x, k - 1), s, x);
      PowerAdd(q, TwoTo(k - 1), TwoTo(k - 1));
    }
  }

  lemma {:induction false} AccuracyIsRatio(z: real, s: real, eps: real)
    requires z > 0.0 && s > 0.0 && eps > 0.0
    ensures z - s <= eps * s <==> Ratio(z, s) <= eps / (2.0 + eps)
  {
    var r, t := Ratio(z, s), eps / (2.0 + eps);
    RatioIs(z, s, r);
    assert t * (2.0 + eps) == eps;
    Side(z, s, eps, t);
    SameOrder(r, t, z + s);
  }

  /** Comparing z - s with t * (z + s), cleared of the denominator of t. */
  lemma {:induction false} Side(z: real, s: real, eps: real, t: real)
    requires eps > 0.0 && t * (2.0 + eps) == eps
    ensures z - s <= t * (z + s) <==> z - s <= eps * s
  {
    var gap := t * (z + s) - (z - s);
    assert gap * (2.0 + eps) == 2.0 * (eps * s - (z - s)) by {
      Associate(2.0 + eps, t, z + s);
      assert t * (z + s) * (2.0 + eps) == eps * (z + s);
    }
    assert gap >= 0.0 <==> z - s <= t * (z + s);
    if gap >= 0.0 {
      ScaleLe(0.0, gap, 2.0 + eps);
    } else {
      ScaleLt(gap, 0.0, 2.0 + eps);
    }
  }

  /**
   Exactly when k steps reach relative accuracy eps: when the starting ratio, (s - 1) / (s + 1),
   to the power 2^k is at most eps / (2 + eps).
   */
  lemma {:induction false} AccurateExactlyWhen(s: real, x: real, k: nat, eps: real)
    requires Root(s, x) && eps > 0.0
    ensures Iterate(x, k) - s <= eps * s <==> Power((s - 1.0) / (s + 1.0), TwoTo(k)) <= eps / (2.0 + eps)
  {
    RatioAfter(s, x, k);
    AccuracyIsRatio(Iterate(x, k), s, eps);
  }

  // ----- No number of steps does for every input under one -----

  /** For any number of steps and any accuracy there is an input under one that is still too far off. */
  lemma {:induction false} SomeInputMisses(k: nat, eps: real) returns (s: real, x: real)
    requires k > 0 && eps > 0.0
    ensures Root(s, x) && x < 1.0
    ensures Iterate(x, k) - s > eps * s
  {
    var pow := Pow2(k);
    var p := 2.0 * pow * (1.0 + eps);
    ScaleLe(1.0, pow, 1.0 + eps);
    s := 1.0 / p;
    assert s * p == 1.0;
    Reciprocal(s, p);
    x := s * s;
    ProductPositive(s, s);
    ScaleLt(s, 1.0, s);
    IterateWithin(s, x, k);
    QuotientGrows(1.0, 1.0 + x, pow);
    HalfTarget(s, pow, eps);
  }

  lemma {:induction false} Reciprocal(s: real, p: real)
    requires p > 1.0 && s * p == 1.0
    ensures 0.0 < s < 1.0
  {
    if s <= 0.0 {
      ScaleLe(s, 0.0, p);
    }
    if s >= 1.0 {
      ScaleLe(1.0, s, p);
    }
  }

  lemma {:induction false} HalfTarget(s: real, pow: real, eps: real)
    requires pow >= 1.0 && eps > 0.0 && s * (2.0 * pow * (1.0 + eps)) == 1.0
    ensures s + eps * s < 1.0 / pow
  {
    var u := s + eps * s;
    assert u * pow * 2.0 == s * (2.0 * pow * (1.0 + eps));
    var v := 1.0 / pow;
    assert v * pow == 1.0;
    if u >= v {
      ScaleLe(v, u, pow);
    }
  }

  /** The input 2^-20: eight steps end at more than twice its root, 2^-10. */
  lemma {:induction false} EightStepsMiss()
    ensures Root(1.0 / 1024.0, 1.0 / 1048576.0) && Iterate(1.0 / 1048576.0, 8) - 1.0 / 1024.0 > 1.0 / 1024.0
  {
    IterateWithin(1.0 / 1024.0, 1.0 / 1048576.0, 8);
    Pow2Of8And16();
  }

  /** The input 2^-40: all sixteen steps end at sixteen times its root, 2^-20, or more. */
  lemma {:induction false} SixteenStepsMiss()
    ensures Root(1.0 / 1048576.0, 1.0 / 1099511627776.0)
    ensures Iterate(1.0 / 1099511627776.0, 16) >= 16.0 * (1.0 / 1048576.0)
  {
    IterateWithin(1.0 / 1048576.0, 1.0 / 1099511627776.0, 16);
    Pow2Of8And16();
  }

  lemma {:induction false} Pow2Of8And16()
    ensures Pow2(8) == 256.0 && Pow2(16) == 65536.0
  {
    assert Pow2(4) == 16.0;
    assert Pow2(8) == 16.0 * Pow2(4);
    assert Pow2(12) == 16.0 * Pow2(8);
    assert Pow2(16) == 16.0 * Pow2(12);
  }

  // ----- The loop -----

  /**
   For every x = s * s with s > 0 the loop computes the sixteenth iterate and never divides by
   zero. It ends between the root and the root plus (s - 1)^2 / 2^16, and never below (1 + x) / 2^16.
   */
  method Sqrt(x: real, ghost s: real) returns (z: real)
    requires x > 0.0 ==> Root(s, x)
    ensures x <= 0.0 ==> z == 0.0
    ensures x > 0.0 ==> z == Iterate(x, 16)
    ensures x > 0.0 ==> Within(z, s, 16)
  {
    if x <= 0.0 {
      return 0.0;
    }
    z := x;
    for i := 0 to 16
      invariant z == Iterate(x, i)
    {
      z := Improve(z, x);
    }
    IterateWithin(s, x, 16);
  }
}
