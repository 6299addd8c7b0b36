/** Streaming mean and variance, over the reals. */
module Welford {

  function Total(xs: seq<nat>, f: nat -> real): real {
    if xs == [] then 0.0 else Total(xs[..|xs| - 1], f) + f(xs[|xs| - 1])
  }

  function Sum(xs: seq<nat>): real {
    Total(xs, x => x as real)
  }

  function SquareFrom(m: real): nat -> real {
    x => (x as real - m) * (x as real - m)
  }

  /** The sum of squared distances from m: the textbook two-pass quantity. */
  function SquaresAround(xs: seq<nat>, m: real): real {
    Total(xs, SquareFrom(m))
  }

  function Affine(a: real, b: real): nat -> real {
    x => a * x as real + b
  }

  /** The accumulator's update of the mean; count already includes x. */
  function NextMean(mean: real, count: nat, x: nat): real
    requires count > 0
  {
    mean + (x as real - mean) / count as real
  }

  lemma {:induction false} TotalAdds(xs: seq<nat>, f: nat -> real, g: nat -> real, h: nat -> real)
    requires forall x: nat :: f(x) == g(x) + h(x)
    ensures Total(xs, f) == Total(xs, g) + Total(xs, h)
  {
    if xs != [] {
      TotalAdds(xs[..|xs| - 1], f, g, h);
    }
  }

  lemma {:induction false} TotalAffine(xs: seq<nat>, f: nat -> real, a: real, b: real)
    requires forall x: nat :: f(x) == a * x as real + b
    ensures Total(xs, f) == a * Sum(xs) + b * |xs| as real
  {
    if xs != [] {
      var front, x, u := xs[..|xs| - 1], xs[|xs| - 1] as real, (|xs| - 1) as real;
      TotalAffine(front, f, a, b);
      assert a * (Sum(front) + x) == a * Sum(front) + a * x;
      assert b * (u + 1.0) == b * u + b;
    }
  }

  lemma MoveOne(x: real, m: real, e: real)
    ensures (x - (m + e)) * (x - (m + e)) == (x - m) * (x - m) + ((-2.0 * e) * x + (2.0 * (e * m) + e * e))
  {
  }

  lemma MoveEach(m: real, e: real)
    ensures forall x: nat :: SquareFrom(m + e)(x) == SquareFrom(m)(x) + Affine(-2.0 * e, 2.0 * (e * m) + e * e)(x)
  {
    forall x: nat ensures SquareFrom(m + e)(x) == SquareFrom(m)(x) + Affine(-2.0 * e, 2.0 * (e * m) + e * e)(x) {
      MoveOne(x as real, m, e);
    }
  }

  /** Moving the centre changes each square by an affine amount, hence their sum by the moments. */
  lemma MoveCentre(xs: seq<nat>, m: real, m': real, a: real, b: real)
    requires forall x: nat :: SquareFrom(m')(x) == SquareFrom(m)(x) + Affine(a, b)(x)
    ensures SquaresAround(xs, m') == SquaresAround(xs, m) + (a * Sum(xs) + b * |xs| as real)
  {
    hide Total, SquareFrom, Affine, Sum;
    TotalAdds(xs, SquareFrom(m'), SquareFrom(m), Affine(a, b));
    AffineTotal(xs, a, b);
  }

  lemma AffineTotal(xs: seq<nat>, a: real, b: real)
    ensures Total(xs, Affine(a, b)) == a * Sum(xs) + b * |xs| as real
  {
    hide Total, Sum;
    TotalAffine(xs, Affine(a, b), a, b);
  }

  lemma MeanStep(xs: seq<nat>, mean: real, x: nat)
    requires mean * |xs| as real == Sum(xs)
    ensures var mean' := NextMean(mean, |xs| + 1, x);
      && mean' * (|xs| as real + 1.0) == Sum(xs + [x])
      && x as real - mean == (mean' - mean) * (|xs| as real + 1.0)
  {
    assert (xs + [x])[..|xs|] == xs;
    DivideShare(mean, |xs| as real, x as real);
    assert (|xs| + 1) as real == |xs| as real + 1.0;
  }

  lemma DivideShare(mean: real, n: real, x: real)
    requires n >= 0.0
    ensures var e := (x - mean) / (n + 1.0);
      e * (n + 1.0) == x - mean && (mean + e) * (n + 1.0) == mean * n + x
  {
    var e := (x - mean) / (n + 1.0);
    assert e * (n + 1.0) == x - mean;
    assert (mean + e) * (n + 1.0) == mean * n + mean + e * (n + 1.0);
  }

  lemma SharedTerm(s: real, m: real, n: real, e: real, x: real)
    requires s == m * n && x - m == e * (n + 1.0)
    ensures (-2.0 * e) * s + (2.0 * (e * m) + e * e) * n + (x - (m + e)) * (x - (m + e))
      == (x - m) * (x - (m + e))
  {
    assert x - (m + e) == n * e;
    assert (-2.0 * e) * (m * n) + (2.0 * (e * m) + e * e) * n == (e * e) * n;
    assert (e * e) * n + (n * e) * (n * e) == (e * (n + 1.0)) * (n * e);
  }

  lemma Coefficients(s: real, m: real, n: nat, m': real, x: nat) returns (a: real, b: real)
    requires s == m * n as real && x as real - m == (m' - m) * (n as real + 1.0)
    ensures forall y: nat :: SquareFrom(m')(y) == SquareFrom(m)(y) + Affine(a, b)(y)
    ensures a * s + b * n as real + SquareFrom(m')(x) == (x as real - m) * (x as real - m')
  {
    hide SquareFrom, Affine;
    var e := m' - m;
    a, b := -2.0 * e, 2.0 * (e * m) + e * e;
    assert m' == m + e;
    MoveEach(m, e);
    SquareAt(m', x);
    SharedTerm(s, m, n as real, e, x as real);
  }

  lemma SquareAt(m: real, x: nat)
    ensures SquareFrom(m)(x) == (x as real - m) * (x as real - m)
  {
  }

  lemma SquaresStep(xs: seq<nat>, mean: real, mean': real, x: nat)
    requires Sum(xs) == mean * |xs| as real
    requires x as real - mean == (mean' - mean) * (|xs| as real + 1.0)
    ensures SquaresAround(xs + [x], mean') == SquaresAround(xs, mean) + (x as real - mean) * (x as real - mean')
  {
    var a, b := Coefficients(Sum(xs), mean, |xs|, mean', x);
    MoveAndAdd(xs, mean, mean', a, b, x, (x as real - mean) * (x as real - mean'));
  }

  lemma MoveAndAdd(xs: seq<nat>, m: real, m': real, a: real, b: real, x: nat, p: real)
    requires forall y: nat :: SquareFrom(m')(y) == SquareFrom(m)(y) + Affine(a, b)(y)
    requires a * Sum(xs) + b * |xs| as real + SquareFrom(m')(x) == p
    ensures SquaresAround(xs + [x], m') == SquaresAround(xs, m) + p
  {
    MoveCentre(xs, m, m', a, b);
    assert (xs + [x])[..|xs|] == xs;
  }

  lemma {:induction false} SquaresNonNegative(xs: seq<nat>, m: real)
    ensures SquaresAround(xs, m) >= 0.0
  {
    if xs != [] {
      SquaresNonNegative(xs[..|xs| - 1], m);
      SquareNonNegative(xs[|xs| - 1] as real - m);
    }
  }

  lemma SquareNonNegative(d: real)
    ensures d * d >= 0.0
  {
    if d < 0.0 {
      assert d * d == (-d) * (-d);
    }
  }

  /** The textbook mean. */
  function Mean(xs: seq<nat>): real
    requires xs != []
  {
    Sum(xs) / |xs| as real
  }

  /** The textbook sample variance; zero where it is undefined. */
  function SampleVariance(xs: seq<nat>): real {
    if |xs| <= 1 then 0.0 else SquaresAround(xs, Mean(xs)) / (|xs| as real - 1.0)
  }

  /** What the accumulator knows after xs. */
  ghost predicate Moments(xs: seq<nat>, mean: real, m2: real) {
    mean * |xs| as real == Sum(xs) && m2 == SquaresAround(xs, mean)
  }

  /** One update of the accumulator, as the worker performs it. */
  method Accumulate(count: nat, mean: real, m2: real, us: nat, ghost xs: seq<nat>) returns (mean': real, m2': real)
    requires Moments(xs, mean, m2) && count == |xs| + 1
    ensures Moments(xs + [us], mean', m2')
  {
    var delta := us as real - mean;
    mean' := mean + delta / count as real;
    m2' := m2 + delta * (us as real - mean');
    MeanStep(xs, mean, us);
    SquaresStep(xs, mean, mean', us);
  }

  lemma QuotientNonNegative(a: real, b: real)
    requires a >= 0.0 && b > 0.0
    ensures a / b >= 0.0
  {
  }

  lemma QuotientUnique(a: real, b: real, q: real)
    requires b > 0.0 && q * b == a
    ensures a / b == q
  {
    assert (a / b) * b == a;
    assert (a / b - q) * b == 0.0;
  }

  /** The accumulated figures are the textbook ones. */
  lemma MomentsAreExact(xs: seq<nat>, mean: real, m2: real)
    requires Moments(xs, mean, m2)
    ensures xs != [] ==> mean == Mean(xs)
    ensures |xs| > 1 ==> m2 / (|xs| as real - 1.0) == SampleVariance(xs)
    ensures m2 >= 0.0 && SampleVariance(xs) >= 0.0
  {
    SquaresNonNegative(xs, mean);
    if xs != [] {
      QuotientUnique(Sum(xs), |xs| as real, mean);
    }
    if |xs| > 1 {
      QuotientNonNegative(m2, |xs| as real - 1.0);
    }
  }
}
