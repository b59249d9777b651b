/** Reference definitions for the IMU noise measurements.

    Both drivers read the z axis repeatedly, discard readings too far from the
    expected value, and feed the others to Welford's running update of a mean
    and a sum of squared deviations. The definitions here say what that update
    is meant to compute: the mean of the kept readings and their scatter
    (sum of squared deviations from that mean), both in exact arithmetic.
 */
module Noise {

  function Abs(x: real): (r: real)
    ensures r >= 0.0 && (r == x || r == -x)
  {
    if x < 0.0 then -x else x
  }

  /** A reading is kept unless it lies more than `threshold` from `target`. */
  predicate Accepts(x: real, target: real, threshold: real)
  {
    !(Abs(target - x) > threshold)
  }

  /** The readings the update consumes, in reading order. */
  function Kept(xs: seq<real>, target: real, threshold: real): (ks: seq<real>)
    ensures |ks| <= |xs|
  {
    if xs == [] then []
    else
      var last := xs[|xs| - 1];
      Kept(xs[..|xs| - 1], target, threshold) + (if Accepts(last, target, threshold) then [last] else [])
  }

  function Sum(xs: seq<real>): real
  {
    if xs == [] then 0.0 else Sum(xs[..|xs| - 1]) + xs[|xs| - 1]
  }

  function Square(x: real): real
  {
    x * x
  }

  function SumSq(xs: seq<real>): real
  {
    if xs == [] then 0.0 else SumSq(xs[..|xs| - 1]) + Square(xs[|xs| - 1])
  }

  function Ratio(p: real, n: nat): real
    requires n > 0
  {
    p / n as real
  }

  /** The arithmetic mean (0 for no readings, the drivers' initial value). */
  function Mean(xs: seq<real>): real
  {
    if xs == [] then 0.0 else Ratio(Sum(xs), |xs|)
  }

  /** The sum of squared deviations from the mean: n times the population variance. */
  function Scatter(xs: seq<real>): real
  {
    if xs == [] then 0.0 else SumSq(xs) - Ratio(Square(Sum(xs)), |xs|)
  }

  /** Every kept reading is an accepted reading of `xs`, and every accepted reading is kept. */
  lemma {:induction false} KeptExactly(xs: seq<real>, target: real, threshold: real)
    ensures forall x :: x in Kept(xs, target, threshold) ==> x in xs && Accepts(x, target, threshold)
    ensures forall x :: x in xs && Accepts(x, target, threshold) ==> x in Kept(xs, target, threshold)
  {
    if xs != [] {
      var init := xs[..|xs| - 1];
      KeptExactly(init, target, threshold);
      assert xs == init + [xs[|xs| - 1]];
    }
  }

  /** Extending the readings by one extends the kept readings by that one or by nothing. */
  lemma KeptAppend(xs: seq<real>, x: real, target: real, threshold: real)
    ensures Kept(xs + [x], target, threshold)
         == Kept(xs, target, threshold) + (if Accepts(x, target, threshold) then [x] else [])
  {
    assert (xs + [x])[..|xs|] == xs;
  }

  /** The Welford pair for the empty input is the drivers' initial (0, 0). */
  lemma WelfordStart()
    ensures Mean([]) == 0.0 && Scatter([]) == 0.0
  {
  }

  /** Welford's update of the mean with the i-th kept reading `x`. */
  function NextMean(mean: real, x: real, i: nat): real
    requires i > 0
  {
    mean + (x - mean) / i as real
  }

  /** Welford's update of the sum of squared deviations, given the mean
      before (`prevMean`) and after (`mean`) the reading `x`. */
  function NextSum(sum: real, x: real, mean: real, prevMean: real): real
  {
    sum + (x - mean) * (x - prevMean)
  }

  /** The running pair a Welford loop keeps: the mean and the sum of squared deviations. */
  datatype Moments = Moments(mean: real, sum: real)

  /** The pair Welford's update leaves after consuming `ks` in order from (0, 0). */
  function Welford(ks: seq<real>): Moments
  {
    if ks == [] then Moments(0.0, 0.0)
    else
      var m, x := Welford(ks[..|ks| - 1]), ks[|ks| - 1];
      var mean := NextMean(m.mean, x, |ks|);
      Moments(mean, NextSum(m.sum, x, mean, m.mean))
  }

  /** Consuming one more reading is one more update. */
  lemma WelfordAppend(ks: seq<real>, x: real)
    ensures Welford(ks + [x])
         == var m := Welford(ks);
            var mean := NextMean(m.mean, x, |ks| + 1);
            Moments(mean, NextSum(m.sum, x, mean, m.mean))
  {
    assert (ks + [x])[..|ks|] == ks;
  }

  /** Welford's update computes exactly the mean and the scatter of what it consumed. */
  lemma {:induction false} WelfordIsMeanAndScatter(ks: seq<real>)
    ensures Welford(ks) == Moments(Mean(ks), Scatter(ks))
  {
    if ks != [] {
      var init, x := ks[..|ks| - 1], ks[|ks| - 1];
      WelfordIsMeanAndScatter(init);
      WelfordStep(init, x);
      assert init + [x] == ks;
    }
  }

  /** One Welford step: from the mean and scatter of `xs`, the update gives
      the mean and scatter of `xs + [x]`, and the scatter never shrinks. */
  lemma WelfordStep(xs: seq<real>, x: real)
    ensures NextMean(Mean(xs), x, |xs| + 1) == Mean(xs + [x])
    ensures NextSum(Scatter(xs), x, Mean(xs + [x]), Mean(xs)) == Scatter(xs + [x])
    ensures Scatter(xs + [x]) >= Scatter(xs)
  {
    if xs == [] {
      WelfordFirst(x);
      assert xs + [x] == [x];
    } else {
      WelfordNext(xs, x);
    }
  }

  /** A single reading is its own mean and has no scatter. */
  lemma WelfordFirst(x: real)
    ensures Mean([x]) == x && Scatter([x]) == 0.0
  {
    SumsOfAppend([], x);
    assert [] + [x] == [x];
  }

  lemma SumsOfAppend(xs: seq<real>, x: real)
    ensures Sum(xs + [x]) == Sum(xs) + x && SumSq(xs + [x]) == SumSq(xs) + Square(x)
  {
    assert (xs + [x])[..|xs|] == xs;
  }

  lemma MeanAndScatterOf(xs: seq<real>)
    requires xs != []
    ensures Mean(xs) == Ratio(Sum(xs), |xs|)
    ensures Scatter(xs) == SumSq(xs) - Ratio(Square(Sum(xs)), |xs|)
  {
  }

  lemma WelfordNext(xs: seq<real>, x: real)
    requires xs != []
    ensures NextMean(Mean(xs), x, |xs| + 1) == Mean(xs + [x])
    ensures NextSum(Scatter(xs), x, Mean(xs + [x]), Mean(xs)) == Scatter(xs + [x])
    ensures Scatter(xs + [x]) >= Scatter(xs)
  {
    MeanAndScatterOf(xs);
    MeanAndScatterOfAppend(xs, x);
    WelfordUpdate(Sum(xs), SumSq(xs), |xs|, x);
  }

  lemma MeanAndScatterOfAppend(xs: seq<real>, x: real)
    ensures Mean(xs + [x]) == Ratio(Sum(xs) + x, |xs| + 1)
    ensures Scatter(xs + [x]) == (SumSq(xs) + Square(x)) - Ratio(Square(Sum(xs) + x), |xs| + 1)
  {
    var ys := xs + [x];
    SumsOfAppend(xs, x);
    var s := Sum(ys);
    assert s == Sum(xs) + x;
    assert Square(s) == Square(Sum(xs) + x);
  }

  /** `WelfordStep` on the running sums `s` and `q` of n >= 1 readings. */
  lemma WelfordUpdate(s: real, q: real, n: nat, x: real)
    requires n >= 1
    ensures NextMean(Ratio(s, n), x, n + 1) == Ratio(s + x, n + 1)
    ensures NextSum(q - Ratio(Square(s), n), x, Ratio(s + x, n + 1), Ratio(s, n))
         == (q + Square(x)) - Ratio(Square(s + x), n + 1)
    ensures NextSum(q - Ratio(Square(s), n), x, Ratio(s + x, n + 1), Ratio(s, n))
         >= q - Ratio(Square(s), n)
  {
    var d, k := n as real, (n + 1) as real;
    var a, b := Ratio(s, n), Ratio(s + x, n + 1);
    RatioTimesCount(s, n);
    RatioTimesCount(s + x, n + 1);
    NextMeanTimesCount(a, x, n);
    CancelFactor(NextMean(a, x, n + 1), b, k);
    RatioOfSquare(s, n);
    RatioOfSquare(s + x, n + 1);
    ScatterGrowth(a, b, d, k, q, x);
  }

  /** The scatter update in terms of the old mean `a` of m readings and the
      new mean `b` after `x`. */
  lemma ScatterGrowth(a: real, b: real, m: real, k: real, q: real, x: real)
    requires m >= 1.0 && k == m + 1.0 && b * k == a * m + x
    ensures NextSum(q - Square(a) * m, x, b, a) == (q + Square(x)) - Square(b) * k
    ensures NextSum(q - Square(a) * m, x, b, a) >= q - Square(a) * m
  {
    WelfordAlgebra(a, b, m, x);
  }

  lemma RatioTimesCount(p: real, n: nat)
    requires n > 0
    ensures Ratio(p, n) * n as real == p
  {
  }

  lemma RatioOfSquare(p: real, n: nat)
    requires n > 0
    ensures Ratio(Square(p), n) == Square(Ratio(p, n)) * n as real
  {
    var a, d := Ratio(p, n), n as real;
    RatioTimesCount(p, n);
    assert Square(p) == (Square(a) * d) * d;
  }

  lemma NextMeanTimesCount(a: real, x: real, n: nat)
    ensures NextMean(a, x, n + 1) * (n + 1) as real == a * n as real + x
  {
    var k := (n + 1) as real;
    var c := (x - a) / k;
    assert c * k == x - a;
  }

  lemma CancelFactor(c: real, b: real, k: real)
    requires k > 0.0 && c * k == b * k
    ensures c == b
  {
    assert (c - b) * k == 0.0;
  }

  /** The polynomial identity behind one step: with `a` the old mean of m
      readings and `b` the new mean after `x`, the scatter grows by
      `(x - b) * (x - a)`, which is m (m + 1) (b - a)^2. */
  lemma WelfordAlgebra(a: real, b: real, m: real, x: real)
    requires m >= 1.0 && b * (m + 1.0) == a * m + x
    ensures -(a * a * m) + (x - b) * (x - a) == x * x - b * b * (m + 1.0)
    ensures (x - b) * (x - a) == m * (m + 1.0) * ((b - a) * (b - a))
    ensures (x - b) * (x - a) >= 0.0
  {
    assert x - a == (b - a) * (m + 1.0);
    assert x - b == m * (b - a);
    assert (x - b) * (x - a) == m * (m + 1.0) * ((b - a) * (b - a));
    assert (b - a) * (b - a) >= 0.0;
  }

  /** Readings that are all equal have no scatter. */
  lemma {:induction false} ConstantHasNoScatter(xs: seq<real>, c: real)
    requires forall k :: 0 <= k < |xs| ==> xs[k] == c
    ensures Sum(xs) == |xs| as real * c && SumSq(xs) == |xs| as real * c * c
    ensures Scatter(xs) == 0.0
  {
    if xs != [] {
      ConstantHasNoScatter(xs[..|xs| - 1], c);
      var n := |xs| as real;
      assert Sum(xs) * Sum(xs) / n == n * c * c;
    }
  }

  /** Some two readings differ. */
  predicate Varies(xs: seq<real>)
  {
    exists i, j | 0 <= i < j < |xs| :: xs[i] != xs[j]
  }

  /** Readings that are not all equal have a positive scatter. */
  lemma {:induction false} ScatterPositive(xs: seq<real>)
    requires Varies(xs)
    ensures Scatter(xs) > 0.0
  {
    var init, x := xs[..|xs| - 1], xs[|xs| - 1];
    assert init + [x] == xs;
    if Varies(init) {
      ScatterPositive(init);
      WelfordStep(init, x);
    } else {
      var i, j :| 0 <= i < j < |xs| && xs[i] != xs[j];
      var c := init[0];
      forall k | 0 <= k < |init|
        ensures init[k] == c
      {
        if k > 0 {
          assert !(init[0] != init[k]);
        }
      }
      ConstantHasNoScatter(init, c);
      MeanOfConstant(init, c);
      assert xs[i] == init[i] == c;
      forall k | 0 <= k < |init|
        ensures xs[k] == c
      {
        assert xs[k] == init[k];
      }
      ScatterGrowsStrictly(init, x);
    }
  }

  /** Readings that sum to n times `c` have the mean `c`. */
  lemma MeanOfConstant(xs: seq<real>, c: real)
    requires xs != [] && Sum(xs) == |xs| as real * c
    ensures Mean(xs) == c
  {
    var n, r := |xs| as real, Ratio(Sum(xs), |xs|);
    assert Mean(xs) == r;
    RatioTimesCount(Sum(xs), |xs|);
    assert r * n == n * c == c * n;
    CancelFactor(r, c, n);
  }

  /** The scatter is positive exactly when some two readings differ. */
  lemma ScatterPositiveExactly(xs: seq<real>)
    ensures Scatter(xs) > 0.0 <==> Varies(xs)
  {
    if Varies(xs) {
      ScatterPositive(xs);
    } else if xs != [] {
      forall k | 0 <= k < |xs|
        ensures xs[k] == xs[0]
      {
        if k > 0 {
          assert !(xs[0] != xs[k]);
        }
      }
      ConstantHasNoScatter(xs, xs[0]);
    }
  }

  /** A reading away from the mean of at least one reading makes the scatter grow strictly. */
  lemma ScatterGrowsStrictly(xs: seq<real>, x: real)
    requires xs != [] && x != Mean(xs)
    ensures Scatter(xs + [x]) > Scatter(xs)
  {
    var a, b, m := Mean(xs), Mean(xs + [x]), |xs| as real;
    WelfordNext(xs, x);
    NextMeanTimesCount(a, x, |xs|);
    StrictGrowth(a, b, m, x);
  }

  /** The growth `(x - b) * (x - a)` of `WelfordAlgebra` is positive when `x` is off the old mean. */
  lemma StrictGrowth(a: real, b: real, m: real, x: real)
    requires m >= 1.0 && b * (m + 1.0) == a * m + x && x != a
    ensures (x - b) * (x - a) > 0.0
  {
    var d := b - a;
    assert x - a == d * (m + 1.0);
    assert x - b == m * d;
    if d > 0.0 {
      SameSignProduct(d, m + 1.0);
      SameSignProduct(m, d);
    } else {
      assert d < 0.0;
      SameSignProduct(-d, m + 1.0);
      SameSignProduct(m, -d);
    }
    SameSignProduct(x - b, x - a);
  }

  lemma SameSignProduct(p: real, q: real)
    requires (p > 0.0 && q > 0.0) || (p < 0.0 && q < 0.0)
    ensures p * q > 0.0
  {
  }

  /** The scatter is never negative. */
  lemma {:induction false} ScatterNonNegative(xs: seq<real>)
    ensures Scatter(xs) >= 0.0
  {
    if xs != [] {
      var init := xs[..|xs| - 1];
      ScatterNonNegative(init);
      WelfordStep(init, xs[|xs| - 1]);
      assert init + [xs[|xs| - 1]] == xs;
    }
  }
}
