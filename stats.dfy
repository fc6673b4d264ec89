/**
 * The running statistics of aggregate.go: the mean update (`updateAverage`),
 * the sum-of-squared-deviations update (`updateVariance`) and the proof that
 * folding a stream of scores with them (Welford's method) yields the exact
 * mean and sum of squared deviations, whatever the order of the stream.
 * Scores are real numbers; floating-point rounding is not modelled.
 */
module Stats {

  /** f(x) summed over the elements x of s. */
  function SumBy(s: seq<real>, f: real -> real): real
  {
    if |s| == 0 then 0.0 else SumBy(s[..|s| - 1], f) + f(s[|s| - 1])
  }

  function Sum(s: seq<real>): real
  {
    SumBy(s, x => x)
  }

  function SumSquares(s: seq<real>): real
  {
    SumBy(s, x => x * x)
  }

  /** The sum of the squared deviations of s from m. */
  function SqDev(s: seq<real>, m: real): real
  {
    SumBy(s, x => (x - m) * (x - m))
  }

  /** The arithmetic mean, 0 for no samples (the aggregate's zero value). */
  function Mean(s: seq<real>): real
  {
    if |s| == 0 then 0.0 else Sum(s) / |s| as real
  }

  /** `updateAverage`: the mean of `count` samples from the mean of the first
      `count - 1` and the last one. */
  function UpdateAverage(value: real, currentAverage: real, count: int): (r: real)
    requires count != 0
    ensures count as real * r == (count - 1) as real * currentAverage + value
  {
    currentAverage + (value - currentAverage) / count as real
  }

  /** `updateVariance`: adds (value − old mean)·(value − new mean) to the running
      sum of squared deviations. The sample count plays no part. */
  function UpdateVariance(value: real, variance: real, oldAverage: real, newAverage: real, count: int): (r: real)
    ensures r - variance == (value - oldAverage) * (value - newAverage)
  {
    variance + (value - oldAverage) * (value - newAverage)
  }

  /** `updateVariance` gives the same result whatever count it is passed. */
  lemma UpdateVarianceIgnoresCount(value: real, variance: real, oldAverage: real, newAverage: real, c1: int, c2: int)
    ensures UpdateVariance(value, variance, oldAverage, newAverage, c1)
         == UpdateVariance(value, variance, oldAverage, newAverage, c2)
  {
  }

  lemma {:induction false} SumByAppend(s: seq<real>, x: real, f: real -> real)
    ensures SumBy(s + [x], f) == SumBy(s, f) + f(x)
  {
    assert (s + [x])[..|s|] == s;
  }

  lemma {:induction false} SumByConcat(a: seq<real>, b: seq<real>, f: real -> real)
    ensures SumBy(a + b, f) == SumBy(a, f) + SumBy(b, f)
    decreases |b|
  {
    if |b| > 0 {
      var b' := b[..|b| - 1];
      assert a + b == (a + b') + [b[|b| - 1]];
      assert b == b' + [b[|b| - 1]];
      SumByConcat(a, b', f);
      SumByAppend(a + b', b[|b| - 1], f);
      SumByAppend(b', b[|b| - 1], f);
    } else {
      assert a + b == a;
    }
  }

  /** SumBy depends only on the multiset of the samples. */
  lemma {:induction false} SumByPermutation(a: seq<real>, b: seq<real>, f: real -> real)
    requires multiset(a) == multiset(b)
    ensures SumBy(a, f) == SumBy(b, f)
    decreases |a|
  {
    if |a| == 0 {
      assert |b| == |multiset(b)| == 0;
    } else {
      var x := a[|a| - 1];
      var a' := a[..|a| - 1];
      assert a == a' + [x];
      assert x in multiset(b);
      var k :| 0 <= k < |b| && b[k] == x;
      var b' := b[..k] + b[k + 1..];
      assert b == b[..k] + [x] + b[k + 1..];
      assert multiset(b) == multiset(b[..k]) + multiset{x} + multiset(b[k + 1..]);
      assert multiset(b') == multiset(b[..k]) + multiset(b[k + 1..]);
      assert multiset(a) == multiset(a') + multiset{x};
      assert multiset(a') == multiset(a) - multiset{x};
      assert multiset(b') == multiset(b) - multiset{x};
      SumByPermutation(a', b', f);
      SumByConcat(b[..k] + [x], b[k + 1..], f);
      SumByAppend(b[..k], x, f);
      SumByConcat(b[..k], b[k + 1..], f);
    }
  }

  lemma SumPermutation(a: seq<real>, b: seq<real>)
    requires multiset(a) == multiset(b)
    ensures Sum(a) == Sum(b) && SumSquares(a) == SumSquares(b)
  {
    SumByPermutation(a, b, x => x);
    SumByPermutation(a, b, x => x * x);
  }

  /** The sum of squared deviations from any point m, expanded. */
  lemma {:induction false} SqDevExpand(s: seq<real>, m: real)
    ensures SqDev(s, m) == SumSquares(s) - 2.0 * m * Sum(s) + |s| as real * m * m
  {
    if |s| > 0 {
      var s' := s[..|s| - 1];
      var x := s[|s| - 1];
      SqDevExpand(s', m);
      assert (x - m) * (x - m) == x * x - 2.0 * m * x + m * m;
      assert (|s'| as real + 1.0) * m * m == |s'| as real * m * m + m * m;
    }
  }

  /** The algebraic core of Welford's update: with t = n·m the sum of n samples
      and t1 = t + x = (n+1)·m1 the sum after adding x, the expanded sum of
      squared deviations grows by (x − m)·(x − m1). */
  lemma WelfordAlgebra(n: real, n1: real, t: real, t1: real, q: real, q1: real, x: real, m: real, m1: real,
                        d: real, d1: real)
    requires n >= 0.0 && n1 == n + 1.0 && t1 == t + x && q1 == q + x * x
    requires t == n * m && t1 == n1 * m1
    requires d == q - 2.0 * m * t + n * m * m && d1 == q1 - 2.0 * m1 * t1 + n1 * m1 * m1
    ensures d1 == d + (x - m) * (x - m1)
  {
    assert n1 * m1 * m1 == m1 * (n * m + x);
    assert 2.0 * m1 * t1 == 2.0 * m1 * (n * m + x);
    assert 2.0 * m * t == 2.0 * n * m * m;
    assert m * m1 * n1 == m * (n * m + x);
  }

  /** The mean of s times the number of samples is their sum. */
  lemma SumIsCountTimesMean(s: seq<real>)
    ensures Sum(s) == |s| as real * Mean(s)
  {
    if |s| > 0 {
      var n := |s| as real;
      assert Mean(s) == Sum(s) / n;
    }
  }

  /** The value r with k·r = b, for k ≠ 0, is b / k. */
  lemma DivideOut(k: real, r: real, b: real)
    requires k != 0.0 && k * r == b
    ensures r == b / k
  {
  }

  /** updateAverage turns the mean of s into the mean of s + [x]. */
  lemma MeanStep(s: seq<real>, x: real)
    ensures Mean(s + [x]) == UpdateAverage(x, Mean(s), |s| + 1)
  {
    assert (s + [x])[..|s|] == s;
    var c := |s| + 1;
    var u := UpdateAverage(x, Mean(s), c);
    SumIsCountTimesMean(s);
    assert c as real * u == Sum(s) + x;
    assert Sum(s + [x]) == Sum(s) + x;
    DivideOut(c as real, u, Sum(s) + x);
  }

  lemma SumsAppend(s: seq<real>, x: real)
    ensures Sum(s + [x]) == Sum(s) + x && SumSquares(s + [x]) == SumSquares(s) + x * x
  {
    assert (s + [x])[..|s|] == s;
  }

  /** updateVariance's increment: whenever m is the mean of s and m1 the mean
      of s + [x], the sum of squared deviations grows by (x − m)·(x − m1). */
  lemma SqDevStep(s: seq<real>, x: real, m: real, m1: real)
    requires Sum(s) == |s| as real * m
    requires Sum(s) + x == (|s| + 1) as real * m1
    ensures SqDev(s + [x], m1) == SqDev(s, m) + (x - m) * (x - m1)
  {
    var s1 := s + [x];
    SumsAppend(s, x);
    SqDevExpand(s, m);
    SqDevExpand(s1, m1);
    WelfordAlgebra(|s| as real, |s1| as real, Sum(s), Sum(s1), SumSquares(s), SumSquares(s1), x, m, m1,
                   SqDev(s, m), SqDev(s1, m1));
  }

  /** One step of Welford's method: from the mean and sum of squared deviations
      of s, updateAverage and updateVariance give the mean and sum of squared
      deviations of s + [x]. */
  lemma WelfordStep(s: seq<real>, x: real)
    ensures Mean(s + [x]) == UpdateAverage(x, Mean(s), |s| + 1)
    ensures SqDev(s + [x], Mean(s + [x]))
         == UpdateVariance(x, SqDev(s, Mean(s)), Mean(s), Mean(s + [x]), |s| + 1)
  {
    MeanStep(s, x);
    assert (s + [x])[..|s|] == s;
    SumIsCountTimesMean(s);
    SumIsCountTimesMean(s + [x]);
    SqDevStep(s, x, Mean(s), Mean(s + [x]));
  }

  /** The mean and the sum of squared deviations do not depend on the order in
      which the samples arrive. */
  lemma OrderInvariant(a: seq<real>, b: seq<real>)
    requires multiset(a) == multiset(b)
    ensures Mean(a) == Mean(b)
    ensures SqDev(a, Mean(a)) == SqDev(b, Mean(b))
  {
    assert |a| == |multiset(a)| == |multiset(b)| == |b|;
    SumPermutation(a, b);
    SqDevExpand(a, Mean(a));
    SqDevExpand(b, Mean(b));
  }

  /** Four scores 0.5, -0.2, 0.1, 0.9: mean 0.325, sum of squared deviations
      0.6875, so the sample variance finalize computes is 0.6875 / 3. */
  lemma FourScores()
    ensures Mean([0.5, -0.2, 0.1, 0.9]) == 0.325
    ensures SqDev([0.5, -0.2, 0.1, 0.9], 0.325) == 0.6875
  {
    var s := [0.5, -0.2, 0.1, 0.9];
    var s1, s2, s3 := [0.5], [0.5, -0.2], [0.5, -0.2, 0.1];
    assert s1[..0] == [] && s2[..1] == s1 && s3[..2] == s2 && s[..3] == s3;
    assert Sum(s1) == 0.5 && Sum(s2) == 0.3 && Sum(s3) == 0.4 && Sum(s) == 1.3;
    assert SqDev(s1, 0.325) == 0.030625 && SqDev(s2, 0.325) == 0.30625;
    assert SqDev(s3, 0.325) == 0.356875;
  }
}
