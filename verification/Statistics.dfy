/** Sums and means of real sequences. */
module Statistics {

  function Sum(xs: seq<real>): real {
    if xs == [] then 0.0 else Sum(xs[..|xs| - 1]) + xs[|xs| - 1]
  }

  function Mean(xs: seq<real>): real
    requires xs != []
  {
    Sum(xs) / |xs| as real
  }

  /** `xs` written `k` times in a row. */
  function Repeat<T>(xs: seq<T>, k: nat): (r: seq<T>)
    ensures |r| == k * |xs|
  {
    if k == 0 then [] else
      assert k * |xs| == (k - 1) * |xs| + |xs|;
      Repeat(xs, k - 1) + xs
  }

  lemma {:induction false} SumConcat(xs: seq<real>, ys: seq<real>)
    ensures Sum(xs + ys) == Sum(xs) + Sum(ys)
  {
    if ys == [] {
      assert xs + ys == xs;
    } else {
      var front := ys[..|ys| - 1];
      assert (xs + ys)[..|xs + ys| - 1] == xs + front;
      SumConcat(xs, front);
    }
  }

  lemma {:induction false} SumRepeat(xs: seq<real>, k: nat)
    ensures Sum(Repeat(xs, k)) == k as real * Sum(xs)
  {
    if k > 0 {
      SumRepeat(xs, k - 1);
      SumConcat(Repeat(xs, k - 1), xs);
      assert k as real * Sum(xs) == (k - 1) as real * Sum(xs) + Sum(xs);
    }
  }

  lemma {:induction false} CancelFactor(k: real, s: real, n: real)
    requires k > 0.0 && n > 0.0
    ensures (k * s) / (k * n) == s / n
  {
    var q := s / n;
    assert q * n == s;
    assert q * (k * n) == k * s;
  }

  lemma {:induction false} RepeatIsLonger(k: nat, n: nat)
    requires k > 0
    ensures k * n >= n && (k * n) as real == k as real * n as real
  {
  }

  lemma {:induction false} RatioRepeat(k: nat, s: real, n: nat)
    requires k > 0 && n > 0
    ensures k * n > 0 && (k as real * s) / (k * n) as real == s / n as real
  {
    RepeatIsLonger(k, n);
    CancelFactor(k as real, s, n as real);
  }

  /** Repeating a block changes no mean. */
  lemma {:induction false} MeanRepeat(xs: seq<real>, k: nat)
    requires xs != [] && k > 0
    ensures Repeat(xs, k) != [] && Mean(Repeat(xs, k)) == Mean(xs)
  {
    SumRepeat(xs, k);
    RatioRepeat(k, Sum(xs), |xs|);
  }

  lemma {:induction false} SumBounds(xs: seq<real>, lo: real, hi: real)
    requires forall i :: 0 <= i < |xs| ==> lo <= xs[i] <= hi
    ensures lo * |xs| as real <= Sum(xs) <= hi * |xs| as real
  {
    if xs != [] {
      var front := xs[..|xs| - 1];
      SumBounds(front, lo, hi);
      assert lo * |xs| as real == lo * |front| as real + lo;
      assert hi * |xs| as real == hi * |front| as real + hi;
    }
  }

  lemma {:induction false} DivideBounds(s: real, n: real, lo: real, hi: real)
    requires n > 0.0 && lo * n <= s <= hi * n
    ensures lo <= s / n <= hi
  {
    var q := s / n;
    assert q * n == s;
    NoLess(lo, q, n);
    NoLess(q, hi, n);
  }

  lemma {:induction false} NoLess(a: real, b: real, n: real)
    requires n > 0.0 && a * n <= b * n
    ensures a <= b
  {
    assert (b - a) * n >= 0.0;
  }

  /** A mean lies between any bounds of its terms. */
  lemma {:induction false} MeanBounds(xs: seq<real>, lo: real, hi: real)
    requires xs != [] && forall i :: 0 <= i < |xs| ==> lo <= xs[i] <= hi
    ensures lo <= Mean(xs) <= hi
  {
    SumBounds(xs, lo, hi);
    DivideBounds(Sum(xs), |xs| as real, lo, hi);
  }

  lemma {:induction false} SumAffine(xs: seq<real>, ys: seq<real>, a: real, b: real)
    requires |xs| == |ys| && forall i :: 0 <= i < |xs| ==> ys[i] == a + b * xs[i]
    ensures Sum(ys) == a * |xs| as real + b * Sum(xs)
  {
    if xs != [] {
      var n := |xs| - 1;
      SumAffine(xs[..n], ys[..n], a, b);
      assert a * |xs| as real == a * n as real + a;
      assert b * Sum(xs) == b * Sum(xs[..n]) + b * xs[n];
    }
  }

  /** The mean commutes with an affine change of units. */
  lemma {:induction false} MeanAffine(xs: seq<real>, ys: seq<real>, a: real, b: real)
    requires xs != [] && |xs| == |ys| && forall i :: 0 <= i < |xs| ==> ys[i] == a + b * xs[i]
    ensures Mean(ys) == a + b * Mean(xs)
  {
    SumAffine(xs, ys, a, b);
    var n, q := |xs| as real, Mean(xs);
    assert q * n == Sum(xs);
    assert (a + b * q) * n == a * n + b * (q * n);
    assert Mean(ys) * n == Sum(ys);
  }

  function Gaps(xs: seq<real>, ys: seq<real>): (gaps: seq<real>)
    requires |xs| == |ys|
    ensures |gaps| == |xs| && forall i :: 0 <= i < |xs| ==> gaps[i] == xs[i] - ys[i]
  {
    seq(|xs|, i requires 0 <= i < |xs| => xs[i] - ys[i])
  }

  /** Means of terms that differ by at most `e` differ by at most `e`. */
  lemma {:induction false} MeanNear(xs: seq<real>, ys: seq<real>, e: real)
    requires xs != [] && |xs| == |ys| && forall i :: 0 <= i < |xs| ==> -e <= xs[i] - ys[i] <= e
    ensures -e <= Mean(xs) - Mean(ys) <= e
  {
    var gaps := Gaps(xs, ys);
    MeanBounds(gaps, -e, e);
    MeanDifference(xs, ys, gaps);
  }

  lemma {:induction false} DivideDifference(a: real, b: real, n: real)
    requires n > 0.0
    ensures (a - b) / n == a / n - b / n
  {
  }

  lemma {:induction false} MeanTimesCount(xs: seq<real>)
    requires xs != []
    ensures Mean(xs) * |xs| as real == Sum(xs)
  {
  }

  lemma {:induction false} SumDifference(xs: seq<real>, ys: seq<real>, gaps: seq<real>)
    requires |xs| == |ys| == |gaps| && forall i :: 0 <= i < |gaps| ==> gaps[i] == xs[i] - ys[i]
    ensures Sum(gaps) == Sum(xs) - Sum(ys)
  {
    if gaps != [] {
      var n := |gaps| - 1;
      SumDifference(xs[..n], ys[..n], gaps[..n]);
    }
  }

  /** The difference of two means of equally many terms is the mean of the differences. */
  lemma {:induction false} MeanDifference(xs: seq<real>, ys: seq<real>, gaps: seq<real>)
    requires xs != [] && |xs| == |ys| == |gaps| && forall i :: 0 <= i < |gaps| ==> gaps[i] == xs[i] - ys[i]
    ensures Mean(xs) - Mean(ys) == Mean(gaps)
  {
    SumDifference(xs, ys, gaps);
    DivideDifference(Sum(xs), Sum(ys), |xs| as real);
  }
}
