/** Sums, extrema and averages over finite sequences of reals: the arithmetic
    the moving averages and the price summary are specified with. Every sum is
    defined by peeling off the LAST element, which is the order in which the
    indicator loops accumulate. */
module Series {

  function Last(s: seq<real>): real
    requires |s| > 0
  {
    s[|s| - 1]
  }

  function Init(s: seq<real>): seq<real>
    requires |s| > 0
  {
    s[..|s| - 1]
  }

  /** s[0] + ... + s[n-1] */
  function Sum(s: seq<real>): real
  {
    if |s| == 0 then 0.0 else Sum(Init(s)) + Last(s)
  }

  /** The arithmetic mean of a non-empty sequence. */
  function Mean(s: seq<real>): real
    requires |s| > 0
  {
    Sum(s) / |s| as real
  }

  /** 1·s[0] + 2·s[1] + ... + n·s[n-1]: the oldest element weighs 1, the newest n. */
  function WeightedSum(s: seq<real>): real
  {
    if |s| == 0 then 0.0 else WeightedSum(Init(s)) + Last(s) * |s| as real
  }

  /** 1 + 2 + ... + n, the sum of the weights of an n-point weighted average */
  function Triangle(n: nat): (t: real)
    ensures n > 0 ==> t >= 1.0
  {
    if n == 0 then 0.0 else Triangle(n - 1) + n as real
  }

  /** The largest element, as LINQ `Max` returns it. */
  function Max(s: seq<real>): (m: real)
    requires |s| > 0
    ensures forall k :: 0 <= k < |s| ==> s[k] <= m
    ensures exists k :: 0 <= k < |s| && s[k] == m
  {
    if |s| == 1 then s[0]
    else
      var m' := Max(Init(s));
      assert forall k :: 0 <= k < |s| - 1 ==> Init(s)[k] == s[k];
      if Last(s) > m' then Last(s) else m'
  }

  /** The smallest element, as LINQ `Min` returns it. */
  function Min(s: seq<real>): (m: real)
    requires |s| > 0
    ensures forall k :: 0 <= k < |s| ==> m <= s[k]
    ensures exists k :: 0 <= k < |s| && s[k] == m
  {
    if |s| == 1 then s[0]
    else
      var m' := Min(Init(s));
      assert forall k :: 0 <= k < |s| - 1 ==> Init(s)[k] == s[k];
      if Last(s) < m' then Last(s) else m'
  }

  ghost predicate StrictlyIncreasing(s: seq<real>) {
    forall k :: 0 <= k < |s| - 1 ==> s[k] < s[k + 1]
  }

  ghost predicate Between(s: seq<real>, lo: real, hi: real) {
    forall k :: 0 <= k < |s| ==> lo <= s[k] <= hi
  }

  /** The weights 1..n add up to n(n+1)/2. */
  lemma {:induction false} TriangleClosedForm(n: nat)
    ensures Triangle(n) == (n as real) * (n as real + 1.0) / 2.0
  {
    if n > 0 {
      TriangleClosedForm(n - 1);
    }
  }

  lemma MulLeq(a: real, b: real, c: real)
    requires a <= b && 0.0 <= c
    ensures a * c <= b * c
  {
  }

  lemma MulLess(a: real, b: real, c: real)
    requires a < b && 0.0 < c
    ensures a * c < b * c
  {
  }

  lemma MulNonNegative(p: real, q: real)
    requires 0.0 <= p && 0.0 <= q
    ensures 0.0 <= p * q
  {
  }

  /** One step of a bounded weighted accumulation. */
  lemma BoundStep(lo: real, hi: real, x: real, acc: real, t: real, w: real)
    requires lo * t <= acc <= hi * t && lo <= x <= hi && 0.0 <= w
    ensures lo * (t + w) <= acc + x * w <= hi * (t + w)
  {
    MulLeq(lo, x, w);
    MulLeq(x, hi, w);
  }

  /** If every element lies in [lo, hi], so does the mean. */
  lemma {:induction false} SumBounds(s: seq<real>, lo: real, hi: real)
    requires Between(s, lo, hi)
    ensures lo * |s| as real <= Sum(s) <= hi * |s| as real
  {
    if |s| > 0 {
      SumBounds(Init(s), lo, hi);
    }
  }

  lemma MeanBounds(s: seq<real>, lo: real, hi: real)
    requires |s| > 0 && Between(s, lo, hi)
    ensures lo <= Mean(s) <= hi
  {
    SumBounds(s, lo, hi);
    var n := |s| as real;
    assert lo * n / n == lo && hi * n / n == hi;
  }

  /** Each term of the weighted sum is bounded by lo and hi times its weight. */
  lemma {:induction false} WeightedSumBounds(s: seq<real>, lo: real, hi: real)
    requires Between(s, lo, hi)
    ensures lo * Triangle(|s|) <= WeightedSum(s) <= hi * Triangle(|s|)
  {
    if |s| > 0 {
      var n, init := |s|, Init(s);
      assert Between(init, lo, hi) by {
        forall k | 0 <= k < |init| ensures lo <= init[k] <= hi {
          assert init[k] == s[k];
        }
      }
      WeightedSumBounds(init, lo, hi);
      BoundStep(lo, hi, Last(s), WeightedSum(init), Triangle(n - 1), n as real);
    }
  }

  lemma QuotientBounds(lo: real, hi: real, x: real, d: real)
    requires d > 0.0 && lo * d <= x <= hi * d
    ensures lo <= x / d <= hi
  {
    assert lo * d / d == lo && hi * d / d == hi;
  }

  /** Dividing by a positive number keeps a strict order. */
  lemma QuotientLess(a: real, b: real, d: real)
    requires a < b && d > 0.0
    ensures a / d < b / d
  {
    var r := 1.0 / d;
    assert r > 0.0;
    MulLess(a, b, r);
    assert a / d == a * r && b / d == b * r;
  }

  /** If every element lies in [lo, hi], so does the weighted mean. */
  lemma {:induction false} WeightedMeanBounds(s: seq<real>, lo: real, hi: real)
    requires |s| > 0 && Between(s, lo, hi)
    ensures lo <= WeightedSum(s) / Triangle(|s|) <= hi
  {
    WeightedSumBounds(s, lo, hi);
    var total, weights := WeightedSum(s), Triangle(|s|);
    QuotientBounds(lo, hi, total, weights);
  }

  /** Raising every element strictly raises the weighted sum. */
  lemma {:induction false} WeightedSumStrictlyMonotone(s: seq<real>, t: seq<real>)
    requires |s| == |t| > 0
    requires forall k :: 0 <= k < |s| ==> s[k] < t[k]
    ensures WeightedSum(s) < WeightedSum(t)
  {
    var n := |s|;
    if n > 1 {
      WeightedSumStrictlyMonotone(Init(s), Init(t));
    }
    assert Last(s) * n as real < Last(t) * n as real;
  }

  /** In a strictly increasing sequence of two or more elements the mean lies
      strictly below the last element. */
  lemma MeanBelowLast(s: seq<real>)
    requires |s| >= 2 && StrictlyIncreasing(s)
    ensures Mean(s) < Last(s)
  {
    var n := |s|;
    var p := Init(s);
    assert Between(p, s[0], s[n - 2]) by {
      forall k | 0 <= k < n - 1 ensures s[0] <= p[k] <= s[n - 2] {
        IncreasingBetween(s, 0, k);
        IncreasingBetween(s, k, n - 2);
      }
    }
    SumBounds(p, s[0], s[n - 2]);
    assert s[n - 2] < Last(s);
    MulLess(s[n - 2], Last(s), (n - 1) as real);
    assert Sum(s) == Sum(p) + Last(s);
    assert Sum(p) < Last(s) * (n - 1) as real;
    assert Last(s) * (n - 1) as real + Last(s) == Last(s) * n as real;
    assert Sum(s) < Last(s) * n as real;
  }

  /** Sum is additive: adding two sequences pointwise adds their sums. */
  lemma {:induction false} SumAdd(c: seq<real>, a: seq<real>, b: seq<real>)
    requires |a| == |c| && |b| == |c|
    requires forall k :: 0 <= k < |c| ==> c[k] == a[k] + b[k]
    ensures Sum(c) == Sum(a) + Sum(b)
  {
    if |c| > 0 {
      SumAdd(Init(c), Init(a), Init(b));
    }
  }

  lemma ScaleStep(sc: real, sa: real, lc: real, la: real, p: real)
    requires sc == p * sa && lc == p * la
    ensures sc + lc == p * (sa + la)
  {
  }

  /** Sum is homogeneous: scaling every element scales the sum. */
  lemma {:induction false} SumScale(c: seq<real>, a: seq<real>, p: real)
    requires |a| == |c|
    requires forall k :: 0 <= k < |c| ==> c[k] == p * a[k]
    ensures Sum(c) == p * Sum(a)
  {
    if |c| > 0 {
      SumScale(Init(c), Init(a), p);
      ScaleStep(Sum(Init(c)), Sum(Init(a)), Last(c), Last(a), p);
    }
  }

  /** A sum of non-negative elements is non-negative. */
  lemma {:induction false} SumNonNegative(s: seq<real>)
    requires forall k :: 0 <= k < |s| ==> s[k] >= 0.0
    ensures Sum(s) >= 0.0
  {
    if |s| > 0 {
      SumNonNegative(Init(s));
    }
  }

  lemma {:induction false} IncreasingBetween(s: seq<real>, i: nat, j: nat)
    requires i <= j < |s| && StrictlyIncreasing(s)
    ensures s[i] <= s[j]
  {
    if i < j {
      IncreasingBetween(s, i, j - 1);
    }
  }
}
