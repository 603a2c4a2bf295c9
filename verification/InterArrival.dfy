/** Inter-arrival statistics of a list of timestamps. */
module InterArrival {
  import opened QuickSort
  import opened Reals

  function Sum(xs: seq<real>): real {
    if xs == [] then 0.0 else Sum(xs[..|xs| - 1]) + xs[|xs| - 1]
  }

  /** Sum of squared deviations from m. */
  function Deviation(xs: seq<real>, m: real): real {
    if xs == [] then 0.0 else Deviation(xs[..|xs| - 1], m) + Square(xs[|xs| - 1] - m)
  }

  /** Differences of neighbours. */
  function Gaps(s: seq<real>): seq<real> {
    if |s| <= 1 then [] else Gaps(s[..|s| - 1]) + [s[|s| - 1] - s[|s| - 2]]
  }

  function Mean(xs: seq<real>): real
    requires xs != []
  {
    Ratio(Sum(xs), |xs| as real)
  }

  function Variance(xs: seq<real>): real
    requires xs != []
  {
    Ratio(Deviation(xs, Mean(xs)), |xs| as real)
  }

  lemma {:induction false} GapsLength(s: seq<real>)
    ensures |Gaps(s)| == if |s| <= 1 then 0 else |s| - 1
  {
    if |s| > 1 {
      GapsLength(s[..|s| - 1]);
    }
  }

  /** The gaps between the sorted timestamps. */
  function SortedGaps(ts: seq<real>): (g: seq<real>)
    requires |ts| >= 3
    ensures |g| == |ts| - 1
  {
    GapsLength(Arranged(ts));
    Gaps(Arranged(ts))
  }

  method InterArrivalStats(ts: seq<real>, sqrt: real -> real) returns (mean: real, stddev: real)
    ensures |ts| < 3 ==> mean == 0.0 && stddev == 0.0
    ensures |ts| >= 3 ==> mean == Mean(SortedGaps(ts)) && stddev == sqrt(Variance(SortedGaps(ts)))
  {
    if |ts| < 3 {
      return 0.0, 0.0;
    }
    var sorted := SortedCopy(ts);
    var intervals := Intervals(sorted);
    GapsLength(sorted);
    mean := Total(intervals);
    mean := Ratio(mean, |intervals| as real);
    var variance := SquaredDeviations(intervals, mean);
    variance := Ratio(variance, |intervals| as real);
    stddev := sqrt(variance);
  }

  method Intervals(sorted: seq<real>) returns (intervals: seq<real>)
    requires sorted != []
    ensures intervals == Gaps(sorted)
  {
    intervals := [];
    for i := 0 to |sorted| - 1
      invariant intervals == Gaps(sorted[..i + 1])
    {
      assert sorted[..i + 2][..i + 1] == sorted[..i + 1];
      intervals := intervals + [sorted[i + 1] - sorted[i]];
    }
    assert sorted[..|sorted|] == sorted;
  }

  method Total(xs: seq<real>) returns (sum: real)
    ensures sum == Sum(xs)
  {
    sum := 0.0;
    for i := 0 to |xs|
      invariant sum == Sum(xs[..i])
    {
      assert xs[..i + 1][..i] == xs[..i];
      sum := sum + xs[i];
    }
    assert xs[..|xs|] == xs;
  }

  method SquaredDeviations(xs: seq<real>, mean: real) returns (sum: real)
    ensures sum == Deviation(xs, mean)
  {
    sum := 0.0;
    for i := 0 to |xs|
      invariant sum == Deviation(xs[..i], mean)
    {
      assert xs[..i + 1][..i] == xs[..i];
      sum := sum + Square(xs[i] - mean);
    }
    assert xs[..|xs|] == xs;
  }

  function CV(ts: seq<real>, sqrt: real -> real): real {
    if |ts| < 3 || Mean(SortedGaps(ts)) == 0.0 then 0.0
    else Ratio(sqrt(Variance(SortedGaps(ts))), Mean(SortedGaps(ts)))
  }

  method CoefficientOfVariation(ts: seq<real>, sqrt: real -> real) returns (cv: real)
    ensures cv == CV(ts, sqrt)
  {
    var mean, stddev := InterArrivalStats(ts, sqrt);
    if mean == 0.0 {
      return 0.0;
    }
    cv := Ratio(stddev, mean);
  }

  // ---------- the mean gap is the span divided by n-1 ----------

  lemma {:induction false} GapsTelescope(s: seq<real>)
    requires s != []
    ensures Sum(Gaps(s)) == s[|s| - 1] - s[0]
  {
    if |s| > 1 {
      GapsTelescope(s[..|s| - 1]);
      var g := Gaps(s[..|s| - 1]);
      assert (g + [s[|s| - 1] - s[|s| - 2]])[..|g|] == g;
    }
  }

  predicate IsMin(m: real, ts: seq<real>) {
    m in ts && forall i :: 0 <= i < |ts| ==> m <= ts[i]
  }

  predicate IsMax(m: real, ts: seq<real>) {
    m in ts && forall i :: 0 <= i < |ts| ==> ts[i] <= m
  }

  lemma ArrangedEnds(ts: seq<real>)
    requires ts != []
    ensures IsMin(Arranged(ts)[0], ts) && IsMax(Arranged(ts)[|ts| - 1], ts)
  {
    var s := Arranged(ts);
    assert s[0] in multiset(ts) && s[|ts| - 1] in multiset(ts);
    forall i | 0 <= i < |ts|
      ensures s[0] <= ts[i] <= s[|ts| - 1]
    {
      assert ts[i] in multiset(s);
    }
  }

  /** The order of the timestamps does not matter to the mean: it is (max-min)/(n-1). */
  lemma MeanGapIsSpan(ts: seq<real>, min: real, max: real)
    requires |ts| >= 3 && IsMin(min, ts) && IsMax(max, ts)
    ensures Mean(SortedGaps(ts)) == Ratio(max - min, (|ts| - 1) as real)
    ensures Mean(SortedGaps(ts)) >= 0.0
  {
    ArrangedEnds(ts);
    GapsTelescope(Arranged(ts));
    assert min <= max;
    Quotient(max - min, |ts| - 1);
  }

  // ---------- the variance is that of the whole population ----------

  lemma SquareOfDifference(x: real, m: real)
    ensures Square(x - m) == Square(x - 0.0) - 2.0 * Times(m, x) + Square(m)
  {
  }

  lemma DistributeSum(m: real, x: real, y: real)
    ensures Times(m, x + y) == Times(m, x) + Times(m, y)
  {
  }

  lemma {:induction false} DeviationExpands(xs: seq<real>, m: real)
    ensures Deviation(xs, m) == Deviation(xs, 0.0) - 2.0 * Times(m, Sum(xs)) + Times(Square(m), |xs| as real)
  {
    if xs != [] {
      var n := |xs| - 1;
      DeviationExpands(xs[..n], m);
      SquareOfDifference(xs[n], m);
      DistributeSum(m, Sum(xs[..n]), xs[n]);
      DistributeSum(Square(m), n as real, 1.0);
    }
  }

  /** The variance is the mean of the squares less the square of the mean. */
  lemma VarianceIsMeanSquare(xs: seq<real>)
    requires xs != []
    ensures Variance(xs) == Ratio(Deviation(xs, 0.0), |xs| as real) - Square(Mean(xs))
  {
    DeviationExpands(xs, Mean(xs));
    CollectMean(Deviation(xs, 0.0), Sum(xs), Mean(xs), |xs| as real);
  }

  lemma CollectMean(squares: real, sum: real, m: real, n: real)
    requires n > 0.0 && m == Ratio(sum, n)
    ensures Ratio(squares - 2.0 * Times(m, sum) + Times(Square(m), n), n) == Ratio(squares, n) - Square(m)
  {
    MeanTimesSum(sum, m, n);
    SubtractRatio(squares, Square(m), n);
  }

  lemma MeanTimesSum(sum: real, m: real, n: real)
    requires n > 0.0 && m == Ratio(sum, n)
    ensures Times(m, sum) == Times(Square(m), n)
  {
    assert sum == m * n;
    assert m * (m * n) == (m * m) * n;
  }

  lemma SubtractRatio(x: real, y: real, n: real)
    requires n > 0.0
    ensures Ratio(x - Times(y, n), n) == Ratio(x, n) - y
  {
  }

  /** Only the multiset of timestamps matters. */
  lemma CVIgnoresOrder(ts: seq<real>, us: seq<real>, sqrt: real -> real)
    requires multiset(ts) == multiset(us)
    ensures CV(ts, sqrt) == CV(us, sqrt)
  {
    assert |ts| == |multiset(ts)| == |us|;
    SortedIsUnique(Arranged(ts), Arranged(us));
  }

  // ---------- sign ----------

  lemma {:induction false} DeviationNonNegative(xs: seq<real>, m: real)
    ensures Deviation(xs, m) >= 0.0
    ensures Deviation(xs, m) == 0.0 <==> forall i :: 0 <= i < |xs| ==> xs[i] == m
  {
    if xs != [] {
      var n := |xs| - 1;
      DeviationNonNegative(xs[..n], m);
      SquareZero(xs[n] - m);
      assert forall i :: 0 <= i < n ==> xs[i] == xs[..n][i];
    }
  }

  lemma Quotient(x: real, n: nat)
    requires x >= 0.0 && n > 0
    ensures Ratio(x, n as real) >= 0.0 && (Ratio(x, n as real) == 0.0 <==> x == 0.0)
  {
    RatioZero(x, n as real);
  }

  lemma VarianceZero(xs: seq<real>)
    requires xs != []
    ensures Variance(xs) >= 0.0
    ensures Variance(xs) == 0.0 <==> forall i :: 0 <= i < |xs| ==> xs[i] == Mean(xs)
  {
    DeviationNonNegative(xs, Mean(xs));
    Quotient(Deviation(xs, Mean(xs)), |xs|);
  }

  lemma SqrtZero(sqrt: real -> real, x: real)
    requires IsSqrt(sqrt) && x >= 0.0
    ensures sqrt(x) >= 0.0 && (sqrt(x) == 0.0 <==> x == 0.0)
  {
    SquareZero(sqrt(x));
  }

  lemma GapsNonNegative(s: seq<real>)
    requires Sorted(s)
    ensures forall i :: 0 <= i < |Gaps(s)| ==> Gaps(s)[i] >= 0.0
  {
    if |s| > 1 {
      GapsNonNegative(s[..|s| - 1]);
    }
  }

  lemma {:induction false} SumZero(xs: seq<real>)
    requires forall i :: 0 <= i < |xs| ==> xs[i] >= 0.0
    ensures Sum(xs) >= 0.0
    ensures Sum(xs) == 0.0 ==> forall i :: 0 <= i < |xs| ==> xs[i] == 0.0
  {
    if xs != [] {
      var n := |xs| - 1;
      SumZero(xs[..n]);
      assert forall i :: 0 <= i < n ==> xs[i] == xs[..n][i];
    }
  }

  lemma {:induction false} SumConstant(xs: seq<real>, c: real)
    requires forall i :: 0 <= i < |xs| ==> xs[i] == c
    ensures Sum(xs) == Times(|xs| as real, c)
  {
    if xs != [] {
      SumConstant(xs[..|xs| - 1], c);
      OneMore((|xs| - 1) as real, c);
    }
  }

  lemma OneMore(n: real, c: real)
    ensures Times(n + 1.0, c) == Times(n, c) + c
  {
  }

  predicate AllEqual(xs: seq<real>) {
    forall i :: 0 <= i < |xs| ==> xs[i] == xs[0]
  }

  /** All gaps equal the mean exactly when they are all equal. */
  lemma MeanOfEqual(xs: seq<real>)
    requires xs != []
    ensures AllEqual(xs) <==> forall i :: 0 <= i < |xs| ==> xs[i] == Mean(xs)
  {
    if AllEqual(xs) {
      SumConstant(xs, xs[0]);
      Divide(xs[0], |xs|);
    }
  }

  lemma Divide(c: real, n: nat)
    requires n > 0
    ensures Ratio(Times(n as real, c), n as real) == c
  {
  }

  /** Never negative; and with three or more timestamps zero exactly for a metronome, that
      is when all sorted gaps are equal. */
  lemma CVZeroForEqualGaps(ts: seq<real>, sqrt: real -> real)
    requires IsSqrt(sqrt)
    ensures CV(ts, sqrt) >= 0.0
    ensures |ts| >= 3 ==> (CV(ts, sqrt) == 0.0 <==> AllEqual(SortedGaps(ts)))
  {
    if |ts| >= 3 {
      var g := SortedGaps(ts);
      GapsNonNegative(Arranged(ts));
      SumZero(g);
      Quotient(Sum(g), |g|);
      VarianceZero(g);
      SqrtZero(sqrt, Variance(g));
      MeanOfEqual(g);
      if Mean(g) != 0.0 {
        RatioZero(sqrt(Variance(g)), Mean(g));
      }
    }
  }

  lemma RatioZero(x: real, y: real)
    requires x >= 0.0 && y > 0.0
    ensures Ratio(x, y) >= 0.0 && (Ratio(x, y) == 0.0 <==> x == 0.0)
  {
    RatioDefinition(x, y);
    if x > 0.0 && Ratio(x, y) < 0.0 {
      PositiveProduct(-Ratio(x, y), y);
    }
  }

  lemma RatioDefinition(x: real, y: real)
    requires y != 0.0
    ensures Times(Ratio(x, y), y) == x
  {
  }

  // ---------- shifting and scaling ----------

  /** c*x + d. */
  function At(x: real, c: real, d: real): real {
    Times(c, x) + d
  }

  /** c*t + d for every timestamp. */
  function Affine(ts: seq<real>, c: real, d: real): (r: seq<real>)
    ensures |r| == |ts| && forall i :: 0 <= i < |ts| ==> r[i] == At(ts[i], c, d)
  {
    seq(|ts|, i requires 0 <= i < |ts| => At(ts[i], c, d))
  }

  lemma AtOrder(x: real, y: real, c: real, d: real)
    requires c > 0.0
    ensures At(x, c, d) <= At(y, c, d) <==> x <= y
  {
    AtDifference(x, y, c, d);
    if x < y {
      PositiveProduct(c, y - x);
    } else if y < x {
      PositiveProduct(c, x - y);
      TimesNegative(c, x - y);
    }
  }

  lemma AtDifference(x: real, y: real, c: real, d: real)
    ensures At(y, c, d) - At(x, c, d) == Times(c, y - x)
  {
  }

  lemma TimesNegative(c: real, x: real)
    ensures Times(c, -x) == -Times(c, x)
  {
  }

  lemma AffineAppend(s: seq<real>, t: seq<real>, c: real, d: real)
    ensures Affine(s + t, c, d) == Affine(s, c, d) + Affine(t, c, d)
  {
  }

  lemma AffineOne(x: real, c: real, d: real)
    ensures Affine([x], c, d) == [At(x, c, d)]
  {
  }

  lemma AffineSlices(s: seq<real>, n: nat, c: real, d: real)
    requires n <= |s|
    ensures Affine(s, c, d)[..n] == Affine(s[..n], c, d) && Affine(s, c, d)[n..] == Affine(s[n..], c, d)
  {
  }

  lemma AffineSorted(s: seq<real>, c: real, d: real)
    requires c > 0.0 && Sorted(s)
    ensures Sorted(Affine(s, c, d))
  {
    forall i, j | 0 <= i <= j < |s|
      ensures Affine(s, c, d)[i] <= Affine(s, c, d)[j]
    {
      AtOrder(s[i], s[j], c, d);
    }
  }

  lemma {:induction false} InsertAffine(x: real, s: seq<real>, c: real, d: real)
    requires c > 0.0 && Sorted(s)
    ensures Sorted(Affine(s, c, d))
    ensures Affine(Insert(x, s), c, d) == Insert(At(x, c, d), Affine(s, c, d))
  {
    AffineSorted(s, c, d);
    AffineOne(x, c, d);
    if s == [] || x <= s[0] {
      AffineAppend([x], s, c, d);
      if s != [] {
        AtOrder(x, s[0], c, d);
      }
    } else {
      AtOrder(x, s[0], c, d);
      InsertAffine(x, s[1..], c, d);
      AffineSlices(s, 1, c, d);
      AffineOne(s[0], c, d);
      AffineAppend([s[0]], Insert(x, s[1..]), c, d);
    }
  }

  lemma {:induction false} ArrangedAffine(ts: seq<real>, c: real, d: real)
    requires c > 0.0
    ensures Arranged(Affine(ts, c, d)) == Affine(Arranged(ts), c, d)
  {
    if ts != [] {
      ArrangedAffine(ts[1..], c, d);
      AffineSlices(ts, 1, c, d);
      InsertAffine(ts[0], Arranged(ts[1..]), c, d);
    }
  }

  lemma {:induction false} GapsAffine(s: seq<real>, c: real, d: real)
    ensures Gaps(Affine(s, c, d)) == Affine(Gaps(s), c, 0.0)
  {
    if |s| > 1 {
      var n := |s| - 1;
      GapsAffine(s[..n], c, d);
      AffineSlices(s, n, c, d);
      AtDifference(s[n - 1], s[n], c, d);
      AffineOne(s[n] - s[n - 1], c, 0.0);
      AffineAppend(Gaps(s[..n]), [s[n] - s[n - 1]], c, 0.0);
    }
  }

  lemma Distribute(c: real, x: real, y: real)
    ensures Times(c, x + y) == Times(c, x) + Times(c, y)
  {
  }

  lemma {:induction false} SumScaled(xs: seq<real>, c: real)
    ensures Sum(Affine(xs, c, 0.0)) == Times(c, Sum(xs))
  {
    if xs != [] {
      var n := |xs| - 1;
      SumScaled(xs[..n], c);
      AffineSlices(xs, n, c, 0.0);
      Distribute(c, Sum(xs[..n]), xs[n]);
    }
  }

  lemma SquareScaled(c: real, x: real, m: real)
    ensures Square(At(x, c, 0.0) - Times(c, m)) == Times(Square(c), Square(x - m))
  {
    assert Times(c, x) - Times(c, m) == Times(c, x - m);
    var y := x - m;
    assert (c * y) * (c * y) == (c * c) * (y * y);
  }

  lemma {:induction false} DeviationScaled(xs: seq<real>, c: real, m: real)
    ensures Deviation(Affine(xs, c, 0.0), Times(c, m)) == Times(Square(c), Deviation(xs, m))
  {
    if xs != [] {
      var n := |xs| - 1;
      DeviationScaled(xs[..n], c, m);
      AffineSlices(xs, n, c, 0.0);
      SquareScaled(c, xs[n], m);
      Distribute(Square(c), Deviation(xs[..n], m), Square(xs[n] - m));
    }
  }

  lemma QuotientScaled(c: real, x: real, n: real)
    requires n != 0.0
    ensures Ratio(Times(c, x), n) == Times(c, Ratio(x, n))
  {
  }

  lemma ProductSign(x: real, y: real)
    requires x >= 0.0 && y >= 0.0
    ensures Times(x, y) >= 0.0
  {
  }

  lemma SquareOfProduct(c: real, r: real)
    ensures Square(Times(c, r)) == Times(Square(c), Square(r))
  {
    assert (c * r) * (c * r) == (c * c) * (r * r);
  }

  lemma SquareOrder(x: real, y: real)
    requires 0.0 <= x < y
    ensures Square(x) < Square(y)
  {
    PositiveProduct(y - x, y);
    ProductSign(y - x, x);
    assert y * y - x * x == (y - x) * y + (y - x) * x;
  }

  lemma RootUnique(q: real, p: real)
    requires q >= 0.0 && p >= 0.0 && Square(q) == Square(p)
    ensures q == p
  {
    if q < p {
      SquareOrder(q, p);
    } else if p < q {
      SquareOrder(p, q);
    }
  }

  /** An exact square root is unique, so it commutes with scaling by a square. */
  lemma SqrtScaled(sqrt: real -> real, c: real, x: real)
    requires IsSqrt(sqrt) && c > 0.0 && x >= 0.0
    ensures sqrt(Times(Square(c), x)) == Times(c, sqrt(x))
  {
    SquareZero(c);
    ProductSign(Square(c), x);
    ProductSign(c, sqrt(x));
    SquareOfProduct(c, sqrt(x));
    RootUnique(sqrt(Times(Square(c), x)), Times(c, sqrt(x)));
  }

  lemma RatioScaled(c: real, x: real, y: real)
    requires c > 0.0 && y != 0.0
    ensures Times(c, y) != 0.0 && Ratio(Times(c, x), Times(c, y)) == Ratio(x, y)
  {
    if y > 0.0 {
      PositiveProduct(c, y);
    } else {
      PositiveProduct(c, -y);
    }
  }

  /** Scaling all gaps by c scales their mean by c and their variance by c squared. */
  lemma StatsScaled(g: seq<real>, c: real)
    requires g != []
    ensures Mean(Affine(g, c, 0.0)) == Times(c, Mean(g))
    ensures Variance(Affine(g, c, 0.0)) == Times(Square(c), Variance(g))
  {
    SumScaled(g, c);
    QuotientScaled(c, Sum(g), |g| as real);
    DeviationScaled(g, c, Mean(g));
    QuotientScaled(Square(c), Deviation(g, Mean(g)), |g| as real);
  }

  /** Moving or uniformly stretching all timestamps leaves the coefficient unchanged. */
  lemma CVIsAffineInvariant(ts: seq<real>, c: real, d: real, sqrt: real -> real)
    requires IsSqrt(sqrt) && c > 0.0
    ensures CV(Affine(ts, c, d), sqrt) == CV(ts, sqrt)
  {
    if |ts| >= 3 {
      var g := SortedGaps(ts);
      ArrangedAffine(ts, c, d);
      GapsAffine(Arranged(ts), c, d);
      StatsScaled(g, c);
      VarianceZero(g);
      SqrtScaled(sqrt, c, Variance(g));
      if Mean(g) != 0.0 {
        RatioScaled(c, sqrt(Variance(g)), Mean(g));
      }
    }
  }
}
