/**
 * When the MAD is zero: the mean-deviation fallback, and exactly when one changed bucket hides a flood from the
 * z-score.
 */
module ZeroMad {
  import opened Sequences
  import opened Baseline
  import opened AnomalyDetector

  function Equals(m: real): (p: real -> bool) { (x: real) => x == m }

  /** All counts but one. */
  function Others(b: seq<real>, i: nat): (s: seq<real>)
    requires i < |b|
  {
    b[..i] + b[i + 1..]
  }

  /** More than half of all counts have value m, without the one at i. */
  ghost predicate MajorityAt(b: seq<real>, i: nat, m: real)
    requires i < |b|
  {
    2 * Count(Others(b, i), Equals(m)) > |b|
  }

  lemma {:induction false} CountMonotone(s: seq<real>, p: real -> bool, q: real -> bool)
    requires forall x :: x in s && p(x) ==> q(x)
    ensures Count(s, p) <= Count(s, q)
  {
    if s != [] {
      var init, last := s[..|s| - 1], s[|s| - 1];
      assert forall x :: x in init ==> x in s;
      CountMonotone(init, p, q);
      assert last in s;
      assert p(last) ==> q(last);
    }
  }

  lemma CountOne(v: real, p: real -> bool)
    ensures Count([v], p) == if p(v) then 1 else 0
  {
    assert [v][..0] == [];
    assert Filter([v], p) == if p(v) then [v] else [];
  }

  /** Replacing one count changes each tally by that count alone. */
  lemma CountReplaced(b: seq<real>, i: nat, v: real, p: real -> bool)
    requires i < |b|
    ensures Count(b[i := v], p) == Count(Others(b, i), p) + if p(v) then 1 else 0
  {
    assert b[i := v] == (b[..i] + [v]) + b[i + 1..];
    FilterAppend(b[..i] + [v], b[i + 1..], p);
    FilterAppend(b[..i], [v], p);
    FilterAppend(b[..i], b[i + 1..], p);
    CountOne(v, p);
  }

  // ---------------------------------------------------------------------
  // MAD zero means a majority
  // ---------------------------------------------------------------------

  lemma {:induction false} ZeroDeviations(s: seq<real>, m: real)
    ensures Count(Deviations(s, m), UpTo(0.0)) == Count(s, Equals(m))
  {
    if s != [] {
      var n := |s| - 1;
      ZeroDeviations(s[..n], m);
      assert Deviations(s, m)[..n] == Deviations(s[..n], m);
    }
  }

  lemma DeviationsNonNegative(s: seq<real>, m: real)
    ensures forall k :: 0 <= k < |Deviations(s, m)| ==> Deviations(s, m)[k] >= 0.0
  {
  }

  /** A majority of equal counts is the median, with MAD zero. */
  lemma MajorityIsMedian(s: seq<real>, m: real)
    requires 2 * Count(s, Equals(m)) > |s|
    ensures Median(s) == m && Median(Deviations(s, m)) == 0.0
  {
    CountMonotone(s, Equals(m), UpTo(m));
    CountMonotone(s, Equals(m), DownTo(m));
    MedianUpTo(s, m);
    MedianDownTo(s, m);
    ZeroDeviations(s, m);
    MedianUpTo(Deviations(s, m), 0.0);
    DeviationMedianNonNegative(s, m);
  }

  /** In an ascending list whose element n is at most h, more than n elements are. */
  lemma SortedCount(s: seq<real>, h: real, n: nat)
    requires Ordered(s, AtMost) && n < |s| && s[n] <= h
    ensures Count(s, UpTo(h)) > n
  {
    forall x | x in s[..n + 1] ensures UpTo(h)(x) {
      var i :| 0 <= i < n + 1 && s[i] == x;
      assert i < n ==> AtMost(s[i], s[n]);
    }
    FilterAll(s[..n + 1], UpTo(h));
    CountSplit(s, n + 1, UpTo(h));
  }

  lemma MiddleZero(s: seq<real>)
    requires |s| > 0 && Ordered(s, AtMost) && Middle(s) == 0.0 && forall k :: 0 <= k < |s| ==> s[k] >= 0.0
    ensures 2 * Count(s, UpTo(0.0)) > |s|
  {
    SortedCount(s, 0.0, |s| / 2);
  }

  lemma MedianZero(s: seq<real>)
    requires |s| > 0 && Median(s) == 0.0 && forall k :: 0 <= k < |s| ==> s[k] >= 0.0
    ensures 2 * Count(s, UpTo(0.0)) > |s|
  {
    SortFacts(s);
    var sorted := Sort(s, AtMost);
    forall k | 0 <= k < |sorted| ensures sorted[k] >= 0.0 {
      SortMember(s, AtMost, sorted[k]);
      assert sorted[k] in sorted;
      var j :| 0 <= j < |s| && s[j] == sorted[k];
    }
    MiddleZero(sorted);
  }

  /** And a zero MAD means such a majority. */
  lemma ZeroMadMajority(s: seq<real>)
    requires |s| > 0 && Mad(s) == 0.0
    ensures 2 * Count(s, Equals(Median(s))) > |s|
  {
    DeviationsNonNegative(s, Median(s));
    MedianZero(Deviations(s, Median(s)));
    ZeroDeviations(s, Median(s));
  }

  // ---------------------------------------------------------------------
  // The mean deviation
  // ---------------------------------------------------------------------

  lemma {:induction false} TotalBounds(s: seq<real>, d: real)
    requires forall k :: 0 <= k < |s| ==> 0.0 <= s[k] <= d
    ensures 0.0 <= Total(s) <= d * |s| as real
  {
    if s != [] {
      TotalBounds(s[..|s| - 1], d);
      assert |s| as real == (|s| - 1) as real + 1.0;
    }
  }

  lemma {:induction false} TotalAtLeast(s: seq<real>, i: nat)
    requires i < |s| && forall k :: 0 <= k < |s| ==> s[k] >= 0.0
    ensures Total(s) >= s[i]
  {
    var n := |s| - 1;
    if i < n {
      TotalAtLeast(s[..n], i);
    } else {
      TotalNonNegative(s[..n]);
    }
  }

  lemma {:induction false} TotalNonNegative(s: seq<real>)
    requires forall k :: 0 <= k < |s| ==> s[k] >= 0.0
    ensures Total(s) >= 0.0
  {
    if s != [] {
      TotalNonNegative(s[..|s| - 1]);
    }
  }

  /** Counts within [lo, hi] deviate from a value there by at most the width, on average too. */
  lemma MeanDeviationBound(b: seq<real>, m: real, lo: real, hi: real)
    requires |b| > 0 && Between(b, lo, hi) && lo <= m <= hi
    ensures Total(Deviations(b, m)) / |b| as real <= hi - lo
  {
    var ds, n := Deviations(b, m), |b| as real;
    forall k | 0 <= k < |ds| ensures 0.0 <= ds[k] <= hi - lo {
      assert b[k] in b;
    }
    TotalBounds(ds, hi - lo);
    DivideBack(Total(ds), hi - lo, n);
  }

  lemma DivideBack(t: real, d: real, n: real)
    requires n > 0.0 && t <= d * n
    ensures t / n <= d
  {
  }

  // ---------------------------------------------------------------------
  // Hiding a flood
  // ---------------------------------------------------------------------

  /** The statistics after a majority bucket baseline gets v at position i. */
  lemma MajorityStats(b: seq<real>, i: nat, m: real, v: real)
    requires i < |b| && MajorityAt(b, i, m)
    ensures var s := Stats(b[i := v]);
      s.median == m && s.mad == 0.0 && s.sampleSize == |b| && s.meanAbsDev >= Abs(v - m) / |b| as real
  {
    var b' := b[i := v];
    CountReplaced(b, i, v, Equals(m));
    MajorityIsMedian(b', m);
    var ds := Deviations(b', m);
    DeviationsNonNegative(b', m);
    TotalAtLeast(ds, i);
    DivideMonotone(ds[i], Total(ds), |b| as real);
  }

  /** With MAD 0 a large mean deviation makes the score small. */
  lemma ScoreBelow(s: BaselineStats, x: real, eps: real, sqrt: real -> real)
    requires s.mad == 0.0 && s.meanAbsDev > 0.0 && x > s.median && MAD_SCALE * (x - s.median) < eps * s.meanAbsDev
    ensures ModifiedZScore(x, s, sqrt) < eps
  {
    var n := MAD_SCALE * (x - s.median);
    DivideSmaller(n, s.meanAbsDev, Spread(s, sqrt));
    QuotientBelow(n, s.meanAbsDev, eps);
  }

  lemma Enough(n: real, eps: real) returns (need: real)
    requires n > 0.0 && eps > 0.0
    ensures need > 0.0 && n < eps * need
  {
    need := n / eps + 1.0;
    assert eps * (n / eps) == n;
    DivideMonotone(0.0, n, eps);
  }

  /** A whole number whose distance from c is at least n * need. */
  lemma SpikeFor(n: real, c: real, need: real) returns (v: nat)
    requires n > 0.0 && need > 0.0
    ensures v as real > c && (v as real - c) / n >= need
  {
    var target := Max(c + n * need, 0.0);
    v := target.Floor + 1;
    assert n * need > 0.0;
    DivideUp(v as real - c, need, n);
  }

  /** Some signup count in bucket i makes the score of x smaller than eps. */
  ghost predicate CanHide(b: seq<real>, i: nat, x: real, eps: real, sqrt: real -> real)
    requires i < |b|
  {
    exists v: nat :: ScoreWith(b, i, v, x, sqrt) < eps
  }

  /** The score of x against the baseline with v in bucket i. */
  function ScoreWith(b: seq<real>, i: nat, v: nat, x: real, sqrt: real -> real): (z: real)
    requires i < |b|
  {
    ModifiedZScore(x, Stats(b[i := v as real]), sqrt)
  }

  /**
   * If more than half of the counts are equal without bucket i, one signup count there hides any larger count from
   * the z-score.
   */
  lemma MeanFallbackBreaks(b: seq<real>, i: nat, m: real, x: real, eps: real, sqrt: real -> real) returns (v: nat)
    requires i < |b| && MajorityAt(b, i, m) && x > m && eps > 0.0
    ensures ScoreWith(b, i, v, x, sqrt) < eps
  {
    var need := Enough(MAD_SCALE * (x - m), eps);
    v := SpikeFor(|b| as real, m, need);
    SpikedStats(b, i, m, v as real, need);
    HidesWith(Stats(b[i := v as real]), m, x, need, eps, sqrt);
  }

  lemma SpikedStats(b: seq<real>, i: nat, m: real, v: real, need: real)
    requires i < |b| && MajorityAt(b, i, m) && v > m && (v - m) / |b| as real >= need
    ensures var s := Stats(b[i := v]); s.median == m && s.mad == 0.0 && s.meanAbsDev >= need
  {
    MajorityStats(b, i, m, v);
    assert Abs(v - m) == v - m;
  }

  lemma HidesWith(s: BaselineStats, m: real, x: real, need: real, eps: real, sqrt: real -> real)
    requires s.median == m && s.mad == 0.0 && s.meanAbsDev >= need > 0.0 && x > m
    requires eps > 0.0 && MAD_SCALE * (x - m) < eps * need
    ensures ModifiedZScore(x, s, sqrt) < eps
  {
    ScaleUp(eps, need, s.meanAbsDev);
    ScoreBelow(s, x, eps, sqrt);
  }

  lemma ScaleUp(eps: real, a: real, b: real)
    requires eps > 0.0 && a <= b
    ensures eps * a <= eps * b
  {
  }

  /** A spread of at most `worst` keeps the score up. */
  lemma ScoreFloor(s: BaselineStats, hi: real, worst: real, x: real, sqrt: real -> real)
    requires s.sampleSize > 0 && s.median <= hi < x && Spread(s, sqrt) <= worst && worst > 0.0
    ensures ModifiedZScore(x, s, sqrt) >= Min(MAD_SCALE * (x - hi) / worst, MAX_SCORE)
  {
    SpreadNonNegative(s, sqrt);
    DivideMonotone(MAD_SCALE * (x - hi), MAD_SCALE * (x - s.median), worst);
    if Spread(s, sqrt) > 0.0 {
      DivideSmaller(MAD_SCALE * (x - s.median), Spread(s, sqrt), worst);
    }
  }

  /** The widest spread that a baseline within [lo, hi] but for one bucket can have, unless others form a majority. */
  function WorstSpread(lo: real, hi: real, sqrt: real -> real): (w: real) {
    Max(MEAN_AD_SCALE * (hi - lo), PoissonSpreadFloor(hi, sqrt))
  }

  lemma {:induction false} FewChanged(b: seq<real>, i: nat, u: real, v: real)
    requires i < |b|
    ensures Changed(b[i := u], b[i := v]) <= 1
  {
    var n := |b| - 1;
    if i == n {
      assert b[i := u][..n] == b[..n] && b[i := v][..n] == b[..n];
      ChangedSelf(b[..n]);
    } else {
      FewChanged(b[..n], i, u, v);
      assert b[i := u][..n] == b[..n][i := u] && b[i := v][..n] == b[..n][i := v];
    }
  }

  lemma {:induction false} ChangedSelf(s: seq<real>)
    ensures Changed(s, s) == 0
  {
    if s != [] {
      ChangedSelf(s[..|s| - 1]);
    }
  }

  lemma BetweenReplaced(b: seq<real>, i: nat, u: real, lo: real, hi: real)
    requires i < |b| && Between(Others(b, i), lo, hi) && lo <= u <= hi
    ensures Between(b[i := u], lo, hi)
  {
    var b', others := b[i := u], Others(b, i);
    forall x | x in b' ensures lo <= x <= hi {
      var j :| 0 <= j < |b'| && b'[j] == x;
      if j != i {
        assert others[if j < i then j else j - 1] == x;
        assert x in others;
      }
    }
  }

  lemma RangeNotEmpty(s: seq<real>, lo: real, hi: real)
    requires s != [] && Between(s, lo, hi)
    ensures lo <= hi
  {
    assert s[0] in s;
    assert lo <= s[0] <= hi;
  }

  /** One value in one of at least three buckets moves neither median nor MAD out of the others' range. */
  lemma OneBucketRobust(b: seq<real>, i: nat, v: real, lo: real, hi: real)
    requires i < |b| && |b| >= 3 && Between(Others(b, i), lo, hi)
    ensures var s := Stats(b[i := v]); lo <= s.median <= hi && 0.0 <= s.mad <= hi - lo && s.sampleSize == |b|
  {
    RangeNotEmpty(Others(b, i), lo, hi);
    BetweenReplaced(b, i, lo, lo, hi);
    FewChanged(b, i, lo, v);
    StatsRobust(b[i := lo], b[i := v], lo, hi);
  }

  /** Without a majority elsewhere, a zero MAD puts the new value itself within the range. */
  lemma ZeroMadInside(b: seq<real>, i: nat, v: real, lo: real, hi: real)
    requires i < |b| && |b| >= 3 && Between(Others(b, i), lo, hi) && Stats(b[i := v]).mad == 0.0
    requires forall m :: !MajorityAt(b, i, m)
    ensures lo <= v <= hi
  {
    var b' := b[i := v];
    OneBucketRobust(b, i, v, lo, hi);
    ZeroMadMajority(b');
    CountReplaced(b, i, v, Equals(Median(b')));
    assert !MajorityAt(b, i, Median(b'));
  }

  lemma SpreadInside(b: seq<real>, i: nat, v: real, lo: real, hi: real, sqrt: real -> real)
    requires i < |b| && |b| >= 3 && Between(Others(b, i), lo, hi) && Rising(sqrt)
    requires forall m :: !MajorityAt(b, i, m)
    ensures Spread(Stats(b[i := v]), sqrt) <= WorstSpread(lo, hi, sqrt)
  {
    var s := Stats(b[i := v]);
    OneBucketRobust(b, i, v, lo, hi);
    if s.mad == 0.0 {
      ZeroMadInside(b, i, v, lo, hi);
      BetweenReplaced(b, i, v, lo, hi);
      MeanDeviationBound(b[i := v], s.median, lo, hi);
    }
    SpreadAtMost(s, lo, hi, sqrt);
  }

  lemma SpreadAtMost(s: BaselineStats, lo: real, hi: real, sqrt: real -> real)
    requires Rising(sqrt) && lo <= s.median <= hi && 0.0 <= s.mad <= hi - lo &&
             (s.mad == 0.0 ==> s.meanAbsDev <= hi - lo)
    ensures Spread(s, sqrt) <= WorstSpread(lo, hi, sqrt)
  {
    assert sqrt(Max(s.median, 0.0)) <= sqrt(Max(hi, 0.0));
    assert MEAN_AD_SCALE * (hi - lo) >= hi - lo;
  }

  lemma AllEqualMajority(b: seq<real>, i: nat, m: real)
    requires i < |b| && |b| >= 3 && Between(Others(b, i), m, m)
    ensures MajorityAt(b, i, m)
  {
    FilterAll(Others(b, i), Equals(m));
  }

  /** No majority, so the others are not all equal. */
  lemma RangeHasWidth(b: seq<real>, i: nat, lo: real, hi: real)
    requires i < |b| && |b| >= 3 && Between(Others(b, i), lo, hi) && forall m :: !MajorityAt(b, i, m)
    ensures lo < hi
  {
    RangeNotEmpty(Others(b, i), lo, hi);
    if lo == hi {
      AllEqualMajority(b, i, lo);
    }
  }

  lemma ScoreAbove(b: seq<real>, i: nat, v: real, lo: real, hi: real, worst: real, x: real, sqrt: real -> real)
    requires i < |b| && |b| >= 3 && Between(Others(b, i), lo, hi) && x > hi && Rising(sqrt)
    requires (forall m :: !MajorityAt(b, i, m)) && worst == WorstSpread(lo, hi, sqrt) > 0.0
    ensures ModifiedZScore(x, Stats(b[i := v]), sqrt) >= Min(MAD_SCALE * (x - hi) / worst, MAX_SCORE)
  {
    OneBucketRobust(b, i, v, lo, hi);
    SpreadInside(b, i, v, lo, hi, sqrt);
    ScoreFloor(Stats(b[i := v]), hi, worst, x, sqrt);
  }

  lemma ScoreStaysUp(b: seq<real>, i: nat, lo: real, hi: real, x: real, sqrt: real -> real) returns (eps: real)
    requires i < |b| && |b| >= 3 && Between(Others(b, i), lo, hi) && x > hi && Rising(sqrt)
    requires forall m :: !MajorityAt(b, i, m)
    ensures eps > 0.0 && !CanHide(b, i, x, eps, sqrt)
  {
    RangeHasWidth(b, i, lo, hi);
    var worst := WorstSpread(lo, hi, sqrt);
    eps := PositiveFloor(x - hi, worst);
    forall v: nat ensures ScoreWith(b, i, v, x, sqrt) >= eps {
      ScoreAbove(b, i, v as real, lo, hi, worst, x, sqrt);
    }
  }

  lemma PositiveFloor(d: real, worst: real) returns (eps: real)
    requires d > 0.0 && worst > 0.0
    ensures eps == Min(MAD_SCALE * d / worst, MAX_SCORE) && eps > 0.0
  {
    eps := Min(MAD_SCALE * d / worst, MAX_SCORE);
    assert MAD_SCALE * d / worst * worst == MAD_SCALE * d;
  }

  /**
   * One changed bucket can make the z-score of a flood arbitrarily small if and only if more than half of all
   * counts are equal without it.
   */
  lemma HiddenExactly(b: seq<real>, i: nat, lo: real, hi: real, x: real, sqrt: real -> real)
    requires i < |b| && |b| >= 3 && Between(Others(b, i), lo, hi) && x > hi && Rising(sqrt)
    ensures (forall eps :: eps > 0.0 ==> CanHide(b, i, x, eps, sqrt)) <==> exists m :: MajorityAt(b, i, m)
  {
    if m :| MajorityAt(b, i, m) {
      MajorityWithin(b, i, m, lo, hi);
      forall eps | eps > 0.0 ensures CanHide(b, i, x, eps, sqrt) {
        var v := MeanFallbackBreaks(b, i, m, x, eps, sqrt);
      }
    } else {
      var eps := ScoreStaysUp(b, i, lo, hi, x, sqrt);
    }
  }

  lemma MajorityWithin(b: seq<real>, i: nat, m: real, lo: real, hi: real)
    requires i < |b| && Between(Others(b, i), lo, hi) && MajorityAt(b, i, m)
    ensures lo <= m <= hi
  {
    var same := Filter(Others(b, i), Equals(m));
    assert same != [] && same[0] in same;
    FilterMember(Others(b, i), Equals(m), same[0]);
  }
}
