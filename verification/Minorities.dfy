/** Which bursts smaller than half of the baseline can hide a flood from the z-score rule. */
module Minorities {
  import opened Wrappers
  import opened Sequences
  import opened Baseline
  import opened AnomalyDetector
  import opened ZeroMad

  /** Signup counts are whole and not negative. */
  ghost predicate WholeCounts(s: seq<real>) { forall k :: 0 <= k < |s| ==> WholeCount(s[k]) }

  predicate WholeCount(x: real) { x >= 0.0 && x == x.Floor as real }

  /** Other signup counts in at most d of the buckets. */
  ghost predicate Contaminates(a: seq<real>, b: seq<real>, d: nat) {
    |b| == |a| && WholeCounts(b) && Changed(a, b) <= d
  }

  /** Some such change makes the score of x smaller than eps. */
  ghost predicate MinorityHides(a: seq<real>, d: nat, x: real, eps: real, sqrt: real -> real) {
    exists b :: Contaminates(a, b, d) && ModifiedZScore(x, Stats(b), sqrt) < eps
  }

  /** d - 1 changes are enough to give some value the majority. */
  ghost predicate NearMajority(a: seq<real>, d: nat, m: real) { 2 * (Count(a, Equals(m)) + d - 1) > |a| }

  // ---------------------------------------------------------------------
  // Building the majority
  // ---------------------------------------------------------------------

  lemma {:induction false} ChangedUpdate(a: seq<real>, b: seq<real>, j: nat, v: real)
    requires |a| == |b| && j < |b|
    ensures Changed(a, b[j := v]) <= Changed(a, b) + 1
  {
    var n := |a| - 1;
    if j == n {
      assert b[j := v][..n] == b[..n];
    } else {
      ChangedUpdate(a[..n], b[..n], j, v);
      assert b[j := v][..n] == b[..n][j := v];
    }
  }

  /** Overwriting another value by m adds one to its count. */
  lemma CountRaised(b: seq<real>, j: nat, m: real)
    requires j < |b| && b[j] != m
    ensures Count(b[j := m], Equals(m)) == Count(b, Equals(m)) + 1
    ensures Count(Others(b, j), Equals(m)) == Count(b, Equals(m))
  {
    CountReplaced(b, j, m, Equals(m));
    CountReplaced(b, j, b[j], Equals(m));
    assert b[j := b[j]] == b;
  }

  lemma AllOthersEqual(b: seq<real>, i: nat, m: real)
    requires i < |b| && forall j :: 0 <= j < |b| && j != i ==> b[j] == m
    ensures Count(Others(b, i), Equals(m)) == |b| - 1
  {
    var others := Others(b, i);
    forall x | x in others ensures Equals(m)(x) {
      var k :| 0 <= k < |others| && others[k] == x;
      assert others[k] == b[if k < i then k else k + 1];
    }
    FilterAll(others, Equals(m));
  }

  /** At most k buckets other than i set to m, until m has been reached k more times or everywhere else. */
  ghost predicate Raised(a: seq<real>, b: seq<real>, i: nat, m: real, k: nat) {
    && |b| == |a| && i < |a| && b[i] == a[i] && Changed(a, b) <= k &&
      (WholeCount(m) && WholeCounts(a) ==> WholeCounts(b))
    && (Count(b, Equals(m)) >= Count(a, Equals(m)) + k || Count(b, Equals(m)) >= |a| - 1)
  }

  lemma {:induction false} Raise(a: seq<real>, i: nat, m: real, k: nat) returns (b: seq<real>)
    requires i < |a| && a[i] != m
    ensures Raised(a, b, i, m, k)
  {
    if k == 0 {
      b := a;
      ChangedSelf(a);
    } else {
      var c := Raise(a, i, m, k - 1);
      b := RaiseOne(a, c, i, m, k);
    }
  }

  lemma RaiseOne(a: seq<real>, c: seq<real>, i: nat, m: real, k: nat) returns (b: seq<real>)
    requires i < |a| && a[i] != m && k > 0 && Raised(a, c, i, m, k - 1)
    ensures Raised(a, b, i, m, k)
  {
    if j :| 0 <= j < |c| && j != i && c[j] != m {
      b := c[j := m];
      CountRaised(c, j, m);
      ChangedUpdate(a, c, j, m);
    } else {
      b := c;
      AllOthersEqual(c, i, m);
      CountRaised(c, i, m);
    }
  }

  /** A near majority becomes one, without bucket i, by changing at most d - 1 other buckets. */
  lemma MakeMajority(a: seq<real>, d: nat, m: real) returns (b: seq<real>, i: nat)
    requires d >= 1 && 2 * d < |a| && NearMajority(a, d, m) && (WholeCounts(a) ==> WholeCount(m))
    ensures i < |a| && |b| == |a| && Changed(a, b) <= d - 1 && MajorityAt(b, i, m)
    ensures WholeCounts(a) ==> WholeCounts(b)
  {
    if j :| 0 <= j < |a| && a[j] != m {
      i := j;
      b := Raise(a, i, m, d - 1);
      CountRaised(b, i, m);
    } else {
      i, b := 0, a;
      ChangedSelf(a);
      AllOthersEqual(a, 0, m);
    }
  }

  lemma NearMajorityValue(a: seq<real>, d: nat, m: real) returns (k: nat)
    requires d >= 1 && 2 * d < |a| && NearMajority(a, d, m)
    ensures k < |a| && a[k] == m
  {
    var same := Filter(a, Equals(m));
    assert same != [] && same[0] in same;
    FilterMember(a, Equals(m), same[0]);
    k :| 0 <= k < |a| && a[k] == m;
  }

  lemma OneMoreChange(a: seq<real>, b: seq<real>, i: nat, v: nat, d: nat)
    requires |a| == |b| && i < |b| && d >= 1 && Changed(a, b) <= d - 1 && WholeCounts(b)
    ensures Contaminates(a, b[i := v as real], d)
  {
    ChangedUpdate(a, b, i, v as real);
    assert (v as real).Floor == v;
  }

  lemma HidesBy(a: seq<real>, d: nat, m: real, x: real, eps: real, sqrt: real -> real) returns (b: seq<real>)
    requires WholeCounts(a) && d >= 1 && 2 * d < |a| && NearMajority(a, d, m) && x > m && eps > 0.0
    ensures Contaminates(a, b, d) && ModifiedZScore(x, Stats(b), sqrt) < eps && Stats(b).median == m
  {
    var k := NearMajorityValue(a, d, m);
    var raised, i := MakeMajority(a, d, m);
    var v := MeanFallbackBreaks(raised, i, m, x, eps, sqrt);
    OneMoreChange(a, raised, i, v, d);
    MajorityStats(raised, i, m, v as real);
    b := raised[i := v as real];
  }

  // ---------------------------------------------------------------------
  // Without a near majority
  // ---------------------------------------------------------------------

  /** The changed positions that did not become m. */
  function Strays(a: seq<real>, b: seq<real>, m: real): (n: nat)
    requires |a| == |b|
  {
    if a == [] then 0
    else
      var x, y := a[|a| - 1], b[|b| - 1];
      Strays(a[..|a| - 1], b[..|b| - 1], m) + if y != x && y != m then 1 else 0
  }

  /** Each change adds at most one to the count of m, and a stray one adds nothing. */
  lemma {:induction false} CountChanged(a: seq<real>, b: seq<real>, m: real)
    requires |a| == |b|
    ensures Count(b, Equals(m)) + Strays(a, b, m) <= Count(a, Equals(m)) + Changed(a, b)
  {
    if a != [] {
      CountChanged(a[..|a| - 1], b[..|b| - 1], m);
    }
  }

  lemma {:induction false} NoStrays(a: seq<real>, b: seq<real>, m: real, j: nat)
    requires |a| == |b| && Strays(a, b, m) == 0 && j < |b|
    ensures b[j] == a[j] || b[j] == m
  {
    if j < |b| - 1 {
      NoStrays(a[..|a| - 1], b[..|b| - 1], m, j);
    }
  }

  lemma WithinRange(a: seq<real>, b: seq<real>, m: real, lo: real, hi: real)
    requires |a| == |b| && Between(a, lo, hi) && lo <= m <= hi && Strays(a, b, m) == 0
    ensures Between(b, lo, hi)
  {
    forall x | x in b ensures lo <= x <= hi {
      var j :| 0 <= j < |b| && b[j] == x;
      NoStrays(a, b, m, j);
      assert a[j] in a;
    }
  }

  /** A zero MAD after the changes means that every changed count became the majority value. */
  lemma ZeroMadWithin(a: seq<real>, b: seq<real>, d: nat, lo: real, hi: real)
    requires |a| == |b| > 0 && Between(a, lo, hi) && Changed(a, b) <= d && 2 * d < |a|
    requires (forall m :: !NearMajority(a, d, m)) && Stats(b).mad == 0.0
    ensures Between(b, lo, hi)
  {
    var m := Median(b);
    StatsRobust(a, b, lo, hi);
    ZeroMadMajority(b);
    CountChanged(a, b, m);
    assert !NearMajority(a, d, m);
    WithinRange(a, b, m, lo, hi);
  }

  lemma MinoritySpread(a: seq<real>, b: seq<real>, d: nat, lo: real, hi: real, sqrt: real -> real)
    requires |a| == |b| > 0 && Between(a, lo, hi) && Changed(a, b) <= d && 2 * d < |a| && Rising(sqrt)
    requires forall m :: !NearMajority(a, d, m)
    ensures Spread(Stats(b), sqrt) <= WorstSpread(lo, hi, sqrt)
  {
    StatsRobust(a, b, lo, hi);
    if Stats(b).mad == 0.0 {
      ZeroMadWithin(a, b, d, lo, hi);
      MeanDeviationBound(b, Stats(b).median, lo, hi);
    }
    SpreadAtMost(Stats(b), lo, hi, sqrt);
  }

  /**
   * Without a near majority no change of up to d counts pushes a flood's score below what the clean range
   * guarantees.
   */
  lemma MinorityScoreFloor(a: seq<real>, b: seq<real>, d: nat, lo: real, hi: real, x: real, sqrt: real -> real)
    requires |a| == |b| > 0 && Between(a, lo, hi) && Changed(a, b) <= d && 2 * d < |a| && Rising(sqrt) && x > hi
    requires d >= 1 && forall m :: !NearMajority(a, d, m)
    ensures WorstSpread(lo, hi, sqrt) > 0.0
    ensures ModifiedZScore(x, Stats(b), sqrt) >= Min(MAD_SCALE * (x - hi) / WorstSpread(lo, hi, sqrt), MAX_SCORE)
  {
    CleanWidth(a, d, lo, hi);
    StatsRobust(a, b, lo, hi);
    MinoritySpread(a, b, d, lo, hi, sqrt);
    ScoreFloor(Stats(b), hi, WorstSpread(lo, hi, sqrt), x, sqrt);
  }

  /** No near majority, so the clean counts are not all equal. */
  lemma CleanWidth(a: seq<real>, d: nat, lo: real, hi: real)
    requires |a| > 0 && d >= 1 && Between(a, lo, hi) && forall m :: !NearMajority(a, d, m)
    ensures lo < hi
  {
    RangeNotEmpty(a, lo, hi);
    if lo == hi {
      FilterAll(a, Equals(lo));
      assert NearMajority(a, d, lo);
    }
  }

  lemma MinorityCannotHide(a: seq<real>, d: nat, lo: real, hi: real, x: real, sqrt: real -> real) returns (eps: real)
    requires d >= 1 && 2 * d < |a| && Between(a, lo, hi) && x > hi && Rising(sqrt)
    requires forall m :: !NearMajority(a, d, m)
    ensures eps > 0.0 && !MinorityHides(a, d, x, eps, sqrt)
  {
    CleanWidth(a, d, lo, hi);
    eps := PositiveFloor(x - hi, WorstSpread(lo, hi, sqrt));
    forall b | Contaminates(a, b, d) ensures ModifiedZScore(x, Stats(b), sqrt) >= eps {
      MinorityScoreFloor(a, b, d, lo, hi, x, sqrt);
    }
  }

  /**
   * Changing up to d counts, fewer than half, can make a flood's z-score arbitrarily small if and only if d - 1
   * changes give some value the majority.
   */
  lemma MinorityHidesExactly(a: seq<real>, d: nat, lo: real, hi: real, x: real, sqrt: real -> real)
    requires WholeCounts(a) && d >= 1 && 2 * d < |a| && Between(a, lo, hi) && x > hi && Rising(sqrt)
    ensures (forall eps :: eps > 0.0 ==> MinorityHides(a, d, x, eps, sqrt)) <==> exists m :: NearMajority(a, d, m)
  {
    if m :| NearMajority(a, d, m) {
      var k := NearMajorityValue(a, d, m);
      assert a[k] in a;
      assert lo <= m <= hi;
      forall eps | eps > 0.0 ensures MinorityHides(a, d, x, eps, sqrt) {
        var b := HidesBy(a, d, m, x, eps, sqrt);
      }
    } else {
      var eps := MinorityCannotHide(a, d, lo, hi, x, sqrt);
    }
  }

  // ---------------------------------------------------------------------
  // What the report then shows
  // ---------------------------------------------------------------------

  /** The bucket clears the absolute floor and the ratio over m. */
  predicate Clears(x: SignupBucket, c: DetectorConfig, m: real) {
    x.count >= c.minCount && x.count as real >= c.ratioThreshold * Max(m, 1.0)
  }

  /** Below the z-score threshold, the ratio alone decides. */
  lemma RatioDecides(x: SignupBucket, b: BaselineStats, c: DetectorConfig, sqrt: real -> real)
    requires b.sampleSize >= c.minBaselineBuckets && ModifiedZScore(x.count as real, b, sqrt) < c.zThreshold
    ensures Anomalous(x.count, b, c, sqrt) <==> Clears(x, c, b.median)
  {
  }

  /** The series with these counts. */
  function WithCounts(series: seq<SignupBucket>, b: seq<real>): (s: seq<SignupBucket>)
    requires |b| == |series|
    ensures |s| == |series|
  {
    seq(|series|, k requires 0 <= k < |series| => series[k].(count := b[k].Floor))
  }

  lemma CountsOf(series: seq<SignupBucket>, b: seq<real>)
    requires |b| == |series| && WholeCounts(b)
    ensures Counts(WithCounts(series, b)) == b
  {
    assert forall k :: 0 <= k < |b| ==> WholeCount(b[k]);
  }

  /**
   * With a near majority for m, some change of up to d counts leaves a flood to the ratio rule: the report then shows
   * it exactly when it clears the floor and the ratio over m.
   */
  lemma HiddenUnlessRatio(series: seq<SignupBucket>, d: nat, m: real, evaluation: seq<SignupBucket>, x: SignupBucket,
                          c: DetectorConfig, sqrt: real -> real)
    returns (series': seq<SignupBucket>)
    requires WholeCounts(Counts(series)) && d >= 1 && 2 * d < |series| && NearMajority(Counts(series), d, m)
    requires |series| >= c.minBaselineBuckets && c.zThreshold > 0.0 && x in evaluation && x.count as real > m
    ensures |series'| == |series| && Contaminates(Counts(series), Counts(series'), d)
    ensures Reports(Detect(series', evaluation, c, sqrt), x) <==> Clears(x, c, m)
  {
    var b := HidesBy(Counts(series), d, m, x.count as real, c.zThreshold, sqrt);
    series' := WithCounts(series, b);
    CountsOf(series, b);
    RatioReport(series', evaluation, x, Stats(b), m, c, sqrt);
  }

  lemma RatioReport(series: seq<SignupBucket>, evaluation: seq<SignupBucket>, x: SignupBucket, s: BaselineStats,
                    m: real,
                    c: DetectorConfig, sqrt: real -> real)
    requires x in evaluation && s == Stats(Counts(series)) && s.median == m && s.sampleSize >= c.minBaselineBuckets
    requires ModifiedZScore(x.count as real, s, sqrt) < c.zThreshold
    ensures Reports(Detect(series, evaluation, c, sqrt), x) <==> Clears(x, c, m)
  {
    RatioDecides(x, s, c, sqrt);
    ReportedExactly(series, evaluation, x, c, sqrt);
  }
}
