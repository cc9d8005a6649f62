/** Signup buckets and the flood detector on top of the robust baseline. */
module AnomalyDetector {
  import opened Wrappers
  import opened Sequences
  import opened Baseline

  const MAD_SCALE: real := 0.6745
  const MEAN_AD_SCALE: real := 1.253314
  const MAX_SCORE: real := 1000.0

  datatype SignupBucket = SignupBucket(start: int, count: int)

  datatype DetectorConfig =
    DetectorConfig(bucketMs: int, zThreshold: real, ratioThreshold: real, minCount: int, minBaselineBuckets: int)

  datatype Trigger = ModifiedZ | RatioToBaseline | ColdStartBurst

  datatype SignupAnomaly = SignupAnomaly(
    bucketStart: int, bucketEnd: int, count: int, expected: real, ratio: real, score: real, critical: bool,
    triggers: seq<Trigger>)

  datatype Detection = Detection(baseline: BaselineStats, anomalies: seq<SignupAnomaly>, topScore: real)

  function Max(x: real, y: real): (m: real) { if x >= y then x else y }

  function Min(x: real, y: real): (m: real) { if x <= y then x else y }

  // ---------------------------------------------------------------------
  // The modified z-score
  // ---------------------------------------------------------------------

  function PoissonSpreadFloor(median: real, sqrt: real -> real): (x: real) { MAD_SCALE * sqrt(Max(median, 0.0)) }

  function Spread(b: BaselineStats, sqrt: real -> real): (x: real) {
    var observed := if b.mad > 0.0 then b.mad else if b.meanAbsDev > 0.0 then b.meanAbsDev * MEAN_AD_SCALE else 0.0;
    Max(observed, PoissonSpreadFloor(b.median, sqrt))
  }

  function ModifiedZScore(value: real, b: BaselineStats, sqrt: real -> real): (z: real) {
    var delta := value - b.median;
    if b.sampleSize == 0 || delta <= 0.0 then 0.0
    else if Spread(b, sqrt) == 0.0 then MAX_SCORE
    else Min((MAD_SCALE * delta) / Spread(b, sqrt), MAX_SCORE)
  }

  lemma SpreadNonNegative(b: BaselineStats, sqrt: real -> real)
    ensures Spread(b, sqrt) >= 0.0
  {
  }

  lemma DivideMonotone(x: real, y: real, d: real)
    requires d > 0.0 && x <= y
    ensures x / d <= y / d
  {
  }

  lemma QuotientBelow(n: real, d: real, eps: real)
    requires d > 0.0 && n < eps * d
    ensures n / d < eps
  {
  }

  lemma DivideUp(t: real, d: real, n: real)
    requires n > 0.0 && t >= d * n
    ensures t / n >= d
  {
  }

  /**
   * The score by its defining equation: 0 up to the median; above it 0.6745 times the distance over the spread, capped
   * at 1000. The spread is the MAD, else 1.253314 times the mean deviation, and at least 0.6745 times the root of the
   * median.
   */
  lemma ScoreExactly(value: real, b: BaselineStats, sqrt: real -> real)
    ensures
      var z, distance := ModifiedZScore(value, b, sqrt), value - b.median;
      var observed := if b.mad > 0.0 then b.mad else if b.meanAbsDev > 0.0 then 1.253314 * b.meanAbsDev else 0.0;
      var noise := 0.6745 * sqrt(if b.median >= 0.0 then b.median else 0.0);
      var spread := if observed >= noise then observed else noise;
      && (b.sampleSize == 0 || distance <= 0.0 ==> z == 0.0)
      && (b.sampleSize > 0 && distance > 0.0 ==>
            && z <= 1000.0 && (z < 1000.0 ==> z * spread == 0.6745 * distance)
            && (z == 1000.0 ==> 0.6745 * distance >= 1000.0 * spread))
  {
    var z, n, d := ModifiedZScore(value, b, sqrt), 0.6745 * (value - b.median), Spread(b, sqrt);
    SpreadNonNegative(b, sqrt);
    if d > 0.0 {
      assert n / d * d == n;
      if n < 1000.0 * d {
        QuotientBelow(n, d, 1000.0);
      } else {
        DivideUp(n, 1000.0, d);
      }
    }
  }

  /** Scores lie in [0, MAX_SCORE] and never fall as the count rises. */
  lemma ScoreMonotone(x: real, y: real, b: BaselineStats, sqrt: real -> real)
    requires x <= y
    ensures 0.0 <= ModifiedZScore(x, b, sqrt) <= ModifiedZScore(y, b, sqrt) <= MAX_SCORE
  {
    SpreadNonNegative(b, sqrt);
    var s := Spread(b, sqrt);
    if s > 0.0 {
      if x > b.median {
        DivideMonotone(0.0, MAD_SCALE * (x - b.median), s);
        DivideMonotone(MAD_SCALE * (x - b.median), MAD_SCALE * (y - b.median), s);
      } else if y > b.median {
        DivideMonotone(0.0, MAD_SCALE * (y - b.median), s);
      }
    }
  }

  // ---------------------------------------------------------------------
  // Detection
  // ---------------------------------------------------------------------

  function Counts(series: seq<SignupBucket>): (cs: seq<real>)
    ensures |cs| == |series| && forall i :: 0 <= i < |cs| ==> cs[i] == series[i].count as real
  {
    seq(|series|, i requires 0 <= i < |series| => series[i].count as real)
  }

  /** `Math.round(n * 100) / 100` */
  function Round2(x: real): (r: real) { (x * 100.0 + 0.5).Floor as real / 100.0 }

  function HasBaseline(b: BaselineStats, c: DetectorConfig): (r: bool) { b.sampleSize >= c.minBaselineBuckets }

  function Score(x: SignupBucket, b: BaselineStats, c: DetectorConfig, sqrt: real -> real): (z: real) {
    if HasBaseline(b, c) then ModifiedZScore(x.count as real, b, sqrt) else 0.0
  }

  function Ratio(x: SignupBucket, b: BaselineStats, c: DetectorConfig): (r: real) {
    x.count as real / Max(if HasBaseline(b, c) then b.median else 0.0, 1.0)
  }

  function Triggers(score: real, ratio: real, known: bool, c: DetectorConfig): (ts: seq<Trigger>) {
    if !known then [ColdStartBurst]
    else (if score >= c.zThreshold then [ModifiedZ] else []) +
         (if ratio >= c.ratioThreshold then [RatioToBaseline] else [])
  }

  function Verdict(x: SignupBucket, score: real, ratio: real, known: bool, expected: real, c: DetectorConfig)
    : (r: Option<SignupAnomaly>)
  {
    var triggers := Triggers(score, ratio, known, c);
    if x.count < c.minCount || triggers == [] then None
    else Some(SignupAnomaly(
      x.start, x.start + c.bucketMs, x.count, expected, Round2(ratio), Round2(score),
      score >= c.zThreshold * 2.0 || ratio >= c.ratioThreshold * 2.0, triggers))
  }

  /** The verdict on one evaluated bucket. */
  function Judge(x: SignupBucket, b: BaselineStats, c: DetectorConfig, sqrt: real -> real): (r: Option<SignupAnomaly>) {
    Verdict(x, Score(x, b, c, sqrt), Ratio(x, b, c), HasBaseline(b, c), if HasBaseline(b, c) then b.median else 0.0, c)
  }

  function Judged(xs: seq<SignupBucket>, b: BaselineStats, c: DetectorConfig,
                  sqrt: real -> real): (out: seq<SignupAnomaly>) {
    if xs == [] then []
    else
      var before, r := Judged(xs[..|xs| - 1], b, c, sqrt), Judge(xs[|xs| - 1], b, c, sqrt);
      if r.Some? then before + [r.value] else before
  }

  function TopScore(xs: seq<SignupBucket>, b: BaselineStats, c: DetectorConfig, sqrt: real -> real): (z: real) {
    if xs == [] then 0.0 else Max(TopScore(xs[..|xs| - 1], b, c, sqrt), Score(xs[|xs| - 1], b, c, sqrt))
  }

  /** Higher score first, then later bucket first. */
  predicate NoLessUrgent(x: SignupAnomaly, y: SignupAnomaly) {
    x.score > y.score || (x.score == y.score && x.bucketStart >= y.bucketStart)
  }

  function Detect(series: seq<SignupBucket>, evaluation: seq<SignupBucket>, c: DetectorConfig,
                  sqrt: real -> real): (d: Detection) {
    var b := Stats(Counts(series));
    Detection(b, Sort(Judged(evaluation, b, c, sqrt), NoLessUrgent), Round2(TopScore(evaluation, b, c, sqrt)))
  }

  method DetectAnomalies(series: seq<SignupBucket>, evaluation: seq<SignupBucket>, c: DetectorConfig,
                         sqrt: real -> real)
    returns (d: Detection)
    ensures d == Detect(series, evaluation, c, sqrt)
    ensures forall x :: x in evaluation ==> (Reports(d, x) <==> Anomalous(x.count, Stats(Counts(series)), c, sqrt))
    ensures forall a :: a in d.anomalies ==> Described(a, Stats(Counts(series)), c, sqrt)
  {
    var baseline := Stats(Counts(series));
    var anomalies, topScore := [], 0.0;
    var i := 0;
    while i < |evaluation|
      invariant i <= |evaluation|
      invariant anomalies == Judged(evaluation[..i], baseline, c, sqrt)
      invariant topScore == TopScore(evaluation[..i], baseline, c, sqrt)
    {
      assert evaluation[..i + 1][..i] == evaluation[..i];
      var score := Score(evaluation[i], baseline, c, sqrt);
      if score > topScore {
        topScore := score;
      }
      var r := Judge(evaluation[i], baseline, c, sqrt);
      if r.Some? {
        anomalies := anomalies + [r.value];
      }
      i := i + 1;
    }
    assert evaluation[..i] == evaluation;
    d := Detection(baseline, Sort(anomalies, NoLessUrgent), Round2(topScore));
    forall x | x in evaluation ensures Reports(d, x) <==> Anomalous(x.count, baseline, c, sqrt) {
      ReportedExactly(series, evaluation, x, c, sqrt);
    }
    ReportDescribed(series, evaluation, c, sqrt);
  }

  lemma {:induction false} JudgedMember(xs: seq<SignupBucket>, b: BaselineStats, c: DetectorConfig, sqrt: real -> real,
                                        a: SignupAnomaly)
    ensures a in Judged(xs, b, c, sqrt) <==> exists x :: x in xs && Judge(x, b, c, sqrt) == Some(a)
  {
    if xs != [] {
      JudgedMember(xs[..|xs| - 1], b, c, sqrt, a);
      DropLast(xs);
    }
  }

  /** The buckets judged to be this anomaly. */
  function JudgedAs(a: SignupAnomaly, b: BaselineStats, c: DetectorConfig,
                    sqrt: real -> real): (p: SignupBucket -> bool) {
    (x: SignupBucket) => Judge(x, b, c, sqrt) == Some(a)
  }

  lemma {:induction false} JudgedCount(xs: seq<SignupBucket>, b: BaselineStats, c: DetectorConfig, sqrt: real -> real,
                                       a: SignupAnomaly)
    ensures multiset(Judged(xs, b, c, sqrt))[a] == |Filter(xs, JudgedAs(a, b, c, sqrt))|
  {
    if xs != [] {
      JudgedCount(xs[..|xs| - 1], b, c, sqrt, a);
    }
  }

  /** The report lists each flagged bucket as often as it was evaluated, most urgent first. */
  lemma ReportExact(series: seq<SignupBucket>, evaluation: seq<SignupBucket>, c: DetectorConfig, sqrt: real -> real)
    ensures
      var d := Detect(series, evaluation, c, sqrt);
      && (forall i, j :: 0 <= i < j < |d.anomalies| ==>
            var x, y := d.anomalies[i], d.anomalies[j];
            x.score > y.score || (x.score == y.score && x.bucketStart >= y.bucketStart))
      && (forall a :: a in d.anomalies <==> exists x :: x in evaluation && Judge(x, d.baseline, c, sqrt) == Some(a))
      && (forall a :: multiset(d.anomalies)[a] == |Filter(evaluation, JudgedAs(a, d.baseline, c, sqrt))|)
  {
    var d := Detect(series, evaluation, c, sqrt);
    var judged := Judged(evaluation, d.baseline, c, sqrt);
    SortOrdered(judged, NoLessUrgent);
    forall a ensures a in d.anomalies <==> exists x :: x in evaluation && Judge(x, d.baseline, c, sqrt) == Some(a) {
      SortMember(judged, NoLessUrgent, a);
      JudgedMember(evaluation, d.baseline, c, sqrt, a);
    }
    forall a ensures multiset(d.anomalies)[a] == |Filter(evaluation, JudgedAs(a, d.baseline, c, sqrt))| {
      JudgedCount(evaluation, d.baseline, c, sqrt, a);
    }
  }

  /** The top score is the largest score of any evaluated bucket, or 0. */
  lemma {:induction false} TopScoreIsMax(xs: seq<SignupBucket>, b: BaselineStats, c: DetectorConfig, sqrt: real -> real)
    ensures TopScore(xs, b, c, sqrt) >= 0.0 && forall x :: x in xs ==> Score(x, b, c, sqrt) <= TopScore(xs, b, c, sqrt)
    ensures TopScore(xs, b, c, sqrt) == 0.0 || exists x :: x in xs && Score(x, b, c, sqrt) == TopScore(xs, b, c, sqrt)
  {
    if xs != [] {
      TopScoreIsMax(xs[..|xs| - 1], b, c, sqrt);
      DropLast(xs);
    }
  }

  // ---------------------------------------------------------------------
  // The rules, without the code's steps
  // ---------------------------------------------------------------------

  /** The report has an anomaly for the bucket. */
  ghost predicate Reports(d: Detection, x: SignupBucket) {
    exists a :: a in d.anomalies && a.bucketStart == x.start && a.count == x.count
  }

  lemma RatioExactly(count: real, median: real, threshold: real)
    ensures count / Max(median, 1.0) >= threshold <==> count >= threshold * Max(median, 1.0)
  {
    var m := Max(median, 1.0);
    assert count / m * m == count;
    if count >= threshold * m {
      DivideUp(count, threshold, m);
    } else {
      QuotientBelow(count, m, threshold);
    }
  }

  /** A count over the floor is anomalous without a baseline; with one, if its score or its ratio is too high. */
  predicate Anomalous(count: int, b: BaselineStats, c: DetectorConfig, sqrt: real -> real) {
    && count >= c.minCount
    && (b.sampleSize >= c.minBaselineBuckets ==> TooHigh(count, ModifiedZScore(count as real, b, sqrt), b.median, c))
  }

  predicate TooHigh(count: int, score: real, expected: real, c: DetectorConfig) {
    score >= c.zThreshold || count as real >= c.ratioThreshold * Max(expected, 1.0)
  }

  /** r is x to two decimals, halves up. */
  predicate ToCents(r: real, x: real) {
    r * 100.0 == (r * 100.0).Floor as real && x - 0.005 < r <= x + 0.005
  }

  /** Every field of a reported anomaly, from its count alone. */
  predicate Described(a: SignupAnomaly, b: BaselineStats, c: DetectorConfig, sqrt: real -> real) {
    if b.sampleSize >= c.minBaselineBuckets then
      Figures(a, ModifiedZScore(a.count as real, b, sqrt), b.median, c) &&
      Fired(a, ModifiedZScore(a.count as real, b, sqrt), b.median, c)
    else Figures(a, 0.0, 0.0, c) && a.triggers == [ColdStartBurst]
  }

  /** Each rule is listed exactly when it fires itself. */
  predicate Fired(a: SignupAnomaly, score: real, expected: real, c: DetectorConfig) {
    a.triggers == (if score >= c.zThreshold then [ModifiedZ] else []) +
                  (if a.count as real >= c.ratioThreshold * Max(expected, 1.0) then [RatioToBaseline] else [])
  }

  /** The end of the bucket, the rounded numbers, and `critical` from twice either threshold on. */
  predicate Figures(a: SignupAnomaly, score: real, expected: real, c: DetectorConfig) {
    && a.bucketEnd == a.bucketStart + c.bucketMs && a.expected == expected && ToCents(a.score, score)
    && ToCents(a.ratio, a.count as real / Max(expected, 1.0))
    && (a.critical <==>
          score >= 2.0 * c.zThreshold || a.count as real >= 2.0 * c.ratioThreshold * Max(expected, 1.0))
  }

  lemma RoundsToCents(x: real)
    ensures ToCents(Round2(x), x)
  {
    assert Round2(x) * 100.0 == (x * 100.0 + 0.5).Floor as real;
  }

  /** Both ratio thresholds, without the division. */
  lemma RatioRules(count: real, expected: real, threshold: real)
    ensures count / Max(expected, 1.0) >= threshold <==> count >= threshold * Max(expected, 1.0)
    ensures count / Max(expected, 1.0) >= threshold * 2.0 <==> count >= 2.0 * threshold * Max(expected, 1.0)
  {
    RatioExactly(count, expected, threshold);
    RatioExactly(count, expected, threshold * 2.0);
    assert threshold * 2.0 == 2.0 * threshold;
  }

  lemma VerdictExactly(x: SignupBucket, score: real, known: bool, expected: real, c: DetectorConfig)
    ensures
      var r := Verdict(x, score, x.count as real / Max(expected, 1.0), known, expected, c);
      && (r.Some? <==> x.count >= c.minCount && (known ==> TooHigh(x.count, score, expected, c)))
      && (r.Some? ==>
            && r.value.bucketStart == x.start && r.value.count == x.count && Figures(r.value, score, expected, c)
            && if known then Fired(r.value, score, expected, c) else r.value.triggers == [ColdStartBurst])
  {
    RatioRules(x.count as real, expected, c.ratioThreshold);
    RoundsToCents(score);
    RoundsToCents(x.count as real / Max(expected, 1.0));
  }

  /** The same for a given score. */
  lemma JudgeScored(x: SignupBucket, b: BaselineStats, c: DetectorConfig, sqrt: real -> real, score: real,
                    r: Option<SignupAnomaly>)
    requires b.sampleSize >= c.minBaselineBuckets && score == ModifiedZScore(x.count as real, b, sqrt)
    requires r == Verdict(x, score, x.count as real / Max(b.median, 1.0), true, b.median, c)
    ensures r.Some? <==> Anomalous(x.count, b, c, sqrt)
    ensures r.Some? ==> r.value.bucketStart == x.start && r.value.count == x.count && Described(r.value, b, c, sqrt)
  {
    VerdictExactly(x, score, true, b.median, c);
  }

  lemma JudgeCold(x: SignupBucket, b: BaselineStats, c: DetectorConfig, sqrt: real -> real)
    requires b.sampleSize < c.minBaselineBuckets
    ensures Judge(x, b, c, sqrt).Some? <==> Anomalous(x.count, b, c, sqrt)
    ensures Judge(x, b, c, sqrt).Some? ==>
              var a := Judge(x, b, c, sqrt).value;
              a.bucketStart == x.start && a.count == x.count && Described(a, b, c, sqrt)
  {
    VerdictExactly(x, 0.0, false, 0.0, c);
  }

  lemma JudgeExactly(x: SignupBucket, b: BaselineStats, c: DetectorConfig, sqrt: real -> real)
    ensures Judge(x, b, c, sqrt).Some? <==> Anomalous(x.count, b, c, sqrt)
    ensures Judge(x, b, c, sqrt).Some? ==>
              var a := Judge(x, b, c, sqrt).value;
              a.bucketStart == x.start && a.count == x.count && Described(a, b, c, sqrt)
  {
    if HasBaseline(b, c) {
      JudgeScored(x, b, c, sqrt, ModifiedZScore(x.count as real, b, sqrt), Judge(x, b, c, sqrt));
    } else {
      JudgeCold(x, b, c, sqrt);
    }
  }

  /** An evaluated bucket is reported exactly when its count is anomalous. */
  lemma ReportedExactly(series: seq<SignupBucket>, evaluation: seq<SignupBucket>, x: SignupBucket, c: DetectorConfig,
                        sqrt: real -> real)
    requires x in evaluation
    ensures Reports(Detect(series, evaluation, c, sqrt), x) <==> Anomalous(x.count, Stats(Counts(series)), c, sqrt)
  {
    var d := Detect(series, evaluation, c, sqrt);
    ReportExact(series, evaluation, c, sqrt);
    JudgeExactly(x, d.baseline, c, sqrt);
    if Judge(x, d.baseline, c, sqrt).Some? {
      assert Judge(x, d.baseline, c, sqrt).value in d.anomalies;
    }
    if a :| a in d.anomalies && a.bucketStart == x.start && a.count == x.count {
      var y :| y in evaluation && Judge(y, d.baseline, c, sqrt) == Some(a);
      JudgeExactly(y, d.baseline, c, sqrt);
    }
  }

  /** Everything the report says about a bucket follows from its count. */
  lemma ReportDescribed(series: seq<SignupBucket>, evaluation: seq<SignupBucket>, c: DetectorConfig,
                        sqrt: real -> real)
    ensures forall a :: a in Detect(series, evaluation, c, sqrt).anomalies ==>
                          Described(a, Stats(Counts(series)), c, sqrt)
  {
    var d := Detect(series, evaluation, c, sqrt);
    ReportExact(series, evaluation, c, sqrt);
    forall a | a in d.anomalies ensures Described(a, d.baseline, c, sqrt) {
      var y :| y in evaluation && Judge(y, d.baseline, c, sqrt) == Some(a);
      JudgeExactly(y, d.baseline, c, sqrt);
    }
  }

  /** A bucket that is reported at all is reported as often as it was evaluated. */
  lemma ReportedAsOften(series: seq<SignupBucket>, evaluation: seq<SignupBucket>, x: SignupBucket, c: DetectorConfig,
                        sqrt: real -> real) returns (a: SignupAnomaly)
    requires x in evaluation && Anomalous(x.count, Stats(Counts(series)), c, sqrt)
    ensures a.bucketStart == x.start && a.count == x.count && Described(a, Stats(Counts(series)), c, sqrt)
    ensures multiset(Detect(series, evaluation, c, sqrt).anomalies)[a] == multiset(evaluation)[x]
  {
    var b := Stats(Counts(series));
    JudgeExactly(x, b, c, sqrt);
    a := Judge(x, b, c, sqrt).value;
    ReportExact(series, evaluation, c, sqrt);
    CountEqual(evaluation, x, JudgedAs(a, b, c, sqrt));
  }

  lemma {:induction false} CountEqual(xs: seq<SignupBucket>, x: SignupBucket, p: SignupBucket -> bool)
    requires forall y :: y in xs ==> (p(y) <==> y == x)
    ensures |Filter(xs, p)| == multiset(xs)[x]
  {
    if xs != [] {
      DropLast(xs);
      CountEqual(xs[..|xs| - 1], x, p);
    }
  }

  /** The reported top score is, to two decimals, the largest score of an evaluated bucket, or 0. */
  lemma TopScoreExactly(series: seq<SignupBucket>, evaluation: seq<SignupBucket>, c: DetectorConfig,
                        sqrt: real -> real) returns (top: real)
    ensures ToCents(Detect(series, evaluation, c, sqrt).topScore, top)
    ensures |series| < c.minBaselineBuckets ==> top == 0.0
    ensures |series| >= c.minBaselineBuckets ==>
              && top >= 0.0
              && (forall x :: x in evaluation ==> ModifiedZScore(x.count as real, Stats(Counts(series)), sqrt) <= top)
              && (top == 0.0 ||
                  exists x :: x in evaluation && ModifiedZScore(x.count as real, Stats(Counts(series)), sqrt) == top)
  {
    var b := Stats(Counts(series));
    top := TopScore(evaluation, b, c, sqrt);
    RoundsToCents(top);
    TopScoreIsMax(evaluation, b, c, sqrt);
    assert b.sampleSize == |series|;
  }

  // ---------------------------------------------------------------------
  // Floods against a contaminated baseline
  // ---------------------------------------------------------------------

  lemma RatioAtLeast(count: real, median: real, hi: real, threshold: real)
    requires median <= hi && threshold >= 0.0 && count >= threshold * Max(hi, 1.0)
    ensures count / Max(median, 1.0) >= threshold
  {
    var m := Max(median, 1.0);
    assert threshold * (Max(hi, 1.0) - m) >= 0.0;
    assert count >= threshold * m;
    DivideMonotone(threshold * m, count, m);
    assert threshold * m / m == threshold;
  }

  /** A baseline of which fewer than half of the buckets were changed from counts in [lo, hi]. */
  ghost predicate Contaminated(series: seq<SignupBucket>, clean: seq<real>, lo: real, hi: real) {
    |clean| == |series| > 0 && Between(clean, lo, hi) && 2 * Changed(clean, Counts(series)) < |series|
  }

  lemma RatioFlags(x: SignupBucket, b: BaselineStats, hi: real, c: DetectorConfig, sqrt: real -> real)
    requires b.median <= hi
    requires c.ratioThreshold >= 0.0 && x.count >= c.minCount && x.count as real >= c.ratioThreshold * Max(hi, 1.0)
    ensures Judge(x, b, c, sqrt).Some?
  {
    if HasBaseline(b, c) {
      RatioAtLeast(x.count as real, b.median, hi, c.ratioThreshold);
    }
  }

  /**
   * A flood that clears the floor and the ratio over the clean maximum is reported, whatever happened to a
   * minority of the baseline.
   */
  lemma FloodCannotHide(series: seq<SignupBucket>, clean: seq<real>, lo: real, hi: real,
                        evaluation: seq<SignupBucket>, x: SignupBucket, c: DetectorConfig, sqrt: real -> real)
    requires Contaminated(series, clean, lo, hi) && x in evaluation
    requires c.ratioThreshold >= 0.0 && x.count >= c.minCount && x.count as real >= c.ratioThreshold * Max(hi, 1.0)
    ensures Reports(Detect(series, evaluation, c, sqrt), x)
  {
    StatsRobust(clean, Counts(series), lo, hi);
    RatioFlags(x, Stats(Counts(series)), hi, c, sqrt);
    ReportExact(series, evaluation, c, sqrt);
    var a := Judge(x, Stats(Counts(series)), c, sqrt).value;
    assert a in Detect(series, evaluation, c, sqrt).anomalies;
  }

  /** A bucket no busier than the clean minimum is not reported, once there is a baseline. */
  lemma QuietBucketPasses(series: seq<SignupBucket>, clean: seq<real>, lo: real, hi: real,
                          evaluation: seq<SignupBucket>, x: SignupBucket, c: DetectorConfig, sqrt: real -> real)
    requires Contaminated(series, clean, lo, hi) && |series| >= c.minBaselineBuckets
    requires c.ratioThreshold > 1.0 && c.zThreshold > 0.0 && x.count as real <= lo
    ensures !Anomalous(x.count, Stats(Counts(series)), c, sqrt)
    ensures x in evaluation ==> !Reports(Detect(series, evaluation, c, sqrt), x)
  {
    StatsRobust(clean, Counts(series), lo, hi);
    QuietCount(x.count, Stats(Counts(series)), c, sqrt);
    if x in evaluation {
      ReportedExactly(series, evaluation, x, c, sqrt);
    }
  }

  lemma QuietCount(count: int, b: BaselineStats, c: DetectorConfig, sqrt: real -> real)
    requires b.sampleSize >= c.minBaselineBuckets && count as real <= b.median
    requires c.ratioThreshold > 1.0 && c.zThreshold > 0.0
    ensures !Anomalous(count, b, c, sqrt)
  {
    BelowRatio(count as real, b.median, c.ratioThreshold);
    assert ModifiedZScore(count as real, b, sqrt) == 0.0;
    assert !TooHigh(count, 0.0, b.median, c);
  }

  lemma BelowRatio(count: real, median: real, threshold: real)
    requires count <= median && threshold > 1.0
    ensures count < threshold * Max(median, 1.0)
  {
    var m := Max(median, 1.0);
    assert (threshold - 1.0) * m > 0.0;
    assert threshold * m == (threshold - 1.0) * m + m;
  }

  // ---------------------------------------------------------------------
  // The z-score rule alone
  // ---------------------------------------------------------------------

  ghost predicate Rising(sqrt: real -> real) {
    (forall x :: x >= 0.0 ==> sqrt(x) >= 0.0) && (forall x, y :: 0.0 <= x <= y ==> sqrt(x) <= sqrt(y))
  }

  lemma SpreadBounded(b: BaselineStats, lo: real, hi: real, sqrt: real -> real)
    requires Rising(sqrt) && lo <= b.median <= hi && 0.0 < b.mad <= hi - lo
    ensures 0.0 < Spread(b, sqrt) <= Max(hi - lo, PoissonSpreadFloor(hi, sqrt))
  {
    assert sqrt(Max(b.median, 0.0)) <= sqrt(Max(hi, 0.0));
  }

  lemma DivideSmaller(x: real, d: real, e: real)
    requires x >= 0.0 && 0.0 < d <= e
    ensures x / e <= x / d
  {
    assert x / e * e == x && x / d * d == x;
    assert x / d >= 0.0;
    assert x / d * (e - d) >= 0.0;
    DivideMonotone(x, x / d * e, e);
    assert x / d * e / e == x / d;
  }

  lemma ScoreAtLeast(s: BaselineStats, lo: real, hi: real, x: real, sqrt: real -> real)
    requires s.sampleSize > 0 && Rising(sqrt) && lo <= s.median <= hi && 0.0 < s.mad <= hi - lo && x > hi
    ensures
      var worst := Max(hi - lo, PoissonSpreadFloor(hi, sqrt));
      worst > 0.0 && ModifiedZScore(x, s, sqrt) >= Min(MAD_SCALE * (x - hi) / worst, MAX_SCORE)
  {
    SpreadBounded(s, lo, hi, sqrt);
    var worst := Max(hi - lo, PoissonSpreadFloor(hi, sqrt));
    DivideMonotone(MAD_SCALE * (x - hi), MAD_SCALE * (x - s.median), worst);
    DivideSmaller(MAD_SCALE * (x - s.median), Spread(s, sqrt), worst);
  }

  /** With a positive MAD, contamination of a minority cannot push the score below what the clean range guarantees. */
  lemma ZScoreRobust(a: seq<real>, b: seq<real>, lo: real, hi: real, x: real, sqrt: real -> real)
    requires |a| == |b| > 0 && Between(a, lo, hi) && 2 * Changed(a, b) < |a|
    requires Rising(sqrt) && Stats(b).mad > 0.0 && x > hi
    ensures
      var worst := Max(hi - lo, PoissonSpreadFloor(hi, sqrt));
      worst > 0.0 && ModifiedZScore(x, Stats(b), sqrt) >= Min(MAD_SCALE * (x - hi) / worst, MAX_SCORE)
  {
    StatsRobust(a, b, lo, hi);
    ScoreAtLeast(Stats(b), lo, hi, x, sqrt);
  }
}
