/** Median and median absolute deviation, and how much contamination they bear. */
module Baseline {
  import opened Sequences

  datatype BaselineStats = BaselineStats(median: real, mad: real, meanAbsDev: real, sampleSize: nat)

  predicate AtMost(x: real, y: real) { x <= y }

  /** Median of a list; 0 for the empty list. */
  function Median(values: seq<real>): (m: real) {
    if |values| == 0 then 0.0
    else
      SortMember(values, AtMost, values[0]);
      Middle(Sort(values, AtMost))
  }

  function Middle(sorted: seq<real>): (m: real)
    requires |sorted| > 0
  {
    var mid := |sorted| / 2;
    if |sorted| % 2 == 1 then sorted[mid] else (sorted[mid - 1] + sorted[mid]) / 2.0
  }

  function Abs(x: real): (r: real) { if x >= 0.0 then x else -x }

  function Deviations(counts: seq<real>, from: real): (ds: seq<real>)
    ensures |ds| == |counts|
  {
    seq(|counts|, i requires 0 <= i < |counts| => Abs(counts[i] - from))
  }

  function Total(s: seq<real>): (t: real) { if s == [] then 0.0 else Total(s[..|s| - 1]) + s[|s| - 1] }

  function Mad(counts: seq<real>): (m: real) { Median(Deviations(counts, Median(counts))) }

  /** `computeBaseline`. */
  function Stats(counts: seq<real>): (b: BaselineStats) {
    if |counts| == 0 then BaselineStats(0.0, 0.0, 0.0, 0)
    else
      var med := Median(counts);
      var ds := Deviations(counts, med);
      BaselineStats(med, Mad(counts), Total(ds) / |ds| as real, |counts|)
  }

  // ---------------------------------------------------------------------
  // The statistics, by any way of sorting
  // ---------------------------------------------------------------------

  /** The median is the middle of any ascending arrangement, or half way between the two middle values. */
  lemma MedianExactly(values: seq<real>, sorted: seq<real>)
    requires multiset(sorted) == multiset(values) && forall i, j :: 0 <= i < j < |sorted| ==> sorted[i] <= sorted[j]
    ensures |sorted| == |values|
    ensures values == [] ==> Median(values) == 0.0
    ensures |values| % 2 == 1 ==> Median(values) == sorted[(|values| - 1) / 2]
    ensures values != [] && |values| % 2 == 0 ==>
              2.0 * Median(values) == sorted[|values| / 2 - 1] + sorted[|values| / 2]
  {
    assert |sorted| == |multiset(sorted)| == |multiset(values)| == |values|;
    AtMostOrder();
    SortOrdered(values, AtMost);
    OrderedUnique(Sort(values, AtMost), sorted, AtMost);
  }

  /** The distances of the counts from m. */
  ghost predicate Distances(counts: seq<real>, m: real, distances: seq<real>) {
    && |distances| == |counts|
    && forall i :: 0 <= i < |counts| ==>
         distances[i] == if counts[i] >= m then counts[i] - m else m - counts[i]
  }

  lemma DeviationsAre(counts: seq<real>, m: real, distances: seq<real>)
    requires Distances(counts, m, distances)
    ensures Deviations(counts, m) == distances
  {
  }

  /** The median, the median of the distances from it, their mean, and the number of counts; all 0 without counts. */
  lemma StatsExactly(counts: seq<real>, m: real, distances: seq<real>)
    requires m == Median(counts) && Distances(counts, m, distances)
    ensures counts == [] ==> Stats(counts) == BaselineStats(0.0, 0.0, 0.0, 0)
    ensures counts != [] ==>
              Stats(counts) == BaselineStats(m, Median(distances), Total(distances) / |counts| as real, |counts|)
  {
    DeviationsAre(counts, m, distances);
  }

  // ---------------------------------------------------------------------
  // Where the median lies
  // ---------------------------------------------------------------------

  function UpTo(h: real): (p: real -> bool) { (x: real) => x <= h }

  function DownTo(l: real): (p: real -> bool) { (x: real) => x >= l }

  function Count(s: seq<real>, p: real -> bool): (n: nat) { |Filter(s, p)| }

  lemma AtMostOrder()
    ensures TotalPreorder(AtMost)
  {
  }

  lemma CountPermutation(s: seq<real>, t: seq<real>, p: real -> bool)
    requires multiset(s) == multiset(t)
    ensures Count(s, p) == Count(t, p)
  {
    FilterMultiset(s, p);
    FilterMultiset(t, p);
    assert multiset(Filter(s, p)) == multiset(Filter(t, p));
    assert |Filter(s, p)| == |multiset(Filter(s, p))| && |Filter(t, p)| == |multiset(Filter(t, p))|;
  }

  lemma {:induction false} CountLength(s: seq<real>, p: real -> bool)
    ensures Count(s, p) <= |s|
  {
    if s != [] {
      CountLength(s[..|s| - 1], p);
    }
  }

  lemma CountSplit(s: seq<real>, n: nat, p: real -> bool)
    requires n <= |s|
    ensures Count(s, p) == Count(s[..n], p) + Count(s[n..], p)
  {
    assert s == s[..n] + s[n..];
    FilterAppend(s[..n], s[n..], p);
  }

  /** In an ascending list, if more than n elements are at most h then element n is. */
  lemma SortedUpTo(s: seq<real>, h: real, n: nat)
    requires Ordered(s, AtMost) && n < |s| && Count(s, UpTo(h)) > n
    ensures s[n] <= h
  {
    if s[n] > h {
      forall x | x in s[n..] ensures !UpTo(h)(x) {
        var i :| 0 <= i < |s[n..]| && s[n..][i] == x;
        assert i > 0 ==> AtMost(s[n], s[n + i]);
      }
      FilterNone(s[n..], UpTo(h));
      CountSplit(s, n, UpTo(h));
      CountLength(s[..n], UpTo(h));
    }
  }

  /** If at least |s| - n elements are at least l then element n is. */
  lemma SortedDownTo(s: seq<real>, l: real, n: nat)
    requires Ordered(s, AtMost) && n < |s| && Count(s, DownTo(l)) >= |s| - n
    ensures s[n] >= l
  {
    if s[n] < l {
      forall x | x in s[..n + 1] ensures !DownTo(l)(x) {
        var i :| 0 <= i < n + 1 && s[i] == x;
        assert i < n ==> AtMost(s[i], s[n]);
      }
      FilterNone(s[..n + 1], DownTo(l));
      CountSplit(s, n + 1, DownTo(l));
      CountLength(s[n + 1..], DownTo(l));
    }
  }

  lemma SortFacts(s: seq<real>)
    ensures Ordered(Sort(s, AtMost), AtMost) && |Sort(s, AtMost)| == |s|
    ensures forall p: real -> bool :: Count(Sort(s, AtMost), p) == Count(s, p)
  {
    AtMostOrder();
    SortOrdered(s, AtMost);
    assert |Sort(s, AtMost)| == |multiset(Sort(s, AtMost))| == |multiset(s)|;
    forall p: real -> bool ensures Count(Sort(s, AtMost), p) == Count(s, p) {
      CountPermutation(Sort(s, AtMost), s, p);
    }
  }

  lemma MiddleUpTo(s: seq<real>, h: real)
    requires Ordered(s, AtMost) && 2 * Count(s, UpTo(h)) > |s| > 0
    ensures Middle(s) <= h
  {
    SortedUpTo(s, h, |s| / 2);
    assert |s| % 2 == 0 ==> AtMost(s[|s| / 2 - 1], s[|s| / 2]);
  }

  lemma MiddleDownTo(s: seq<real>, l: real)
    requires Ordered(s, AtMost) && 2 * Count(s, DownTo(l)) > |s| > 0
    ensures Middle(s) >= l
  {
    SortedDownTo(s, l, (|s| - 1) / 2);
    assert |s| % 2 == 0 ==> AtMost(s[|s| / 2 - 1], s[|s| / 2]);
  }

  lemma MiddleHalfWay(s: seq<real>, v: real, l: real)
    requires Ordered(s, AtMost) && 2 * Count(s, DownTo(v)) >= |s| > 0 && l <= v && forall x :: x in s ==> x >= l
    ensures Middle(s) >= (l + v) / 2.0
  {
    SortedDownTo(s, v, |s| / 2);
    assert |s| % 2 == 0 ==> s[|s| / 2 - 1] in s;
  }

  /** A majority at most h puts the median at most h. */
  lemma MedianUpTo(s: seq<real>, h: real)
    requires 2 * Count(s, UpTo(h)) > |s|
    ensures Median(s) <= h
  {
    CountLength(s, UpTo(h));
    SortFacts(s);
    MiddleUpTo(Sort(s, AtMost), h);
  }

  /** A majority at least l puts the median at least l. */
  lemma MedianDownTo(s: seq<real>, l: real)
    requires 2 * Count(s, DownTo(l)) > |s|
    ensures Median(s) >= l
  {
    CountLength(s, DownTo(l));
    SortFacts(s);
    MiddleDownTo(Sort(s, AtMost), l);
  }

  /** Half at least v, and all at least l, put the median at least half way up. */
  lemma MedianHalfWay(s: seq<real>, v: real, l: real)
    requires |s| > 0 && 2 * Count(s, DownTo(v)) >= |s| && l <= v && forall x :: x in s ==> x >= l
    ensures Median(s) >= (l + v) / 2.0
  {
    SortFacts(s);
    var sorted := Sort(s, AtMost);
    forall x | x in sorted ensures x >= l {
      SortMember(s, AtMost, x);
    }
    MiddleHalfWay(sorted, v, l);
  }

  // ---------------------------------------------------------------------
  // Contamination
  // ---------------------------------------------------------------------

  /** The number of positions that differ. */
  function Changed(a: seq<real>, b: seq<real>): (n: nat)
    requires |a| == |b|
    ensures n <= |a|
  {
    if a == [] then 0
    else Changed(a[..|a| - 1], b[..|b| - 1]) + if a[|a| - 1] == b[|b| - 1] then 0 else 1
  }

  ghost predicate Between(s: seq<real>, lo: real, hi: real) { forall x :: x in s ==> lo <= x <= hi }

  /** What held of every value still holds of those not changed. */
  lemma {:induction false} UnchangedCount(a: seq<real>, b: seq<real>, p: real -> bool)
    requires |a| == |b| && forall x :: x in a ==> p(x)
    ensures Count(b, p) + Changed(a, b) >= |b|
  {
    if a != [] {
      UnchangedCount(a[..|a| - 1], b[..|b| - 1], p);
      assert a[|a| - 1] in a;
    }
  }

  /** Changing fewer than half of the counts keeps the median within the original range. */
  lemma MedianRobust(a: seq<real>, b: seq<real>, lo: real, hi: real)
    requires |a| == |b| > 0 && Between(a, lo, hi) && 2 * Changed(a, b) < |a|
    ensures lo <= Median(b) <= hi
  {
    UnchangedCount(a, b, UpTo(hi));
    UnchangedCount(a, b, DownTo(lo));
    MedianUpTo(b, hi);
    MedianDownTo(b, lo);
  }

  /** The deviations of unchanged counts from a value in the range stay within its width. */
  lemma {:induction false} DeviationCount(a: seq<real>, b: seq<real>, m: real, lo: real, hi: real)
    requires |a| == |b| && Between(a, lo, hi) && lo <= m <= hi
    ensures Count(Deviations(b, m), UpTo(hi - lo)) + Changed(a, b) >= |b|
  {
    if a != [] {
      var n := |a| - 1;
      assert forall x :: x in a[..n] ==> x in a;
      DeviationCount(a[..n], b[..n], m, lo, hi);
      assert Deviations(b, m)[..n] == Deviations(b[..n], m);
      assert a[n] in a;
    }
  }

  lemma {:induction false} AllDownTo(s: seq<real>, l: real)
    requires forall x :: x in s ==> x >= l
    ensures Count(s, DownTo(l)) == |s|
  {
    FilterAll(s, DownTo(l));
  }

  lemma DeviationMedian(a: seq<real>, b: seq<real>, m: real, lo: real, hi: real)
    requires |a| == |b| > 0 && Between(a, lo, hi) && 2 * Changed(a, b) < |a| && lo <= m <= hi
    ensures Median(Deviations(b, m)) <= hi - lo
  {
    DeviationCount(a, b, m, lo, hi);
    MinorityAbove(Deviations(b, m), hi - lo, Changed(a, b));
  }

  lemma MinorityAbove(s: seq<real>, h: real, above: nat)
    requires Count(s, UpTo(h)) + above >= |s| && 2 * above < |s|
    ensures Median(s) <= h
  {
    MedianUpTo(s, h);
  }

  lemma DeviationMedianNonNegative(b: seq<real>, m: real)
    ensures Median(Deviations(b, m)) >= 0.0
  {
    AllDownTo(Deviations(b, m), 0.0);
    if |b| > 0 {
      MedianDownTo(Deviations(b, m), 0.0);
    }
  }

  /** And it keeps the MAD between 0 and the width of that range. */
  lemma MadRobust(a: seq<real>, b: seq<real>, lo: real, hi: real)
    requires |a| == |b| > 0 && Between(a, lo, hi) && 2 * Changed(a, b) < |a|
    ensures 0.0 <= Mad(b) <= hi - lo
  {
    MedianRobust(a, b, lo, hi);
    DeviationMedian(a, b, Median(b), lo, hi);
    DeviationMedianNonNegative(b, Median(b));
  }

  /** Both statements for the computed statistics. */
  lemma StatsRobust(a: seq<real>, b: seq<real>, lo: real, hi: real)
    requires |a| == |b| > 0 && Between(a, lo, hi) && 2 * Changed(a, b) < |a|
    ensures lo <= Stats(b).median <= hi && 0.0 <= Stats(b).mad <= hi - lo
  {
    MedianRobust(a, b, lo, hi);
    MadRobust(a, b, lo, hi);
  }

  // ---------------------------------------------------------------------
  // The breakdown point is exactly one half
  // ---------------------------------------------------------------------

  /** The first d values replaced. */
  function Spiked(a: seq<real>, d: nat, v: real): (b: seq<real>)
    ensures |b| == |a| && forall i :: 0 <= i < |a| ==> b[i] == if i < d then v else a[i]
  {
    seq(|a|, i requires 0 <= i < |a| => if i < d then v else a[i])
  }

  lemma {:induction false} SpikedChanged(a: seq<real>, d: nat, v: real)
    ensures Changed(a, Spiked(a, d, v)) <= d
  {
    if a != [] {
      var n := |a| - 1;
      SpikedChanged(a[..n], d, v);
      assert Spiked(a, d, v)[..n] == Spiked(a[..n], d, v);
      if n < d {
        SpikedChanged(a[..n], n, v);
        assert Spiked(a[..n], n, v) == Spiked(a[..n], d, v);
      }
    }
  }

  lemma SpikedCount(a: seq<real>, d: nat, v: real)
    requires d <= |a|
    ensures Count(Spiked(a, d, v), DownTo(v)) >= d
  {
    var b := Spiked(a, d, v);
    CountSplit(b, d, DownTo(v));
    AllDownTo(b[..d], v);
  }

  /** No change of up to d counts takes the median above `bound`. */
  ghost predicate StaysBelow(a: seq<real>, d: nat, bound: real) {
    forall b: seq<real> :: |b| == |a| && Changed(a, b) <= d ==> Median(b) <= bound
  }

  /** A burst in half of the counts can push the median past any bound. */
  lemma HalfBreaks(a: seq<real>, d: nat, lo: real, bound: real)
    requires |a| > 0 && d <= |a| <= 2 * d && (forall x :: x in a ==> x >= lo)
    ensures !StaysBelow(a, d, bound)
  {
    var v := if 2.0 * bound - lo + 2.0 >= lo then 2.0 * bound - lo + 2.0 else lo;
    var b := Spiked(a, d, v);
    SpikedChanged(a, d, v);
    SpikedCount(a, d, v);
    forall x | x in b ensures x >= lo {
      var i :| 0 <= i < |b| && b[i] == x;
      assert a[i] in a;
    }
    MedianHalfWay(b, v, lo);
    assert Median(b) > bound;
  }

  /** The median stays bounded under d changes if and only if d is less than half. */
  lemma BreakdownPoint(a: seq<real>, d: nat, lo: real, hi: real)
    requires |a| > 0 && d <= |a| && Between(a, lo, hi)
    ensures 2 * d < |a| <==> exists bound :: StaysBelow(a, d, bound)
    ensures 2 * d < |a| ==> StaysBelow(a, d, hi)
  {
    if 2 * d < |a| {
      forall b: seq<real> | |b| == |a| && Changed(a, b) <= d ensures Median(b) <= hi {
        MedianRobust(a, b, lo, hi);
      }
      assert StaysBelow(a, d, hi);
    } else {
      forall bound ensures !StaysBelow(a, d, bound) {
        HalfBreaks(a, d, lo, bound);
      }
    }
  }
}
