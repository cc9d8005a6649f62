/** Dense, zero-filled bucket series. */
module BucketSeries {
  import opened Sequences
  import opened AnomalyDetector

  /** The index of the bucket a time falls in. */
  function BucketIndex(t: int, width: int): (i: int)
    requires width > 0
  {
    t / width
  }

  /** `Math.floor(t / bucketMs) * bucketMs` */
  function BucketStartFor(t: int, width: int): (start: int)
    requires width > 0
    ensures start <= t < start + width && start % width == 0
  {
    MultipleRemainder(t / width, width);
    t / width * width
  }

  lemma MultipleRemainder(q: int, width: int)
    requires width > 0
    ensures q * width % width == 0
  {
    var k, r := q * width / width, q * width % width;
    assert (q - k) * width == r;
    assert q - k >= 1 ==> (q - k) * width >= width;
    assert q - k <= -1 ==> (q - k) * width <= -width;
  }

  /** What one entry adds to the bucket with the given start. */
  function Adds(start: int, width: int): (w: SignupBucket -> int)
    requires width > 0
  {
    (b: SignupBucket) => if b.count > 0 && BucketStartFor(b.start, width) == start then b.count else 0
  }

  /** What one entry adds to the buckets of [from, until). */
  function AddsWithin(from: int, until: int, width: int): (w: SignupBucket -> int)
    requires width > 0
  {
    (b: SignupBucket) => if b.count > 0 && from <= BucketStartFor(b.start, width) < until then b.count else 0
  }

  function CountAt(bs: seq<SignupBucket>, start: int, width: int): (n: int)
    requires width > 0
  {
    Sum(bs, Adds(start, width))
  }

  /** The dense series from bucket number p on. */
  function Dense(bs: seq<SignupBucket>, p: int, until: int, width: int): (series: seq<SignupBucket>)
    requires width > 0
    decreases until - p * width
  {
    if p * width >= until then []
    else [SignupBucket(p * width, CountAt(bs, p * width, width))] + Dense(bs, p + 1, until, width)
  }

  lemma NextMultiple(p: int, q: int, width: int)
    requires width > 0
    ensures (q * width >= p * width <==> q >= p) && (p + 1) * width == p * width + width
  {
    if q >= p {
      assert (q - p) * width >= 0;
    } else {
      assert (p - q) * width > 0;
    }
  }

  // ---------------------------------------------------------------------
  // densifyBuckets
  // ---------------------------------------------------------------------

  /** The map holds the total of every bucket of the window that got anything. */
  ghost predicate Tallied(counts: map<int, int>, bs: seq<SignupBucket>, first: int, until: int, width: int)
    requires width > 0
  {
    forall start :: first <= start < until ==> CountAt(bs, start, width) == if start in counts then counts[start] else 0
  }

  lemma CountAtStep(bs: seq<SignupBucket>, n: nat, start: int, width: int)
    requires width > 0 && n < |bs|
    ensures CountAt(bs[..n + 1], start, width) == CountAt(bs[..n], start, width) + Adds(start, width)(bs[n])
  {
    assert bs[..n + 1][..n] == bs[..n];
  }

  method Tally(bs: seq<SignupBucket>, first: int, until: int, width: int) returns (counts: map<int, int>)
    requires width > 0
    ensures Tallied(counts, bs, first, until, width)
  {
    counts := map[];
    var n := 0;
    while n < |bs|
      invariant n <= |bs| && Tallied(counts, bs[..n], first, until, width)
    {
      counts := TallyOne(counts, bs, n, first, until, width);
      n := n + 1;
    }
    assert bs[..n] == bs;
  }

  method TallyOne(before: map<int, int>, bs: seq<SignupBucket>, n: nat, first: int, until: int,
                  width: int) returns (counts: map<int, int>)
    requires width > 0 && n < |bs| && Tallied(before, bs[..n], first, until, width)
    ensures Tallied(counts, bs[..n + 1], first, until, width)
  {
    counts := before;
    var b := bs[n];
    var startMs := BucketStartFor(b.start, width);
    if first <= startMs < until && b.count > 0 {
      counts := before[startMs := (if startMs in before then before[startMs] else 0) + b.count];
    }
    forall start | first <= start < until
      ensures CountAt(bs[..n + 1], start, width) == if start in counts then counts[start] else 0
    {
      CountAtStep(bs, n, start, width);
    }
  }

  method DensifyBuckets(bs: seq<SignupBucket>, since: int, until: int, width: int) returns (series: seq<SignupBucket>)
    requires width > 0
    ensures series == Dense(bs, BucketIndex(since, width), until, width)
  {
    var firstStart := BucketStartFor(since, width);
    var counts := Tally(bs, firstStart, until, width);
    series := Fill(counts, bs, BucketIndex(since, width), until, width);
  }

  method Fill(counts: map<int, int>, ghost bs: seq<SignupBucket>, first: int, until: int,
              width: int) returns (series: seq<SignupBucket>)
    requires width > 0 && Tallied(counts, bs, first * width, until, width)
    ensures series == Dense(bs, first, until, width)
  {
    series := [];
    var t := first * width;
    ghost var p := first;
    while t < until
      invariant p >= first && t == p * width
      invariant series + Dense(bs, p, until, width) == Dense(bs, first, until, width)
      decreases until - t
    {
      NextMultiple(p, first, width);
      NextMultiple(first, p, width);
      series := series + [SignupBucket(t, if t in counts then counts[t] else 0)];
      t := t + width;
      p := p + 1;
    }
  }

  // ---------------------------------------------------------------------
  // What the series is
  // ---------------------------------------------------------------------

  /** Bucket i starts at (first + i) * width and holds its total; the series ends at the last start before `until`. */
  lemma {:induction false} DenseAt(bs: seq<SignupBucket>, first: int, until: int, width: int, i: nat)
    requires width > 0
    ensures i < |Dense(bs, first, until, width)| <==> (first + i) * width < until
    ensures i < |Dense(bs, first, until, width)| ==>
            Dense(bs, first, until, width)[i] ==
              SignupBucket((first + i) * width, CountAt(bs, (first + i) * width, width))
    decreases i
  {
    NextMultiple(first, first + i, width);
    if i > 0 && first * width < until {
      DenseAt(bs, first + 1, until, width, i - 1);
      assert first + 1 + (i - 1) == first + i;
    }
  }

  /** Signups reported for times from `from` up to `to`, without entries that count nothing. */
  function Between(from: int, to: int): (w: SignupBucket -> int) {
    (b: SignupBucket) => if b.count > 0 && from <= b.start < to then b.count else 0
  }

  lemma {:induction false} SumSame(bs: seq<SignupBucket>, f: SignupBucket -> int, g: SignupBucket -> int)
    requires forall b :: f(b) == g(b)
    ensures Sum(bs, f) == Sum(bs, g)
  {
    if bs != [] {
      SumSame(bs[..|bs| - 1], f, g);
    }
  }

  lemma SlotExactly(t: int, p: int, width: int)
    requires width > 0
    ensures BucketStartFor(t, width) == p * width <==> p * width <= t < p * width + width
  {
    var q := t / width;
    assert BucketStartFor(t, width) == q * width;
    if q < p {
      NextMultiple(q + 1, p, width);
      NextMultiple(q, q, width);
    } else if q > p {
      NextMultiple(p + 1, q, width);
      NextMultiple(p, p, width);
    }
  }

  /** A bucket's total is what was reported for its own times. */
  lemma CountAtExactly(bs: seq<SignupBucket>, p: int, width: int)
    requires width > 0
    ensures CountAt(bs, p * width, width) == Sum(bs, Between(p * width, p * width + width))
  {
    forall b ensures Adds(p * width, width)(b) == Between(p * width, p * width + width)(b) {
      SlotExactly(b.start, p, width);
    }
    SumSame(bs, Adds(p * width, width), Between(p * width, p * width + width));
  }

  /** The series itself: one bucket per multiple of the width, from the one `since` falls in, up to `until`. */
  lemma SeriesExactly(bs: seq<SignupBucket>, since: int, until: int, width: int, i: nat)
    requires width > 0
    ensures
      var series, first := Dense(bs, BucketIndex(since, width), until, width), BucketStartFor(since, width);
      && (i < |series| <==> first + i * width < until)
      && (i < |series| ==>
            && series[i].start == first + i * width
            && series[i].count == Sum(bs, Between(first + i * width, first + i * width + width)))
  {
    var p := BucketIndex(since, width);
    DenseAt(bs, p, until, width, i);
    CountAtExactly(bs, p + i, width);
    assert (p + i) * width == p * width + i * width;
  }

  lemma {:induction false} SumOfSums(bs: seq<SignupBucket>, f: SignupBucket -> int, g: SignupBucket -> int,
                                     h: SignupBucket -> int)
    requires forall b :: f(b) == g(b) + h(b)
    ensures Sum(bs, f) == Sum(bs, g) + Sum(bs, h)
  {
    if bs != [] {
      SumOfSums(bs[..|bs| - 1], f, g, h);
    }
  }

  lemma {:induction false} SumZero(bs: seq<SignupBucket>, f: SignupBucket -> int)
    requires forall b :: f(b) == 0
    ensures Sum(bs, f) == 0
  {
    if bs != [] {
      SumZero(bs[..|bs| - 1], f);
    }
  }

  /** The entries of [p * width, until) are those of bucket p and those after it. */
  lemma SplitBucket(bs: seq<SignupBucket>, p: int, until: int, width: int)
    requires width > 0 && p * width < until
    ensures Sum(bs, AddsWithin(p * width, until, width)) ==
            CountAt(bs, p * width, width) + Sum(bs, AddsWithin((p + 1) * width, until, width))
  {
    var f, g, h := AddsWithin(p * width, until, width), Adds(p * width, width),
      AddsWithin((p + 1) * width, until, width);
    forall b ensures f(b) == g(b) + h(b) {
      var q := b.start / width;
      NextMultiple(p, q, width);
      NextMultiple(p + 1, q, width);
      NextMultiple(q, p, width);
    }
    SumOfSums(bs, f, g, h);
  }

  function CountOf(b: SignupBucket): (n: int) { b.count }

  lemma SumFirst(b: SignupBucket, rest: seq<SignupBucket>)
    ensures Sum([b] + rest, CountOf) == b.count + Sum(rest, CountOf)
  {
    SumAppend([b], rest, CountOf);
    assert [b][..0] == [];
  }

  /** No signup of the window is lost or counted twice. */
  lemma {:induction false} SignupsConserved(bs: seq<SignupBucket>, p: int, until: int, width: int)
    requires width > 0
    ensures Sum(Dense(bs, p, until, width), CountOf) == Sum(bs, AddsWithin(p * width, until, width))
    decreases until - p * width
  {
    if p * width >= until {
      SumZero(bs, AddsWithin(p * width, until, width));
    } else {
      NextMultiple(p, p, width);
      SignupsConserved(bs, p + 1, until, width);
      SplitBucket(bs, p, until, width);
      SumFirst(SignupBucket(p * width, CountAt(bs, p * width, width)), Dense(bs, p + 1, until, width));
    }
  }
}
