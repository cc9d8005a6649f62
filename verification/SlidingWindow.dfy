/** The anonymous sliding-window limiter and its pruned timestamp store. */
module SlidingWindow {
  import opened Wrappers
  import opened Sequences
  import opened Rounding

  type Buckets = map<string, seq<int>>

  datatype Options = Options(windowMs: int, max: int)

  /** `retryAfter` is None where the code computes NaN from a missing timestamp. */
  datatype Outcome = Passed | Blocked(retryAfter: Option<int>)

  function Later(cutoff: int): (p: int -> bool) { (t: int) => t > cutoff }

  function Stored(m: Buckets, key: string): (ts: seq<int>) { if key in m then m[key] else [] }

  /** The timestamps still inside the window. */
  function Active(m: Buckets, key: string, now: int, windowMs: int): (ts: seq<int>) {
    Filter(Stored(m, key), Later(now - windowMs))
  }

  function Put(m: Buckets, key: string, ts: seq<int>): (m': Buckets) { if ts == [] then m - {key} else m[key := ts] }

  function RetryAfterSeconds(oldest: int, now: int, windowMs: int): (s: int)
    ensures s >= 1 && now + 1000 * s >= oldest + windowMs && (s == 1 || now + 1000 * (s - 1) < oldest + windowMs)
  {
    MaxInt(1, CeilSeconds(oldest + windowMs - now))
  }

  class SlidingWindowStore {
    var buckets: Buckets

    constructor ()
      ensures buckets == map[]
    {
      buckets := map[];
    }

    method GetTimestamps(key: string, now: int, windowMs: int) returns (active: seq<int>)
      modifies this
      ensures active == Active(old(buckets), key, now, windowMs)
      ensures buckets == Put(old(buckets), key, active)
    {
      var existing := if key in buckets then buckets[key] else [];
      active := Filter(existing, Later(now - windowMs));
      if |active| == 0 {
        buckets := buckets - {key};
      } else {
        buckets := buckets[key := active];
      }
    }

    method Record(key: string, timestamp: int, windowMs: int)
      modifies this
      ensures buckets == old(buckets)[key := Active(old(buckets), key, timestamp, windowMs) + [timestamp]]
    {
      var active := GetTimestamps(key, timestamp, windowMs);
      active := active + [timestamp];
      buckets := buckets[key := active];
    }
  }

  predicate Admits(o: Options, m: Buckets, key: string, now: int) { |Active(m, key, now, o.windowMs)| < o.max }

  /** The store after a request. */
  function After(o: Options, m: Buckets, key: string, now: int): (m': Buckets) {
    var active := Active(m, key, now, o.windowMs);
    if |active| < o.max then m[key := active + [now]] else Put(m, key, active)
  }

  lemma ActiveTwice(m: Buckets, key: string, now: int, windowMs: int)
    ensures var active := Active(m, key, now, windowMs); Active(Put(m, key, active), key, now, windowMs) == active
  {
    FilterNarrow(Stored(m, key), Later(now - windowMs), Later(now - windowMs));
  }

  /** The middleware: authenticated callers bypass the limiter. */
  method Handle(o: Options, store: SlidingWindowStore, authenticated: bool, key: string,
                now: int) returns (out: Outcome)
    modifies store
    ensures authenticated ==> out == Passed && store.buckets == old(store.buckets)
    ensures !authenticated ==> store.buckets == After(o, old(store.buckets), key, now)
    ensures !authenticated ==> (out.Passed? <==> Admits(o, old(store.buckets), key, now))
    ensures out.Blocked? ==>
      var active := Active(old(store.buckets), key, now, o.windowMs);
      out.retryAfter == if active == [] then None else Some(RetryAfterSeconds(active[0], now, o.windowMs))
  {
    if authenticated {
      return Passed;
    }
    var active := store.GetTimestamps(key, now, o.windowMs);
    ActiveTwice(old(store.buckets), key, now, o.windowMs);
    if |active| >= o.max {
      return Blocked(if active == [] then None else Some(RetryAfterSeconds(active[0], now, o.windowMs)));
    }
    store.Record(key, now, o.windowMs);
    out := Passed;
  }

  // ---------------------------------------------------------------------
  // Runs and their full history
  // ---------------------------------------------------------------------

  datatype Request = Request(key: string, at: int)

  ghost predicate InOrder(run: seq<Request>) { forall i, j :: 0 <= i < j < |run| ==> run[i].at <= run[j].at }

  ghost predicate NotAfter(run: seq<Request>, now: int) { forall i :: 0 <= i < |run| ==> run[i].at <= now }

  function AfterAll(o: Options, run: seq<Request>): (m: Buckets) {
    if run == [] then map[] else After(o, AfterAll(o, run[..|run| - 1]), run[|run| - 1].key, run[|run| - 1].at)
  }

  /** The times of every admission of the key. */
  function History(o: Options, run: seq<Request>, key: string): (ts: seq<int>) {
    if run == [] then []
    else
      var init, r := run[..|run| - 1], run[|run| - 1];
      if r.key == key && Admits(o, AfterAll(o, init), key, r.at) then History(o, init, key) + [r.at]
      else History(o, init, key)
  }

  ghost predicate Ascending(s: seq<int>) { forall i, j :: 0 <= i < j < |s| ==> s[i] <= s[j] }

  lemma {:induction false} HistoryOrdered(o: Options, run: seq<Request>, key: string, now: int)
    requires InOrder(run) && NotAfter(run, now)
    ensures Ascending(History(o, run, key))
    ensures forall t :: t in History(o, run, key) ==> t <= now
  {
    if run != [] {
      var init, r := run[..|run| - 1], run[|run| - 1];
      HistoryOrdered(o, init, key, r.at);
      var h := History(o, init, key);
      assert forall i :: 0 <= i < |h| ==> h[i] in h;
    }
  }

  lemma AfterStored(o: Options, m: Buckets, key: string, at: int, k: string)
    ensures
      var active := Active(m, key, at, o.windowMs);
      Stored(After(o, m, key, at), k) ==
      if k != key then Stored(m, k) else if Admits(o, m, key, at) then active + [at] else active
  {
  }

  /** From any later instant, the pruned store shows what the full history shows. */
  lemma {:induction false} StoreShowsWindow(o: Options, run: seq<Request>, key: string, now: int)
    requires InOrder(run) && NotAfter(run, now)
    ensures Active(AfterAll(o, run), key, now, o.windowMs) == Filter(History(o, run, key), Later(now - o.windowMs))
  {
    if run != [] {
      var init, r := run[..|run| - 1], run[|run| - 1];
      StoreShowsWindow(o, init, key, now);
      AfterStored(o, AfterAll(o, init), r.key, r.at, key);
      if r.key == key {
        StoreStep(o, AfterAll(o, init), History(o, init, key), key, r.at, now);
      }
    }
  }

  lemma StoreStep(o: Options, m: Buckets, history: seq<int>, key: string, at: int, now: int)
    requires at <= now && Active(m, key, now, o.windowMs) == Filter(history, Later(now - o.windowMs))
    ensures
      Active(After(o, m, key, at), key, now, o.windowMs) ==
      Filter(if Admits(o, m, key, at) then history + [at] else history, Later(now - o.windowMs))
  {
    AfterStored(o, m, key, at, key);
    PruneThenAppend(Stored(m, key), history, at - o.windowMs, now - o.windowMs, at);
  }

  /** Pruning at an earlier cutoff is not visible at a later one, before or after appending. */
  lemma PruneThenAppend(s: seq<int>, history: seq<int>, c: int, d: int, t: int)
    requires c <= d && Filter(s, Later(d)) == Filter(history, Later(d))
    ensures Filter(Filter(s, Later(c)), Later(d)) == Filter(history, Later(d))
    ensures Filter(Filter(s, Later(c)) + [t], Later(d)) == Filter(history + [t], Later(d))
  {
    FilterNarrow(s, Later(c), Later(d));
    FilterAppend(Filter(s, Later(c)), [t], Later(d));
    FilterAppend(history, [t], Later(d));
  }

  /** The limiter admits exactly when fewer than `max` admissions of the full history are in the window. */
  lemma RefinesHistory(o: Options, run: seq<Request>, key: string, now: int)
    requires InOrder(run) && NotAfter(run, now)
    ensures Admits(o, AfterAll(o, run), key, now) <==> |Filter(History(o, run, key), Later(now - o.windowMs))| < o.max
  {
    StoreShowsWindow(o, run, key, now);
  }

  /** Right after a request the stored list is the in-window part of the history, when the window has a length. */
  lemma StoreIsWindow(o: Options, run: seq<Request>, key: string, at: int)
    requires o.windowMs > 0 && InOrder(run) && run != [] && run[|run| - 1] == Request(key, at)
    ensures Stored(AfterAll(o, run), key) == Filter(History(o, run, key), Later(at - o.windowMs))
  {
    LastInOrder(run);
    StoreShowsWindow(o, run, key, at);
    LastStored(o, run, key, at);
  }

  lemma LastInOrder(run: seq<Request>)
    requires InOrder(run) && run != []
    ensures NotAfter(run, run[|run| - 1].at)
  {
  }

  lemma LastStored(o: Options, run: seq<Request>, key: string, at: int)
    requires o.windowMs > 0 && run != [] && run[|run| - 1] == Request(key, at)
    ensures Stored(AfterAll(o, run), key) == Active(AfterAll(o, run), key, at, o.windowMs)
  {
    StoredIsActive(o, AfterAll(o, run[..|run| - 1]), key, at);
  }

  lemma StoredIsActive(o: Options, m: Buckets, key: string, at: int)
    requires o.windowMs > 0
    ensures Stored(After(o, m, key, at), key) == Active(After(o, m, key, at), key, at, o.windowMs)
  {
    AfterStored(o, m, key, at, key);
    NothingToPrune(Stored(m, key), at - o.windowMs, at);
  }

  lemma NothingToPrune(s: seq<int>, c: int, t: int)
    requires c < t
    ensures var f := Filter(s, Later(c)); Filter(f, Later(c)) == f && Filter(f + [t], Later(c)) == f + [t]
  {
    var f := Filter(s, Later(c));
    FilterNarrow(s, Later(c), Later(c));
    FilterAppend(f, [t], Later(c));
    FilterAll([t], Later(c));
  }

  // ---------------------------------------------------------------------
  // At most `max` per window
  // ---------------------------------------------------------------------

  function Within(lo: int, hi: int): (p: int -> bool) { (t: int) => lo < t <= hi }

  lemma {:induction false} FewerPass(s: seq<int>, p: int -> bool, q: int -> bool)
    requires forall t :: p(t) ==> q(t)
    ensures |Filter(s, p)| <= |Filter(s, q)|
  {
    if s != [] {
      FewerPass(s[..|s| - 1], p, q);
    }
  }

  /** Any window of length `windowMs` holds at most `max` admissions of a key. */
  lemma {:induction false} WindowBound(o: Options, run: seq<Request>, key: string, end: int)
    requires InOrder(run) && o.max >= 0
    ensures |Filter(History(o, run, key), Within(end - o.windowMs, end))| <= o.max
  {
    if run != [] {
      var init, r := run[..|run| - 1], run[|run| - 1];
      WindowBound(o, init, key, end);
      if r.key == key && Admits(o, AfterAll(o, init), key, r.at) {
        WindowStep(o, init, r, end);
      }
    }
  }

  lemma WindowStep(o: Options, run: seq<Request>, r: Request, end: int)
    requires InOrder(run) && NotAfter(run, r.at) && Admits(o, AfterAll(o, run), r.key, r.at)
    requires |Filter(History(o, run, r.key), Within(end - o.windowMs, end))| <= o.max
    ensures |Filter(History(o, run, r.key) + [r.at], Within(end - o.windowMs, end))| <= o.max
  {
    var h, p := History(o, run, r.key), Within(end - o.windowMs, end);
    FilterAppend(h, [r.at], p);
    assert Filter([r.at], p) == if p(r.at) then [r.at] else [] by {
      assert [r.at][..0] == [];
    }
    RefinesHistory(o, run, r.key, r.at);
    if p(r.at) {
      FewerPass(h, p, Later(r.at - o.windowMs));
    }
  }

  /** A limit of zero or less admits nobody, and announces no usable delay. */
  lemma {:induction false} NonPositiveLimit(o: Options, run: seq<Request>, key: string, now: int)
    requires o.max <= 0
    ensures History(o, run, key) == [] && !Admits(o, AfterAll(o, run), key, now)
    ensures Stored(AfterAll(o, run), key) == []
  {
    if run != [] {
      NonPositiveLimit(o, run[..|run| - 1], key, now);
      AfterStored(o, AfterAll(o, run[..|run| - 1]), run[|run| - 1].key, run[|run| - 1].at, key);
    }
  }

  // ---------------------------------------------------------------------
  // Retry-After
  // ---------------------------------------------------------------------

  /** What is in the window is never more than the limit. */
  lemma ActiveBound(o: Options, run: seq<Request>, key: string, now: int)
    requires InOrder(run) && NotAfter(run, now) && o.max >= 0
    ensures |Filter(History(o, run, key), Later(now - o.windowMs))| <= o.max
  {
    WindowBound(o, run, key, now);
    HistoryOrdered(o, run, key, now);
    FilterSame(History(o, run, key), Within(now - o.windowMs, now), Later(now - o.windowMs));
  }

  /** Later cutoffs keep fewer; a cutoff that drops the first of an ascending list keeps strictly fewer. */
  lemma DropsOldest(s: seq<int>, c: int, d: int)
    requires c <= d && Filter(s, Later(c)) != [] && Ascending(s)
    ensures var active := Filter(s, Later(c));
      && (active[0] <= d ==> |Filter(s, Later(d))| < |active|)
      && (active[0] > d ==> Filter(s, Later(d)) == active)
  {
    var active := Filter(s, Later(c));
    FilterNarrow(s, Later(c), Later(d));
    assert active == [active[0]] + active[1..];
    FilterAppend([active[0]], active[1..], Later(d));
    ShorterFilter(active[1..], Later(d));
    if active[0] > d {
      FilterOrdered(s, Later(c));
      forall t | t in active ensures t > d {
      }
      FilterAll(active, Later(d));
    } else {
      assert [active[0]][..0] == [];
    }
  }

  lemma {:induction false} ShorterFilter(s: seq<int>, p: int -> bool)
    ensures |Filter(s, p)| <= |s|
  {
    if s != [] {
      ShorterFilter(s[..|s| - 1], p);
    }
  }

  lemma {:induction false} FilterOrdered(s: seq<int>, p: int -> bool)
    requires Ascending(s)
    ensures Ascending(Filter(s, p))
  {
    if s != [] {
      var init, last := s[..|s| - 1], s[|s| - 1];
      FilterOrdered(init, p);
      var f := Filter(init, p);
      forall i | 0 <= i < |f| ensures f[i] <= last {
        FilterMember(init, p, f[i]);
        assert f[i] in f;
      }
    }
  }

  /** The key is rejected at `now`, after the whole run. */
  ghost predicate RejectedAt(o: Options, run: seq<Request>, key: string, now: int) {
    InOrder(run) && NotAfter(run, now) && !Admits(o, AfterAll(o, run), key, now)
  }

  /** `longer` goes on from `run` up to time `t` without admitting the key. */
  ghost predicate QuietUntil(o: Options, run: seq<Request>, longer: seq<Request>, key: string, t: int) {
    run <= longer && InOrder(longer) && NotAfter(longer, t) && History(o, longer, key) == History(o, run, key)
  }

  lemma RejectedWindow(o: Options, run: seq<Request>, key: string, now: int)
    requires o.max >= 1 && RejectedAt(o, run, key, now)
    ensures Active(AfterAll(o, run), key, now, o.windowMs) == Filter(History(o, run, key), Later(now - o.windowMs))
    ensures |Active(AfterAll(o, run), key, now, o.windowMs)| == o.max
  {
    StoreShowsWindow(o, run, key, now);
    ActiveBound(o, run, key, now);
  }

  /** After a rejection and with no admission since, the key is admitted exactly from oldest + window on. */
  lemma RetryExact(o: Options, run: seq<Request>, longer: seq<Request>, key: string, now: int, t: int)
    requires o.max >= 1 && RejectedAt(o, run, key, now) && now <= t && QuietUntil(o, run, longer, key, t)
    ensures |Active(AfterAll(o, run), key, now, o.windowMs)| > 0
    ensures Admits(o, AfterAll(o, longer), key, t) <==>
            t >= Active(AfterAll(o, run), key, now, o.windowMs)[0] + o.windowMs
  {
    RejectedWindow(o, run, key, now);
    QuietAdmits(o, run, longer, key, t);
    HistoryOrdered(o, run, key, now);
    WaitForOldest(o, History(o, run, key), Active(AfterAll(o, run), key, now, o.windowMs), now, t);
  }

  lemma QuietAdmits(o: Options, run: seq<Request>, longer: seq<Request>, key: string, t: int)
    requires QuietUntil(o, run, longer, key, t)
    ensures Admits(o, AfterAll(o, longer), key, t) <==> |Filter(History(o, run, key), Later(t - o.windowMs))| < o.max
  {
    RefinesHistory(o, longer, key, t);
  }

  lemma WaitForOldest(o: Options, history: seq<int>, active: seq<int>, now: int, t: int)
    requires Ascending(history) && active == Filter(history, Later(now - o.windowMs)) && |active| == o.max >= 1 &&
             now <= t
    ensures |Filter(history, Later(t - o.windowMs))| < o.max <==> t >= active[0] + o.windowMs
  {
    DropsOldest(history, now - o.windowMs, t - o.windowMs);
  }

  /** So waiting the announced Retry-After is enough. */
  lemma RetryAfterEnough(o: Options, run: seq<Request>, longer: seq<Request>, key: string, now: int, t: int)
    requires o.max >= 1 && RejectedAt(o, run, key, now) && now <= t && QuietUntil(o, run, longer, key, t)
    ensures |Active(AfterAll(o, run), key, now, o.windowMs)| > 0
    ensures t >= now + 1000 * RetryAfterSeconds(Active(AfterAll(o, run), key, now, o.windowMs)[0], now, o.windowMs) ==>
            Admits(o, AfterAll(o, longer), key, t)
  {
    RetryExact(o, run, longer, key, now, t);
  }
}
