/** The per-user token bucket, with token counts as exact reals. */
module TokenBucket {
  import opened Wrappers
  import opened Rounding

  /** The closure's constants. */
  datatype Limits = Limits(capacity: nat, refillWindowMs: nat, refillRatePerMs: real)

  ghost predicate Sane(l: Limits) { l.capacity >= 1 && l.refillRatePerMs > 0.0 }

  /** `Math.max(1, Math.floor(x))` */
  function AtLeastOne(x: real): (n: nat)
    ensures n >= 1
  {
    if x.Floor < 1 then 1 else x.Floor
  }

  /** n is x without its fraction, but at least 1. */
  predicate WholePart(x: real, n: nat) { if x < 1.0 then n == 1 else n as real <= x < n as real + 1.0 }

  function LimitsOf(capacity: Option<real>, refillWindowMs: Option<real>): (l: Limits)
    ensures Sane(l) && l.refillWindowMs >= 1 && l.refillRatePerMs * l.refillWindowMs as real == l.capacity as real
    ensures WholePart(if capacity.Some? then capacity.value else 60.0, l.capacity)
    ensures WholePart(if refillWindowMs.Some? then refillWindowMs.value else 60000.0, l.refillWindowMs)
  {
    var c, w := AtLeastOne(OrElse(capacity, 60.0)), AtLeastOne(OrElse(refillWindowMs, 60000.0));
    Limits(c, w, c as real / w as real)
  }

  datatype Bucket = Bucket(tokens: real, lastRefillAt: int)

  datatype Outcome = Admitted(remaining: int, resetAt: int) | Rejected(retryAfter: int, resetAt: int)

  /** Tokens refilled in `ms` milliseconds. */
  function Gain(l: Limits, ms: int): (x: real) { ms as real * l.refillRatePerMs }

  function MinReal(a: real, b: real): (m: real) { if a <= b then a else b }

  function MaxReal(a: real, b: real): (m: real) { if a >= b then a else b }

  /** `msUntilNextToken`. */
  function Wait(l: Limits, tokens: real): (ms: int)
    requires Sane(l)
    ensures ms >= 1
  {
    MaxInt(1, Ceil((1.0 - tokens) / l.refillRatePerMs))
  }

  function NewBucket(l: Limits, now: int): (b: Bucket) { Bucket(l.capacity as real, now) }

  function Refill(l: Limits, b: Bucket, now: int): (r: Bucket)
    requires Sane(l)
  {
    if b.lastRefillAt < now then
      Bucket(MinReal(l.capacity as real, b.tokens + Gain(l, now - b.lastRefillAt)), now)
    else b
  }

  type Buckets = map<string, Bucket>

  function Lookup(l: Limits, m: Buckets, key: string, now: int): (b: Bucket) {
    if key in m then m[key] else NewBucket(l, now)
  }

  /** Whether a request now is let through. */
  predicate Admits(l: Limits, m: Buckets, key: string, now: int)
    requires Sane(l)
  {
    Refill(l, Lookup(l, m, key, now), now).tokens >= 1.0
  }

  /** The buckets after a request. */
  function After(l: Limits, m: Buckets, key: string, now: int): (m': Buckets)
    requires Sane(l)
  {
    var b := Refill(l, Lookup(l, m, key, now), now);
    m[key := if b.tokens >= 1.0 then b.(tokens := MaxReal(0.0, b.tokens - 1.0)) else b]
  }

  /**
   * A request, in the bucket's own numbers: a full bucket the first time, otherwise the refill for the time since the
   * last one, up to the capacity; one token less if there was one; no other bucket touched.
   */
  ghost predicate Stepped(l: Limits, m: Buckets, m': Buckets, key: string, now: int, admitted: bool) {
    var known := key in m;
    var waited := if known && m[key].lastRefillAt < now then now - m[key].lastRefillAt else 0;
    var held := if known then m[key].tokens else l.capacity as real;
    var grown := held + waited as real * l.refillRatePerMs;
    var level := if waited > 0 && grown > l.capacity as real then l.capacity as real else grown;
    && (admitted <==> level >= 1.0)
    && m' == m[key := Bucket(if admitted then level - 1.0 else level,
                             if known && waited == 0 then m[key].lastRefillAt else now)]
  }

  lemma AfterExactly(l: Limits, m: Buckets, key: string, now: int)
    requires Sane(l)
    ensures Stepped(l, m, After(l, m, key, now), key, now, Admits(l, m, key, now))
  {
  }

  class Limiter {
    const limits: Limits
    var buckets: Buckets

    ghost predicate Valid()
      reads this
    {
      Sane(limits) && forall k :: k in buckets ==> 0.0 <= buckets[k].tokens <= limits.capacity as real
    }

    constructor (capacity: Option<real>, refillWindowMs: Option<real>)
      ensures Valid() && buckets == map[] && limits == LimitsOf(capacity, refillWindowMs)
    {
      limits := LimitsOf(capacity, refillWindowMs);
      buckets := map[];
    }

    /**
     * One request: refills, then takes a token or rejects. A rejected request keeps its refill, since the
     * bucket is updated in place.
     */
    method Handle(key: string, now: int) returns (out: Outcome)
      requires Valid()
      modifies this
      ensures Valid() && buckets == After(limits, old(buckets), key, now)
      ensures out.Admitted? <==> Admits(limits, old(buckets), key, now)
      ensures Stepped(limits, old(buckets), buckets, key, now, out.Admitted?)
      ensures out.Admitted? ==> out.remaining == buckets[key].tokens.Floor >= 0
      ensures out.resetAt == CeilSeconds(now + Wait(limits, buckets[key].tokens))
      ensures out.Rejected? ==> out.retryAfter == MaxInt(1, CeilSeconds(Wait(limits, buckets[key].tokens)))
    {
      var bucket := if key in buckets then buckets[key] else NewBucket(limits, now);
      RefillRange(limits, bucket, now);
      AfterExactly(limits, buckets, key, now);
      if bucket.lastRefillAt < now {
        var elapsedMs := now - bucket.lastRefillAt;
        bucket := Bucket(MinReal(limits.capacity as real, bucket.tokens + Gain(limits, elapsedMs)), now);
      }
      if bucket.tokens < 1.0 {
        buckets := buckets[key := bucket];
        var ms := Wait(limits, bucket.tokens);
        return Rejected(MaxInt(1, CeilSeconds(ms)), CeilSeconds(now + ms));
      }
      bucket := bucket.(tokens := MaxReal(0.0, bucket.tokens - 1.0));
      buckets := buckets[key := bucket];
      out := Admitted(bucket.tokens.Floor, CeilSeconds(now + Wait(limits, bucket.tokens)));
    }
  }

  lemma RefillRange(l: Limits, b: Bucket, now: int)
    requires Sane(l) && 0.0 <= b.tokens <= l.capacity as real
    ensures 0.0 <= Refill(l, b, now).tokens <= l.capacity as real
  {
    if b.lastRefillAt < now {
      GainAdds(l, 0, now - b.lastRefillAt);
    }
  }

  // ---------------------------------------------------------------------
  // The level of a bucket at a later instant
  // ---------------------------------------------------------------------

  /** What a bucket would hold at `now`, if nothing were taken. */
  function Level(l: Limits, m: Buckets, key: string, now: int): (x: real)
    requires Sane(l)
  {
    Refill(l, Lookup(l, m, key, now), now).tokens
  }

  /** Counts in range and no bucket from the future. */
  ghost predicate Ok(l: Limits, m: Buckets, now: int) {
    forall k :: k in m ==> 0.0 <= m[k].tokens <= l.capacity as real && m[k].lastRefillAt <= now
  }

  lemma LevelRange(l: Limits, m: Buckets, key: string, now: int)
    requires Sane(l) && Ok(l, m, now)
    ensures 0.0 <= Level(l, m, key, now) <= l.capacity as real
  {
    RefillRange(l, Lookup(l, m, key, now), now);
  }

  lemma GainAdds(l: Limits, a: int, b: int)
    requires Sane(l) && a >= 0 && b >= 0
    ensures Gain(l, a + b) == Gain(l, a) + Gain(l, b) && Gain(l, a) >= 0.0 && Gain(l, b) >= 0.0
  {
    assert (a + b) as real == a as real + b as real;
  }

  /** Refilling in two parts is refilling once. */
  lemma RefillSplit(l: Limits, b: Bucket, mid: int, now: int)
    requires Sane(l) && b.tokens <= l.capacity as real && b.lastRefillAt <= mid <= now
    ensures Refill(l, Refill(l, b, mid), now).tokens == Refill(l, b, now).tokens
  {
    GainAdds(l, mid - b.lastRefillAt, now - mid);
  }

  /** A bucket grows at most at the refill rate, and never shrinks by waiting. */
  lemma LevelGrows(l: Limits, m: Buckets, key: string, mid: int, now: int)
    requires Sane(l) && Ok(l, m, mid) && mid <= now
    ensures Level(l, m, key, mid) <= Level(l, m, key, now) <= Level(l, m, key, mid) + Gain(l, now - mid)
  {
    GainAdds(l, 0, now - mid);
    if key in m {
      GainAdds(l, mid - m[key].lastRefillAt, now - mid);
    }
  }

  lemma AfterOk(l: Limits, m: Buckets, key: string, now: int)
    requires Sane(l) && Ok(l, m, now)
    ensures Ok(l, After(l, m, key, now), now)
  {
    LevelRange(l, m, key, now);
  }

  /** A request takes one token of its own key if admitted, and nothing else. */
  lemma AfterLevel(l: Limits, m: Buckets, key: string, now: int, k: string)
    requires Sane(l) && Ok(l, m, now)
    ensures Level(l, After(l, m, key, now), k, now) ==
            Level(l, m, k, now) - if k == key && Admits(l, m, key, now) then 1.0 else 0.0
  {
  }

  /** At later instants a request leaves at most what there was, and exactly that when it is rejected. */
  lemma AfterLater(l: Limits, m: Buckets, key: string, at: int, k: string, now: int)
    requires Sane(l) && Ok(l, m, at) && at <= now
    ensures Level(l, After(l, m, key, at), k, now) <= Level(l, m, k, now)
    ensures !(k == key && Admits(l, m, key, at)) ==> Level(l, After(l, m, key, at), k, now) == Level(l, m, k, now)
  {
    if k == key {
      var b := Lookup(l, m, key, at);
      RefillSplit(l, b, at, now);
      if Admits(l, m, key, at) {
        TakeLowers(l, Refill(l, b, at), now);
      }
      if key !in m {
        assert Refill(l, Refill(l, b, at), now).tokens == l.capacity as real;
      }
    }
  }

  lemma TakeLowers(l: Limits, b: Bucket, now: int)
    requires Sane(l) && b.tokens >= 1.0
    ensures Refill(l, b.(tokens := MaxReal(0.0, b.tokens - 1.0)), now).tokens <= Refill(l, b, now).tokens
  {
  }

  // ---------------------------------------------------------------------
  // Runs
  // ---------------------------------------------------------------------

  datatype Request = Request(key: string, at: int)

  ghost predicate InOrder(run: seq<Request>) { forall i, j :: 0 <= i < j < |run| ==> run[i].at <= run[j].at }

  ghost predicate NotAfter(run: seq<Request>, now: int) { forall i :: 0 <= i < |run| ==> run[i].at <= now }

  function AfterAll(l: Limits, m: Buckets, run: seq<Request>): (m': Buckets)
    requires Sane(l)
  {
    if run == [] then m
    else After(l, AfterAll(l, m, run[..|run| - 1]), run[|run| - 1].key, run[|run| - 1].at)
  }

  /** How many requests for `key` with lo <= at <= hi were admitted. */
  function AdmittedIn(l: Limits, m: Buckets, run: seq<Request>, key: string, lo: int, hi: int): (n: nat)
    requires Sane(l)
  {
    if run == [] then 0
    else
      var init, r := run[..|run| - 1], run[|run| - 1];
      AdmittedIn(l, m, init, key, lo, hi) +
      if r.key == key && lo <= r.at <= hi && Admits(l, AfterAll(l, m, init), key, r.at) then 1 else 0
  }

  lemma {:induction false} AfterAllOk(l: Limits, m: Buckets, run: seq<Request>, start: int, now: int)
    requires Sane(l) && Ok(l, m, start) && InOrder(run) && NotAfter(run, now) && start <= now
    requires forall i :: 0 <= i < |run| ==> start <= run[i].at
    ensures Ok(l, AfterAll(l, m, run), now)
  {
    if run != [] {
      var init, r := run[..|run| - 1], run[|run| - 1];
      AfterAllOk(l, m, init, start, r.at);
      AfterOk(l, AfterAll(l, m, init), r.key, r.at);
    }
  }

  /** Admissions since `lo` plus what is left are within the capacity plus the refill since `lo`. */
  ghost predicate Bounded(l: Limits, run: seq<Request>, key: string, lo: int, now: int)
    requires Sane(l)
  {
    AdmittedIn(l, map[], run, key, lo, now) as real + Level(l, AfterAll(l, map[], run), key, now)
    <= l.capacity as real + Gain(l, now - lo)
  }

  lemma {:induction false} Potential(l: Limits, run: seq<Request>, key: string, lo: int, now: int)
    requires Sane(l) && InOrder(run) && NotAfter(run, now) && lo <= now
    ensures Bounded(l, run, key, lo, now)
  {
    if run == [] {
      GainAdds(l, 0, now - lo);
    } else {
      var init, at := run[..|run| - 1], run[|run| - 1].at;
      StartOk(l, init, at);
      if at < lo {
        Potential(l, init, key, lo, now);
        BeforeInterval(l, run, key, lo, now);
      } else {
        Potential(l, init, key, lo, at);
        InInterval(l, run, key, lo, now);
      }
    }
  }

  /** A request before `lo` counts for nothing and adds nothing. */
  lemma BeforeInterval(l: Limits, run: seq<Request>, key: string, lo: int, now: int)
    requires Sane(l) && run != [] && run[|run| - 1].at < lo <= now
    requires Ok(l, AfterAll(l, map[], run[..|run| - 1]), run[|run| - 1].at) &&
             Bounded(l, run[..|run| - 1], key, lo, now)
    ensures Bounded(l, run, key, lo, now)
  {
    var r := run[|run| - 1];
    AfterLater(l, AfterAll(l, map[], run[..|run| - 1]), r.key, r.at, key, now);
  }

  /** A request in the interval pays for its admission with a token. */
  lemma InInterval(l: Limits, run: seq<Request>, key: string, lo: int, now: int)
    requires Sane(l) && InOrder(run) && run != [] && lo <= run[|run| - 1].at <= now
    requires Ok(l, AfterAll(l, map[], run[..|run| - 1]), run[|run| - 1].at)
    requires Bounded(l, run[..|run| - 1], key, lo, run[|run| - 1].at)
    ensures Bounded(l, run, key, lo, now)
  {
    var r := run[|run| - 1];
    PotentialStep(l, AfterAll(l, map[], run[..|run| - 1]), r, key, now);
    GainAdds(l, r.at - lo, now - r.at);
    SameCount(l, run[..|run| - 1], key, lo, r.at, now);
  }

  lemma StartOk(l: Limits, run: seq<Request>, now: int)
    requires Sane(l) && InOrder(run) && NotAfter(run, now)
    ensures Ok(l, AfterAll(l, map[], run), now)
  {
    AfterAllOk(l, map[], run, if run == [] then now else run[0].at, now);
  }

  lemma PotentialStep(l: Limits, m: Buckets, r: Request, key: string, now: int)
    requires Sane(l) && Ok(l, m, r.at) && r.at <= now
    ensures
      var taken := if r.key == key && Admits(l, m, key, r.at) then 1.0 else 0.0;
      taken + Level(l, After(l, m, r.key, r.at), key, now) <= Level(l, m, key, r.at) + Gain(l, now - r.at)
  {
    AfterLevel(l, m, r.key, r.at, key);
    AfterOk(l, m, r.key, r.at);
    LevelGrows(l, After(l, m, r.key, r.at), key, r.at, now);
  }

  /** Requests that are all over by `hi` count the same for any later bound. */
  lemma {:induction false} SameCount(l: Limits, run: seq<Request>, key: string, lo: int, hi: int, hi': int)
    requires Sane(l) && NotAfter(run, hi) && hi <= hi'
    ensures AdmittedIn(l, map[], run, key, lo, hi) == AdmittedIn(l, map[], run, key, lo, hi')
  {
    if run != [] {
      SameCount(l, run[..|run| - 1], key, lo, hi, hi');
    }
  }

  /** In every run and every interval, a key is admitted at most capacity + length * rate times. */
  lemma {:induction false} AdmissionBound(l: Limits, run: seq<Request>, key: string, lo: int, hi: int)
    requires Sane(l) && InOrder(run) && lo <= hi
    ensures AdmittedIn(l, map[], run, key, lo, hi) as real <= l.capacity as real + Gain(l, hi - lo)
  {
    if run != [] && run[|run| - 1].at > hi {
      AdmissionBound(l, run[..|run| - 1], key, lo, hi);
    } else {
      Potential(l, run, key, lo, hi);
      StartOk(l, run, hi);
      LevelRange(l, AfterAll(l, map[], run), key, hi);
    }
  }

  // ---------------------------------------------------------------------
  // A full bucket
  // ---------------------------------------------------------------------

  /** A burst on a fresh key: exactly `capacity` requests of one instant pass. */
  lemma {:induction false} BurstExact(l: Limits, m: Buckets, key: string, at: int, n: nat)
    requires Sane(l) && key !in m
    ensures
      var burst := seq(n, i => Request(key, at));
      Admits(l, AfterAll(l, m, burst), key, at) <==> n < l.capacity
    ensures
      var m' := AfterAll(l, m, seq(n, i => Request(key, at)));
      n > 0 ==> key in m' && m'[key] == Bucket(if n < l.capacity then (l.capacity - n) as real else 0.0, at)
  {
    var burst := seq(n, i => Request(key, at));
    if n > 0 {
      var before := seq(n - 1, i => Request(key, at));
      BurstExact(l, m, key, at, n - 1);
      assert burst[..n - 1] == before;
    }
  }

  // ---------------------------------------------------------------------
  // After a rejection
  // ---------------------------------------------------------------------

  /** The wait is the first whole number of milliseconds after which a token is there. */
  /** With a token in the bucket the shortest wait is announced. */
  lemma NoWait(l: Limits, tokens: real)
    requires Sane(l) && tokens >= 1.0
    ensures Wait(l, tokens) == 1
  {
    var need := (1.0 - tokens) / l.refillRatePerMs;
    assert need * l.refillRatePerMs == 1.0 - tokens;
    assert need <= 0.0;
  }

  lemma WaitExact(l: Limits, tokens: real, ms: int)
    requires Sane(l) && tokens < 1.0 && ms >= 0
    ensures tokens + Gain(l, ms) >= 1.0 <==> ms >= Wait(l, tokens)
  {
    var rate, need := l.refillRatePerMs, (1.0 - tokens) / l.refillRatePerMs;
    assert need * rate == 1.0 - tokens;
    assert need > 0.0;
    if ms >= Wait(l, tokens) {
      assert ms as real >= need;
      assert (ms as real - need) * rate >= 0.0;
    } else {
      assert ms as real < need;
      assert (need - ms as real) * rate > 0.0;
    }
  }

  /** A rejection at `now`: what the bucket holds afterwards. */
  ghost predicate RejectedAt(l: Limits, m: Buckets, key: string, now: int) {
    Sane(l) && Ok(l, m, now) && key in m && m[key].lastRefillAt == now && m[key].tokens < 1.0
  }

  lemma RejectionLeaves(l: Limits, m: Buckets, key: string, now: int)
    requires Sane(l) && Ok(l, m, now) && !Admits(l, m, key, now)
    ensures RejectedAt(l, After(l, m, key, now), key, now)
  {
    AfterOk(l, m, key, now);
  }

  /** With nothing taken, the level reaches one exactly when the announced wait is over. */
  lemma LevelAfterRejection(l: Limits, m: Buckets, key: string, now: int, t: int)
    requires RejectedAt(l, m, key, now) && now <= t
    ensures Level(l, m, key, t) >= 1.0 <==> t >= now + Wait(l, m[key].tokens)
  {
    WaitExact(l, m[key].tokens, t - now);
  }

  /** Requests from `now` on, in order. */
  ghost predicate From(run: seq<Request>, now: int, end: int) {
    InOrder(run) && NotAfter(run, end) && forall i :: 0 <= i < |run| ==> now <= run[i].at
  }

  /** No request of the run was admitted for the key, whatever happened to other keys. */
  predicate NoneAdmitted(l: Limits, m: Buckets, run: seq<Request>, key: string)
    requires Sane(l)
  {
    if run == [] then true
    else
      var init, r := run[..|run| - 1], run[|run| - 1];
      NoneAdmitted(l, m, init, key) && !(r.key == key && Admits(l, AfterAll(l, m, init), key, r.at))
  }

  lemma {:induction false} LevelUnspent(l: Limits, m: Buckets, key: string, now: int, run: seq<Request>, t: int)
    requires Sane(l) && Ok(l, m, now) && now <= t && From(run, now, t) && NoneAdmitted(l, m, run, key)
    ensures Level(l, AfterAll(l, m, run), key, t) == Level(l, m, key, t)
  {
    if run != [] {
      var init, r := run[..|run| - 1], run[|run| - 1];
      LevelUnspent(l, m, key, now, init, t);
      AfterAllOk(l, m, init, now, r.at);
      AfterLater(l, AfterAll(l, m, init), r.key, r.at, key, t);
    }
  }

  /** However many rejected requests split the refill: the next request is admitted exactly from now + wait on. */
  lemma RetryExact(l: Limits, m: Buckets, key: string, now: int, run: seq<Request>, t: int)
    requires RejectedAt(l, m, key, now) && now <= t && From(run, now, t) && NoneAdmitted(l, m, run, key)
    ensures Admits(l, AfterAll(l, m, run), key, t) <==> t >= now + Wait(l, m[key].tokens)
  {
    LevelUnspent(l, m, key, now, run, t);
    LevelAfterRejection(l, m, key, now, t);
  }

  /** Before the announced wait is over nothing is admitted for the key, whatever is requested. */
  lemma {:induction false} RejectedUntilThen(l: Limits, m: Buckets, key: string, now: int, run: seq<Request>)
    requires RejectedAt(l, m, key, now) && From(run, now, now + Wait(l, m[key].tokens) - 1)
    ensures NoneAdmitted(l, m, run, key)
  {
    if run != [] {
      var init, r := run[..|run| - 1], run[|run| - 1];
      RejectedUntilThen(l, m, key, now, init);
      RetryExact(l, m, key, now, init, r.at);
    }
  }

  /** So the Retry-After header, in seconds, is long enough. */
  lemma RetryAfterEnough(l: Limits, m: Buckets, key: string, now: int, run: seq<Request>, t: int)
    requires RejectedAt(l, m, key, now) && From(run, now, t) && NoneAdmitted(l, m, run, key)
    requires t >= now + 1000 * MaxInt(1, CeilSeconds(Wait(l, m[key].tokens)))
    ensures Admits(l, AfterAll(l, m, run), key, t)
  {
    RetryExact(l, m, key, now, run, t);
  }
}
