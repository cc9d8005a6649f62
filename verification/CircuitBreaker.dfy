/** A circuit breaker whose `fire` is split at its await: calls start, then succeed or fail in any order. */
module CircuitBreaker {
  import opened Wrappers
  import opened Sequences

  datatype CircuitState = Closed | Open | HalfOpen

  datatype Options = Options(failureThreshold: int, windowMs: int, resetTimeoutMs: int)

  /** The options a caller may give; `cooldownPeriodMs` is the other name of `resetTimeoutMs`. */
  datatype Given = Given(
    failureThreshold: Option<int>, windowMs: Option<int>, resetTimeoutMs: Option<int>, cooldownPeriodMs: Option<int>)

  datatype Value = Value(state: CircuitState, failures: seq<int>, openedAt: int, probeInFlight: bool)

  const INITIAL := Value(Closed, [], 0, false)

  // ---------------------------------------------------------------------
  // One call's effect on the fields
  // ---------------------------------------------------------------------

  /** `getState`: an open breaker turns half-open once the cool-down is over. */
  function Polled(o: Options, v: Value, now: int): (v': Value) {
    if v.state == Open && now - v.openedAt >= o.resetTimeoutMs then v.(state := HalfOpen) else v
  }

  predicate Rejects(v: Value) { v.state == Open || (v.state == HalfOpen && v.probeInFlight) }

  /** `fire` up to the await. */
  function Started(o: Options, v: Value, now: int): (v': Value) {
    var p := Polled(o, v, now);
    if p.state == HalfOpen then p.(probeInFlight := true) else p
  }

  /** The state a starting call is admitted in, unless it is rejected. */
  function Admission(o: Options, v: Value, now: int): (r: Option<CircuitState>)
    ensures r != Some(Open)
  {
    var p := Polled(o, v, now);
    if Rejects(p) then None else Some(p.state)
  }

  function Cleared(v: Value, admitted: CircuitState): (v': Value) {
    if admitted == HalfOpen then v.(probeInFlight := false) else v
  }

  function Succeeded(v: Value, admitted: CircuitState): (v': Value) {
    Cleared(v.(state := Closed, failures := []), admitted)
  }

  function Since(cutoff: int): (p: int -> bool) { (t: int) => t >= cutoff }

  /** `recordFailure` and the `finally` block; the clock is read at the cutoff, the push and the opening. */
  function Failed(o: Options, v: Value, admitted: CircuitState, t1: int, t2: int, t3: int): (v': Value) {
    if admitted == HalfOpen then Cleared(v.(state := Open, openedAt := t3), admitted)
    else
      var kept := Filter(v.failures, Since(t1 - o.windowMs)) + [t2];
      if |kept| >= o.failureThreshold then Value(Open, kept, t3, v.probeInFlight) else v.(failures := kept)
  }

  /** How many of the times are at or after `from`. */
  function CountFrom(times: seq<int>, from: int): (n: nat) {
    if times == [] then 0
    else CountFrom(times[..|times| - 1], from) + if times[|times| - 1] >= from then 1 else 0
  }

  lemma {:induction false} CountIsFiltered(times: seq<int>, from: int)
    ensures |Filter(times, Since(from))| == CountFrom(times, from)
  {
    if times != [] {
      CountIsFiltered(times[..|times| - 1], from);
    }
  }

  class CircuitBreaker {
    const options: Options
    var currentState: CircuitState
    var failures: seq<int>
    var openedAt: int
    var halfOpenProbeInFlight: bool

    ghost function Val(): (v: Value)
      reads this
    {
      Value(currentState, failures, openedAt, halfOpenProbeInFlight)
    }

    constructor (given: Given)
      ensures options.failureThreshold == if given.failureThreshold.Some? then given.failureThreshold.value else 5
      ensures options.windowMs == if given.windowMs.Some? then given.windowMs.value else 60000
      ensures options.resetTimeoutMs ==
              if given.resetTimeoutMs.Some? then given.resetTimeoutMs.value
              else if given.cooldownPeriodMs.Some? then given.cooldownPeriodMs.value
              else 30000
      ensures Val() == INITIAL && currentState == Closed && failures == [] && openedAt == 0 && !halfOpenProbeInFlight
    {
      options := Options(OrElse(given.failureThreshold, 5), OrElse(given.windowMs, 60000),
                         OrElse(given.resetTimeoutMs, OrElse(given.cooldownPeriodMs, 30000)));
      currentState, failures, openedAt, halfOpenProbeInFlight := Closed, [], 0, false;
    }

    method GetState(now: int) returns (s: CircuitState)
      modifies this`currentState
      ensures Val() == Polled(options, old(Val()), now) && s == currentState
      ensures s == if old(currentState) == Open && now >= old(openedAt) + options.resetTimeoutMs then HalfOpen
                   else old(currentState)
    {
      if currentState == Open && now - openedAt >= options.resetTimeoutMs {
        currentState := HalfOpen;
      }
      s := currentState;
    }

    /** Rejection, or the state remembered across the await. */
    method FireStart(now: int) returns (admitted: Option<CircuitState>)
      modifies this
      ensures admitted == Admission(options, old(Val()), now)
      ensures Val() == if admitted.Some? then Started(options, old(Val()), now) else Polled(options, old(Val()), now)
      ensures failures == old(failures) && openedAt == old(openedAt)
      ensures currentState ==
              if old(currentState) == Open && now >= old(openedAt) + options.resetTimeoutMs then HalfOpen
              else old(currentState)
      ensures admitted == if currentState == Open || (currentState == HalfOpen && old(halfOpenProbeInFlight)) then None
                          else Some(currentState)
      ensures halfOpenProbeInFlight == (old(halfOpenProbeInFlight) || currentState == HalfOpen)
    {
      var state := GetState(now);
      if state == Open || (state == HalfOpen && halfOpenProbeInFlight) {
        return None;
      }
      if state == HalfOpen {
        halfOpenProbeInFlight := true;
      }
      admitted := Some(state);
    }

    method FireSucceeded(state: CircuitState)
      modifies this
      ensures Val() == Succeeded(old(Val()), state)
      ensures currentState == Closed && failures == [] && openedAt == old(openedAt)
      ensures halfOpenProbeInFlight == (old(halfOpenProbeInFlight) && state != HalfOpen)
    {
      currentState := Closed;
      failures := [];
      if state == HalfOpen {
        halfOpenProbeInFlight := false;
      }
    }

    method FireFailed(state: CircuitState, t1: int, t2: int, t3: int)
      modifies this
      ensures Val() == Failed(options, old(Val()), state, t1, t2, t3)
      ensures state == HalfOpen ==>
                currentState == Open && openedAt == t3 && failures == old(failures) && !halfOpenProbeInFlight
      ensures state != HalfOpen ==>
                && halfOpenProbeInFlight == old(halfOpenProbeInFlight)
                && |failures| == CountFrom(old(failures), t1 - options.windowMs) + 1
                && failures[|failures| - 1] == t2
                && (|failures| >= options.failureThreshold ==> currentState == Open && openedAt == t3)
                && (|failures| < options.failureThreshold ==>
                      currentState == old(currentState) && openedAt == old(openedAt))
    {
      CountIsFiltered(failures, t1 - options.windowMs);
      RecordFailure(state, t1, t2, t3);
      if state == HalfOpen {
        halfOpenProbeInFlight := false;
      }
    }

    method RecordFailure(state: CircuitState, t1: int, t2: int, t3: int)
      modifies this
      ensures Val() == Failed(options, old(Val()), state, t1, t2, t3).(probeInFlight := old(halfOpenProbeInFlight))
    {
      if state == HalfOpen {
        OpenAt(t3);
        return;
      }
      var cutoff := t1 - options.windowMs;
      failures := Filter(failures, Since(cutoff));
      failures := failures + [t2];
      if |failures| >= options.failureThreshold {
        OpenAt(t3);
      }
    }

    method OpenAt(now: int)
      modifies this
      ensures Val() == old(Val()).(state := Open, openedAt := now)
    {
      currentState := Open;
      openedAt := now;
    }

    method Reset()
      modifies this
      ensures Val() == INITIAL && currentState == Closed && failures == [] && openedAt == 0 && !halfOpenProbeInFlight
    {
      currentState := Closed;
      failures := [];
      openedAt := 0;
      halfOpenProbeInFlight := false;
    }
  }

  // ---------------------------------------------------------------------
  // Runs of any number of overlapping calls
  // ---------------------------------------------------------------------

  /**
   * The breaker, the calls in flight with the state that admitted them, the clock, and every failure since the
   * last success.
   */
  datatype System = System(v: Value, inFlight: map<nat, CircuitState>, clock: int, log: seq<int>)

  datatype Action =
    | Start(id: nat, now: int)
    | Succeed(id: nat)
    | Fail(id: nat, t1: int, t2: int, t3: int)
    | Read(now: int)
    | ResetAll

  predicate Enabled(s: System, a: Action) {
    match a
    case Start(id, now) => id !in s.inFlight && s.clock <= now
    case Succeed(id) => id in s.inFlight
    case Fail(id, t1, t2, t3) => id in s.inFlight && s.clock <= t1 <= t2 <= t3
    case Read(now) => s.clock <= now
    case ResetAll => true
  }

  function Apply(o: Options, s: System, a: Action): (s': System)
    requires Enabled(s, a)
  {
    match a
    case Start(id, now) =>
      var admitted := Admission(o, s.v, now);
      if admitted.None? then System(Polled(o, s.v, now), s.inFlight, now, s.log)
      else System(Started(o, s.v, now), s.inFlight[id := admitted.value], now, s.log)
    case Succeed(id) =>
      System(Succeeded(s.v, s.inFlight[id]), s.inFlight - {id}, s.clock, [])
    case Fail(id, t1, t2, t3) =>
      System(Failed(o, s.v, s.inFlight[id], t1, t2, t3), s.inFlight - {id}, t3,
             if s.inFlight[id] == HalfOpen then s.log else s.log + [t2])
    case Read(now) => System(Polled(o, s.v, now), s.inFlight, now, s.log)
    case ResetAll => System(INITIAL, s.inFlight, s.clock, [])
  }

  ghost predicate IsRun(o: Options, s: System, run: seq<Action>)
    decreases |run|, 0
  {
    run == [] || (IsRun(o, s, run[..|run| - 1]) && Enabled(After(o, s, run[..|run| - 1]), run[|run| - 1]))
  }

  ghost function After(o: Options, s: System, run: seq<Action>): (s': System)
    requires IsRun(o, s, run)
    decreases |run|, 1
  {
    if run == [] then s else Apply(o, After(o, s, run[..|run| - 1]), run[|run| - 1])
  }

  function Init(clock: int): (s: System) { System(INITIAL, map[], clock, []) }

  predicate IsProbe(s: System, id: nat) { id in s.inFlight && s.inFlight[id] == HalfOpen }

  ghost predicate ProbeRunning(s: System) { exists id :: IsProbe(s, id) }

  /** The flag says exactly whether a half-open call is in flight, and there is at most one. */
  ghost predicate FlagExact(s: System) {
    && (s.v.probeInFlight <==> ProbeRunning(s))
    && (forall i, j :: IsProbe(s, i) && IsProbe(s, j) ==> i == j)
  }

  /** A reset while a half-open call is in flight. */
  ghost predicate BadReset(s: System, a: Action) { a.ResetAll? && ProbeRunning(s) }

  lemma FlagStart(o: Options, s: System, id: nat, now: int)
    requires FlagExact(s) && Enabled(s, Start(id, now))
    ensures FlagExact(Apply(o, s, Start(id, now)))
  {
    var s' := Apply(o, s, Start(id, now));
    if Admission(o, s.v, now) == Some(HalfOpen) {
      assert !ProbeRunning(s);
      assert forall i :: IsProbe(s', i) ==> i == id || IsProbe(s, i);
      assert IsProbe(s', id);
    } else {
      assert forall i :: IsProbe(s', i) <==> IsProbe(s, i);
    }
  }

  lemma FlagEnd(s: System, s': System, id: nat)
    requires FlagExact(s) && id in s.inFlight && s'.inFlight == s.inFlight - {id}
    requires s'.v.probeInFlight == (s.v.probeInFlight && s.inFlight[id] != HalfOpen)
    ensures FlagExact(s')
  {
    assert forall i :: IsProbe(s', i) <==> IsProbe(s, i) && i != id;
    if s'.v.probeInFlight {
      var i :| IsProbe(s, i);
      assert IsProbe(s', i);
    }
    assert IsProbe(s, id) <==> s.inFlight[id] == HalfOpen;
  }

  /** A step keeps the flag exact unless it is a reset under a running probe. */
  lemma FlagStep(o: Options, s: System, a: Action)
    requires FlagExact(s) && Enabled(s, a)
    ensures FlagExact(Apply(o, s, a)) <==> !BadReset(s, a)
  {
    var s' := Apply(o, s, a);
    match a {
      case Start(id, now) => FlagStart(o, s, id, now);
      case Succeed(id) => FlagEnd(s, s', id);
      case Fail(id, t1, t2, t3) => FlagEnd(s, s', id);
      case Read(now) => assert forall i :: IsProbe(s', i) <==> IsProbe(s, i);
      case ResetAll => assert forall i :: IsProbe(s', i) <==> IsProbe(s, i);
    }
  }

  /** The first n actions. */
  lemma {:induction false} Prefix(o: Options, s: System, run: seq<Action>, n: nat)
    requires IsRun(o, s, run) && n <= |run|
    ensures IsRun(o, s, run[..n])
    ensures n < |run| ==> Enabled(After(o, s, run[..n]), run[n]) && IsRun(o, s, run[..n + 1])
    ensures n < |run| ==> After(o, s, run[..n + 1]) == Apply(o, After(o, s, run[..n]), run[n])
  {
    if n == |run| {
      assert run[..n] == run;
    } else {
      Prefix(o, s, run[..|run| - 1], n);
      assert run[..|run| - 1][..n] == run[..n];
      assert run[..n + 1][..n] == run[..n];
      if n < |run| - 1 {
        assert run[..|run| - 1][..n + 1] == run[..n + 1];
      }
    }
  }

  ghost predicate FlagExactAt(o: Options, clock: int, run: seq<Action>, n: nat)
    requires n <= |run| && IsRun(o, Init(clock), run)
  {
    Prefix(o, Init(clock), run, n);
    FlagExact(After(o, Init(clock), run[..n]))
  }

  ghost predicate BadResetAt(o: Options, clock: int, run: seq<Action>, n: nat)
    requires n < |run| && IsRun(o, Init(clock), run)
  {
    Prefix(o, Init(clock), run, n);
    BadReset(After(o, Init(clock), run[..n]), run[n])
  }

  /** In every run: the flag is exact throughout if and only if no reset happens under a running probe. */
  lemma AtMostOneProbe(o: Options, clock: int, run: seq<Action>)
    requires IsRun(o, Init(clock), run)
    ensures (forall n :: 0 <= n <= |run| ==> FlagExactAt(o, clock, run, n)) <==>
            (forall n :: 0 <= n < |run| ==> !BadResetAt(o, clock, run, n))
  {
    if forall n :: 0 <= n < |run| ==> !BadResetAt(o, clock, run, n) {
      forall n | 0 <= n <= |run| ensures FlagExactAt(o, clock, run, n) {
        FlagUpTo(o, clock, run, n);
      }
    }
    if forall n :: 0 <= n <= |run| ==> FlagExactAt(o, clock, run, n) {
      forall n | 0 <= n < |run| ensures !BadResetAt(o, clock, run, n) {
        Prefix(o, Init(clock), run, n);
        assert FlagExactAt(o, clock, run, n) && FlagExactAt(o, clock, run, n + 1);
        FlagStep(o, After(o, Init(clock), run[..n]), run[n]);
      }
    }
  }

  lemma {:induction false} FlagUpTo(o: Options, clock: int, run: seq<Action>, n: nat)
    requires IsRun(o, Init(clock), run) && n <= |run|
    requires forall m :: 0 <= m < |run| ==> !BadResetAt(o, clock, run, m)
    ensures FlagExactAt(o, clock, run, n)
  {
    if n > 0 {
      FlagUpTo(o, clock, run, n - 1);
      Prefix(o, Init(clock), run, n - 1);
      assert !BadResetAt(o, clock, run, n - 1);
      FlagStep(o, After(o, Init(clock), run[..n - 1]), run[n - 1]);
    } else {
      assert run[..0] == [];
    }
  }

  // ---------------------------------------------------------------------
  // The threshold and the pruned failure list
  // ---------------------------------------------------------------------

  /** Any later cutoff keeps the same failures of the pruned list as of the full log. */
  ghost predicate PrunedRight(o: Options, s: System) {
    forall cutoff :: cutoff >= s.clock - o.windowMs ==>
      Filter(s.v.failures, Since(cutoff)) == Filter(s.log, Since(cutoff))
  }

  ghost predicate UnderThreshold(o: Options, s: System) {
    s.v.state == Closed ==> |s.v.failures| < o.failureThreshold
  }

  lemma PruneStep(failures: seq<int>, log: seq<int>, c: int, cutoff: int, t: int)
    requires Filter(failures, Since(c)) == Filter(log, Since(c)) && cutoff >= c
    requires Filter(failures, Since(cutoff)) == Filter(log, Since(cutoff))
    ensures Filter(Filter(failures, Since(c)) + [t], Since(cutoff)) == Filter(log + [t], Since(cutoff))
  {
    FilterNarrow(failures, Since(c), Since(cutoff));
    FilterAppend(Filter(failures, Since(c)), [t], Since(cutoff));
    FilterAppend(log, [t], Since(cutoff));
  }

  lemma PrunedFail(o: Options, s: System, a: Action)
    requires PrunedRight(o, s) && a.Fail? && Enabled(s, a)
    ensures PrunedRight(o, Apply(o, s, a))
  {
    var s' := Apply(o, s, a);
    forall cutoff | cutoff >= s'.clock - o.windowMs
      ensures Filter(s'.v.failures, Since(cutoff)) == Filter(s'.log, Since(cutoff))
    {
      if s.inFlight[a.id] != HalfOpen {
        PruneStep(s.v.failures, s.log, a.t1 - o.windowMs, cutoff, a.t2);
      }
    }
  }

  lemma PrunedStep(o: Options, s: System, a: Action)
    requires PrunedRight(o, s) && Enabled(s, a)
    ensures PrunedRight(o, Apply(o, s, a))
  {
    if a.Fail? {
      PrunedFail(o, s, a);
    }
  }

  lemma ThresholdStep(o: Options, s: System, a: Action)
    requires o.failureThreshold >= 1 && UnderThreshold(o, s) && Enabled(s, a)
    ensures UnderThreshold(o, Apply(o, s, a))
  {
  }

  lemma {:induction false} RunPruned(o: Options, clock: int, run: seq<Action>)
    requires IsRun(o, Init(clock), run)
    ensures PrunedRight(o, After(o, Init(clock), run))
  {
    if run != [] {
      RunPruned(o, clock, run[..|run| - 1]);
      PrunedStep(o, After(o, Init(clock), run[..|run| - 1]), run[|run| - 1]);
    }
  }

  lemma {:induction false} RunUnderThreshold(o: Options, clock: int, run: seq<Action>)
    requires IsRun(o, Init(clock), run) && o.failureThreshold >= 1
    ensures UnderThreshold(o, After(o, Init(clock), run))
  {
    if run != [] {
      RunUnderThreshold(o, clock, run[..|run| - 1]);
      ThresholdStep(o, After(o, Init(clock), run[..|run| - 1]), run[|run| - 1]);
    }
  }

  /** A closed breaker holds fewer failures than the threshold in every run, exactly when the threshold is positive. */
  lemma ClosedUnderThreshold(o: Options, clock: int)
    ensures (forall run :: IsRun(o, Init(clock), run) ==> UnderThreshold(o, After(o, Init(clock), run))) <==>
            o.failureThreshold >= 1
  {
    if o.failureThreshold >= 1 {
      forall run | IsRun(o, Init(clock), run) ensures UnderThreshold(o, After(o, Init(clock), run)) {
        RunUnderThreshold(o, clock, run);
      }
    } else {
      assert IsRun(o, Init(clock), []);
      assert !UnderThreshold(o, After(o, Init(clock), []));
    }
  }

  /** The failures of the full log that are recent at `t1`. */
  function Recent(o: Options, s: System, t1: int): (n: nat) { CountFrom(s.log, t1 - o.windowMs) }

  /** In every run a failure opens the breaker exactly when the full log holds enough recent failures with it. */
  lemma OpensExactly(o: Options, clock: int, run: seq<Action>, a: Action)
    requires IsRun(o, Init(clock), run) && Enabled(After(o, Init(clock), run), a)
    requires a.Fail? && After(o, Init(clock), run).inFlight[a.id] != HalfOpen
    ensures
      var s := After(o, Init(clock), run);
      var s' := Apply(o, s, a);
      if Recent(o, s, a.t1) + 1 >= o.failureThreshold then s'.v.state == Open && s'.v.openedAt == a.t3
      else s'.v.state == s.v.state && s'.v.openedAt == s.v.openedAt
  {
    RunPruned(o, clock, run);
    CountIsFiltered(After(o, Init(clock), run).log, a.t1 - o.windowMs);
  }

  // ---------------------------------------------------------------------
  // Recovery
  // ---------------------------------------------------------------------

  ghost function StateAt(o: Options, clock: int, run: seq<Action>, n: nat): (s: System)
    requires n <= |run| && IsRun(o, Init(clock), run)
  {
    Prefix(o, Init(clock), run, n);
    After(o, Init(clock), run[..n])
  }

  /** A failure of a probe, or one that makes the recent failures reach the threshold. */
  predicate Trips(o: Options, s: System, a: Action) {
    a.Fail? && a.id in s.inFlight &&
    (s.inFlight[a.id] == HalfOpen || Recent(o, s, a.t1) + 1 >= o.failureThreshold)
  }

  /** The failure of a probe opens the breaker again, from that moment, and the flag is down. */
  lemma ProbeFailureReopens(o: Options, s: System, a: Action)
    requires Enabled(s, a) && a.Fail? && s.inFlight[a.id] == HalfOpen
    ensures
      var s' := Apply(o, s, a);
      && s'.v.state == Open && s'.v.openedAt == a.t3 == s'.clock && !s'.v.probeInFlight
      && s'.v.failures == s.v.failures && s'.inFlight == s.inFlight - {a.id}
  {
  }

  /** A step leaves a closed breaker closed exactly when it is not such a failure; a start is then admitted. */
  lemma ClosedStep(o: Options, clock: int, run: seq<Action>, n: nat)
    requires IsRun(o, Init(clock), run) && n < |run| && ClosedAt(o, clock, run, n)
    ensures
      var s, s' := StateAt(o, clock, run, n), StateAt(o, clock, run, n + 1);
      && (ClosedAt(o, clock, run, n + 1) <==> !TripsAt(o, clock, run, n))
      && (run[n].Start? ==> s'.inFlight == s.inFlight[run[n].id := Closed])
  {
    Prefix(o, Init(clock), run, n);
    var s := After(o, Init(clock), run[..n]);
    if run[n].Fail? && s.inFlight[run[n].id] != HalfOpen {
      OpensExactly(o, clock, run[..n], run[n]);
    }
  }

  ghost predicate ClosedAt(o: Options, clock: int, run: seq<Action>, n: nat)
    requires IsRun(o, Init(clock), run) && n <= |run|
  {
    StateAt(o, clock, run, n).v.state == Closed
  }

  ghost predicate TripsAt(o: Options, clock: int, run: seq<Action>, n: nat)
    requires IsRun(o, Init(clock), run) && n < |run|
  {
    Trips(o, StateAt(o, clock, run, n), run[n])
  }

  ghost predicate ClosedFrom(o: Options, clock: int, run: seq<Action>, n: nat, m: nat)
    requires IsRun(o, Init(clock), run) && n <= m <= |run|
  {
    forall i :: n <= i <= m ==> ClosedAt(o, clock, run, i)
  }

  ghost predicate TripsBetween(o: Options, clock: int, run: seq<Action>, n: nat, m: nat)
    requires IsRun(o, Init(clock), run) && n <= m <= |run|
  {
    exists i :: n <= i < m && TripsAt(o, clock, run, i)
  }

  lemma {:induction false} UntrippedStays(o: Options, clock: int, run: seq<Action>, n: nat, m: nat, i: nat)
    requires IsRun(o, Init(clock), run) && n <= i <= m <= |run| && ClosedAt(o, clock, run, n)
    requires !TripsBetween(o, clock, run, n, m)
    ensures ClosedAt(o, clock, run, i)
  {
    if n < i {
      UntrippedStays(o, clock, run, n, m, i - 1);
      assert !TripsAt(o, clock, run, i - 1);
      ClosedStep(o, clock, run, i - 1);
    }
  }

  /** In every run a closed breaker stays closed exactly as long as no failure trips it. */
  lemma StaysClosedExactly(o: Options, clock: int, run: seq<Action>, n: nat, m: nat)
    requires IsRun(o, Init(clock), run) && n <= m <= |run| && ClosedAt(o, clock, run, n)
    ensures ClosedFrom(o, clock, run, n, m) <==> !TripsBetween(o, clock, run, n, m)
  {
    if TripsBetween(o, clock, run, n, m) {
      var i :| n <= i < m && TripsAt(o, clock, run, i);
      if ClosedFrom(o, clock, run, n, m) {
        assert ClosedAt(o, clock, run, i) && ClosedAt(o, clock, run, i + 1);
        ClosedStep(o, clock, run, i);
        assert false;
      }
    } else {
      forall i | n <= i <= m ensures ClosedAt(o, clock, run, i) {
        UntrippedStays(o, clock, run, n, m, i);
      }
    }
  }

  /**
   * After the success of any call, in every run: the breaker is closed with no failures, it stays so until a failure
   * trips it, and meanwhile every call is admitted as closed, however many overlap.
   */
  lemma SuccessRecovers(o: Options, clock: int, run: seq<Action>, n: nat, m: nat)
    requires IsRun(o, Init(clock), run) && n < m <= |run| && run[n].Succeed?
    ensures StateAt(o, clock, run, n + 1).v.state == Closed && StateAt(o, clock, run, n + 1).v.failures == []
    ensures StateAt(o, clock, run, n + 1).log == []
    ensures ClosedFrom(o, clock, run, n + 1, m) <==> !TripsBetween(o, clock, run, n + 1, m)
    ensures m < |run| && run[m].Start? && !TripsBetween(o, clock, run, n + 1, m) ==>
              StateAt(o, clock, run, m + 1).inFlight == StateAt(o, clock, run, m).inFlight[run[m].id := Closed]
  {
    Prefix(o, Init(clock), run, n);
    StaysClosedExactly(o, clock, run, n + 1, m);
    if m < |run| && !TripsBetween(o, clock, run, n + 1, m) {
      assert ClosedAt(o, clock, run, m);
      ClosedStep(o, clock, run, m);
    }
  }

  // ---------------------------------------------------------------------
  // Failing fast
  // ---------------------------------------------------------------------

  /** Neither a success nor a reset. */
  predicate KeepsOpen(a: Action) { a.Start? || a.Fail? || a.Read? }

  ghost predicate OpenSince(s: System, t: int) { s.v.state == Open && s.v.openedAt >= t }

  lemma OpenStep(o: Options, s: System, a: Action, t: int)
    requires OpenSince(s, t) && s.clock >= t && Enabled(s, a) && KeepsOpen(a) &&
             Apply(o, s, a).clock < t + o.resetTimeoutMs
    ensures OpenSince(Apply(o, s, a), t) && Apply(o, s, a).clock >= t
    ensures Apply(o, s, a).inFlight.Keys <= s.inFlight.Keys
  {
  }

  lemma ClockRises(o: Options, s: System, a: Action)
    requires Enabled(s, a)
    ensures Apply(o, s, a).clock >= s.clock
  {
  }

  /** So does the failure of a probe: nothing is admitted for another cool-down unless a late success closes it. */
  lemma ProbeFailureFailsFast(o: Options, s: System, a: Action, run: seq<Action>)
    requires Enabled(s, a) && a.Fail? && s.inFlight[a.id] == HalfOpen
    requires IsRun(o, Apply(o, s, a), run) && (forall b :: b in run ==> KeepsOpen(b))
    requires After(o, Apply(o, s, a), run).clock < a.t3 + o.resetTimeoutMs
    ensures After(o, Apply(o, s, a), run).v.state == Open
    ensures After(o, Apply(o, s, a), run).inFlight.Keys <= s.inFlight.Keys - {a.id}
  {
    ProbeFailureReopens(o, s, a);
    FailsFast(o, Apply(o, s, a), run);
  }

  /** From the moment it opens until the cool-down ends, nothing is admitted unless a late success closes it. */
  lemma {:induction false} FailsFast(o: Options, s: System, run: seq<Action>)
    requires s.v.state == Open && s.v.openedAt == s.clock
    requires IsRun(o, s, run) && (forall a :: a in run ==> KeepsOpen(a)) &&
             After(o, s, run).clock < s.clock + o.resetTimeoutMs
    ensures OpenSince(After(o, s, run), s.clock) && After(o, s, run).clock >= s.clock
    ensures After(o, s, run).inFlight.Keys <= s.inFlight.Keys
  {
    if run != [] {
      var init, last := run[..|run| - 1], run[|run| - 1];
      DropLast(run);
      ClockRises(o, After(o, s, init), last);
      FailsFast(o, s, init);
      assert last in run;
      OpenStep(o, After(o, s, init), last, s.clock);
    }
  }

  /** The run ends with a call that is admitted, before the cool-down is over and without a reset. */
  ghost predicate AdmitsEarly(o: Options, s: System, run: seq<Action>, last: Action) {
    && IsRun(o, s, run) && (forall a :: a in run ==> !a.ResetAll?)
    && last.Start? && Enabled(After(o, s, run), last) && last.now < s.v.openedAt + o.resetTimeoutMs
    && Admission(o, After(o, s, run).v, last.now).Some?
  }

  /** With no call in flight an open breaker only rejects. */
  ghost predicate Idle(s: System, t: int) { OpenSince(s, t) && s.inFlight == map[] && s.clock >= t }

  lemma IdleStep(o: Options, s: System, a: Action, t: int)
    requires Idle(s, t) && Enabled(s, a) && !a.ResetAll? && Apply(o, s, a).clock < t + o.resetTimeoutMs
    ensures Idle(Apply(o, s, a), t)
  {
  }

  lemma {:induction false} IdleRun(o: Options, s: System, run: seq<Action>, t: int)
    requires Idle(s, t) && IsRun(o, s, run) && (forall a :: a in run ==> !a.ResetAll?)
    requires After(o, s, run).clock < t + o.resetTimeoutMs
    ensures Idle(After(o, s, run), t)
  {
    if run != [] {
      var init, last := run[..|run| - 1], run[|run| - 1];
      DropLast(run);
      ClockRises(o, After(o, s, init), last);
      IdleRun(o, s, init, t);
      assert last in run;
      IdleStep(o, After(o, s, init), last, t);
    }
  }

  /** The success of a call admitted earlier closes the breaker during its cool-down. */
  lemma LateSuccessCloses(o: Options, s: System, id: nat)
    requires id in s.inFlight && s.clock < s.v.openedAt + o.resetTimeoutMs
    ensures AdmitsEarly(o, s, [Succeed(id)], Start(id, s.clock))
  {
    var run := [Succeed(id)];
    assert run[..|run| - 1] == [];
    assert IsRun(o, s, []) && After(o, s, []) == s;
    assert IsRun(o, s, run) && After(o, s, run) == Apply(o, s, Succeed(id));
  }

  /** Without resets, an open breaker admits a call before its cool-down ends if and only if some call is in flight. */
  lemma EarlyAdmissionExactly(o: Options, s: System)
    requires s.v.state == Open && s.v.openedAt <= s.clock < s.v.openedAt + o.resetTimeoutMs
    ensures (exists run, last :: AdmitsEarly(o, s, run, last)) <==> s.inFlight != map[]
  {
    if s.inFlight != map[] {
      var id :| id in s.inFlight;
      LateSuccessCloses(o, s, id);
    } else {
      forall run, last ensures !AdmitsEarly(o, s, run, last) {
        if AdmitsEarly(o, s, run, last) {
          IdleRun(o, s, run, s.v.openedAt);
        }
      }
    }
  }

  /**
   * After the cool-down the next call is admitted, as a probe, if and only if no probe is in flight; while it runs,
   * the one after it is rejected.
   */
  lemma ProbeAfterCooldown(o: Options, s: System, id: nat, now: int, id2: nat, now2: int)
    requires FlagExact(s) && s.v.state == Open && now - s.v.openedAt >= o.resetTimeoutMs
    requires Enabled(s, Start(id, now)) && Enabled(Apply(o, s, Start(id, now)), Start(id2, now2))
    ensures
      var s1 := Apply(o, s, Start(id, now));
      && (id in s1.inFlight <==> !ProbeRunning(s)) && (IsProbe(s1, id) <==> !ProbeRunning(s))
      && Apply(o, s1, Start(id2, now2)).inFlight == s1.inFlight
  {
  }

  ghost predicate TwoProbes(s: System) { exists i, j :: i != j && IsProbe(s, i) && IsProbe(s, j) }

  /** A reset under a running probe lets a second one in. */
  lemma ResetAdmitsSecondProbe() returns (o: Options, run: seq<Action>)
    ensures IsRun(o, Init(0), run) && TwoProbes(After(o, Init(0), run))
  {
    o := Options(1, 1000, 10);
    var s := Init(0);
    run := [];
    run, s := Extended(o, run, Start(0, 0), s);
    run, s := Extended(o, run, Fail(0, 0, 0, 0), s);
    run, s := Extended(o, run, Start(1, 10), s);
    run, s := Extended(o, run, ResetAll, s);
    run, s := Extended(o, run, Start(2, 10), s);
    run, s := Extended(o, run, Fail(2, 10, 10, 10), s);
    run, s := Extended(o, run, Start(3, 20), s);
    assert IsProbe(s, 1) && IsProbe(s, 3);
  }

  lemma Extended(o: Options, run: seq<Action>, a: Action, now: System) returns (longer: seq<Action>, next: System)
    requires IsRun(o, Init(0), run) && After(o, Init(0), run) == now && Enabled(now, a)
    ensures longer == run + [a] && next == Apply(o, now, a)
    ensures IsRun(o, Init(0), longer) && After(o, Init(0), longer) == next
  {
    longer, next := run + [a], Apply(o, now, a);
    assert longer[..|run|] == run;
  }
}
