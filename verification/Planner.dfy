/** Gap finding, replay chunks and the checkpoint that may not cross an unobserved ledger. */
module Planner {
  import opened Wrappers
  import opened Sequences
  import opened Dedup
  import opened Recovery

  /** An inclusive range of ledgers. */
  datatype ReplayChunk = ReplayChunk(from: int, to: int)

  datatype CheckpointDecision = CheckpointDecision(accepted: bool, nextCheckpoint: int, missing: seq<ReplayChunk>)

  datatype PlanError = Invalid(error: RecoveryError) | Blocked(missingRanges: nat) | BadMaxLedgers

  // ---------------------------------------------------------------------
  // Gaps
  // ---------------------------------------------------------------------

  /** The ledgers of [from, to] without an observation, ascending. */
  function Gaps(from: int, to: int, obs: seq<LedgerObservation>): (ls: seq<int>)
    decreases (to - from)
  {
    if from > to then [] else Gaps(from, to - 1, obs) + if Observed(obs, to) then [] else [to]
  }

  ghost predicate StrictlyAscending(ls: seq<int>) { forall i, j :: 0 <= i < j < |ls| ==> ls[i] < ls[j] }

  lemma {:induction false} GapsSpec(from: int, to: int, obs: seq<LedgerObservation>)
    ensures StrictlyAscending(Gaps(from, to, obs))
    ensures forall l :: l in Gaps(from, to, obs) <==> from <= l <= to && !Observed(obs, l)
    decreases (to - from)
  {
    if from <= to {
      GapsSpec(from, to - 1, obs);
      var ls := Gaps(from, to - 1, obs);
      assert forall i :: 0 <= i < |ls| ==> ls[i] in ls;
    }
  }

  lemma {:induction false} ObservedIn(observed: set<int>, obs: seq<LedgerObservation>, l: int)
    requires observed == set o | o in obs :: o.ledger
    ensures l in observed <==> Observed(obs, l)
  {
  }

  method FindUnobservedLedgers(from: int, to: int, obs: seq<LedgerObservation>) returns (missing: seq<int>)
    ensures missing == Gaps(from, to, obs)
  {
    missing := [];
    if from > to {
      return;
    }
    var observed := set o | o in obs :: o.ledger;
    var ledger := from;
    while ledger <= to
      invariant from <= ledger <= to + 1
      invariant missing == Gaps(from, ledger - 1, obs)
    {
      ObservedIn(observed, obs, ledger);
      if ledger !in observed {
        missing := missing + [ledger];
      }
      ledger := ledger + 1;
    }
  }

  // ---------------------------------------------------------------------
  // Ranges
  // ---------------------------------------------------------------------

  predicate Covers(rs: seq<ReplayChunk>, l: int) { exists r :: r in rs && r.from <= l <= r.to }

  /** Extends the last range or opens a new one. */
  function Extend(rs: seq<ReplayChunk>, l: int): (r: seq<ReplayChunk>) {
    if rs != [] && l == rs[|rs| - 1].to + 1 then rs[..|rs| - 1] + [ReplayChunk(rs[|rs| - 1].from, l)]
    else rs + [ReplayChunk(l, l)]
  }

  /** The runs of consecutive numbers in an ascending list. */
  function Runs(ls: seq<int>): (rs: seq<ReplayChunk>) {
    if ls == [] then [] else Extend(Runs(ls[..|ls| - 1]), ls[|ls| - 1])
  }

  /** Non-empty and ascending, with at least one ledger between neighbours. */
  ghost predicate Separated(rs: seq<ReplayChunk>) {
    && (forall i :: 0 <= i < |rs| ==> rs[i].from <= rs[i].to)
    && (forall i, j :: 0 <= i < j < |rs| ==> rs[i].to + 1 < rs[j].from)
  }

  lemma ExtendSpec(rs: seq<ReplayChunk>, l: int)
    requires Separated(rs) && (rs != [] ==> rs[|rs| - 1].to < l)
    ensures Separated(Extend(rs, l)) && Extend(rs, l) != [] && Extend(rs, l)[|Extend(rs, l)| - 1].to == l
    ensures forall x :: Covers(Extend(rs, l), x) <==> Covers(rs, x) || x == l
  {
    var out := Extend(rs, l);
    forall x | Covers(rs, x) || x == l ensures Covers(out, x) {
      if x == l {
        assert out[|out| - 1] in out;
      } else {
        var r :| r in rs && r.from <= x <= r.to;
        assert r == rs[|rs| - 1] || r in out;
        assert out[|out| - 1] in out;
      }
    }
  }

  lemma {:induction false} RunsSpec(ls: seq<int>)
    requires StrictlyAscending(ls)
    ensures Separated(Runs(ls)) && (Runs(ls) == [] <==> ls == [])
    ensures ls != [] ==> Runs(ls)[|Runs(ls)| - 1].to == ls[|ls| - 1]
    ensures forall x :: Covers(Runs(ls), x) <==> x in ls
  {
    if ls != [] {
      var init, last := ls[..|ls| - 1], ls[|ls| - 1];
      RunsSpec(init);
      ExtendSpec(Runs(init), last);
      DropLast(ls);
    }
  }

  function SortedSet(ls: seq<int>): (s: seq<int>) { Sort(Fresh({}, ls, Itself), AtMost) }

  function Itself(l: int): (r: int) { l }

  lemma SortedSetSpec(ls: seq<int>)
    ensures StrictlyAscending(SortedSet(ls))
    ensures forall l :: l in SortedSet(ls) <==> l in ls
  {
    var d, s := Fresh({}, ls, Itself), SortedSet(ls);
    FreshSpec({}, ls, Itself);
    SortOrdered(d, AtMost);
    PermutationDiffers(d, s, Itself);
    forall i, j | 0 <= i < j < |s| ensures s[i] < s[j] {
      assert AtMost(s[i], s[j]) && Itself(s[i]) != Itself(s[j]);
    }
    forall l ensures l in s <==> l in ls {
      SortMember(d, AtMost, l);
      SetMember(d, l);
      SetMember(ls, l);
    }
  }

  lemma SetMember(ls: seq<int>, l: int)
    ensures l in Keys(ls, Itself) <==> l in ls
  {
    if l in ls {
      assert Itself(l) in Keys(ls, Itself);
    }
  }

  /** Ascending input is already sorted and without repetition. */
  lemma SortedSetOfAscending(ls: seq<int>)
    requires StrictlyAscending(ls)
    ensures SortedSet(ls) == ls
  {
    assert Dedup.KeysDiffer(ls, Itself);
    FreshAll({}, ls, Itself);
    assert Ordered(ls, AtMost);
    SortOfOrdered(ls, AtMost);
  }

  method GroupLedgerRanges(ledgers: seq<int>) returns (ranges: seq<ReplayChunk>)
    ensures ranges == Runs(SortedSet(ledgers))
    ensures Separated(ranges) && forall x :: Covers(ranges, x) <==> x in ledgers
  {
    var sorted := SortedSet(ledgers);
    SortedSetSpec(ledgers);
    RunsSpec(sorted);
    ranges := [];
    if |sorted| == 0 {
      return;
    }
    ranges := GroupSorted(sorted);
  }

  method GroupSorted(sorted: seq<int>) returns (ranges: seq<ReplayChunk>)
    requires sorted != []
    ensures ranges == Runs(sorted)
  {
    ranges := [];
    var from, to := sorted[0], sorted[0];
    var i := 1;
    assert sorted[..1][..0] == [];
    while i < |sorted|
      invariant 1 <= i <= |sorted|
      invariant ranges + [ReplayChunk(from, to)] == Runs(sorted[..i])
    {
      assert sorted[..i + 1][..i] == sorted[..i];
      if sorted[i] == to + 1 {
        to := sorted[i];
      } else {
        ranges := ranges + [ReplayChunk(from, to)];
        from, to := sorted[i], sorted[i];
      }
      i := i + 1;
    }
    ranges := ranges + [ReplayChunk(from, to)];
    assert sorted[..i] == sorted;
  }

  // ---------------------------------------------------------------------
  // Chunks
  // ---------------------------------------------------------------------

  function Min(a: int, b: int): (m: int) { if a <= b then a else b }

  /** Cuts [from, to] into pieces of `max` ledgers. */
  function Cut(from: int, to: int, max: nat): (cs: seq<ReplayChunk>)
    requires max >= 1
    decreases (to - from)
  {
    if from > to then [] else [ReplayChunk(from, Min(to, from + max - 1))] + Cut(from + max, to, max)
  }

  function CutAll(rs: seq<ReplayChunk>, max: nat): (cs: seq<ReplayChunk>)
    requires max >= 1
  {
    if rs == [] then [] else CutAll(rs[..|rs| - 1], max) + Cut(rs[|rs| - 1].from, rs[|rs| - 1].to, max)
  }

  /**
   * Non-empty pieces of at most `max` ledgers, ascending and disjoint; a piece that ends where the next begins
   * is full.
   */
  ghost predicate ChunksOk(cs: seq<ReplayChunk>, max: nat) {
    && (forall i :: 0 <= i < |cs| ==> cs[i].from <= cs[i].to < cs[i].from + max)
    && (forall i, j :: 0 <= i < j < |cs| ==> cs[i].to < cs[j].from)
    && (forall i, j :: 0 <= i < j < |cs| && cs[i].to + 1 == cs[j].from ==> cs[i].to == cs[i].from + max - 1)
  }

  /** Every piece lies in [from, to]. */
  ghost predicate Within(cs: seq<ReplayChunk>, from: int, to: int) {
    forall i :: 0 <= i < |cs| ==> from <= cs[i].from && cs[i].to <= to
  }

  lemma CoversAppend(a: seq<ReplayChunk>, b: seq<ReplayChunk>, x: int)
    ensures Covers(a + b, x) <==> Covers(a, x) || Covers(b, x)
  {
  }

  lemma {:induction false} CutSpec(from: int, to: int, max: nat)
    requires max >= 1
    ensures ChunksOk(Cut(from, to, max), max) && Within(Cut(from, to, max), from, to)
    ensures forall x :: Covers(Cut(from, to, max), x) <==> from <= x <= to
    decreases (to - from)
  {
    if from <= to {
      CutSpec(from + max, to, max);
      CutHead(ReplayChunk(from, Min(to, from + max - 1)), Cut(from + max, to, max), to, max);
    }
  }

  lemma CutHead(head: ReplayChunk, rest: seq<ReplayChunk>, to: int, max: nat)
    requires max >= 1 && head.from <= to && head.to == Min(to, head.from + max - 1)
    requires ChunksOk(rest, max) && Within(rest, head.from + max, to)
    requires forall x :: Covers(rest, x) <==> head.from + max <= x <= to
    ensures ChunksOk([head] + rest, max) && Within([head] + rest, head.from, to)
    ensures forall x :: Covers([head] + rest, x) <==> head.from <= x <= to
  {
    forall x ensures Covers([head] + rest, x) <==> head.from <= x <= to {
      CoversAppend([head], rest, x);
      assert Covers([head], x) <==> head.from <= x <= head.to by {
        assert head in [head];
      }
    }
  }

  lemma ChunksAppend(a: seq<ReplayChunk>, b: seq<ReplayChunk>, max: nat, mid: int)
    requires ChunksOk(a, max) && ChunksOk(b, max)
    requires (forall i :: 0 <= i < |a| ==> a[i].to + 1 < mid) && (forall i :: 0 <= i < |b| ==> mid <= b[i].from)
    ensures ChunksOk(a + b, max)
  {
  }

  lemma {:induction false} CutAllSpec(rs: seq<ReplayChunk>, max: nat)
    requires max >= 1 && Separated(rs)
    ensures ChunksOk(CutAll(rs, max), max)
    ensures rs != [] ==> forall i :: 0 <= i < |CutAll(rs, max)| ==> CutAll(rs, max)[i].to <= rs[|rs| - 1].to
    ensures forall x :: Covers(CutAll(rs, max), x) <==> Covers(rs, x)
  {
    if rs != [] {
      var init, last := rs[..|rs| - 1], rs[|rs| - 1];
      CutAllSpec(init, max);
      CutSpec(last.from, last.to, max);
      ChunksAppend(CutAll(init, max), Cut(last.from, last.to, max), max, last.from);
      forall x ensures Covers(CutAll(rs, max), x) <==> Covers(rs, x) {
        CoversAppend(CutAll(init, max), Cut(last.from, last.to, max), x);
        CoversLast(rs, x);
      }
    }
  }

  lemma CoversLast(rs: seq<ReplayChunk>, x: int)
    requires rs != []
    ensures Covers(rs, x) <==> Covers(rs[..|rs| - 1], x) || rs[|rs| - 1].from <= x <= rs[|rs| - 1].to
  {
    DropLast(rs);
    CoversAppend(rs[..|rs| - 1], [rs[|rs| - 1]], x);
    assert rs[|rs| - 1] in [rs[|rs| - 1]];
  }

  function Chunks(rs: seq<ReplayChunk>, max: int): (r: Result<seq<ReplayChunk>, PlanError>) {
    if max < 1 then Failure(BadMaxLedgers) else Success(CutAll(rs, max))
  }

  /** Outer loop over ranges. */
  method ChunkReplayRanges(rs: seq<ReplayChunk>, max: int) returns (r: Result<seq<ReplayChunk>, PlanError>)
    ensures r == Chunks(rs, max)
  {
    if max < 1 {
      return Failure(BadMaxLedgers);
    }
    var chunks: seq<ReplayChunk> := [];
    var i := 0;
    while i < |rs|
      invariant i <= |rs| && chunks == CutAll(rs[..i], max)
    {
      assert rs[..i + 1][..i] == rs[..i];
      var pieces := CutRange(rs[i], max);
      chunks := chunks + pieces;
      i := i + 1;
    }
    assert rs[..i] == rs;
    r := Success(chunks);
  }

  /** Inner loop over one range. */
  method CutRange(range: ReplayChunk, max: nat) returns (pieces: seq<ReplayChunk>)
    requires max >= 1
    ensures pieces == Cut(range.from, range.to, max)
  {
    pieces := [];
    var from := range.from;
    while from <= range.to
      invariant pieces + Cut(from, range.to, max) == Cut(range.from, range.to, max)
      decreases (range.to - from)
    {
      pieces := pieces + [ReplayChunk(from, Min(range.to, from + max - 1))];
      from := from + max;
    }
  }

  // ---------------------------------------------------------------------
  // Checkpoints
  // ---------------------------------------------------------------------

  function Decision(current: int, requestedTo: int, obs: seq<LedgerObservation>): (d: CheckpointDecision) {
    if requestedTo < current + 1 then CheckpointDecision(true, current, [])
    else
      var missing := Runs(SortedSet(Gaps(current + 1, requestedTo, obs)));
      if |missing| > 0 then CheckpointDecision(false, current, missing)
      else CheckpointDecision(true, requestedTo, [])
  }

  method DecideCheckpoint(current: int, requestedTo: int, obs: seq<LedgerObservation>) returns (d: CheckpointDecision)
    ensures d == Decision(current, requestedTo, obs)
  {
    var from := current + 1;
    if requestedTo < from {
      return CheckpointDecision(true, current, []);
    }
    var gaps := FindUnobservedLedgers(from, requestedTo, obs);
    var missing := GroupLedgerRanges(gaps);
    if |missing| > 0 {
      return CheckpointDecision(false, current, missing);
    }
    d := CheckpointDecision(true, requestedTo, []);
  }

  function Plan(current: int, target: int, obs: seq<LedgerObservation>, max: nat, collate: string -> real)
    : (r: Result<seq<ReplayChunk>, PlanError>)
  {
    var merged := Merge(obs, collate);
    if merged.Failure? then Failure(Invalid(merged.error))
    else Chunks(Decision(current, target, merged.value).missing, max)
  }

  function Checkpoint(current: int, target: int, obs: seq<LedgerObservation>,
                      collate: string -> real): (r: Result<int, PlanError>) {
    var merged := Merge(obs, collate);
    if merged.Failure? then Failure(Invalid(merged.error))
    else
      var d := Decision(current, target, merged.value);
      if d.accepted then Success(d.nextCheckpoint) else Failure(Blocked(|d.missing|))
  }

  /** The immutable planner object; its constructor refuses a non-positive size. */
  datatype IndexerRecoveryPlanner = IndexerRecoveryPlanner(maxReplayLedgers: nat)

  function NewPlanner(max: int): (r: Result<IndexerRecoveryPlanner, PlanError>)
    ensures r.Success? <==> max >= 1
    ensures r.Success? ==> r.value.maxReplayLedgers == max
  {
    if max < 1 then Failure(BadMaxLedgers) else Success(IndexerRecoveryPlanner(max))
  }

  method PlanReplay(planner: IndexerRecoveryPlanner, current: int, target: int, obs: seq<LedgerObservation>,
                    collate: string -> real)
    returns (r: Result<seq<ReplayChunk>, PlanError>)
    ensures r == Plan(current, target, obs, planner.maxReplayLedgers, collate)
  {
    var merged := MergeObservations(obs, collate);
    if merged.Failure? {
      return Failure(Invalid(merged.error));
    }
    var d := DecideCheckpoint(current, target, merged.value);
    r := ChunkReplayRanges(d.missing, planner.maxReplayLedgers);
  }

  method AdvanceCheckpoint(current: int, target: int, obs: seq<LedgerObservation>,
                           collate: string -> real) returns (r: Result<int, PlanError>)
    ensures r == Checkpoint(current, target, obs, collate)
  {
    var merged := MergeObservations(obs, collate);
    if merged.Failure? {
      return Failure(Invalid(merged.error));
    }
    var d := DecideCheckpoint(current, target, merged.value);
    r := if d.accepted then Success(d.nextCheckpoint) else Failure(Blocked(|d.missing|));
  }

  // ---------------------------------------------------------------------
  // What plans and checkpoints guarantee
  // ---------------------------------------------------------------------

  /** A ledger of (current, target] that nobody observed. */
  ghost predicate Missing(current: int, target: int, obs: seq<LedgerObservation>, l: int) {
    current < l <= target && !Observed(obs, l)
  }

  lemma DecisionSpec(current: int, target: int, obs: seq<LedgerObservation>)
    ensures var d := Decision(current, target, obs);
      && Separated(d.missing)
      && (forall l :: Covers(d.missing, l) <==> Missing(current, target, obs, l))
      && (d.accepted <==> forall l :: !Missing(current, target, obs, l))
      && d.nextCheckpoint == (if d.accepted && target > current then target else current)
  {
    var gaps := Gaps(current + 1, target, obs);
    GapsSpec(current + 1, target, obs);
    SortedSetOfAscending(gaps);
    RunsSpec(gaps);
    assert gaps != [] ==> gaps[0] in gaps;
  }

  lemma MergedMissing(current: int, target: int, obs: seq<LedgerObservation>, collate: string -> real)
    requires Merge(obs, collate).Success?
    ensures forall l :: Missing(current, target, Merge(obs, collate).value, l) <==> Missing(current, target, obs, l)
  {
    MergeSpec(obs, collate);
  }

  /** The plan covers exactly the unobserved ledgers, with ascending disjoint non-empty chunks of at most `max`. */
  lemma PlanExact(current: int, target: int, obs: seq<LedgerObservation>, max: nat, collate: string -> real)
    requires max >= 1
    ensures Plan(current, target, obs, max, collate).Success? <==> Merge(obs, collate).Success?
    ensures Merge(obs, collate).Failure? ==>
              Plan(current, target, obs, max, collate) == Failure(Invalid(Merge(obs, collate).error))
    ensures Plan(current, target, obs, max, collate).Success? ==>
      var chunks := Plan(current, target, obs, max, collate).value;
      ChunksOk(chunks, max) && forall l :: Covers(chunks, l) <==> Missing(current, target, obs, l)
  {
    if Merge(obs, collate).Success? {
      var m := Merge(obs, collate).value;
      MergedMissing(current, target, obs, collate);
      DecisionSpec(current, target, m);
      CutAllSpec(Decision(current, target, m).missing, max);
    }
  }

  ghost predicate AllObserved(current: int, target: int, obs: seq<LedgerObservation>) {
    forall l :: current < l <= target ==> Observed(obs, l)
  }

  lemma NoneMissing(current: int, target: int, obs: seq<LedgerObservation>)
    ensures AllObserved(current, target, obs) <==> forall l :: !Missing(current, target, obs, l)
  {
    if forall l :: !Missing(current, target, obs, l) {
      forall l | current < l <= target ensures Observed(obs, l) {
        assert !Missing(current, target, obs, l);
      }
    }
  }

  lemma AcceptedExactly(current: int, target: int, obs: seq<LedgerObservation>)
    ensures Decision(current, target, obs).accepted <==> AllObserved(current, target, obs)
    ensures Decision(current, target, obs).accepted ==>
            Decision(current, target, obs).nextCheckpoint == if target > current then target else current
  {
    DecisionSpec(current, target, obs);
    NoneMissing(current, target, obs);
  }

  /** The checkpoint moves exactly when every ledger up to the target was observed. */
  lemma CheckpointExact(current: int, target: int, obs: seq<LedgerObservation>, collate: string -> real)
    ensures
      var r := Checkpoint(current, target, obs, collate);
      && (r.Success? <==> Merge(obs, collate).Success? && AllObserved(current, target, obs))
      && (r.Success? ==> r.value == if target > current then target else current)
  {
    if Merge(obs, collate).Success? {
      AcceptedExactly(current, target, Merge(obs, collate).value);
      MergeSpec(obs, collate);
      assert AllObserved(current, target, Merge(obs, collate).value) <==> AllObserved(current, target, obs);
    }
  }

  /** Otherwise the first invalid ledger or event is reported, or else how many separate ranges are missing. */
  lemma CheckpointFails(current: int, target: int, obs: seq<LedgerObservation>, collate: string -> real)
    returns (missing: seq<ReplayChunk>)
    requires Checkpoint(current, target, obs, collate).Failure?
    ensures Merge(obs, collate).Failure? ==>
              Checkpoint(current, target, obs, collate) == Failure(Invalid(Merge(obs, collate).error))
    ensures Merge(obs, collate).Success? ==>
              && missing != [] && Checkpoint(current, target, obs, collate) == Failure(Blocked(|missing|))
              && Separated(missing) && forall l :: Covers(missing, l) <==> Missing(current, target, obs, l)
  {
    missing := [];
    if Merge(obs, collate).Success? {
      MergedMissing(current, target, obs, collate);
      DecisionSpec(current, target, Merge(obs, collate).value);
      missing := Decision(current, target, Merge(obs, collate).value).missing;
    }
  }

  /** Observing what was planned lets the checkpoint reach the target. */
  lemma ReplayCompletes(current: int, target: int, obs: seq<LedgerObservation>, replay: seq<LedgerObservation>,
                        max: nat, collate: string -> real)
    requires max >= 1 && target >= current && Merge(obs, collate).Success? && Merge(obs + replay, collate).Success?
    requires forall l :: Covers(Plan(current, target, obs, max, collate).value, l) ==> Observed(replay, l)
    ensures Checkpoint(current, target, obs + replay, collate) == Success(target)
  {
    PlanExact(current, target, obs, max, collate);
    CheckpointExact(current, target, obs + replay, collate);
    forall l | current < l <= target ensures Observed(obs + replay, l) {
      ObservedAppend(obs, replay, l);
      assert Missing(current, target, obs, l) || Observed(obs, l);
    }
  }

  datatype Call = Call(target: int, obs: seq<LedgerObservation>)

  /** The stored checkpoint after one call: a call that throws leaves it. */
  function Step(current: int, call: Call, collate: string -> real): (next: int) {
    var r := Checkpoint(current, call.target, call.obs, collate);
    if r.Success? then r.value else current
  }

  function After(current: int, calls: seq<Call>, collate: string -> real): (next: int) {
    if calls == [] then current
    else Step(After(current, calls[..|calls| - 1], collate), calls[|calls| - 1], collate)
  }

  ghost predicate ObservedBy(calls: seq<Call>, l: int) { exists c :: c in calls && Observed(c.obs, l) }

  lemma StepSafe(current: int, call: Call, collate: string -> real)
    ensures Step(current, call, collate) >= current
    ensures AllObserved(current, Step(current, call, collate), call.obs)
  {
    CheckpointExact(current, call.target, call.obs, collate);
  }

  /** Over any run the checkpoint never goes back, and every ledger it crossed was explicitly observed. */
  lemma {:induction false} CheckpointSafe(current: int, calls: seq<Call>, collate: string -> real)
    ensures After(current, calls, collate) >= current
    ensures forall l :: current < l <= After(current, calls, collate) ==> ObservedBy(calls, l)
  {
    if calls != [] {
      var init, last := calls[..|calls| - 1], calls[|calls| - 1];
      CheckpointSafe(current, init, collate);
      var mid := After(current, init, collate);
      StepSafe(mid, last, collate);
      forall l | current < l <= Step(mid, last, collate) ensures ObservedBy(calls, l) {
        ObservedByLast(calls, l);
      }
    }
  }

  lemma ObservedByLast(calls: seq<Call>, l: int)
    requires calls != []
    ensures ObservedBy(calls, l) <==> ObservedBy(calls[..|calls| - 1], l) || Observed(calls[|calls| - 1].obs, l)
  {
    DropLast(calls);
    if ObservedBy(calls, l) {
      var c :| c in calls && Observed(c.obs, l);
    }
  }
}
