/** When the guarded update into `submitting` commits, compared with the claim's expiry. */
module ClaimTiming {
  import opened ClaimChain
  import opened ClaimRepo
  import opened ClaimService
  import opened ClaimSafety
  import opened ClaimTheorems
  import opened ClaimWitnesses

  /** The call waits for its guarded `prepared -> submitting` update. */
  predicate AtGuard(c: Call) { c.Submit? && c.submit.Acquiring? }

  /** The guarded update runs at most `d` after the clock read it compares with. */
  predicate PromptStep(s: State, a: Action, d: nat) {
    a.Write? && a.call in s.calls && AtGuard(s.calls[a.call]) ==> s.clock <= s.calls[a.call].submit.at + d
  }

  /** A run all of whose guarded updates are that prompt. */
  ghost predicate PromptRun(chain: Chain, s: State, acts: seq<Action>, d: nat)
    decreases |acts|
  {
    acts == [] ||
    (Enabled(s, acts[0]) && PromptStep(s, acts[0], d) && PromptRun(chain, Apply(chain, s, acts[0]), acts[1..], d))
  }

  // ---------------------------------------------------------------------
  // What a step adds to the relays
  // ---------------------------------------------------------------------

  lemma WriteRelays(s: State, k: nat)
    requires Enabled(s, Write(k))
    ensures
      var c := s.calls[k];
      || ApplyWrite(s, k).relays == s.relays
      || (AtGuard(c) &&
        ApplyWrite(s, k).relays == s.relays + [Relay(c.submit.claim.id, c.userId, c.signed, c.submit.at, s.clock)])
  {
  }

  lemma OtherRelays(chain: Chain, s: State, a: Action)
    requires Enabled(s, a) && !a.Write?
    ensures Apply(chain, s, a).relays == s.relays
  {
  }

  ghost predicate CommittedWithin(s: State, d: nat) {
    forall i :: 0 <= i < |s.relays| ==> s.relays[i].committedAt <= s.relays[i].readAt + d
  }

  lemma CommittedStep(chain: Chain, s: State, a: Action, d: nat)
    requires CommittedWithin(s, d) && Enabled(s, a) && PromptStep(s, a, d)
    ensures CommittedWithin(Apply(chain, s, a), d)
  {
    if a.Write? {
      WriteRelays(s, a.call);
    } else {
      OtherRelays(chain, s, a);
    }
  }

  lemma {:induction false} CommittedRun(chain: Chain, s: State, acts: seq<Action>, d: nat)
    requires CommittedWithin(s, d) && PromptRun(chain, s, acts, d) && IsRun(chain, s, acts)
    ensures CommittedWithin(After(chain, s, acts), d)
    decreases |acts|
  {
    if acts != [] {
      CommittedStep(chain, s, acts[0], d);
      CommittedRun(chain, Apply(chain, s, acts[0]), acts[1..], d);
    }
  }

  /** Every relay's update commits less than `d` after expiry: before expiry, when updates run at once. */
  lemma CommittedNearExpiry(chain: Chain, s0: State, acts: seq<Action>, d: nat, i: nat)
    requires Init(s0) && PromptRun(chain, s0, acts, d) && IsRun(chain, s0, acts) && i < |After(chain, s0, acts).relays|
    ensures
      var s := After(chain, s0, acts);
      var r := s.relays[i];
      && r.claimId in s.claims && s.claims[r.claimId].expiresAt.Some?
      && r.committedAt < s.claims[r.claimId].expiresAt.value + d
  {
    CommittedRun(chain, s0, acts, d);
    RelaysAreAuthentic(chain, s0, acts, i);
  }

  // ---------------------------------------------------------------------
  // The clock is read before the update commits
  // ---------------------------------------------------------------------

  ghost predicate TimesOk(s: State) {
    && (forall k :: k in s.calls && AtGuard(s.calls[k]) ==> s.calls[k].submit.at <= s.clock)
    && (forall i :: 0 <= i < |s.relays| ==> s.relays[i].readAt <= s.relays[i].committedAt)
  }

  lemma GuardTimes(chain: Chain, s: State, a: Action, k: nat)
    requires Enabled(s, a) && k in Apply(chain, s, a).calls && AtGuard(Apply(chain, s, a).calls[k])
    requires k in s.calls && AtGuard(s.calls[k]) ==> s.calls[k].submit.at <= s.clock
    ensures Apply(chain, s, a).calls[k].submit.at <= Apply(chain, s, a).clock
  {
  }

  lemma TimesStep(chain: Chain, s: State, a: Action)
    requires TimesOk(s) && Enabled(s, a)
    ensures TimesOk(Apply(chain, s, a))
  {
    var s' := Apply(chain, s, a);
    forall k | k in s'.calls && AtGuard(s'.calls[k]) ensures s'.calls[k].submit.at <= s'.clock {
      GuardTimes(chain, s, a, k);
    }
    if a.Write? {
      WriteRelays(s, a.call);
    } else {
      OtherRelays(chain, s, a);
    }
  }

  lemma {:induction false} TimesRun(chain: Chain, s: State, acts: seq<Action>)
    requires TimesOk(s) && IsRun(chain, s, acts)
    ensures TimesOk(After(chain, s, acts))
    decreases |acts|
  {
    if acts != [] {
      TimesStep(chain, s, acts[0]);
      TimesRun(chain, Apply(chain, s, acts[0]), acts[1..]);
    }
  }

  /** In every run the guard's clock read is no later than the commit. */
  lemma ReadBeforeCommit(chain: Chain, s0: State, acts: seq<Action>, i: nat)
    requires Init(s0) && IsRun(chain, s0, acts) && i < |After(chain, s0, acts).relays|
    ensures After(chain, s0, acts).relays[i].readAt <= After(chain, s0, acts).relays[i].committedAt
  {
    TimesRun(chain, s0, acts);
  }

  // ---------------------------------------------------------------------
  // Exactly when every relay commits before expiry
  // ---------------------------------------------------------------------

  lemma {:induction false} PromptExtend(chain: Chain, s: State, acts: seq<Action>, a: Action, d: nat)
    requires IsRun(chain, s, acts) && PromptRun(chain, s, acts, d)
    requires Enabled(After(chain, s, acts), a) && PromptStep(After(chain, s, acts), a, d)
    ensures PromptRun(chain, s, acts + [a], d)
    decreases |acts|
  {
    if acts == [] {
      assert acts + [a] == [a] && [a][1..] == [];
    } else {
      PromptExtend(chain, Apply(chain, s, acts[0]), acts[1..], a, d);
      assert (acts + [a])[0] == acts[0] && (acts + [a])[1..] == acts[1..] + [a];
    }
  }

  lemma {:induction false} NoWritesPrompt(chain: Chain, s: State, acts: seq<Action>, d: nat)
    requires IsRun(chain, s, acts) && forall a :: a in acts ==> !a.Write?
    ensures PromptRun(chain, s, acts, d)
    decreases |acts|
  {
    if acts != [] {
      assert acts[0] in acts;
      NoWritesPrompt(chain, Apply(chain, s, acts[0]), acts[1..], d);
    }
  }

  /**
   * The guard compares expiry with a clock read before the update runs: a claim submitted at `s.clock` whose
   * update is delayed is relayed all the same, and commits before expiry exactly when the delay allows it.
   */
  lemma GuardReadsEarly(chain: Chain, s: State, k: nat, id: ClaimId, address: string, signed: Envelope, delay: nat)
    returns (acts: seq<Action>)
    requires k !in s.calls && Submittable(chain, s, id, address, signed)
    ensures IsRun(chain, s, acts) && PromptRun(chain, s, acts, delay)
    ensures
      var s' := After(chain, s, acts);
      && s'.relays == s.relays + [Relay(id, s.claims[id].userId, signed, s.clock, s.clock + delay)]
      && id in s'.claims && s'.claims[id].expiresAt == s.claims[id].expiresAt
      && (RelayInTime(s', s'.relays[|s.relays|]) <==> s.clock + delay < s.claims[id].expiresAt.value)
  {
    acts := ReachAcquire(chain, s, k, id, address, signed);
    NoWritesPrompt(chain, s, acts, delay);
    DelayedWrite(chain, s, k, id, address, signed, delay);
    PromptExtend(chain, s, acts, Tick(delay), delay);
    acts := Extend(chain, s, acts, Tick(delay));
    PromptExtend(chain, s, acts, Write(k), delay);
    acts := Extend(chain, s, acts, Write(k));
  }

  lemma DelayedWrite(chain: Chain, s: State, k: nat, id: ClaimId, address: string, signed: Envelope, delay: nat)
    requires k !in s.calls && Submittable(chain, s, id, address, signed)
    ensures
      var s1 := WithCall(s, k, Submit(id, s.claims[id].userId, address, signed, Acquiring(s.claims[id], s.clock)));
      var s2 := Apply(chain, s1, Tick(delay));
      && Enabled(s2, Write(k)) && PromptStep(s2, Write(k), delay)
      && var s3 := Apply(chain, s2, Write(k));
         && s3.relays == s.relays + [Relay(id, s.claims[id].userId, signed, s.clock, s.clock + delay)]
         && id in s3.claims && s3.claims[id].expiresAt == s.claims[id].expiresAt
  {
  }

  predicate RelayInTime(s: State, r: Relay) {
    r.claimId in s.claims && s.claims[r.claimId].expiresAt.Some? ==> r.committedAt < s.claims[r.claimId].expiresAt.value
  }

  ghost predicate CommitsInTime(s: State) {
    forall i :: 0 <= i < |s.relays| ==> RelayInTime(s, s.relays[i])
  }

  /** In every run with updates at most `d` late, every relay commits before expiry. */
  ghost predicate AlwaysInTime(chain: Chain, d: nat) {
    forall s0, acts :: Init(s0) && PromptRun(chain, s0, acts, d) && IsRun(chain, s0, acts) ==>
      CommitsInTime(After(chain, s0, acts))
  }

  /** A table with one prepared claim, one millisecond before it expires. */
  ghost function LastMoment(chain: Chain): (s: State)
    ensures Init(s)
  {
    var row := PreparedRow(0, FreshInput(chain, EmptyState(), "u", "m", "G", 0));
    State(299_999, map[0 := row], map[], map[], [], [], {})
  }

  lemma LateByOne(chain: Chain, d: nat) returns (acts: seq<Action>)
    requires d >= 1
    ensures PromptRun(chain, LastMoment(chain), acts, d) && IsRun(chain, LastMoment(chain), acts)
    ensures !CommitsInTime(After(chain, LastMoment(chain), acts))
  {
    var s := LastMoment(chain);
    var signed := Signed(FreshInput(chain, EmptyState(), "u", "m", "G", 0));
    FreshIsSubmittable(chain, EmptyState(), s, "u", "m", "G", 0, 0);
    acts := GuardReadsEarly(chain, s, 0, 0, "G", signed, d);
    assert After(chain, s, acts).relays[0].committedAt == 299_999 + d;
  }

  /** Every relay commits before expiry in every run if and only if updates run at once. */
  lemma InTimeExactly(chain: Chain, d: nat)
    ensures AlwaysInTime(chain, d) <==> d == 0
  {
    if d == 0 {
      forall s0, acts | Init(s0) && PromptRun(chain, s0, acts, d) && IsRun(chain, s0, acts)
        ensures CommitsInTime(After(chain, s0, acts))
      {
        forall i | 0 <= i < |After(chain, s0, acts).relays|
          ensures RelayInTime(After(chain, s0, acts), After(chain, s0, acts).relays[i])
        {
          CommittedNearExpiry(chain, s0, acts, 0, i);
        }
      }
    } else {
      var acts := LateByOne(chain, d);
    }
  }
}
