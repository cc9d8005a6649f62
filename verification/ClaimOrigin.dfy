/** Where claims come from: every claim added during a run goes back to a context in which a payout was due. */
module ClaimOrigin {
  import opened Wrappers
  import opened ClaimChain
  import opened ClaimRepo
  import opened ClaimService
  import opened ClaimOutcomes
  import opened ClaimSafety
  import opened ClaimTheorems

  /** A resolved market and one confirmed winning prediction of this amount that has not been claimed. */
  predicate Winning(ctx: Context, amount: string) { Claimable(ctx) && ctx.prediction.value.amount == amount }

  /** Call k has not crashed since step n. */
  ghost predicate Since(h: seq<Action>, n: nat, k: nat) { forall x :: n < x < |h| ==> h[x] != Crash(k) }

  /** Call k was started for this user and market, and is still that call. */
  ghost predicate Started(h: seq<Action>, k: nat, user: string, market: string) {
    exists n, address :: 0 <= n < |h| && h[n] == StartPrepare(k, user, market, address) && Since(h, n, k)
  }

  /** Call k read such a context for this amount, and is still that call. */
  ghost predicate ReadWinning(h: seq<Action>, k: nat, amount: string) {
    exists n, ctx :: 0 <= n < |h| && h[n] == Load(k, ctx) && Winning(ctx, amount) && Since(h, n, k)
  }

  /** The claim was inserted by a call started for its user and market that had read such a context for its amount. */
  ghost predicate Rightful(h: seq<Action>, c: Claim) {
    exists i, k :: 0 <= i < |h| && h[i] == Insert(k, c.id) &&
      Started(h[..i], k, c.userId, c.marketId) && ReadWinning(h[..i], k, c.amount)
  }

  /** The amount a prepare goes on with. */
  function AmountOf(c: Call): (a: Option<string>) {
    if c.Submit? then None
    else match c.prepare
      case Finding(a) => Some(a)
      case Found(a, _) => Some(a)
      case Expiring(a, _) => Some(a)
      case CheckingNonce(a) => Some(a)
      case AskingNonce(a, _) => Some(a)
      case Building(a, _) => Some(a)
      case Inserting(input) => Some(input.amount)
      case _ => None
  }

  ghost predicate CallTraced(h: seq<Action>, k: nat, c: Call) {
    && (c.Prepare? ==> Started(h, k, c.userId, c.marketId))
    && (AmountOf(c).Some? ==> ReadWinning(h, k, AmountOf(c).value))
  }

  /** What the steps so far say about the calls and the claims that were not there before. */
  ghost predicate Traced(known: set<ClaimId>, h: seq<Action>, s: State) {
    && (forall k :: k in s.calls ==> CallTraced(h, k, s.calls[k]))
    && (forall id :: id in s.claims && id !in known ==> Rightful(h, s.claims[id]))
  }

  // ---------------------------------------------------------------------
  // One more step
  // ---------------------------------------------------------------------

  lemma SinceStep(h: seq<Action>, a: Action, n: nat, k: nat)
    requires Since(h, n, k) && a != Crash(k)
    ensures Since(h + [a], n, k)
  {
  }

  lemma StartedStep(h: seq<Action>, a: Action, k: nat, user: string, market: string)
    requires Started(h, k, user, market) && a != Crash(k)
    ensures Started(h + [a], k, user, market)
  {
    var n, address :| 0 <= n < |h| && h[n] == StartPrepare(k, user, market, address) && Since(h, n, k);
    SinceStep(h, a, n, k);
    assert (h + [a])[n] == h[n];
  }

  lemma ReadStep(h: seq<Action>, a: Action, k: nat, amount: string)
    requires ReadWinning(h, k, amount) && a != Crash(k)
    ensures ReadWinning(h + [a], k, amount)
  {
    var n, ctx :| 0 <= n < |h| && h[n] == Load(k, ctx) && Winning(ctx, amount) && Since(h, n, k);
    SinceStep(h, a, n, k);
    assert (h + [a])[n] == h[n];
  }

  lemma JustStarted(h: seq<Action>, k: nat, user: string, market: string, address: string)
    ensures Started(h + [StartPrepare(k, user, market, address)], k, user, market)
  {
    var h' := h + [StartPrepare(k, user, market, address)];
    assert h'[|h|] == StartPrepare(k, user, market, address) && Since(h', |h|, k);
  }

  lemma JustRead(h: seq<Action>, k: nat, ctx: Context, amount: string)
    requires Winning(ctx, amount)
    ensures ReadWinning(h + [Load(k, ctx)], k, amount)
  {
    var h' := h + [Load(k, ctx)];
    assert h'[|h|] == Load(k, ctx) && Since(h', |h|, k);
  }

  lemma RightfulStep(h: seq<Action>, a: Action, c: Claim, c': Claim)
    requires Rightful(h, c) && SameTerms(c, c')
    ensures Rightful(h + [a], c')
  {
    var i, k :| 0 <= i < |h| && h[i] == Insert(k, c.id) &&
      Started(h[..i], k, c.userId, c.marketId) && ReadWinning(h[..i], k, c.amount);
    assert (h + [a])[..i] == h[..i] && (h + [a])[i] == h[i];
  }

  /** Only the right context lets a prepare past its loading. */
  lemma LoadWins(c: Call, ctx: Context)
    requires c.Prepare?
    ensures AmountOf(AfterLoad(c, ctx)).Some? ==> Winning(ctx, AmountOf(AfterLoad(c, ctx)).value)
  {
  }

  /** Other steps keep a prepare's user and market, and its amount. */
  lemma AmountKept(chain: Chain, s: State, a: Action, k: nat)
    requires Enabled(s, a) && !a.Load? && !a.StartPrepare? && k in Apply(chain, s, a).calls
    requires Apply(chain, s, a).calls[k].Prepare?
    ensures a != Crash(k) && k in s.calls && s.calls[k].Prepare?
    ensures
      var c, c' := s.calls[k], Apply(chain, s, a).calls[k];
      && c'.userId == c.userId && c'.marketId == c.marketId
      && (AmountOf(c').Some? ==> AmountOf(c') == AmountOf(c))
  {
  }

  lemma CallTracedStep(chain: Chain, known: set<ClaimId>, h: seq<Action>, s: State, a: Action, k: nat)
    requires Traced(known, h, s) && Enabled(s, a) && k in Apply(chain, s, a).calls
    ensures CallTraced(h + [a], k, Apply(chain, s, a).calls[k])
  {
    var c' := Apply(chain, s, a).calls[k];
    if c'.Prepare? {
      if a.StartPrepare? && a.call == k {
        JustStarted(h, k, a.userId, a.marketId, a.address);
      } else if a.Load? && a.call == k {
        LoadTraced(chain, known, h, s, a);
      } else if a.Load? || a.StartPrepare? {
        KeptTraced(h, a, k, s.calls[k]);
      } else {
        AmountKept(chain, s, a, k);
        KeptTraced(h, a, k, s.calls[k]);
      }
    }
  }

  lemma KeptTraced(h: seq<Action>, a: Action, k: nat, c: Call)
    requires CallTraced(h, k, c) && a != Crash(k)
    ensures CallTraced(h + [a], k, c)
  {
    if c.Prepare? {
      StartedStep(h, a, k, c.userId, c.marketId);
    }
    if AmountOf(c).Some? {
      ReadStep(h, a, k, AmountOf(c).value);
    }
  }

  lemma LoadTraced(chain: Chain, known: set<ClaimId>, h: seq<Action>, s: State, a: Action)
    requires Traced(known, h, s) && Enabled(s, a) && a.Load? && s.calls[a.call].Prepare?
    ensures CallTraced(h + [a], a.call, AfterLoad(s.calls[a.call], a.ctx))
  {
    var c, c' := s.calls[a.call], AfterLoad(s.calls[a.call], a.ctx);
    StartedStep(h, a, a.call, c.userId, c.marketId);
    LoadWins(c, a.ctx);
    if AmountOf(c').Some? {
      JustRead(h, a.call, a.ctx, AmountOf(c').value);
    }
  }

  lemma InsertTraced(chain: Chain, known: set<ClaimId>, h: seq<Action>, s: State, a: Action, id: ClaimId)
    requires Inv(chain, s) && Traced(known, h, s) && Enabled(s, a)
    requires id in Apply(chain, s, a).claims && id !in s.claims
    ensures Rightful(h + [a], Apply(chain, s, a).claims[id])
  {
    NewRows(chain, s, a, id);
    var c := s.calls[a.call];
    assert CallOk(chain, s, c) && CallTraced(h, a.call, c);
    assert (h + [a])[..|h|] == h && (h + [a])[|h|] == a;
    var row := Apply(chain, s, a).claims[id];
    assert a == Insert(a.call, row.id) && ReadWinning(h, a.call, row.amount);
  }

  lemma TracedStep(chain: Chain, known: set<ClaimId>, h: seq<Action>, s: State, a: Action)
    requires Inv(chain, s) && Traced(known, h, s) && Enabled(s, a)
    ensures Traced(known, h + [a], Apply(chain, s, a))
  {
    var s' := Apply(chain, s, a);
    StatusEdges(chain, s, a);
    forall k | k in s'.calls ensures CallTraced(h + [a], k, s'.calls[k]) {
      CallTracedStep(chain, known, h, s, a, k);
    }
    forall id | id in s'.claims && id !in known ensures Rightful(h + [a], s'.claims[id]) {
      if id in s.claims {
        RightfulStep(h, a, s.claims[id], s'.claims[id]);
      } else {
        InsertTraced(chain, known, h, s, a, id);
      }
    }
  }

  lemma {:induction false} TracedRun(chain: Chain, known: set<ClaimId>, h: seq<Action>, s: State, acts: seq<Action>)
    requires Inv(chain, s) && Traced(known, h, s) && IsRun(chain, s, acts)
    ensures Traced(known, h + acts, After(chain, s, acts))
    decreases |acts|
  {
    if acts == [] {
      assert h + acts == h;
    } else {
      TracedStep(chain, known, h, s, acts[0]);
      StepInv(chain, s, acts[0]);
      TracedRun(chain, known, h + [acts[0]], Apply(chain, s, acts[0]), acts[1..]);
      assert h + [acts[0]] + acts[1..] == h + acts;
    }
  }

  /**
   * Every claim present after a run and absent before it was inserted by a call that was started for its user and
   * market and had read a resolved market with an unclaimed winning prediction of the claim's amount.
   */
  lemma ClaimsAreRightful(chain: Chain, s0: State, acts: seq<Action>, id: ClaimId)
    requires Init(s0) && IsRun(chain, s0, acts) && id in After(chain, s0, acts).claims && id !in s0.claims
    ensures Rightful(acts, After(chain, s0, acts).claims[id])
  {
    InitInv(chain, s0);
    TracedRun(chain, s0.claims.Keys, [], s0, acts);
    assert [] + acts == acts;
  }
}
