/**
 * What an uninterrupted `prepareClaim` or `submitClaim` answers and leaves in the table, said outright:
 * literal statuses, codes and rows, independent of the steps that compute them.
 */
module ClaimOutcomes {
  import opened Wrappers
  import opened ClaimChain
  import opened ClaimRepo
  import opened ClaimService

  // ---------------------------------------------------------------------
  // The signed envelope
  // ---------------------------------------------------------------------

  /** A signed transaction of this user whose one operation claims this market's winnings, with the stored hash. */
  predicate IsClaimTx(chain: Chain, env: Envelope, user: string, market: string, nonce: nat, hash: string) {
    && !env.Malformed?
    && var tx := if env.FeeBump? then env.inner else env.tx;
    && tx.body.source == user && tx.signatures != [] && chain.hash(tx.body) == hash
    && var ops := tx.body.operations;
    && |ops| == 1 && ops[0].InvokeHostFunction? && (ops[0].source == None || ops[0].source == Some(user))
    && ops[0].func == InvokeContract(
         chain.contractId, "claim_winnings", [ScAddress(user), ScSymbol(market), ScU64(nonce)])
  }

  lemma OperationExactly(chain: Chain, op: Operation, e: Expected)
    ensures OperationMismatch(chain, op, e).None? <==>
              && op.InvokeHostFunction? && (op.source == None || op.source == Some(e.user))
              && op.func == InvokeContract(
                   chain.contractId, "claim_winnings", [ScAddress(e.user), ScSymbol(e.market), ScU64(e.nonce)])
  {
    if op.InvokeHostFunction? && op.func.InvokeContract? && |op.func.args| == 3 {
      assert op.func.args == [op.func.args[0], op.func.args[1], op.func.args[2]];
    }
  }

  /** `verifySigned` accepts exactly such transactions. */
  lemma AcceptsExactly(chain: Chain, env: Envelope, e: Expected)
    ensures VerifySigned(chain, env, e).None? <==> IsClaimTx(chain, env, e.user, e.market, e.nonce, e.txHash)
  {
    if !env.Malformed? && |InnerTx(env).body.operations| == 1 {
      var ops := InnerTx(env).body.operations;
      assert ops == [ops[0]];
      OperationExactly(chain, ops[0], e);
    }
  }

  /** Acceptance of an envelope for a stored claim; a claim without nonce or hash counts as 0 and "". */
  predicate ClaimTxFor(chain: Chain, signed: Envelope, address: string, c: Claim) {
    IsClaimTx(chain, signed, address, c.marketId, if c.claimNonce.Some? then c.claimNonce.value else 0,
              if c.expectedTxHash.Some? then c.expectedTxHash.value else "")
  }

  // ---------------------------------------------------------------------
  // submitClaim
  // ---------------------------------------------------------------------

  /** What is reported for a claim that cannot be submitted. */
  predicate StoredOutcome(c: Claim, r: Result<Receipt, ClaimError>) {
    && (c.status.Paid? || c.status.Settled? ==> r == Success(Receipt(c.id, c.status, c.settlementTx)))
    && (c.status.Expired? ==> r == Failure(ClaimError(409, "claim_expired")))
    && (c.status.Prepared? || c.status.Submitting? ==> r == Failure(ClaimError(409, "claim_in_progress")))
    && (c.status.Failed? || c.status.Rejected? ==>
          r == Failure(ClaimError(409, if c.errorCode.Some? then c.errorCode.value else "claim_rejected")))
  }

  /** What each answer of the network leads to for a claim that was handed over. */
  predicate RelayOutcome(before: Table, after: Table, c: Claim, answer: SendAnswer, r: Result<Receipt, ClaimError>) {
    match answer
    case Threw =>
      r == Failure(ClaimError(503, "claim_rpc_unavailable")) && after == before[c.id := c.(status := Prepared)]
    case TryAgainLater =>
      r == Failure(ClaimError(503, "claim_rpc_unavailable")) && after == before[c.id := c.(status := Prepared)]
    case Pending(h) =>
      && r == Success(Receipt(c.id, Paid, Some(h)))
      && after == before[c.id := c.(status := Paid, settlementTx := Some(h))]
    case Duplicate(h) =>
      && r == Success(Receipt(c.id, Paid, Some(h)))
      && after == before[c.id := c.(status := Paid, settlementTx := Some(h))]
    case SendError(tooLate) =>
      && r == Failure(if tooLate then ClaimError(409, "claim_expired") else ClaimError(422, "claim_rejected"))
      && after == before[c.id := c.(status := Failed,
                                    errorCode := Some(if tooLate then "claim_expired" else "claim_rejected"))]
  }

  /** A prepared claim of the caller: overdue, wrong envelope, overdue by now, or handed to the network. */
  predicate PreparedOutcome(chain: Chain, before: Table, after: Table, c: Claim, address: string, signed: Envelope,
                            now: nat, later: nat, answer: SendAnswer, r: Result<Receipt, ClaimError>)
  {
    if c.expiresAt.None? || c.expiresAt.value <= now then
      && r == Failure(ClaimError(409, "claim_expired"))
      && after == before[c.id := c.(status := Expired, errorCode := Some("claim_expired"))]
    else if !ClaimTxFor(chain, signed, address, c) then
      r == Failure(ClaimError(400, "claim_xdr_mismatch")) && after == before
    else if c.expiresAt.value <= later then r == Failure(ClaimError(409, "claim_expired")) && after == before
    else RelayOutcome(before, after, c, answer, r)
  }

  /** What a submit that lost the claim to another call reports, from the row it reads back. */
  predicate LostOutcome(c: Claim, current: Option<Claim>, r: Result<Receipt, ClaimError>) {
    if current.None? then StoredOutcome(c, r)
    else if current.value.status.Prepared? then r == Failure(ClaimError(409, "claim_expired"))
    else StoredOutcome(current.value, r)
  }

  // ---------------------------------------------------------------------
  // prepareClaim
  // ---------------------------------------------------------------------

  /** A payout is due: a resolved market, one confirmed winning prediction, not claimed yet. */
  predicate Claimable(ctx: Context) {
    && ctx.market == Some("resolved") && !ctx.ambiguous && ctx.prediction.Some?
    && (ctx.prediction.value.claimTxHash == None || ctx.prediction.value.claimTxHash == Some(""))
    && ctx.prediction.value.result == Some("won")
  }

  /** The error of the first condition that does not hold. */
  predicate Refused(ctx: Context, e: ClaimError) {
    if ctx.market == None then e == ClaimError(404, "market_not_found")
    else if ctx.market != Some("resolved") then e == ClaimError(400, "market_not_resolved")
    else if ctx.ambiguous then e == ClaimError(409, "ambiguous_prediction")
    else if ctx.prediction == None && ctx.unconfirmedOnly then e == ClaimError(400, "prediction_not_winning")
    else if ctx.prediction == None then e == ClaimError(404, "prediction_not_found")
    else if ctx.prediction.value.claimTxHash.Some? && ctx.prediction.value.claimTxHash != Some("") then
      e == ClaimError(409, "claim_already_submitted")
    else ctx.prediction.value.result != Some("won") && e == ClaimError(400, "prediction_not_winning")
  }

  /** The gate lets exactly the claimable contexts through, with the prediction's amount. */
  lemma GateExactly(ctx: Context)
    ensures Gate(ctx).Success? <==> Claimable(ctx)
    ensures Gate(ctx).Success? ==> Gate(ctx).value == ctx.prediction.value.amount
    ensures Gate(ctx).Failure? ==> Refused(ctx, Gate(ctx).error)
  {
  }

  /** The transaction the user is asked to sign: five minutes to live, one call of the claim contract. */
  predicate ClaimTx(chain: Chain, body: TxBody, address: string, market: string, nonce: nat, sequence: nat, at: nat,
                    sim: Simulation)
  {
    && body.source == address && body.sequence == sequence
    && body.fee == sim.fee && body.resources == sim.resources && body.maxTime == at / 1000 + 300
    && body.operations == [InvokeHostFunction(None, InvokeContract(
         chain.contractId, "claim_winnings", [ScAddress(address), ScSymbol(market), ScU64(nonce)]))]
  }

  /** Some claim of this user and market has used its nonce up. */
  predicate Claimed(t: Table, user: string, market: string) {
    exists i :: i in t && t[i].userId == user && t[i].marketId == market && t[i].status in {Paid, Settled}
  }

  /** The new claim, or why there is none. */
  ghost predicate CreateOutcome(chain: Chain, before: Table, after: Table, user: string, market: string,
                                amount: string, address: string, at: nat, simulated: Option<nat>, sequence: nat,
                                sim: Option<Simulation>, newId: ClaimId, r: Result<Claim, ClaimError>)
  {
    if simulated.None? && Claimed(before, user, market) then
      r == Failure(ClaimError(409, "claim_nonce_unavailable")) && after == before
    else if sim.None? then r == Failure(ClaimError(422, "claim_simulation_failed")) && after == before
    else r.Success? && after == before[newId := r.value] &&
         NewRow(chain, r.value, user, market, amount, address, at,
                if simulated.Some? then simulated.value else 0, sequence, sim.value, newId)
  }

  predicate NewRow(chain: Chain, c: Claim, user: string, market: string, amount: string, address: string, at: nat,
                   nonce: nat, sequence: nat, sim: Simulation, newId: ClaimId)
  {
    && c.id == newId && c.userId == user && c.marketId == market && c.amount == amount && c.status == Prepared
    && c.settlementTx == None && c.errorCode == None && c.claimNonce == Some(nonce)
    && c.expiresAt == Some((at / 1000 + 300) * 1000)
    && c.prepared.Some? && ClaimTx(chain, c.prepared.value, address, market, nonce, sequence, at, sim)
    && c.expectedTxHash == Some(chain.hash(c.prepared.value))
  }

  /** A row `findActiveClaim` may return: prepared, submitting, paid or settled; null when there is none. */
  ghost predicate FirstActive(t: Table, user: string, market: string, found: Option<ClaimId>) {
    match found
    case Some(id) => id in t && t[id].userId == user && t[id].marketId == market &&
      t[id].status in {Prepared, Submitting, Paid, Settled}
    case None => forall i :: i in t && t[i].userId == user && t[i].marketId == market ==>
      t[i].status in {Failed, Expired, Rejected}
  }

  /** With a claimable context: the claim already there, or a new one in its place. */
  ghost predicate ClaimOutcome(chain: Chain, before: Table, after: Table, user: string, market: string,
                               amount: string, address: string, now: nat, at: nat, found: Option<ClaimId>,
                               simulated: Option<nat>, sequence: nat, sim: Option<Simulation>, newId: ClaimId,
                               r: Result<Claim, ClaimError>)
    requires found.Some? ==> found.value in before
  {
    if found.None? then
      CreateOutcome(chain, before, after, user, market, amount, address, at, simulated, sequence, sim, newId, r)
    else
      var c := before[found.value];
      if c.status == Submitting then r == Failure(ClaimError(409, "claim_in_progress")) && after == before
      else if c.status != Prepared then r == Failure(ClaimError(409, "claim_already_submitted")) && after == before
      else if c.expiresAt.Some? && c.expiresAt.value > now then r == Success(c) && after == before
      else CreateOutcome(chain, before[c.id := c.(status := Expired, errorCode := Some("claim_expired"))], after,
                         user, market, amount, address, at, simulated, sequence, sim, newId, r)
  }

  /** What a prepare that lost the insert race answers, from the active claim it then finds. */
  predicate YieldOutcome(winner: Option<Claim>, r: Result<Claim, ClaimError>) {
    if winner.Some? && winner.value.status == Prepared then r == Success(winner.value)
    else r == Failure(ClaimError(409, "claim_in_progress"))
  }

  // ---------------------------------------------------------------------
  // The steps of an interleaved call that lost a race
  // ---------------------------------------------------------------------

  /** A submit that missed its update reports what it then reads. */
  lemma LosingExactly(c: Call, current: Option<Claim>)
    requires c.Submit? && c.submit.Losing?
    ensures
      var c' := AfterLosing(c, current);
      && (c'.submit.SubmitDone? ==> LostOutcome(c.submit.claim, current, c'.submit.receipt))
      && (!c'.submit.SubmitDone? ==>
            && c'.submit.Reporting?
            && LostOutcome(c.submit.claim, current, Success(Receipt(c'.submit.claim.id, c'.submit.claim.status,
                 c'.submit.claim.settlementTx))))
  {
  }

  /** A prepare that lost its insert answers with the winner's claim or a 409. */
  lemma YieldingExactly(c: Call, winner: Option<Claim>)
    requires c.Prepare?
    ensures
      var c' := AfterYield(c, winner);
      c'.prepare.PrepareDone? && YieldOutcome(winner, c'.prepare.prepared)
  {
  }

  /** The settle-confirmer writes the verdict on its claim, whatever the status, and touches nothing else. */
  lemma PollWritesExactly(chain: Chain, s: State, w: nat, settled: bool)
    requires Enabled(s, PollWrite(w, settled)) && s.polls[w] in s.claims
    ensures
      var s', id := Apply(chain, s, PollWrite(w, settled)), s.polls[w];
      && s'.claims == s.claims[id := s.claims[id].(status := if settled then Settled else Rejected)]
      && s'.calls == s.calls && s'.relays == s.relays && s'.accepted == s.accepted && s'.polls == s.polls - {w}
  {
  }
}
