/**
 * `prepareClaim` and `submitClaim` as the code writes them, for a call that nothing interrupts:
 * each is shown to be a run of the transition system, with the same table and the same outcome.
 */
module ClaimCalls {
  import opened Wrappers
  import opened ClaimChain
  import opened ClaimRepo
  import opened ClaimService
  import opened ClaimOutcomes
  import opened ClaimWitnesses

  /** The run has brought call `k` to `c`, with this table and clock. */
  ghost predicate At(chain: Chain, s: State, acts: seq<Action>, k: nat, c: Call, rows: Table, clock: nat) {
    && IsRun(chain, s, acts)
    && var now := After(chain, s, acts); now.claims == rows && now.clock == clock && k in now.calls && now.calls[k] == c
  }

  lemma StartStep(chain: Chain, s: State, k: nat, c: Call) returns (acts: seq<Action>)
    requires k !in s.calls && (c.Submit? ==> c.submit.Reading?) && (c.Prepare? ==> c.prepare.Loading?)
    ensures At(chain, s, acts, k, c, s.claims, s.clock)
  {
    var a := if c.Submit? then StartSubmit(k, c.claimId, c.userId, c.address, c.signed)
             else StartPrepare(k, c.userId, c.marketId, c.address);
    RunOne(chain, s, a);
    acts := [a];
  }

  lemma LoadStep(chain: Chain, s: State, acts: seq<Action>, k: nat, c: Call, rows: Table, clock: nat, ctx: Context)
    returns (acts': seq<Action>)
    requires At(chain, s, acts, k, c, rows, clock) && AtLoad(c)
    ensures c.Prepare? ==> At(chain, s, acts', k, AfterLoad(c, ctx), rows, clock)
    ensures c.Submit? ==> At(chain, s, acts', k, c.(submit := SubmitDone(Success(
              Receipt(c.submit.claim.id, c.submit.claim.status, c.submit.claim.settlementTx)))), rows, clock)
  {
    acts' := Extend(chain, s, acts, Load(k, ctx));
  }

  function RowOf(rows: Table, found: Option<ClaimId>): (r: Option<Claim>)
    requires found.Some? ==> found.value in rows
  {
    if found.Some? then Some(rows[found.value]) else None
  }

  function IdOf(c: Option<Claim>): (id: Option<ClaimId>) { if c.Some? then Some(c.value.id) else None }

  function Lookup(rows: Table, id: ClaimId): (r: Option<Claim>) { if id in rows then Some(rows[id]) else None }

  lemma ReadStep(chain: Chain, s: State, acts: seq<Action>, k: nat, c: Call, rows: Table, clock: nat)
    returns (acts': seq<Action>)
    requires At(chain, s, acts, k, c, rows, clock) && c.Submit? && (c.submit.Reading? || c.submit.Losing?)
    ensures c.submit.Reading? ==> At(chain, s, acts', k, c.(submit := Read(Lookup(rows, c.claimId))), rows, clock)
    ensures c.submit.Losing? ==> At(chain, s, acts', k, AfterLosing(c, Lookup(rows, c.submit.claim.id)), rows, clock)
  {
    var i := if c.submit.Reading? then c.claimId else c.submit.claim.id;
    acts' := Extend(chain, s, acts, Find(k, if i in rows then Some(i) else None));
  }

  lemma FindStep(chain: Chain, s: State, acts: seq<Action>, k: nat, c: Call, rows: Table, clock: nat,
                 found: Option<ClaimId>)
    returns (acts': seq<Action>)
    requires At(chain, s, acts, k, c, rows, clock) && c.Prepare? && (c.prepare.Finding? || c.prepare.Yielding?)
    requires MayFind(rows, c.userId, c.marketId, found)
    ensures c.prepare.Finding? ==>
            At(chain, s, acts', k, c.(prepare := Found(c.prepare.amount, RowOf(rows, found))), rows, clock)
    ensures c.prepare.Yielding? ==> At(chain, s, acts', k, AfterYield(c, RowOf(rows, found)), rows, clock)
  {
    acts' := Extend(chain, s, acts, Find(k, found));
  }

  lemma ConsumedStep(chain: Chain, s: State, acts: seq<Action>, k: nat, c: Call, rows: Table, clock: nat)
    returns (acts': seq<Action>)
    requires At(chain, s, acts, k, c, rows, clock) && c.Prepare? && c.prepare.CheckingNonce?
    ensures At(chain, s, acts', k,
               c.(prepare := AskingNonce(c.prepare.amount, ConsumedNonce(rows, c.userId, c.marketId))), rows, clock)
  {
    acts' := Extend(chain, s, acts, Find(k, None));
  }

  lemma ResumeStep(chain: Chain, s: State, acts: seq<Action>, k: nat, c: Call, rows: Table, clock: nat, delay: nat)
    returns (acts': seq<Action>)
    requires At(chain, s, acts, k, c, rows, clock) && AtResume(c)
    ensures c.Prepare? ==> At(chain, s, acts', k, AfterFound(c, clock), rows, clock + delay)
    ensures c.Submit? ==> At(chain, s, acts', k, AfterRead(chain, c, clock, clock + delay), rows, clock + delay)
  {
    acts' := Extend(chain, s, acts, Resume(k, delay));
  }

  lemma WriteStep(chain: Chain, s: State, acts: seq<Action>, k: nat, c: Call, rows: Table, clock: nat)
    returns (acts': seq<Action>)
    requires At(chain, s, acts, k, c, rows, clock) && PendingUpdate(c).Some?
    ensures Updated(chain, s, acts', k, c, rows, clock)
  {
    acts' := Extend(chain, s, acts, Write(k));
  }

  lemma RecordStep(chain: Chain, s: State, acts: seq<Action>, k: nat, c: Call, rows: Table, clock: nat)
    returns (acts': seq<Action>)
    requires At(chain, s, acts, k, c, rows, clock) && c.Submit? && c.submit.Recording?
    ensures At(chain, s, acts', k, c.(submit := Reporting(c.submit.claim)), rows, clock)
  {
    acts' := Extend(chain, s, acts, Write(k));
  }

  lemma AnswerStep(chain: Chain, s: State, acts: seq<Action>, k: nat, c: Call, rows: Table, clock: nat,
                   answer: SendAnswer)
    returns (acts': seq<Action>)
    requires At(chain, s, acts, k, c, rows, clock) && c.Submit? && c.submit.Sending?
    ensures At(chain, s, acts', k, AfterAnswer(c, answer), rows, clock)
  {
    acts' := Extend(chain, s, acts, Answer(k, answer));
  }

  lemma BuildSteps(chain: Chain, s: State, acts: seq<Action>, k: nat, c: Call, rows: Table, clock: nat, sequence: nat,
                   sim: Option<Simulation>)
    returns (acts': seq<Action>)
    requires At(chain, s, acts, k, c, rows, clock) && c.Prepare? && c.prepare.Building?
    ensures At(chain, s, acts', k, AfterBuild(chain, c, clock, sequence, sim), rows, clock)
  {
    acts' := Extend(chain, s, acts, Build(k, sequence, sim));
  }

  lemma NonceStep(chain: Chain, s: State, acts: seq<Action>, k: nat, c: Call, rows: Table, clock: nat,
                  simulated: Option<nat>)
    returns (acts': seq<Action>)
    requires At(chain, s, acts, k, c, rows, clock) && c.Prepare? && c.prepare.AskingNonce?
    ensures At(chain, s, acts', k, AfterNonce(c, simulated), rows, clock)
  {
    acts' := Extend(chain, s, acts, Nonce(k, simulated));
  }

  lemma InsertStep(chain: Chain, s: State, acts: seq<Action>, k: nat, c: Call, rows: Table, clock: nat, id: ClaimId)
    returns (acts': seq<Action>)
    requires At(chain, s, acts, k, c, rows, clock) && c.Prepare? && c.prepare.Inserting? && id !in rows
    ensures
      var input := c.prepare.input;
      if Conflicts(rows, input.userId, input.marketId) then At(chain, s, acts', k, c.(prepare := Yielding), rows, clock)
      else At(chain, s, acts', k, FinishPrepare(c, Success(PreparedRow(id, input))),
        rows[id := PreparedRow(id, input)], clock)
  {
    acts' := Extend(chain, s, acts, Insert(k, id));
  }

  // ---------------------------------------------------------------------
  // submitClaim
  // ---------------------------------------------------------------------

  function Done(c: Call, r: Result<Receipt, ClaimError>): (c': Call)
    requires c.Submit?
  {
    c.(submit := SubmitDone(r))
  }

  /** `resolveNonSubmittable` and `toSubmitResult`. */
  method ReportStored(chain: Chain, repo: ClaimTable, claim: Claim, ghost s: State, ghost acts: seq<Action>,
                      ghost k: nat, ghost c: Call, ghost clock: nat)
    returns (r: Result<Receipt, ClaimError>, ghost acts': seq<Action>)
    requires c.Submit? && At(chain, s, acts, k, Resolve(c, claim), repo.rows, clock)
    ensures At(chain, s, acts', k, Done(c, r), repo.rows, clock)
    ensures StoredOutcome(claim, r)
  {
    var stored := NonSubmittable(claim);
    acts' := acts;
    if stored.Failure? {
      r := Failure(stored.error);
    } else {
      acts' := LoadStep(chain, s, acts, k, Resolve(c, claim), repo.rows, clock, NO_CONTEXT);
      r := Success(ReceiptOf(stored.value));
    }
  }

  const NO_CONTEXT := Context(None, None, false, false)

  method SubmitClaim(chain: Chain, repo: ClaimTable, claimId: ClaimId, userId: string, address: string,
                     signed: Envelope,
                     now: nat, delay: nat, answer: SendAnswer, ghost s: State, ghost k: nat)
    returns (r: Result<Receipt, ClaimError>, ghost acts: seq<Action>)
    requires repo.Valid() && s.claims == repo.rows && s.clock == now && k !in s.calls
    modifies repo
    ensures repo.Valid()
    ensures claimId !in old(repo.rows) || old(repo.rows)[claimId].userId != userId ==>
              r == Failure(ClaimError(404, "claim_not_found")) && repo.rows == old(repo.rows)
    ensures claimId in old(repo.rows) && old(repo.rows)[claimId].userId == userId ==>
              var claim := old(repo.rows)[claimId];
              if claim.status != Prepared then repo.rows == old(repo.rows) && StoredOutcome(claim, r)
              else PreparedOutcome(chain, old(repo.rows), repo.rows, claim, address, signed, now, now + delay, answer,
                                   r)
    ensures At(chain, s, acts, k, Submit(claimId, userId, address, signed, SubmitDone(r)), repo.rows, now + delay)
  {
    ghost var c := Submit(claimId, userId, address, signed, Reading);
    acts := StartStep(chain, s, k, c);
    var found := repo.FindById(claimId);
    acts := ReadStep(chain, s, acts, k, c, repo.rows, now);
    c := c.(submit := Read(found));
    acts := ResumeStep(chain, s, acts, k, c, repo.rows, now, delay);
    if found.None? || found.value.userId != userId {
      return Failure(ClaimError(404, "claim_not_found")), acts;
    }
    r, acts := SubmitOwn(chain, repo, found.value, address, signed, now, delay, answer, s, acts, k, c);
  }

  /** The caller's own claim, as read at `now`. */
  method SubmitOwn(chain: Chain, repo: ClaimTable, claim: Claim, address: string, signed: Envelope,
                   now: nat, delay: nat, answer: SendAnswer, ghost s: State, ghost acts0: seq<Action>, ghost k: nat,
                   ghost c: Call)
    returns (r: Result<Receipt, ClaimError>, ghost acts: seq<Action>)
    requires repo.Valid() && Lookup(repo.rows, claim.id) == Some(claim)
    requires c.Submit? && c.userId == claim.userId && c.address == address && c.signed == signed
    requires c.submit == Read(Some(claim)) &&
             At(chain, s, acts0, k, AfterRead(chain, c, now, now + delay), repo.rows, now + delay)
    modifies repo
    ensures repo.Valid() && At(chain, s, acts, k, Done(c, r), repo.rows, now + delay)
    ensures if claim.status != Prepared then repo.rows == old(repo.rows) && StoredOutcome(claim, r)
            else PreparedOutcome(chain, old(repo.rows), repo.rows, claim, address, signed, now, now + delay, answer, r)
  {
    acts := acts0;
    AcceptsExactly(chain, signed, ExpectedTx(claim, address));
    if !claim.status.Prepared? {
      r, acts := ReportStored(chain, repo, claim, s, acts, k, c, now + delay);
    } else if claim.expiresAt.None? || claim.expiresAt.value <= now {
      r, acts := ExpireOwn(chain, repo, claim.id, s, acts, k, c.(submit := ExpiringOwn(claim.id)), now + delay);
    } else if VerifySigned(chain, signed, ExpectedTx(claim, address)).Some? {
      r := Failure(ClaimError(400, "claim_xdr_mismatch"));
    } else {
      r, acts := Acquire(chain, repo, claim, now + delay, answer, s, acts, k,
        c.(submit := Acquiring(claim, now + delay)));
    }
  }

  method ExpireOwn(chain: Chain, repo: ClaimTable, id: ClaimId, ghost s: State, ghost acts: seq<Action>, ghost k: nat,
                   ghost c: Call, ghost clock: nat)
    returns (r: Result<Receipt, ClaimError>, ghost acts': seq<Action>)
    requires repo.Valid() && c.Submit? && c.submit == ExpiringOwn(id) && At(chain, s, acts, k, c, repo.rows, clock)
    modifies repo
    ensures repo.Valid() && At(chain, s, acts', k, Done(c, r), repo.rows, clock)
    ensures r == Failure(ClaimError(409, "claim_expired"))
    ensures id in old(repo.rows) && old(repo.rows)[id].status == Prepared ==>
              repo.rows == old(repo.rows)[id :=
                old(repo.rows)[id].(status := Expired, errorCode := Some("claim_expired"))]
  {
    acts' := WriteStep(chain, s, acts, k, c, repo.rows, clock);
    var _ := repo.Transition(id, Prepared, Expired, EXPIRED_PATCH);
    r := Failure(ClaimError(409, "claim_expired"));
  }

  /** The guarded transition into `submitting`, and what follows for the winner and the loser. */
  method Acquire(chain: Chain, repo: ClaimTable, claim: Claim, at: nat, answer: SendAnswer,
                 ghost s: State, ghost acts: seq<Action>, ghost k: nat, ghost c: Call)
    returns (r: Result<Receipt, ClaimError>, ghost acts': seq<Action>)
    requires repo.Valid() && c.Submit? && c.submit == Acquiring(claim, at) && At(chain, s, acts, k, c, repo.rows, at)
    modifies repo
    ensures repo.Valid() && At(chain, s, acts', k, Done(c, r), repo.rows, at)
    ensures
      var row := Lookup(old(repo.rows), claim.id);
      if row.Some? && row.value.status == Prepared && row.value.expiresAt.Some? && row.value.expiresAt.value > at
      then RelayOutcome(old(repo.rows), repo.rows, row.value, answer, r)
      else repo.rows == old(repo.rows) && LostOutcome(claim, row, r)
  {
    acts' := WriteStep(chain, s, acts, k, c, repo.rows, at);
    var submitting := repo.Transition(claim.id, Prepared, Submitting, Patch(None, None, Some(at)));
    if submitting.value.None? {
      r, acts' := Lost(chain, repo, claim, s, acts', k, c.(submit := Losing(claim)), at);
    } else {
      r, acts' := Relayed(chain, repo, submitting.value.value, answer, s, acts', k,
        c.(submit := Sending(submitting.value.value)), at);
      FromPrepared(old(repo.rows), repo.rows, old(repo.rows)[claim.id], answer, r);
    }
  }

  /** The outcome of a relay, seen from the row before it went to `submitting`. */
  lemma FromPrepared(before: Table, after: Table, c: Claim, answer: SendAnswer, r: Result<Receipt, ClaimError>)
    requires RelayOutcome(before[c.id := c.(status := Submitting)], after, c.(status := Submitting), answer, r)
    ensures RelayOutcome(before, after, c, answer, r)
  {
  }

  /** The guard missed: the claim expired, or another call has it. */
  method Lost(chain: Chain, repo: ClaimTable, claim: Claim, ghost s: State, ghost acts: seq<Action>, ghost k: nat,
              ghost c: Call, ghost clock: nat)
    returns (r: Result<Receipt, ClaimError>, ghost acts': seq<Action>)
    requires c.Submit? && c.submit == Losing(claim) && At(chain, s, acts, k, c, repo.rows, clock)
    ensures At(chain, s, acts', k, Done(c, r), repo.rows, clock)
    ensures LostOutcome(claim, Lookup(repo.rows, claim.id), r)
  {
    var current := repo.FindById(claim.id);
    acts' := ReadStep(chain, s, acts, k, c, repo.rows, clock);
    if current.Some? && current.value.status.Prepared? {
      return Failure(ClaimError(409, "claim_expired")), acts';
    }
    r, acts' := ReportStored(chain, repo, OrElse(current, claim), s, acts', k, c, clock);
  }

  /** The four answers of the network and the transition each leads to. */
  method Relayed(chain: Chain, repo: ClaimTable, submitting: Claim, answer: SendAnswer,
                 ghost s: State, ghost acts: seq<Action>, ghost k: nat, ghost c: Call, ghost clock: nat)
    returns (r: Result<Receipt, ClaimError>, ghost acts': seq<Action>)
    requires repo.Valid() && c.Submit? && c.submit == Sending(submitting) && At(chain, s, acts, k, c, repo.rows, clock)
    requires submitting.status == Submitting && Lookup(repo.rows, submitting.id) == Some(submitting)
    modifies repo
    ensures repo.Valid() && At(chain, s, acts', k, Done(c, r), repo.rows, clock)
    ensures RelayOutcome(old(repo.rows), repo.rows, submitting, answer, r)
  {
    acts' := AnswerStep(chain, s, acts, k, c, repo.rows, clock, answer);
    ghost var c1 := AfterAnswer(c, answer);
    acts' := WriteStep(chain, s, acts', k, c1, repo.rows, clock);
    match answer
    case Threw => r := Revert(repo, submitting, s, acts', k, c1, clock, chain);
    case TryAgainLater => r := Revert(repo, submitting, s, acts', k, c1, clock, chain);
    case SendError(tooLate) =>
      var code := if tooLate then "claim_expired" else "claim_rejected";
      r := Fail(repo, submitting, code, s, acts', k, c1, clock, chain);
    case Pending(h) =>
      r, acts' := Pay(chain, repo, submitting, h, s, acts', k, c1, clock);
    case Duplicate(h) =>
      r, acts' := Pay(chain, repo, submitting, h, s, acts', k, c1, clock);
  }

  /** The run has just taken the update that `c` waits for. */
  ghost predicate Updated(chain: Chain, s: State, acts: seq<Action>, k: nat, c: Call, rows: Table, clock: nat)
    requires PendingUpdate(c).Some?
  {
    var t, id := TableAfterWrite(rows, c), PendingUpdate(c).value.0;
    At(chain, s, acts, k, AfterWrite(c, Hit(rows, c), if Hit(rows, c) then Some(t[id]) else None), t, clock)
  }

  /** Puts the claim back for another try. */
  method Revert(repo: ClaimTable, submitting: Claim,
                ghost s: State, ghost acts: seq<Action>, ghost k: nat, ghost c: Call, ghost clock: nat,
              ghost chain: Chain)
    returns (r: Result<Receipt, ClaimError>)
    requires repo.Valid() && c.Submit? && c.submit == Reverting(submitting) &&
             Updated(chain, s, acts, k, c, repo.rows, clock)
    requires submitting.status == Submitting && Lookup(repo.rows, submitting.id) == Some(submitting)
    modifies repo
    ensures repo.Valid() && At(chain, s, acts, k, Done(c, r), repo.rows, clock)
    ensures RelayOutcome(old(repo.rows), repo.rows, submitting, Threw, r)
  {
    var _ := repo.Transition(submitting.id, Submitting, Prepared, NO_PATCH);
    r := Failure(ClaimError(503, "claim_rpc_unavailable"));
  }

  /** The network refused the transaction. */
  method Fail(repo: ClaimTable, submitting: Claim, code: string,
              ghost s: State, ghost acts: seq<Action>, ghost k: nat, ghost c: Call, ghost clock: nat,
              ghost chain: Chain)
    returns (r: Result<Receipt, ClaimError>)
    requires repo.Valid() && c.Submit? && c.submit == Failing(submitting, code) &&
             Updated(chain, s, acts, k, c, repo.rows, clock)
    requires submitting.status == Submitting && Lookup(repo.rows, submitting.id) == Some(submitting)
    modifies repo
    ensures repo.Valid() && At(chain, s, acts, k, Done(c, r), repo.rows, clock)
    ensures r == Failure(ClaimError(if code == "claim_expired" then 409 else 422, code))
    ensures repo.rows ==
            old(repo.rows)[submitting.id := submitting.(status := Failed, errorCode := Some(code))]
  {
    var _ := repo.Transition(submitting.id, Submitting, Failed, Patch(None, Some(code), None));
    r := Failure(ClaimError(if code == "claim_expired" then 409 else 422, code));
  }

  /** Marks the claim paid, records it on the prediction and reports it. */
  method Pay(chain: Chain, repo: ClaimTable, submitting: Claim, hash: string,
             ghost s: State, ghost acts: seq<Action>, ghost k: nat, ghost c: Call, ghost clock: nat)
    returns (r: Result<Receipt, ClaimError>, ghost acts': seq<Action>)
    requires repo.Valid() && c.Submit? && c.submit == Paying(submitting, hash)
    requires Updated(chain, s, acts, k, c, repo.rows, clock)
    requires submitting.status == Submitting && Lookup(repo.rows, submitting.id) == Some(submitting)
    modifies repo
    ensures repo.Valid() && At(chain, s, acts', k, Done(c, r), repo.rows, clock)
    ensures RelayOutcome(old(repo.rows), repo.rows, submitting, Pending(hash), r)
  {
    var paid := repo.Transition(submitting.id, Submitting, Paid, Patch(Some(hash), None, None));
    var claim := OrElse(paid.value, submitting.(status := Paid, settlementTx := Some(hash)));
    acts' := RecordStep(chain, s, acts, k, c.(submit := Recording(claim)), repo.rows, clock);
    acts' := LoadStep(chain, s, acts', k, c.(submit := Reporting(claim)), repo.rows, clock, NO_CONTEXT);
    r := Success(ReceiptOf(claim));
  }

  // ---------------------------------------------------------------------
  // prepareClaim
  // ---------------------------------------------------------------------

  /** The expiry of an existing claim is checked at `now`; the new one's time bounds are set `delay` later. */
  method PrepareClaim(chain: Chain, repo: ClaimTable, userId: string, marketId: string, address: string,
                      now: nat, delay: nat, ctx: Context, simulated: Option<nat>, sequence: nat,
                      sim: Option<Simulation>, newId: ClaimId, ghost s: State, ghost k: nat)
    returns (r: Result<Claim, ClaimError>, ghost acts: seq<Action>, ghost found: Option<ClaimId>)
    requires repo.Valid() && newId !in repo.rows && s.claims == repo.rows && s.clock == now && k !in s.calls
    modifies repo
    ensures repo.Valid()
    ensures r.Success? ==> Claimable(ctx)
    ensures !Claimable(ctx) ==> r.Failure? && Refused(ctx, r.error) && repo.rows == old(repo.rows)
    ensures Claimable(ctx) ==>
              && FirstActive(old(repo.rows), userId, marketId, found)
              && ClaimOutcome(chain, old(repo.rows), repo.rows, userId, marketId, ctx.prediction.value.amount, address,
                              now, now + delay, found, simulated, sequence, sim, newId, r)
    ensures At(chain, s, acts, k, Prepare(userId, marketId, address, PrepareDone(r)), repo.rows,
               if Claimable(ctx) then now + delay else now)
  {
    ghost var c := Prepare(userId, marketId, address, Loading);
    acts := StartStep(chain, s, k, c);
    acts := LoadStep(chain, s, acts, k, c, repo.rows, now, ctx);
    var gate := Gate(ctx);
    GateExactly(ctx);
    found := None;
    if gate.Failure? {
      return Failure(gate.error), acts, found;
    }
    r, acts, found := UseOrCreate(chain, repo, gate.value, userId, marketId, address, now, delay, simulated, sequence,
                                  sim, newId, s, acts, k, c.(prepare := Finding(gate.value)));
  }

  /** At most one live claim per user and market: the existing one, or a new one in place of an overdue one. */
  method UseOrCreate(chain: Chain, repo: ClaimTable, amount: string, userId: string, marketId: string, address: string,
                     now: nat, delay: nat, simulated: Option<nat>, sequence: nat,
                     sim: Option<Simulation>, newId: ClaimId, ghost s: State, ghost acts0: seq<Action>, ghost k: nat,
                     ghost c: Call)
    returns (r: Result<Claim, ClaimError>, ghost acts: seq<Action>, ghost found: Option<ClaimId>)
    requires repo.Valid() && newId !in repo.rows && c == Prepare(userId, marketId, address, Finding(amount))
    requires At(chain, s, acts0, k, c, repo.rows, now)
    modifies repo
    ensures repo.Valid() && FirstActive(old(repo.rows), userId, marketId, found)
    ensures ClaimOutcome(chain, old(repo.rows), repo.rows, userId, marketId, amount, address,
                         now, now + delay, found, simulated, sequence, sim, newId, r)
    ensures At(chain, s, acts, k, c.(prepare := PrepareDone(r)), repo.rows, now + delay)
  {
    var existing := repo.FindActiveClaim(userId, marketId);
    found := IdOf(existing);
    acts := FindStep(chain, s, acts0, k, c, repo.rows, now, IdOf(existing));
    acts := ResumeStep(chain, s, acts, k, c.(prepare := Found(amount, existing)), repo.rows, now, delay);
    if existing.Some? {
      if existing.value.status.Prepared? {
        if existing.value.expiresAt.Some? && existing.value.expiresAt.value > now {
          return Success(existing.value), acts, found;
        }
        acts := WriteStep(chain, s, acts, k, c.(prepare := Expiring(amount, existing.value.id)), repo.rows,
          now + delay);
        var _ := repo.Transition(existing.value.id, Prepared, Expired, EXPIRED_PATCH);
      } else if existing.value.status.Submitting? {
        return Failure(ClaimError(409, "claim_in_progress")), acts, found;
      } else {
        return Failure(ClaimError(409, "claim_already_submitted")), acts, found;
      }
    }
    r, acts := BuildAndInsert(chain, repo, amount, userId, marketId, address, now + delay, simulated, sequence, sim,
                              newId, s, acts, k, c.(prepare := CheckingNonce(amount)));
  }

  /** Nonce, simulation and the insert that the index may refuse. */
  method BuildAndInsert(chain: Chain, repo: ClaimTable, amount: string, userId: string, marketId: string,
                        address: string, now: nat,
                        simulated: Option<nat>, sequence: nat, sim: Option<Simulation>, newId: ClaimId,
                        ghost s: State, ghost acts: seq<Action>, ghost k: nat, ghost c: Call)
    returns (r: Result<Claim, ClaimError>, ghost acts': seq<Action>)
    requires repo.Valid() && newId !in repo.rows && c == Prepare(userId, marketId, address, CheckingNonce(amount))
    requires At(chain, s, acts, k, c, repo.rows, now)
    modifies repo
    ensures repo.Valid() && At(chain, s, acts', k, c.(prepare := PrepareDone(r)), repo.rows, now)
    ensures !Conflicts(old(repo.rows), userId, marketId) ==>
              CreateOutcome(chain, old(repo.rows), repo.rows, userId, marketId, amount, address, now, simulated,
                            sequence, sim, newId, r)
  {
    var hasPriorClaim := repo.HasConsumedNonce(userId, marketId);
    acts' := ConsumedStep(chain, s, acts, k, c, repo.rows, now);
    acts' := NonceStep(chain, s, acts', k, c.(prepare := AskingNonce(amount, hasPriorClaim)), repo.rows, now,
      simulated);
    var nonce := ClaimNonce(simulated, hasPriorClaim);
    if nonce.Failure? {
      return Failure(nonce.error), acts';
    }
    acts' := BuildSteps(chain, s, acts', k, c.(prepare := Building(amount, nonce.value)), repo.rows, now, sequence,
      sim);
    if sim.None? {
      return Failure(ClaimError(422, "claim_simulation_failed")), acts';
    }
    var body := ClaimBody(chain, address, marketId, nonce.value, sequence, now, sim.value);
    var input := NewClaim(userId, marketId, amount, nonce.value, chain.hash(body), body, body.maxTime * 1000);
    ghost var yielded;
    r, acts', yielded := InsertOrYield(chain, repo, input, newId, s, acts', k, c.(prepare := Inserting(input)), now);
  }

  /** A lost insert race hands back the winner's claim while that is still prepared. */
  method InsertOrYield(chain: Chain, repo: ClaimTable, input: NewClaim, newId: ClaimId,
                       ghost s: State, ghost acts: seq<Action>, ghost k: nat, ghost c: Call, ghost clock: nat)
    returns (r: Result<Claim, ClaimError>, ghost acts': seq<Action>, ghost found: Option<ClaimId>)
    requires repo.Valid() && newId !in repo.rows && c.Prepare? && c.prepare == Inserting(input)
    requires c.userId == input.userId && c.marketId == input.marketId && At(chain, s, acts, k, c, repo.rows, clock)
    modifies repo
    ensures repo.Valid() && At(chain, s, acts', k, c.(prepare := PrepareDone(r)), repo.rows, clock)
    ensures !Conflicts(old(repo.rows), input.userId, input.marketId) ==>
              r == Success(PreparedRow(newId, input)) && repo.rows == old(repo.rows)[newId := r.value]
    ensures Conflicts(old(repo.rows), input.userId, input.marketId) ==>
              && repo.rows == old(repo.rows) && FirstActive(old(repo.rows), input.userId, input.marketId, found)
              && YieldOutcome(RowOf(old(repo.rows), found), r)
  {
    found := None;
    acts' := InsertStep(chain, s, acts, k, c, repo.rows, clock, newId);
    var inserted := repo.InsertPrepared(newId, input);
    if inserted.Some? {
      return Success(inserted.value), acts', found;
    }
    var winner := repo.FindActiveClaim(input.userId, input.marketId);
    found := IdOf(winner);
    acts' := FindStep(chain, s, acts', k, c.(prepare := Yielding), repo.rows, clock, IdOf(winner));
    if winner.Some? && winner.value.status.Prepared? {
      return Success(winner.value), acts', found;
    }
    r := Failure(ClaimError(409, "claim_in_progress"));
  }
}
