/**
 * `prepareClaim` and `submitClaim` as a transition system: any number of calls run at once,
 * each suspended at one of its awaits, with crashes between any two steps, an arbitrary RPC,
 * a clock that never goes back, and settle-confirmer polls.
 */
module ClaimService {
  import opened Wrappers
  import opened ClaimChain
  import opened ClaimRepo

  datatype ClaimError = ClaimError(status: nat, code: string)

  // ---------------------------------------------------------------------
  // Business rules
  // ---------------------------------------------------------------------

  datatype PredictionInfo = PredictionInfo(result: Option<string>, amount: string, claimTxHash: Option<string>)

  /** What `loadContext` read; other services write the tables behind it at any time. */
  datatype Context = Context(
    market: Option<string>, prediction: Option<PredictionInfo>, ambiguous: bool, unconfirmedOnly: bool)

  /** The validations at the top of `prepareClaim`: the amount to claim, or the error thrown. */
  function Gate(ctx: Context): (r: Result<string, ClaimError>) {
    if ctx.market.None? then Failure(ClaimError(404, "market_not_found"))
    else if ctx.market.value != "resolved" then Failure(ClaimError(400, "market_not_resolved"))
    else if ctx.ambiguous then Failure(ClaimError(409, "ambiguous_prediction"))
    else if ctx.prediction.None? then
      Failure(if ctx.unconfirmedOnly then ClaimError(400, "prediction_not_winning")
              else ClaimError(404, "prediction_not_found"))
    else if OrElse(ctx.prediction.value.claimTxHash, "") != "" then Failure(ClaimError(409, "claim_already_submitted"))
    else if ctx.prediction.value.result != Some("won") then Failure(ClaimError(400, "prediction_not_winning"))
    else Success(ctx.prediction.value.amount)
  }

  /** The default nonce source: the contract's answer, else zero for a first claim only. */
  function ClaimNonce(simulated: Option<nat>, hasPriorClaim: bool): (r: Result<nat, ClaimError>) {
    if simulated.Some? then Success(simulated.value)
    else if !hasPriorClaim then Success(0)
    else Failure(ClaimError(409, "claim_nonce_unavailable"))
  }

  datatype Receipt = Receipt(claimId: ClaimId, status: Status, claimTxHash: Option<string>)

  /** `toSubmitResult`, as far as the claim decides it. */
  function ReceiptOf(c: Claim): (r: Receipt) { Receipt(c.id, c.status, c.settlementTx) }

  /** `resolveNonSubmittable`: whether a claim's stored result is reported, or which error is thrown. */
  function NonSubmittable(c: Claim): (r: Result<Claim, ClaimError>) {
    match c.status
    case Paid => Success(c)
    case Settled => Success(c)
    case Expired => Failure(ClaimError(409, "claim_expired"))
    case Failed => Failure(ClaimError(409, OrElse(c.errorCode, "claim_rejected")))
    case Rejected => Failure(ClaimError(409, OrElse(c.errorCode, "claim_rejected")))
    case Prepared => Failure(ClaimError(409, "claim_in_progress"))
    case Submitting => Failure(ClaimError(409, "claim_in_progress"))
  }

  function ExpectedTx(c: Claim, address: string): (e: Expected) {
    Expected(address, c.marketId, OrElse(c.claimNonce, 0), OrElse(c.expectedTxHash, ""))
  }

  // ---------------------------------------------------------------------
  // State
  // ---------------------------------------------------------------------

  /** Where a `prepareClaim` call is suspended. */
  datatype PrepareState =
    | Loading
    | Finding(amount: string)
    | Found(amount: string, existing: Option<Claim>)
    | Expiring(amount: string, id: ClaimId)
    | CheckingNonce(amount: string)
    | AskingNonce(amount: string, hasPriorClaim: bool)
    | Building(amount: string, nonce: nat)
    | Inserting(input: NewClaim)
    | Yielding
    | PrepareDone(prepared: Result<Claim, ClaimError>)

  /** Where a `submitClaim` call is suspended. */
  datatype SubmitState =
    | Reading
    | Read(row: Option<Claim>)
    | ExpiringOwn(id: ClaimId)
    | Acquiring(claim: Claim, at: int)
    | Losing(claim: Claim)
    | Sending(claim: Claim)
    | Reverting(claim: Claim)
    | Paying(claim: Claim, hash: string)
    | Failing(claim: Claim, code: string)
    | Recording(claim: Claim)
    | Reporting(claim: Claim)
    | SubmitDone(receipt: Result<Receipt, ClaimError>)

  datatype Call =
    | Prepare(userId: string, marketId: string, address: string, prepare: PrepareState)
    | Submit(claimId: ClaimId, userId: string, address: string, signed: Envelope, submit: SubmitState)

  /** One transaction handed to the RPC: for whom, the clock read for the guard, and the clock when the update ran. */
  datatype Relay = Relay(claimId: ClaimId, userId: string, signed: Envelope, readAt: int, committedAt: int)

  datatype State = State(
    clock: nat,
    claims: Table,
    calls: map<nat, Call>,
    polls: map<nat, ClaimId>,
    relays: seq<Relay>,
    /** Claims of the relays answered PENDING or DUPLICATE, in order of the answers. */
    accepted: seq<ClaimId>,
    /** Claims already paid, settled or rejected in the initial table. */
    paidBefore: set<ClaimId>)

  datatype SendAnswer =
    | Threw | Pending(hash: string) | Duplicate(hash: string) | TryAgainLater | SendError(tooLate: bool)

  datatype Action =
    | StartPrepare(call: nat, userId: string, marketId: string, address: string)
    | StartSubmit(call: nat, claimId: ClaimId, userId: string, address: string, signed: Envelope)
    | Load(call: nat, ctx: Context)
    | Find(call: nat, found: Option<ClaimId>)
    | Resume(call: nat, delay: nat)
    | Nonce(call: nat, simulated: Option<nat>)
    | Build(call: nat, sequence: nat, sim: Option<Simulation>)
    | Insert(call: nat, id: ClaimId)
    | Answer(call: nat, answer: SendAnswer)
    | Write(call: nat)
    | Crash(call: nat)
    | PollPick(poll: nat, claim: ClaimId)
    | PollWrite(poll: nat, settled: bool)
    | PollDrop(poll: nat)
    | Tick(delay: nat)

  predicate PaidStatus(s: Status) { s.Paid? || s.Settled? || s.Rejected? }

  /** Any table that respects the index, and nothing in flight. */
  ghost predicate Init(s: State) {
    && WellKeyed(s.claims) && OneActivePerKey(s.claims)
    && s.calls == map[] && s.polls == map[] && s.relays == [] && s.accepted == []
    && s.paidBefore == set i | i in s.claims && PaidStatus(s.claims[i].status)
  }

  // ---------------------------------------------------------------------
  // Steps of prepareClaim
  // ---------------------------------------------------------------------

  function FinishPrepare(c: Call, r: Result<Claim, ClaimError>): (c': Call)
    requires c.Prepare?
  {
    c.(prepare := PrepareDone(r))
  }

  function AfterLoad(c: Call, ctx: Context): (c': Call)
    requires c.Prepare?
  {
    var g := Gate(ctx);
    if g.Failure? then FinishPrepare(c, Failure(g.error)) else c.(prepare := Finding(g.value))
  }

  /** The existing-claim branch, with the clock read on resumption. */
  function AfterFound(c: Call, now: int): (c': Call)
    requires c.Prepare? && c.prepare.Found?
  {
    var e := c.prepare.existing;
    if e.None? then c.(prepare := CheckingNonce(c.prepare.amount))
    else if e.value.status.Prepared? then
      if e.value.expiresAt.Some? && e.value.expiresAt.value > now then FinishPrepare(c, Success(e.value))
      else c.(prepare := Expiring(c.prepare.amount, e.value.id))
    else FinishPrepare(c, Failure(ClaimError(409,
      if e.value.status.Submitting? then "claim_in_progress" else "claim_already_submitted")))
  }

  function AfterNonce(c: Call, simulated: Option<nat>): (c': Call)
    requires c.Prepare? && c.prepare.AskingNonce?
  {
    var n := ClaimNonce(simulated, c.prepare.hasPriorClaim);
    if n.Failure? then FinishPrepare(c, Failure(n.error)) else c.(prepare := Building(c.prepare.amount, n.value))
  }

  function AfterBuild(chain: Chain, c: Call, now: nat, sequence: nat, sim: Option<Simulation>): (c': Call)
    requires c.Prepare? && c.prepare.Building?
  {
    if sim.None? then FinishPrepare(c, Failure(ClaimError(422, "claim_simulation_failed")))
    else
      var body := ClaimBody(chain, c.address, c.marketId, c.prepare.nonce, sequence, now, sim.value);
      c.(prepare := Inserting(NewClaim(c.userId, c.marketId, c.prepare.amount, c.prepare.nonce,
                                       chain.hash(body), body, body.maxTime * 1000)))
  }

  /** Lost the insert race: hand back the winner's claim if it is still prepared. */
  function AfterYield(c: Call, winner: Option<Claim>): (c': Call)
    requires c.Prepare?
  {
    if winner.Some? && winner.value.status.Prepared? then FinishPrepare(c, Success(winner.value))
    else FinishPrepare(c, Failure(ClaimError(409, "claim_in_progress")))
  }

  // ---------------------------------------------------------------------
  // Steps of submitClaim
  // ---------------------------------------------------------------------

  function FinishSubmit(c: Call, e: ClaimError): (c': Call)
    requires c.Submit?
  {
    c.(submit := SubmitDone(Failure(e)))
  }

  function Resolve(c: Call, claim: Claim): (c': Call)
    requires c.Submit?
  {
    var r := NonSubmittable(claim);
    if r.Failure? then FinishSubmit(c, r.error) else c.(submit := Reporting(r.value))
  }

  /** Ownership, status and expiry checks, then verification; the guard instant is read last. */
  function AfterRead(chain: Chain, c: Call, now: int, later: int): (c': Call)
    requires c.Submit? && c.submit.Read?
  {
    var row := c.submit.row;
    if row.None? || row.value.userId != c.userId then FinishSubmit(c, ClaimError(404, "claim_not_found"))
    else if !row.value.status.Prepared? then Resolve(c, row.value)
    else if row.value.expiresAt.None? || row.value.expiresAt.value <= now then
      c.(submit := ExpiringOwn(row.value.id))
    else if VerifySigned(chain, c.signed, ExpectedTx(row.value, c.address)).Some? then
      FinishSubmit(c, ClaimError(400, "claim_xdr_mismatch"))
    else c.(submit := Acquiring(row.value, later))
  }

  function AfterLosing(c: Call, current: Option<Claim>): (c': Call)
    requires c.Submit? && c.submit.Losing?
  {
    if current.Some? && current.value.status.Prepared? then FinishSubmit(c, ClaimError(409, "claim_expired"))
    else Resolve(c, OrElse(current, c.submit.claim))
  }

  function AfterAnswer(c: Call, answer: SendAnswer): (c': Call)
    requires c.Submit? && c.submit.Sending?
  {
    var claim := c.submit.claim;
    match answer
    case Threw => c.(submit := Reverting(claim))
    case TryAgainLater => c.(submit := Reverting(claim))
    case Pending(h) => c.(submit := Paying(claim, h))
    case Duplicate(h) => c.(submit := Paying(claim, h))
    case SendError(tooLate) => c.(submit := Failing(claim, if tooLate then "claim_expired" else "claim_rejected"))
  }

  predicate IsAccepted(a: SendAnswer) { a.Pending? || a.Duplicate? }

  // ---------------------------------------------------------------------
  // Database writes
  // ---------------------------------------------------------------------

  const EXPIRED_PATCH := Patch(None, Some("claim_expired"), None)

  /** The conditional update a call is suspended on, if any: id, from, to, patch. */
  function PendingUpdate(c: Call): (u: Option<(ClaimId, Status, Status, Patch)>) {
    match c
    case Prepare(_, _, _, p) =>
      if p.Expiring? then Some((p.id, Prepared, Expired, EXPIRED_PATCH)) else None
    case Submit(_, _, _, _, q) =>
      match q
      case ExpiringOwn(id) => Some((id, Prepared, Expired, EXPIRED_PATCH))
      case Acquiring(claim, at) => Some((claim.id, Prepared, Submitting, Patch(None, None, Some(at))))
      case Reverting(claim) => Some((claim.id, Submitting, Prepared, NO_PATCH))
      case Paying(claim, h) => Some((claim.id, Submitting, Paid, Patch(Some(h), None, None)))
      case Failing(claim, code) => Some((claim.id, Submitting, Failed, Patch(None, Some(code), None)))
      case _ => None
  }

  function TableAfterWrite(t: Table, c: Call): (t': Table) {
    var u := PendingUpdate(c);
    if u.None? then t else AfterTransition(t, u.value.0, u.value.1, u.value.2, u.value.3)
  }

  /** How the call continues once its update has run; `hit` says whether a row was returned. */
  function AfterWrite(c: Call, hit: bool, row: Option<Claim>): (c': Call)
    requires PendingUpdate(c).Some? && (hit ==> row.Some?)
  {
    match c
    case Prepare(_, _, _, p) => c.(prepare := CheckingNonce(p.amount))
    case Submit(_, _, _, _, q) =>
      match q
      case ExpiringOwn(_) => FinishSubmit(c, ClaimError(409, "claim_expired"))
      case Acquiring(claim, _) => c.(submit := if hit then Sending(row.value) else Losing(claim))
      case Reverting(_) => FinishSubmit(c, ClaimError(503, "claim_rpc_unavailable"))
      case Failing(_, code) => FinishSubmit(c, ClaimError(if code == "claim_expired" then 409 else 422, code))
      case Paying(claim, h) =>
        c.(submit := Recording(if hit then row.value else claim.(status := Paid, settlementTx := Some(h))))
  }

  // ---------------------------------------------------------------------
  // The transition system
  // ---------------------------------------------------------------------

  predicate AtLoad(c: Call) { if c.Prepare? then c.prepare.Loading? else c.submit.Reporting? }

  predicate AtResume(c: Call) { if c.Prepare? then c.prepare.Found? else c.submit.Read? }

  predicate AtWrite(c: Call) { PendingUpdate(c).Some? || (c.Submit? && c.submit.Recording?) }

  ghost predicate Enabled(s: State, a: Action) {
    match a
    case StartPrepare(k, _, _, _) => k !in s.calls
    case StartSubmit(k, _, _, _, _) => k !in s.calls
    case Load(k, _) => k in s.calls && AtLoad(s.calls[k])
    case Find(k, found) => k in s.calls && FindEnabled(s, s.calls[k], found)
    case Resume(k, _) => k in s.calls && AtResume(s.calls[k])
    case Nonce(k, _) => k in s.calls && s.calls[k].Prepare? && s.calls[k].prepare.AskingNonce?
    case Build(k, _, _) => k in s.calls && s.calls[k].Prepare? && s.calls[k].prepare.Building?
    case Insert(k, id) => k in s.calls && s.calls[k].Prepare? && s.calls[k].prepare.Inserting? && id !in s.claims
    case Answer(k, _) => k in s.calls && s.calls[k].Submit? && s.calls[k].submit.Sending?
    case Write(k) => k in s.calls && AtWrite(s.calls[k])
    case Crash(k) => k in s.calls
    case PollPick(w, id) =>
      w !in s.polls && id in s.claims && s.claims[id].status.Paid? && s.claims[id].settlementTx.Some?
    case PollWrite(w, _) => w in s.polls
    case PollDrop(w) => w in s.polls
    case Tick(_) => true
  }

  /** Lookups: `findActiveClaim`, `hasConsumedNonce` and the two `findById` reads. */
  ghost predicate FindEnabled(s: State, c: Call, found: Option<ClaimId>) {
    match c
    case Prepare(u, m, _, p) =>
      ((p.Finding? || p.Yielding?) && MayFind(s.claims, u, m, found)) || (p.CheckingNonce? && found.None?)
    case Submit(id, _, _, _, q) =>
      && (q.Reading? || q.Losing?)
      && found == (var i := if q.Reading? then id else q.claim.id; if i in s.claims then Some(i) else None)
  }

  ghost function AfterFind(s: State, c: Call, found: Option<ClaimId>): (c': Call)
    requires FindEnabled(s, c, found)
  {
    var row := if found.Some? then Some(s.claims[found.value]) else None;
    match c
    case Prepare(u, m, _, p) =>
      if p.Finding? then c.(prepare := Found(p.amount, row))
      else if p.Yielding? then AfterYield(c, row)
      else c.(prepare := AskingNonce(p.amount, ConsumedNonce(s.claims, u, m)))
    case Submit(_, _, _, _, q) =>
      if q.Reading? then c.(submit := Read(row)) else AfterLosing(c, row)
  }

  function WithCall(s: State, k: nat, c: Call): (s': State) { s.(calls := s.calls[k := c]) }

  ghost function Apply(chain: Chain, s: State, a: Action): (s': State)
    requires Enabled(s, a)
  {
    match a
    case StartPrepare(k, u, m, adr) => WithCall(s, k, Prepare(u, m, adr, Loading))
    case StartSubmit(k, id, u, adr, x) => WithCall(s, k, Submit(id, u, adr, x, Reading))
    case Load(k, ctx) =>
      var c := s.calls[k];
      WithCall(s, k, if c.Prepare? then AfterLoad(c, ctx) else
        c.(submit := SubmitDone(Success(ReceiptOf(c.submit.claim)))))
    case Find(k, found) => WithCall(s, k, AfterFind(s, s.calls[k], found))
    case Resume(k, delay) => ApplyResume(chain, s, k, delay)
    case Nonce(k, simulated) => WithCall(s, k, AfterNonce(s.calls[k], simulated))
    case Build(k, sequence, sim) => WithCall(s, k, AfterBuild(chain, s.calls[k], s.clock, sequence, sim))
    case Insert(k, id) => ApplyInsert(s, k, id)
    case Answer(k, answer) =>
      var c := s.calls[k];
      WithCall(s.(accepted := if IsAccepted(answer) then s.accepted + [c.submit.claim.id] else s.accepted),
               k, AfterAnswer(c, answer))
    case Write(k) => ApplyWrite(s, k)
    case Crash(k) => s.(calls := s.calls - {k})
    case PollPick(w, id) => s.(polls := s.polls[w := id])
    case PollWrite(w, settled) => ApplyPollWrite(s, w, settled)
    case PollDrop(w) => s.(polls := s.polls - {w})
    case Tick(delay) => s.(clock := s.clock + delay)
  }

  /** A call reads the clock and goes on from what it loaded. */
  ghost function ApplyResume(chain: Chain, s: State, k: nat, delay: nat): (s': State)
    requires Enabled(s, Resume(k, delay))
  {
    var c, later := s.calls[k], s.clock + delay;
    WithCall(s.(clock := later), k, if c.Prepare? then AfterFound(c, s.clock) else AfterRead(chain, c, s.clock, later))
  }

  ghost function ApplyInsert(s: State, k: nat, id: ClaimId): (s': State)
    requires Enabled(s, Insert(k, id))
  {
    var c := s.calls[k];
    var row := PreparedRow(id, c.prepare.input);
    if Conflicts(s.claims, c.prepare.input.userId, c.prepare.input.marketId) then
      WithCall(s, k, c.(prepare := Yielding))
    else WithCall(s.(claims := s.claims[id := row]), k, FinishPrepare(c, Success(row)))
  }

  function Hit(t: Table, c: Call): (b: bool)
    requires PendingUpdate(c).Some?
  {
    var u := PendingUpdate(c).value;
    Matches(t, u.0, u.1, u.3)
  }

  /** Runs the update a call waits for; a won `prepared -> submitting` goes on to hand the envelope to the RPC. */
  ghost function ApplyWrite(s: State, k: nat): (s': State)
    requires Enabled(s, Write(k))
  {
    var c := s.calls[k];
    if PendingUpdate(c).None? then WithCall(s, k, c.(submit := Reporting(c.submit.claim)))
    else
      var t, hit, id := TableAfterWrite(s.claims, c), Hit(s.claims, c), PendingUpdate(c).value.0;
      var c' := AfterWrite(c, hit, if hit then Some(t[id]) else None);
      var relays := if hit && c.Submit? && c.submit.Acquiring?
                    then s.relays + [Relay(id, c.userId, c.signed, c.submit.at, s.clock)] else s.relays;
      WithCall(s.(claims := t, relays := relays), k, c')
  }

  /** The settle-confirmer's update has no status guard. */
  ghost function ApplyPollWrite(s: State, w: nat, settled: bool): (s': State)
    requires Enabled(s, PollWrite(w, settled))
  {
    var id := s.polls[w];
    s.(polls := s.polls - {w},
       claims := if id in s.claims then s.claims[id := s.claims[id].(status := if settled then Settled else Rejected)]
                 else s.claims)
  }

  /** A run: every action is enabled where it happens. */
  ghost predicate IsRun(chain: Chain, s: State, acts: seq<Action>)
    decreases |acts|
  {
    acts == [] || (Enabled(s, acts[0]) && IsRun(chain, Apply(chain, s, acts[0]), acts[1..]))
  }

  ghost function After(chain: Chain, s: State, acts: seq<Action>): (s': State)
    requires IsRun(chain, s, acts)
    decreases |acts|
  {
    if acts == [] then s else After(chain, Apply(chain, s, acts[0]), acts[1..])
  }
}
