/** What every interleaving of the claim protocol keeps, and what follows for whole runs. */
module ClaimSafety {
  import opened Wrappers
  import opened ClaimChain
  import opened ClaimRepo
  import opened ClaimService

  // ---------------------------------------------------------------------
  // The invariant
  // ---------------------------------------------------------------------

  /** The claim a call owns: it won `prepared -> submitting` and has not yet run its exit transition. */
  function Owned(c: Call): (id: Option<ClaimId>) {
    if c.Submit? && (c.submit.Sending? || c.submit.Reverting? || c.submit.Paying? || c.submit.Failing?)
    then Some(c.submit.claim.id) else None
  }

  /** An owner whose relay has not been answered PENDING or DUPLICATE. */
  predicate Unpaid(c: Call) { Owned(c).Some? && !c.submit.Paying? }

  predicate Snapshot(t: Table, c: Claim) { c.id in t && SameTerms(c, t[c.id]) }

  /** The envelope holds a signed transaction that hashes to the claim's stored hash. */
  predicate Authentic(chain: Chain, signed: Envelope, c: Claim) {
    && !signed.Malformed? && InnerTx(signed).signatures != []
    && chain.hash(InnerTx(signed).body) == OrElse(c.expectedTxHash, "")
  }

  predicate Backed(s: State, id: ClaimId) { id in s.accepted || id in s.paidBefore }

  /** The claim read or written is this user's. */
  predicate Mine(t: Table, c: Claim, user: string) { Snapshot(t, c) && c.userId == user }

  predicate MyRow(t: Table, id: ClaimId, user: string) { id in t && t[id].userId == user }

  predicate CallOk(chain: Chain, s: State, c: Call) {
    match c
    case Prepare(user, market, _, p) =>
      match p {
        case Found(_, e) => e.Some? ==> Mine(s.claims, e.value, user) && e.value.marketId == market
        case Expiring(_, id) => MyRow(s.claims, id, user)
        case Inserting(input) => input.userId == user && input.marketId == market
        case PrepareDone(r) =>
          r.Success? ==> Mine(s.claims, r.value, user) && r.value.marketId == market && r.value.status.Prepared?
        case _ => true
      }
    case Submit(id, user, _, signed, q) =>
      match q {
        case Read(row) =>
          row.Some? ==>
            && Snapshot(s.claims, row.value) && row.value.id == id
            && (PaidStatus(row.value.status) ==> Backed(s, row.value.id))
        case ExpiringOwn(i) => MyRow(s.claims, i, user)
        case Acquiring(claim, at) =>
          Mine(s.claims, claim, user) && claim.status.Prepared? && Authentic(chain, signed, claim)
        case Losing(claim) => Mine(s.claims, claim, user) && claim.status.Prepared?
        case Sending(claim) => OwnerOk(s, claim, user)
        case Reverting(claim) => OwnerOk(s, claim, user)
        case Failing(claim, _) => OwnerOk(s, claim, user)
        case Paying(claim, _) => OwnerOk(s, claim, user) && claim.id in s.accepted
        case Recording(claim) => Backed(s, claim.id) && Mine(s.claims, claim, user)
        case Reporting(claim) => Backed(s, claim.id) && Mine(s.claims, claim, user)
        case SubmitDone(r) => r.Success? ==> Backed(s, r.value.claimId) && MyRow(s.claims, r.value.claimId, user)
        case _ => true
      }
  }

  predicate OwnerOk(s: State, claim: Claim, user: string) {
    Mine(s.claims, claim, user) && s.claims[claim.id].status.Submitting?
  }

  ghost predicate CallsOk(chain: Chain, s: State) {
    forall k :: k in s.calls ==> CallOk(chain, s, s.calls[k])
  }

  ghost predicate OneOwner(s: State) {
    forall j, k :: j in s.calls && k in s.calls && j != k && Owned(s.calls[j]).Some? ==>
      Owned(s.calls[j]) != Owned(s.calls[k])
  }

  /** Answers PENDING or DUPLICATE: one per claim, and only for claims that can no longer be resent. */
  ghost predicate AcceptedOk(s: State) {
    && (forall i, j :: 0 <= i < j < |s.accepted| ==> s.accepted[i] != s.accepted[j])
    && (forall id :: id in s.accepted ==>
          id in s.claims && (s.claims[id].status.Submitting? || PaidStatus(s.claims[id].status)))
    && (forall k :: k in s.calls && Unpaid(s.calls[k]) ==> s.calls[k].submit.claim.id !in s.accepted)
  }

  ghost predicate PaidOk(s: State) {
    forall id :: id in s.claims && PaidStatus(s.claims[id].status) ==> Backed(s, id)
  }

  ghost predicate PollsOk(s: State) {
    forall w :: w in s.polls ==> s.polls[w] in s.claims && PaidStatus(s.claims[s.polls[w]].status)
  }

  predicate RelayOk(chain: Chain, s: State, r: Relay) {
    && r.claimId in s.claims
    && s.claims[r.claimId].userId == r.userId && Authentic(chain, r.signed, s.claims[r.claimId])
    && s.claims[r.claimId].expiresAt.Some? && r.readAt < s.claims[r.claimId].expiresAt.value
  }

  ghost predicate RelaysOk(chain: Chain, s: State) {
    forall i :: 0 <= i < |s.relays| ==> RelayOk(chain, s, s.relays[i])
  }

  ghost predicate Inv(chain: Chain, s: State) {
    && WellKeyed(s.claims) && OneActivePerKey(s.claims)
    && CallsOk(chain, s) && OneOwner(s) && AcceptedOk(s) && PaidOk(s) && PollsOk(s) && RelaysOk(chain, s)
  }

  lemma InitInv(chain: Chain, s: State)
    requires Init(s)
    ensures Inv(chain, s)
  {
  }

  // ---------------------------------------------------------------------
  // Steps that leave the table and the logs alone
  // ---------------------------------------------------------------------

  /** Table and logs as before, one call moved to a state it may be in. */
  lemma MoveKeepsInv(chain: Chain, s: State, s': State, k: nat, c: Call)
    requires Inv(chain, s) && k in s'.calls && s'.calls[k] == c
    requires s' == s.(clock := s'.clock, calls := s.calls[k := c])
    requires CallOk(chain, s, c)
    requires Owned(c).Some? ==> k in s.calls && Owned(s.calls[k]) == Owned(c)
    requires Unpaid(c) ==> k in s.calls && Unpaid(s.calls[k])
    ensures Inv(chain, s')
  {
    forall j | j in s'.calls ensures CallOk(chain, s', s'.calls[j]) {
      assert CallOk(chain, s, s'.calls[j]);
    }
  }

  lemma ResolveOk(chain: Chain, s: State, c: Call, claim: Claim)
    requires Inv(chain, s) && c.Submit? && Mine(s.claims, claim, c.userId)
    requires PaidStatus(claim.status) ==> Backed(s, claim.id)
    ensures CallOk(chain, s, Resolve(c, claim)) && Owned(Resolve(c, claim)).None?
  {
  }

  lemma FindSubmitOk(chain: Chain, s: State, c: Call, found: Option<ClaimId>)
    requires Inv(chain, s) && CallOk(chain, s, c) && c.Submit? && FindEnabled(s, c, found)
    ensures CallOk(chain, s, AfterFind(s, c, found)) && Owned(AfterFind(s, c, found)).None?
  {
    if c.submit.Losing? {
      var row := if found.Some? then Some(s.claims[found.value]) else None;
      ResolveOk(chain, s, c, OrElse(row, c.submit.claim));
    }
  }

  lemma FindPrepareOk(chain: Chain, s: State, c: Call, found: Option<ClaimId>)
    requires Inv(chain, s) && CallOk(chain, s, c) && c.Prepare? && FindEnabled(s, c, found)
    ensures CallOk(chain, s, AfterFind(s, c, found)) && Owned(AfterFind(s, c, found)).None?
  {
  }

  lemma FindInv(chain: Chain, s: State, k: nat, found: Option<ClaimId>)
    requires Inv(chain, s) && Enabled(s, Find(k, found))
    ensures Inv(chain, Apply(chain, s, Find(k, found)))
  {
    var c := s.calls[k];
    assert CallOk(chain, s, c);
    if c.Submit? {
      FindSubmitOk(chain, s, c, found);
    } else {
      FindPrepareOk(chain, s, c, found);
    }
    MoveKeepsInv(chain, s, Apply(chain, s, Find(k, found)), k, AfterFind(s, c, found));
  }

  lemma ReadOk(chain: Chain, s: State, c: Call, now: int, later: int)
    requires Inv(chain, s) && CallOk(chain, s, c) && c.Submit? && c.submit.Read?
    ensures CallOk(chain, s, AfterRead(chain, c, now, later)) && Owned(AfterRead(chain, c, now, later)).None?
  {
    if c.submit.row.Some? && c.submit.row.value.userId == c.userId {
      ResolveOk(chain, s, c, c.submit.row.value);
      VerifiedHash(chain, c.signed, ExpectedTx(c.submit.row.value, c.address));
    }
  }

  lemma FoundOk(chain: Chain, s: State, c: Call, now: int)
    requires CallOk(chain, s, c) && c.Prepare? && c.prepare.Found?
    ensures CallOk(chain, s, AfterFound(c, now)) && Owned(AfterFound(c, now)).None?
  {
  }

  lemma ResumedOk(chain: Chain, s: State, k: nat, delay: nat)
    requires Inv(chain, s) && Enabled(s, Resume(k, delay))
    ensures
      var c' := ApplyResume(chain, s, k, delay).calls[k];
      CallOk(chain, s, c') && Owned(c').None?
  {
    var c := s.calls[k];
    assert CallOk(chain, s, c);
    if c.Submit? {
      ReadOk(chain, s, c, s.clock, s.clock + delay);
    } else {
      FoundOk(chain, s, c, s.clock);
    }
  }

  lemma ResumeInv(chain: Chain, s: State, k: nat, delay: nat)
    requires Inv(chain, s) && Enabled(s, Resume(k, delay))
    ensures Inv(chain, ApplyResume(chain, s, k, delay))
  {
    ResumedOk(chain, s, k, delay);
    var s' := ApplyResume(chain, s, k, delay);
    MoveKeepsInv(chain, s, s', k, s'.calls[k]);
  }

  lemma LocalInv(chain: Chain, s: State, a: Action)
    requires Inv(chain, s) && Enabled(s, a)
    requires a.StartPrepare? || a.StartSubmit? || a.Load? || a.Nonce? || a.Build?
    ensures Inv(chain, Apply(chain, s, a))
  {
    var s' := Apply(chain, s, a);
    if a.call in s.calls {
      assert CallOk(chain, s, s.calls[a.call]);
    }
    MoveKeepsInv(chain, s, s', a.call, s'.calls[a.call]);
  }

  /** Fewer calls, or other polls of paid claims, or a later clock: nothing else to check. */
  lemma FewerCallsInv(chain: Chain, s: State, s': State)
    requires Inv(chain, s) && PollsOk(s')
    requires s' == s.(clock := s'.clock, calls := s'.calls, polls := s'.polls)
    requires forall k :: k in s'.calls ==> k in s.calls && s'.calls[k] == s.calls[k]
    ensures Inv(chain, s')
  {
    forall j | j in s'.calls ensures CallOk(chain, s', s'.calls[j]) {
      assert CallOk(chain, s, s.calls[j]);
    }
  }

  lemma QuietInv(chain: Chain, s: State, a: Action)
    requires Inv(chain, s) && Enabled(s, a)
    requires a.Crash? || a.PollPick? || a.PollDrop? || a.Tick?
    ensures Inv(chain, Apply(chain, s, a))
  {
    FewerCallsInv(chain, s, Apply(chain, s, a));
  }

  // ---------------------------------------------------------------------
  // Steps that write the table or the logs
  // ---------------------------------------------------------------------

  /** No row disappears and no row's terms change. */
  ghost predicate Extends(t: Table, t': Table) {
    forall id :: id in t ==> id in t' && SameTerms(t[id], t'[id])
  }

  /** A call that does not act stays consistent while the table grows and its own claim stays `submitting`. */
  lemma BystanderOk(chain: Chain, s: State, s': State, c: Call)
    requires CallOk(chain, s, c) && Extends(s.claims, s'.claims)
    requires forall id :: Backed(s, id) ==> Backed(s', id)
    requires forall id :: id in s.accepted ==> id in s'.accepted
    requires Owned(c).Some? ==> s'.claims[Owned(c).value].status.Submitting?
    ensures CallOk(chain, s', c)
  {
  }

  lemma RelaysCarryOver(chain: Chain, s: State, s': State)
    requires RelaysOk(chain, s) && Extends(s.claims, s'.claims) && s'.relays == s.relays
    ensures RelaysOk(chain, s')
  {
    forall i | 0 <= i < |s'.relays| ensures RelayOk(chain, s', s'.relays[i]) {
      assert RelayOk(chain, s, s.relays[i]);
    }
  }

  /** A new acceptance is for a claim that had none, and no other call is sending it. */
  lemma AnswerAccepted(chain: Chain, s: State, k: nat, answer: SendAnswer)
    requires Inv(chain, s) && Enabled(s, Answer(k, answer))
    ensures AcceptedOk(Apply(chain, s, Answer(k, answer)))
  {
    var s' := Apply(chain, s, Answer(k, answer));
    assert CallOk(chain, s, s.calls[k]) && Unpaid(s.calls[k]);
    forall j | j in s'.calls && Unpaid(s'.calls[j]) ensures s'.calls[j].submit.claim.id !in s'.accepted {
      assert Unpaid(s.calls[j]);
      assert j != k ==> Owned(s.calls[j]) != Owned(s.calls[k]);
    }
  }

  lemma AnswerOwners(chain: Chain, s: State, k: nat, answer: SendAnswer)
    requires Inv(chain, s) && Enabled(s, Answer(k, answer))
    ensures OneOwner(Apply(chain, s, Answer(k, answer)))
  {
    var s' := Apply(chain, s, Answer(k, answer));
    assert forall j :: j in s.calls ==> Owned(s'.calls[j]) == Owned(s.calls[j]);
  }

  lemma AnswererOk(chain: Chain, s: State, k: nat, answer: SendAnswer)
    requires Inv(chain, s) && Enabled(s, Answer(k, answer))
    ensures var s' := Apply(chain, s, Answer(k, answer)); CallOk(chain, s', s'.calls[k])
  {
    assert CallOk(chain, s, s.calls[k]);
  }

  /** With the same table and more acceptances, the calls that did not move stay consistent. */
  lemma OthersOk(chain: Chain, s: State, s': State, k: nat)
    requires CallsOk(chain, s) && s'.claims == s.claims && s'.paidBefore == s.paidBefore
    requires forall id :: id in s.accepted ==> id in s'.accepted
    requires forall j :: j in s'.calls && j != k ==> j in s.calls && s'.calls[j] == s.calls[j]
    ensures forall j :: j in s'.calls && j != k ==> CallOk(chain, s', s'.calls[j])
  {
    forall j | j in s'.calls && j != k ensures CallOk(chain, s', s'.calls[j]) {
      assert CallOk(chain, s, s.calls[j]);
    }
  }

  lemma AnswerCalls(chain: Chain, s: State, k: nat, answer: SendAnswer)
    requires Inv(chain, s) && Enabled(s, Answer(k, answer))
    ensures CallsOk(chain, Apply(chain, s, Answer(k, answer)))
  {
    AnswererOk(chain, s, k, answer);
    OthersOk(chain, s, Apply(chain, s, Answer(k, answer)), k);
  }

  lemma AnswerInv(chain: Chain, s: State, k: nat, answer: SendAnswer)
    requires Inv(chain, s) && Enabled(s, Answer(k, answer))
    ensures Inv(chain, Apply(chain, s, Answer(k, answer)))
  {
    AnswerAccepted(chain, s, k, answer);
    AnswerCalls(chain, s, k, answer);
    AnswerOwners(chain, s, k, answer);
    RelaysCarryOver(chain, s, Apply(chain, s, Answer(k, answer)));
  }

  /**
   * A table step: row `x` is written, the calls outside `acting` do not move, and the logs other than
   * the relays stay. The rest of the invariant follows from what happened to row `x`.
   */
  ghost predicate WritesRow(s: State, s': State, x: ClaimId, acting: set<nat>) {
    && Extends(s.claims, s'.claims)
    && (forall id :: id in s'.claims && id != x ==> id in s.claims && s'.claims[id].status == s.claims[id].status)
    && s'.accepted == s.accepted && s'.paidBefore == s.paidBefore
    && (forall w :: w in s'.polls ==> w in s.polls && s'.polls[w] == s.polls[w])
    && (forall k :: k in s'.calls && k !in acting ==> k in s.calls && s'.calls[k] == s.calls[k])
  }

  lemma BystandersOk(chain: Chain, s: State, s': State, x: ClaimId, acting: set<nat>)
    requires Inv(chain, s) && WritesRow(s, s', x, acting)
    requires forall k :: k in s.calls && k !in acting ==> Owned(s.calls[k]) != Some(x)
    ensures forall k :: k in s'.calls && k !in acting ==> CallOk(chain, s', s'.calls[k])
  {
    forall k | k in s'.calls && k !in acting ensures CallOk(chain, s', s'.calls[k]) {
      assert CallOk(chain, s, s.calls[k]);
      BystanderOk(chain, s, s', s.calls[k]);
    }
  }

  /** The new status of row `x` agrees with the logs and the polls. */
  ghost predicate RowFits(s: State, s': State, x: ClaimId) {
    && x in s'.claims
    && (x in s.accepted ==> s'.claims[x].status.Submitting? || PaidStatus(s'.claims[x].status))
    && (PaidStatus(s'.claims[x].status) ==> Backed(s, x))
    && (forall w :: w in s'.polls && s'.polls[w] == x ==> PaidStatus(s'.claims[x].status))
  }

  lemma LogsOk(chain: Chain, s: State, s': State, x: ClaimId, acting: set<nat>)
    requires Inv(chain, s) && WritesRow(s, s', x, acting) && RowFits(s, s', x)
    requires forall k :: k in s'.calls && k in acting && Unpaid(s'.calls[k]) ==>
             s'.calls[k].submit.claim.id !in s.accepted
    ensures AcceptedOk(s') && PaidOk(s') && PollsOk(s')
  {
  }

  /** The acting calls after the step: consistent, at most one, and owning nothing but row `x`. */
  ghost predicate ActorsFit(chain: Chain, s: State, s': State, x: ClaimId, acting: set<nat>) {
    && (forall j, k :: j in acting && k in acting ==> j == k)
    && (forall k :: k in acting && k in s'.calls ==>
          && CallOk(chain, s', s'.calls[k])
          && (Owned(s'.calls[k]).Some? ==> Owned(s'.calls[k]).value == x)
          && (Unpaid(s'.calls[k]) ==> x !in s.accepted))
  }

  lemma RowWrittenInv(chain: Chain, s: State, s': State, x: ClaimId, acting: set<nat>)
    requires Inv(chain, s) && WritesRow(s, s', x, acting) && RowFits(s, s', x) && ActorsFit(chain, s, s', x, acting)
    requires forall k :: k in s.calls && k !in acting ==> Owned(s.calls[k]) != Some(x)
    requires WellKeyed(s'.claims) && OneActivePerKey(s'.claims) && RelaysOk(chain, s')
    ensures Inv(chain, s')
  {
    BystandersOk(chain, s, s', x, acting);
    LogsOk(chain, s, s', x, acting);
    forall j, k | j in s'.calls && k in s'.calls && j != k && Owned(s'.calls[j]).Some?
      ensures Owned(s'.calls[j]) != Owned(s'.calls[k])
    {
      assert j !in acting && k !in acting ==> Owned(s.calls[j]) != Owned(s.calls[k]);
    }
  }

  /** A row that is not `submitting` has no owner. */
  lemma Unowned(chain: Chain, s: State, x: ClaimId)
    requires Inv(chain, s) && !(x in s.claims && s.claims[x].status.Submitting?)
    ensures forall k :: k in s.calls ==> Owned(s.calls[k]) != Some(x)
  {
    forall k | k in s.calls ensures Owned(s.calls[k]) != Some(x) {
      assert CallOk(chain, s, s.calls[k]);
    }
  }

  lemma InsertFits(chain: Chain, s: State, k: nat, id: ClaimId)
    requires Inv(chain, s) && Enabled(s, Insert(k, id))
    requires !Conflicts(s.claims, s.calls[k].prepare.input.userId, s.calls[k].prepare.input.marketId)
    ensures
      var s' := ApplyInsert(s, k, id);
      WritesRow(s, s', id, {k}) && RowFits(s, s', id) && ActorsFit(chain, s, s', id, {k})
  {
  }

  lemma InsertInv(chain: Chain, s: State, k: nat, id: ClaimId)
    requires Inv(chain, s) && Enabled(s, Insert(k, id))
    ensures Inv(chain, ApplyInsert(s, k, id))
  {
    var s', input := ApplyInsert(s, k, id), s.calls[k].prepare.input;
    if Conflicts(s.claims, input.userId, input.marketId) {
      MoveKeepsInv(chain, s, s', k, s'.calls[k]);
    } else {
      InsertFits(chain, s, k, id);
      InsertKeepsIndex(s.claims, id, input);
      Unowned(chain, s, id);
      RelaysCarryOver(chain, s, s');
      RowWrittenInv(chain, s, s', id, {k});
    }
  }

  lemma PollFits(s: State, w: nat, settled: bool)
    requires PollsOk(s) && PaidOk(s) && Enabled(s, PollWrite(w, settled))
    ensures
      var s', id := ApplyPollWrite(s, w, settled), s.polls[w];
      WritesRow(s, s', id, {}) && RowFits(s, s', id)
  {
  }

  lemma PollIndex(s: State, w: nat, settled: bool)
    requires PollsOk(s) && WellKeyed(s.claims) && OneActivePerKey(s.claims) && Enabled(s, PollWrite(w, settled))
    ensures
      var s', id := ApplyPollWrite(s, w, settled), s.polls[w];
      && id in s.claims && PaidStatus(s.claims[id].status) && s'.relays == s.relays
      && WellKeyed(s'.claims) && OneActivePerKey(s'.claims)
  {
    OffIndexKeepsIndex(s.claims, s.polls[w], if settled then Settled else Rejected);
  }

  lemma PollWriteInv(chain: Chain, s: State, w: nat, settled: bool)
    requires Inv(chain, s) && Enabled(s, PollWrite(w, settled))
    ensures Inv(chain, ApplyPollWrite(s, w, settled))
  {
    var s', id := ApplyPollWrite(s, w, settled), s.polls[w];
    PollFits(s, w, settled);
    PollIndex(s, w, settled);
    Unowned(chain, s, id);
    RelaysCarryOver(chain, s, s');
    RowWrittenInv(chain, s, s', id, {});
  }

  /** The exit transition of an owner always finds its row still `submitting`. */
  lemma OwnerExitHits(chain: Chain, s: State, k: nat)
    requires Inv(chain, s) && k in s.calls && Owned(s.calls[k]).Some? && !s.calls[k].submit.Sending?
    ensures PendingUpdate(s.calls[k]).Some? && Hit(s.claims, s.calls[k])
  {
    assert CallOk(chain, s, s.calls[k]);
  }

  /** What one guarded update does to the table. */
  lemma WriteEffect(s: State, c: Call)
    requires WellKeyed(s.claims) && OneActivePerKey(s.claims) && PendingUpdate(c).Some?
    ensures
      var t', u := TableAfterWrite(s.claims, c), PendingUpdate(c).value;
      && WellKeyed(t') && OneActivePerKey(t') && Extends(s.claims, t') && t'.Keys == s.claims.Keys
      && (forall id :: id in s.claims && id != u.0 ==> t'[id] == s.claims[id])
      && (Hit(s.claims, c) ==> s.claims[u.0].status == u.1 && t'[u.0].status == u.2)
      && (!Hit(s.claims, c) ==> t' == s.claims)
  {
    var u := PendingUpdate(c).value;
    TransitionKeepsIndex(s.claims, u.0, u.1, u.2, u.3);
  }

  /** No other call owns the row that a guarded update is about to change. */
  lemma WriterAlone(chain: Chain, s: State, k: nat)
    requires Inv(chain, s) && k in s.calls && PendingUpdate(s.calls[k]).Some? && Hit(s.claims, s.calls[k])
    ensures forall j :: j in s.calls && j != k ==> Owned(s.calls[j]) != Some(PendingUpdate(s.calls[k]).value.0)
  {
    assert CallOk(chain, s, s.calls[k]);
    forall j | j in s.calls && j != k ensures Owned(s.calls[j]) != Some(PendingUpdate(s.calls[k]).value.0) {
      assert CallOk(chain, s, s.calls[j]);
    }
  }

  /** The state the writing call moves to fits the table it leaves behind. */
  lemma WriterOk(chain: Chain, s: State, k: nat)
    requires Inv(chain, s) && Enabled(s, Write(k)) && PendingUpdate(s.calls[k]).Some?
    ensures var s' := ApplyWrite(s, k); CallOk(chain, s', s'.calls[k])
  {
    var c := s.calls[k];
    assert CallOk(chain, s, c);
    WriteEffect(s, c);
    if Owned(c).Some? {
      OwnerExitHits(chain, s, k);
    }
  }

  lemma WriteMissInv(chain: Chain, s: State, k: nat)
    requires Inv(chain, s) && Enabled(s, Write(k))
    requires PendingUpdate(s.calls[k]).None? || !Hit(s.claims, s.calls[k])
    ensures Inv(chain, ApplyWrite(s, k))
  {
    var c := s.calls[k];
    assert CallOk(chain, s, c);
    if PendingUpdate(c).Some? {
      WriteEffect(s, c);
      if Owned(c).Some? {
        OwnerExitHits(chain, s, k);
      }
    }
    MoveKeepsInv(chain, s, ApplyWrite(s, k), k, ApplyWrite(s, k).calls[k]);
  }

  lemma WriteHitRow(chain: Chain, s: State, k: nat)
    requires Inv(chain, s) && Enabled(s, Write(k))
    requires PendingUpdate(s.calls[k]).Some? && Hit(s.claims, s.calls[k])
    ensures WritesRow(s, ApplyWrite(s, k), PendingUpdate(s.calls[k]).value.0, {k})
  {
    WriteEffect(s, s.calls[k]);
  }

  lemma WriteHitFits(chain: Chain, s: State, k: nat)
    requires Inv(chain, s) && Enabled(s, Write(k))
    requires PendingUpdate(s.calls[k]).Some? && Hit(s.claims, s.calls[k])
    ensures RowFits(s, ApplyWrite(s, k), PendingUpdate(s.calls[k]).value.0)
  {
    assert CallOk(chain, s, s.calls[k]);
    WriteEffect(s, s.calls[k]);
  }

  lemma WriteHitActor(chain: Chain, s: State, k: nat)
    requires Inv(chain, s) && Enabled(s, Write(k))
    requires PendingUpdate(s.calls[k]).Some? && Hit(s.claims, s.calls[k])
    ensures ActorsFit(chain, s, ApplyWrite(s, k), PendingUpdate(s.calls[k]).value.0, {k})
  {
    WriterOk(chain, s, k);
    assert CallOk(chain, s, s.calls[k]);
    WriteEffect(s, s.calls[k]);
  }

  lemma WriteHitInv(chain: Chain, s: State, k: nat)
    requires Inv(chain, s) && Enabled(s, Write(k))
    requires PendingUpdate(s.calls[k]).Some? && Hit(s.claims, s.calls[k])
    ensures Inv(chain, ApplyWrite(s, k))
  {
    WriteEffect(s, s.calls[k]);
    WriterAlone(chain, s, k);
    WriteHitActor(chain, s, k);
    WriteHitRow(chain, s, k);
    WriteHitFits(chain, s, k);
    WriteHitRelays(chain, s, k);
    RowWrittenInv(chain, s, ApplyWrite(s, k), PendingUpdate(s.calls[k]).value.0, {k});
  }

  lemma WriteHitRelays(chain: Chain, s: State, k: nat)
    requires Inv(chain, s) && Enabled(s, Write(k))
    requires PendingUpdate(s.calls[k]).Some? && Hit(s.claims, s.calls[k])
    ensures RelaysOk(chain, ApplyWrite(s, k))
  {
    var c, s' := s.calls[k], ApplyWrite(s, k);
    assert CallOk(chain, s, c);
    WriteEffect(s, c);
    forall i | 0 <= i < |s'.relays| ensures RelayOk(chain, s', s'.relays[i]) {
      if i < |s.relays| {
        assert RelayOk(chain, s, s.relays[i]);
      }
    }
  }

  /** Every step keeps the invariant. */
  lemma StepInv(chain: Chain, s: State, a: Action)
    requires Inv(chain, s) && Enabled(s, a)
    ensures Inv(chain, Apply(chain, s, a))
  {
    match a
    case Find(k, found) => FindInv(chain, s, k, found);
    case Resume(k, delay) => ResumeInv(chain, s, k, delay);
    case Answer(k, answer) => AnswerInv(chain, s, k, answer);
    case Insert(k, id) => InsertInv(chain, s, k, id);
    case PollWrite(w, settled) => PollWriteInv(chain, s, w, settled);
    case Write(k) =>
      if PendingUpdate(s.calls[k]).Some? && Hit(s.claims, s.calls[k]) {
        WriteHitInv(chain, s, k);
      } else {
        WriteMissInv(chain, s, k);
      }
    case Crash(_) => QuietInv(chain, s, a);
    case PollPick(_, _) => QuietInv(chain, s, a);
    case PollDrop(_) => QuietInv(chain, s, a);
    case Tick(_) => QuietInv(chain, s, a);
    case _ => LocalInv(chain, s, a);
  }

  lemma {:induction false} RunInv(chain: Chain, s: State, acts: seq<Action>)
    requires Inv(chain, s) && IsRun(chain, s, acts)
    ensures Inv(chain, After(chain, s, acts))
    decreases |acts|
  {
    if acts != [] {
      StepInv(chain, s, acts[0]);
      RunInv(chain, Apply(chain, s, acts[0]), acts[1..]);
    }
  }
}
