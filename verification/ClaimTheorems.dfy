/** The claim protocol's guarantees over whole runs. */
module ClaimTheorems {
  import opened Wrappers
  import opened ClaimChain
  import opened ClaimRepo
  import opened ClaimService
  import opened ClaimSafety

  // ---------------------------------------------------------------------
  // At most one accepted relay per user and market
  // ---------------------------------------------------------------------

  /**
   * Two relays answered PENDING or DUPLICATE for one user and market belong to different claims,
   * and at least one of those claims has since been taken out of `paid` by the settle-confirmer.
   */
  lemma AcceptedRelays(chain: Chain, s0: State, acts: seq<Action>, i: nat, j: nat)
    requires Init(s0) && IsRun(chain, s0, acts)
    requires i < j < |After(chain, s0, acts).accepted|
    ensures
      var s := After(chain, s0, acts);
      var a, b := s.accepted[i], s.accepted[j];
      && a != b && a in s.claims && b in s.claims
      && (SameKey(s.claims[a], s.claims[b]) ==>
            || s.claims[a].status.Settled? || s.claims[a].status.Rejected?
            || s.claims[b].status.Settled? || s.claims[b].status.Rejected?)
  {
    InitInv(chain, s0);
    RunInv(chain, s0, acts);
    var s := After(chain, s0, acts);
    assert s.accepted[i] in s.accepted && s.accepted[j] in s.accepted;
  }

  ghost predicate Unsettled(s: State) {
    forall id :: id in s.accepted && id in s.claims ==> s.claims[id].status.Submitting? || s.claims[id].status.Paid?
  }

  lemma UnsettledAnswer(chain: Chain, s: State, k: nat, answer: SendAnswer)
    requires Inv(chain, s) && Unsettled(s) && Enabled(s, Answer(k, answer))
    ensures Unsettled(Apply(chain, s, Answer(k, answer)))
  {
    assert CallOk(chain, s, s.calls[k]);
  }

  lemma UnsettledEdges(s: State, s': State)
    requires Unsettled(s) && AcceptedOk(s) && AcceptedOk(s') && s'.accepted == s.accepted
    requires EdgesOk(s.claims, s'.claims, false)
    ensures Unsettled(s')
  {
  }

  lemma UnsettledStep(chain: Chain, s: State, a: Action)
    requires Inv(chain, s) && Unsettled(s) && Enabled(s, a) && !a.PollWrite?
    ensures Unsettled(Apply(chain, s, a))
  {
    if a.Answer? {
      UnsettledAnswer(chain, s, a.call, a.answer);
    } else {
      StatusEdges(chain, s, a);
      StepInv(chain, s, a);
      AcceptedUntouched(chain, s, a);
      UnsettledEdges(s, Apply(chain, s, a));
    }
  }

  lemma AcceptedUntouched(chain: Chain, s: State, a: Action)
    requires Enabled(s, a) && !a.Answer?
    ensures Apply(chain, s, a).accepted == s.accepted
  {
  }

  lemma {:induction false} UnsettledRun(chain: Chain, s: State, acts: seq<Action>)
    requires Inv(chain, s) && Unsettled(s) && IsRun(chain, s, acts)
    requires forall a :: a in acts ==> !a.PollWrite?
    ensures Unsettled(After(chain, s, acts))
    decreases |acts|
  {
    if acts != [] {
      assert acts[0] in acts;
      StepInv(chain, s, acts[0]);
      UnsettledStep(chain, s, acts[0]);
      UnsettledRun(chain, Apply(chain, s, acts[0]), acts[1..]);
    }
  }

  /** While no settle-confirmer write happens, at most one relay per user and market is ever accepted. */
  lemma AtMostOneAccepted(chain: Chain, s0: State, acts: seq<Action>, i: nat, j: nat)
    requires Init(s0) && IsRun(chain, s0, acts)
    requires forall a :: a in acts ==> !a.PollWrite?
    requires i < |After(chain, s0, acts).accepted| && j < |After(chain, s0, acts).accepted|
    ensures
      var s := After(chain, s0, acts);
      var a, b := s.accepted[i], s.accepted[j];
      a in s.claims && b in s.claims && (SameKey(s.claims[a], s.claims[b]) ==> i == j)
  {
    InitInv(chain, s0);
    RunInv(chain, s0, acts);
    UnsettledRun(chain, s0, acts);
    var s := After(chain, s0, acts);
    var a, b := s.accepted[i], s.accepted[j];
    assert a in s.accepted && b in s.accepted;
    if i != j {
      AcceptedRelays(chain, s0, acts, if i < j then i else j, if i < j then j else i);
    }
  }

  // ---------------------------------------------------------------------
  // The real state machine
  // ---------------------------------------------------------------------

  /** Status changes made by the two service calls. */
  predicate ServiceEdge(from: Status, to: Status) {
    || (from.Prepared? && (to.Submitting? || to.Expired?))
    || (from.Submitting? && (to.Prepared? || to.Paid? || to.Failed?))
  }

  /** Status changes made by the settle-confirmer, which writes without a status guard. */
  predicate ConfirmerEdge(from: Status, to: Status) {
    PaidStatus(from) && (to.Settled? || to.Rejected?)
  }

  /** Only inserts, guarded updates and confirmer writes touch the table. */
  lemma TableUntouched(chain: Chain, s: State, a: Action)
    requires Enabled(s, a) && !a.Insert? && !a.Write? && !a.PollWrite?
    ensures Apply(chain, s, a).claims == s.claims
  {
  }

  ghost predicate EdgesOk(t: Table, t': Table, confirmer: bool) {
    forall id :: id in t ==>
      && id in t'
      && (|| t[id].status == t'[id].status
          || ServiceEdge(t[id].status, t'[id].status)
          || (confirmer && ConfirmerEdge(t[id].status, t'[id].status)))
  }

  lemma WriteEdges(s: State, k: nat)
    requires WellKeyed(s.claims) && OneActivePerKey(s.claims) && Enabled(s, Write(k))
    ensures Extends(s.claims, ApplyWrite(s, k).claims) && EdgesOk(s.claims, ApplyWrite(s, k).claims, false)
  {
    if PendingUpdate(s.calls[k]).Some? {
      WriteEffect(s, s.calls[k]);
    }
  }

  lemma PollEdges(s: State, w: nat, settled: bool)
    requires PollsOk(s) && Enabled(s, PollWrite(w, settled))
    ensures Extends(s.claims, ApplyPollWrite(s, w, settled).claims)
    ensures EdgesOk(s.claims, ApplyPollWrite(s, w, settled).claims, true)
  {
  }

  lemma InsertEdges(s: State, k: nat, id: ClaimId)
    requires Enabled(s, Insert(k, id))
    ensures Extends(s.claims, ApplyInsert(s, k, id).claims) && EdgesOk(s.claims, ApplyInsert(s, k, id).claims, false)
  {
  }

  lemma NoEdges(t: Table)
    ensures Extends(t, t) && EdgesOk(t, t, false)
  {
  }

  /** Every step changes a status along a coded edge or not at all; rows are never removed and terms never change. */
  lemma StatusEdges(chain: Chain, s: State, a: Action)
    requires Inv(chain, s) && Enabled(s, a)
    ensures Extends(s.claims, Apply(chain, s, a).claims)
    ensures EdgesOk(s.claims, Apply(chain, s, a).claims, a.PollWrite?)
  {
    match a
    case Write(k) => WriteEdges(s, k);
    case PollWrite(w, settled) => PollEdges(s, w, settled);
    case Insert(k, id) => InsertEdges(s, k, id);
    case _ =>
      TableUntouched(chain, s, a);
      NoEdges(s.claims);
  }

  /** What a claim's history can never undo. */
  predicate Settles(c: Claim, d: Claim) {
    && SameTerms(c, d)
    && (c.status.Expired? || c.status.Failed? ==> d.status == c.status)
    && (PaidStatus(c.status) ==> PaidStatus(d.status))
  }

  lemma SettlesStep(chain: Chain, s: State, a: Action, id: ClaimId)
    requires Inv(chain, s) && Enabled(s, a) && id in s.claims
    ensures id in Apply(chain, s, a).claims && Settles(s.claims[id], Apply(chain, s, a).claims[id])
  {
    StatusEdges(chain, s, a);
  }

  /** `expired` and `failed` are final, and no run removes a row or changes its terms. */
  lemma {:induction false} FinalStatuses(chain: Chain, s: State, acts: seq<Action>, id: ClaimId)
    requires Inv(chain, s) && IsRun(chain, s, acts) && id in s.claims
    ensures id in After(chain, s, acts).claims && Settles(s.claims[id], After(chain, s, acts).claims[id])
    decreases |acts|
  {
    if acts != [] {
      var s' := Apply(chain, s, acts[0]);
      SettlesStep(chain, s, acts[0], id);
      StepInv(chain, s, acts[0]);
      FinalStatuses(chain, s', acts[1..], id);
    }
  }

  /** One live owner per claim, its row in `submitting`, and an exit update that hits. */
  ghost predicate OwnersExact(s: State) {
    && (forall j, k :: j in s.calls && k in s.calls && SameOwned(s.calls[j], s.calls[k]) ==> j == k)
    && (forall k :: k in s.calls && Owned(s.calls[k]).Some? ==> OwnsSubmitting(s, s.calls[k]))
  }

  predicate SameOwned(c: Call, d: Call) { Owned(c).Some? && Owned(c) == Owned(d) }

  ghost predicate OwnsSubmitting(s: State, c: Call)
    requires Owned(c).Some?
  {
    && Owned(c).value in s.claims && s.claims[Owned(c).value].status.Submitting?
    && (!c.submit.Sending? ==> PendingUpdate(c).Some? && Hit(s.claims, c))
  }

  lemma OwnerFacts(chain: Chain, s: State, k: nat)
    requires Inv(chain, s) && k in s.calls && Owned(s.calls[k]).Some?
    ensures OwnsSubmitting(s, s.calls[k])
  {
    assert CallOk(chain, s, s.calls[k]);
    if !s.calls[k].submit.Sending? {
      OwnerExitHits(chain, s, k);
    }
  }

  /** At every moment: one owner per `submitting` claim, exits that hit, one indexed claim per key. */
  lemma SingleOwner(chain: Chain, s0: State, acts: seq<Action>)
    requires Init(s0) && IsRun(chain, s0, acts)
    ensures OneActivePerKey(After(chain, s0, acts).claims) && OwnersExact(After(chain, s0, acts))
  {
    InitInv(chain, s0);
    RunInv(chain, s0, acts);
    var s := After(chain, s0, acts);
    forall k | k in s.calls && Owned(s.calls[k]).Some? ensures OwnsSubmitting(s, s.calls[k]) {
      OwnerFacts(chain, s, k);
    }
  }

  // ---------------------------------------------------------------------
  // What is relayed
  // ---------------------------------------------------------------------

  /**
   * Every envelope handed to the RPC, first sends and resends alike, wraps a signed transaction with the hash
   * the claim was prepared with, belongs to the user who submitted it, and passed a guard that read a time before
   * expiry.
   */
  lemma RelaysAreAuthentic(chain: Chain, s0: State, acts: seq<Action>, i: nat)
    requires Init(s0) && IsRun(chain, s0, acts)
    requires i < |After(chain, s0, acts).relays|
    ensures
      var s := After(chain, s0, acts);
      var r := s.relays[i];
      && r.claimId in s.claims && !r.signed.Malformed? && InnerTx(r.signed).signatures != []
      && chain.hash(InnerTx(r.signed).body) == OrElse(s.claims[r.claimId].expectedTxHash, "")
      && s.claims[r.claimId].userId == r.userId
      && s.claims[r.claimId].expiresAt.Some? && r.readAt < s.claims[r.claimId].expiresAt.value
  {
    InitInv(chain, s0);
    RunInv(chain, s0, acts);
    assert RelayOk(chain, After(chain, s0, acts), After(chain, s0, acts).relays[i]);
  }

  /** A call that reports success reports its own user's claim, accepted by the network (or paid before the run). */
  lemma SuccessMeansAccepted(chain: Chain, s0: State, acts: seq<Action>, k: nat)
    requires Init(s0) && IsRun(chain, s0, acts)
    requires
      var s := After(chain, s0, acts);
      k in s.calls && s.calls[k].Submit? && s.calls[k].submit.SubmitDone? && s.calls[k].submit.receipt.Success?
    ensures
      var s := After(chain, s0, acts);
      Backed(s, s.calls[k].submit.receipt.value.claimId) &&
      MyRow(s.claims, s.calls[k].submit.receipt.value.claimId, s.calls[k].userId)
  {
    InitInv(chain, s0);
    RunInv(chain, s0, acts);
    var s := After(chain, s0, acts);
    assert CallOk(chain, s, s.calls[k]);
  }

  /** A prepare that succeeds hands back a prepared claim of its own user and market. */
  lemma PreparedIsOwn(chain: Chain, s0: State, acts: seq<Action>, k: nat)
    requires Init(s0) && IsRun(chain, s0, acts)
    requires
      var s := After(chain, s0, acts);
      k in s.calls && s.calls[k].Prepare? && s.calls[k].prepare.PrepareDone? && s.calls[k].prepare.prepared.Success?
    ensures
      var s := After(chain, s0, acts);
      var c := s.calls[k].prepare.prepared.value;
      && c.id in s.claims && SameTerms(c, s.claims[c.id]) && c.status.Prepared?
      && c.userId == s.calls[k].userId && c.marketId == s.calls[k].marketId
  {
    InitInv(chain, s0);
    RunInv(chain, s0, acts);
    assert CallOk(chain, After(chain, s0, acts), After(chain, s0, acts).calls[k]);
  }

  /** In every run a call's update changes only rows of the call's own user. */
  lemma OwnRowsOnly(chain: Chain, s0: State, acts: seq<Action>, k: nat, id: ClaimId)
    requires Init(s0) && IsRun(chain, s0, acts) && Enabled(After(chain, s0, acts), Write(k))
    requires id in After(chain, s0, acts).claims
    ensures
      var s := After(chain, s0, acts);
      var t := Apply(chain, s, Write(k)).claims;
      id in t && (t[id] == s.claims[id] || s.claims[id].userId == s.calls[k].userId)
  {
    InitInv(chain, s0);
    RunInv(chain, s0, acts);
    OwnRowWritten(chain, After(chain, s0, acts), k);
  }

  lemma OwnRowWritten(chain: Chain, s: State, k: nat)
    requires Inv(chain, s) && Enabled(s, Write(k))
    ensures forall id :: id in s.claims ==>
              id in ApplyWrite(s, k).claims &&
              (ApplyWrite(s, k).claims[id] == s.claims[id] || s.claims[id].userId == s.calls[k].userId)
  {
    var c := s.calls[k];
    assert CallOk(chain, s, c);
    if PendingUpdate(c).Some? {
      WriteEffect(s, c);
      UpdateIsMine(chain, s, c);
    }
  }

  lemma UpdateIsMine(chain: Chain, s: State, c: Call)
    requires CallOk(chain, s, c) && PendingUpdate(c).Some?
    ensures MyRow(s.claims, PendingUpdate(c).value.0, c.userId)
  {
  }

  // ---------------------------------------------------------------------
  // Crashed owners
  // ---------------------------------------------------------------------

  /** A `submitting` claim whose owner is gone. */
  ghost predicate Orphaned(s: State, id: ClaimId) {
    && id in s.claims && s.claims[id].status.Submitting?
    && forall k :: k in s.calls ==> Owned(s.calls[k]) != Some(id)
  }

  lemma OwnersUntouched(chain: Chain, s: State, a: Action, k: nat)
    requires Enabled(s, a) && !a.Write? && k in Apply(chain, s, a).calls
    ensures Owned(Apply(chain, s, a).calls[k]).Some? ==>
            k in s.calls && Owned(s.calls[k]) == Owned(Apply(chain, s, a).calls[k])
  {
  }

  /** A step makes a call the owner of a claim only by moving that claim out of `prepared`. */
  lemma NewOwner(chain: Chain, s: State, a: Action, k: nat, id: ClaimId)
    requires Inv(chain, s) && Enabled(s, a)
    requires k in Apply(chain, s, a).calls && Owned(Apply(chain, s, a).calls[k]) == Some(id)
    ensures (k in s.calls && Owned(s.calls[k]) == Some(id)) || (id in s.claims && s.claims[id].status.Prepared?)
  {
    if a.Write? {
      WriterOwns(chain, s, a.call, id);
    } else {
      OwnersUntouched(chain, s, a, k);
    }
  }

  lemma WriterOwns(chain: Chain, s: State, k: nat, id: ClaimId)
    requires Inv(chain, s) && Enabled(s, Write(k))
    ensures Owned(ApplyWrite(s, k).calls[k]) == Some(id) ==> id in s.claims && s.claims[id].status.Prepared?
  {
    var c := s.calls[k];
    assert CallOk(chain, s, c);
    if PendingUpdate(c).Some? {
      WriteOwner(s.claims, c, TableAfterWrite(s.claims, c));
    }
  }

  /** Only a won `prepared -> submitting` makes an owner. */
  lemma WriteOwner(t: Table, c: Call, t': Table)
    requires PendingUpdate(c).Some? && (Hit(t, c) ==> PendingUpdate(c).value.0 in t')
    requires WellKeyed(t')
    ensures
      var u, hit := PendingUpdate(c).value, Hit(t, c);
      var c' := AfterWrite(c, hit, if hit then Some(t'[u.0]) else None);
      Owned(c').Some? ==> Owned(c') == Some(u.0) && u.0 in t && t[u.0].status.Prepared?
  {
  }

  /** A guarded update leaves `submitting` rows it does not own alone. */
  lemma WriteSparesOrphan(chain: Chain, s: State, k: nat, id: ClaimId)
    requires Inv(chain, s) && Enabled(s, Write(k)) && Orphaned(s, id)
    ensures id in ApplyWrite(s, k).claims && ApplyWrite(s, k).claims[id].status.Submitting?
  {
    assert CallOk(chain, s, s.calls[k]);
    if PendingUpdate(s.calls[k]).Some? {
      WriteEffect(s, s.calls[k]);
    }
  }

  lemma InsertSparesRow(s: State, k: nat, id: ClaimId, x: ClaimId)
    requires Enabled(s, Insert(k, x)) && id in s.claims
    ensures id in ApplyInsert(s, k, x).claims && ApplyInsert(s, k, x).claims[id] == s.claims[id]
  {
  }

  lemma PollSparesRow(s: State, w: nat, settled: bool, id: ClaimId)
    requires PollsOk(s) && Enabled(s, PollWrite(w, settled)) && id in s.claims && s.claims[id].status.Submitting?
    ensures id in ApplyPollWrite(s, w, settled).claims && ApplyPollWrite(s, w, settled).claims[id] == s.claims[id]
  {
  }

  lemma OwnerlessRowStays(chain: Chain, s: State, a: Action, id: ClaimId)
    requires Inv(chain, s) && Enabled(s, a) && Orphaned(s, id)
    ensures id in Apply(chain, s, a).claims && Apply(chain, s, a).claims[id].status.Submitting?
  {
    match a
    case Write(k) => WriteSparesOrphan(chain, s, k, id);
    case PollWrite(w, settled) => PollSparesRow(s, w, settled, id);
    case Insert(k, x) => InsertSparesRow(s, k, id, x);
    case _ => TableUntouched(chain, s, a);
  }

  lemma OrphanStep(chain: Chain, s: State, a: Action, id: ClaimId)
    requires Inv(chain, s) && Enabled(s, a) && Orphaned(s, id)
    ensures Orphaned(Apply(chain, s, a), id)
  {
    OwnerlessRowStays(chain, s, a, id);
    forall k | k in Apply(chain, s, a).calls ensures Owned(Apply(chain, s, a).calls[k]) != Some(id) {
      if Owned(Apply(chain, s, a).calls[k]) == Some(id) {
        NewOwner(chain, s, a, k, id);
      }
    }
  }

  /**
   * Nothing recovers an orphaned claim: it stays `submitting` in every continuation, and no claim of
   * the same user and market is ever prepared, submitted or paid again.
   */
  lemma {:induction false} OrphanIsStuck(chain: Chain, s: State, acts: seq<Action>, id: ClaimId)
    requires Inv(chain, s) && IsRun(chain, s, acts) && Orphaned(s, id)
    ensures
      var s' := After(chain, s, acts);
      && Orphaned(s', id)
      && forall j :: j in s'.claims && j != id && SameKey(s'.claims[j], s'.claims[id]) ==> !Indexed(s'.claims[j].status)
    decreases |acts|
  {
    if acts != [] {
      OrphanStep(chain, s, acts[0], id);
      StepInv(chain, s, acts[0]);
      OrphanIsStuck(chain, Apply(chain, s, acts[0]), acts[1..], id);
    }
  }

  /** The crash of an owner orphans its claim. */
  lemma CrashOrphans(chain: Chain, s: State, k: nat, id: ClaimId)
    requires Inv(chain, s) && k in s.calls && Owned(s.calls[k]) == Some(id)
    ensures Orphaned(Apply(chain, s, Crash(k)), id)
  {
    assert CallOk(chain, s, s.calls[k]);
    assert forall j :: j in s.calls && j != k ==> Owned(s.calls[j]) != Owned(s.calls[k]);
  }

  ghost predicate HasOwner(s: State, id: ClaimId) { exists k :: k in s.calls && Owned(s.calls[k]) == Some(id) }

  /** The run takes the claim out of `submitting`. */
  ghost predicate Frees(chain: Chain, s: State, acts: seq<Action>, id: ClaimId) {
    && IsRun(chain, s, acts) && id in After(chain, s, acts).claims
    && !After(chain, s, acts).claims[id].status.Submitting?
  }

  /** An owner's exit transition takes its claim out of `submitting`. */
  lemma ExitFrees(chain: Chain, s: State, k: nat, id: ClaimId)
    requires Inv(chain, s) && k in s.calls && Owned(s.calls[k]) == Some(id) && !s.calls[k].submit.Sending?
    ensures Enabled(s, Write(k))
    ensures id in ApplyWrite(s, k).claims && !ApplyWrite(s, k).claims[id].status.Submitting?
  {
    OwnerExitHits(chain, s, k);
    WriteEffect(s, s.calls[k]);
  }

  lemma OwnerFrees(chain: Chain, s: State, k: nat, id: ClaimId) returns (acts: seq<Action>)
    requires Inv(chain, s) && k in s.calls && Owned(s.calls[k]) == Some(id)
    ensures Frees(chain, s, acts, id)
  {
    var s', before := s, [];
    if s.calls[k].submit.Sending? {
      var a := Answer(k, Threw);
      s', before := Apply(chain, s, a), [a];
      StepInv(chain, s, a);
    }
    ExitFrees(chain, s', k, id);
    acts := before + [Write(k)];
    FreesAfter(chain, s, before, s', Write(k), id);
  }

  lemma FreesAfter(chain: Chain, s: State, before: seq<Action>, s': State, a: Action, id: ClaimId)
    requires (before == [] && s' == s) || (|before| == 1 && Enabled(s, before[0]) && s' == Apply(chain, s, before[0]))
    requires Enabled(s', a) && id in Apply(chain, s', a).claims && !Apply(chain, s', a).claims[id].status.Submitting?
    ensures Frees(chain, s, before + [a], id)
  {
    assert IsRun(chain, Apply(chain, s', a), []);
    assert [a][1..] == [] && IsRun(chain, s', [a]) && After(chain, s', [a]) == Apply(chain, s', a);
    if before != [] {
      assert (before + [a])[1..] == [a];
    } else {
      assert before + [a] == [a];
    }
  }

  /** A `submitting` claim can still leave `submitting` if and only if a live call owns it. */
  lemma RecoverableExactly(chain: Chain, s: State, id: ClaimId)
    requires Inv(chain, s) && id in s.claims && s.claims[id].status.Submitting?
    ensures (exists acts :: Frees(chain, s, acts, id)) <==> HasOwner(s, id)
  {
    if HasOwner(s, id) {
      var k :| k in s.calls && Owned(s.calls[k]) == Some(id);
      var acts := OwnerFrees(chain, s, k, id);
    } else {
      forall acts ensures !Frees(chain, s, acts, id) {
        if IsRun(chain, s, acts) {
          OrphanIsStuck(chain, s, acts, id);
        }
      }
    }
  }

  // ---------------------------------------------------------------------
  // Settled and rejected claims
  // ---------------------------------------------------------------------

  ghost predicate HasOutcome(s: State, id: ClaimId) {
    id in s.claims && (s.claims[id].status.Settled? || s.claims[id].status.Rejected?)
  }

  ghost predicate Unheld(s: State, id: ClaimId) { forall w :: w in s.polls ==> s.polls[w] != id }

  ghost predicate SameStatus(s: State, s': State, id: ClaimId) {
    id in s.claims && id in s'.claims && s'.claims[id].status == s.claims[id].status
  }

  lemma PollsUntouched(chain: Chain, s: State, a: Action)
    requires Enabled(s, a) && !a.PollPick? && !a.PollWrite? && !a.PollDrop?
    ensures Apply(chain, s, a).polls == s.polls
  {
  }

  lemma UnheldService(chain: Chain, s: State, a: Action, id: ClaimId)
    requires Inv(chain, s) && Enabled(s, a) && HasOutcome(s, id) && !a.PollWrite?
    ensures SameStatus(s, Apply(chain, s, a), id)
  {
    StatusEdges(chain, s, a);
  }

  lemma UnheldStep(chain: Chain, s: State, a: Action, id: ClaimId)
    requires Inv(chain, s) && Enabled(s, a) && HasOutcome(s, id) && Unheld(s, id)
    ensures Unheld(Apply(chain, s, a), id) && SameStatus(s, Apply(chain, s, a), id)
  {
    if !a.PollWrite? {
      UnheldService(chain, s, a, id);
    }
    if !a.PollPick? && !a.PollWrite? && !a.PollDrop? {
      PollsUntouched(chain, s, a);
    }
  }

  lemma {:induction false} UnheldRun(chain: Chain, s: State, acts: seq<Action>, id: ClaimId)
    requires Inv(chain, s) && IsRun(chain, s, acts) && HasOutcome(s, id) && Unheld(s, id)
    ensures SameStatus(s, After(chain, s, acts), id)
    decreases |acts|
  {
    if acts != [] {
      UnheldStep(chain, s, acts[0], id);
      StepInv(chain, s, acts[0]);
      UnheldRun(chain, Apply(chain, s, acts[0]), acts[1..], id);
    }
  }

  ghost predicate Keeps(chain: Chain, s: State, acts: seq<Action>, id: ClaimId) {
    IsRun(chain, s, acts) ==> SameStatus(s, After(chain, s, acts), id)
  }

  lemma HeldFlips(chain: Chain, s: State, w: nat, id: ClaimId)
    requires HasOutcome(s, id) && w in s.polls && s.polls[w] == id
    ensures !Keeps(chain, s, [PollWrite(w, !s.claims[id].status.Settled?)], id)
  {
    var a := PollWrite(w, !s.claims[id].status.Settled?);
    assert [a][1..] == [];
    assert IsRun(chain, Apply(chain, s, a), []);
    assert IsRun(chain, s, [a]) && After(chain, s, [a]) == Apply(chain, s, a);
  }

  /** A settled or rejected claim keeps its status in every continuation if and only if no poll holds it. */
  lemma OutcomeFinalExactly(chain: Chain, s: State, id: ClaimId)
    requires Inv(chain, s) && HasOutcome(s, id)
    ensures (forall acts :: Keeps(chain, s, acts, id)) <==> Unheld(s, id)
  {
    if Unheld(s, id) {
      forall acts ensures Keeps(chain, s, acts, id) {
        if IsRun(chain, s, acts) {
          UnheldRun(chain, s, acts, id);
        }
      }
    } else {
      var w :| w in s.polls && s.polls[w] == id;
      HeldFlips(chain, s, w, id);
    }
  }

  // ---------------------------------------------------------------------
  // Claims inserted during the run
  // ---------------------------------------------------------------------

  predicate HashesPrepared(chain: Chain, c: Claim) {
    c.prepared.Some? && c.expectedTxHash == Some(chain.hash(c.prepared.value))
  }

  /** A row about to be inserted stores the hash of its own transaction, and the caller's user and market. */
  predicate InputOk(chain: Chain, c: Call) {
    c.Prepare? && c.prepare.Inserting? ==>
      && c.prepare.input.expectedTxHash == chain.hash(c.prepare.input.prepared)
      && c.prepare.input.userId == c.userId && c.prepare.input.marketId == c.marketId
  }

  /**
   * Rows other than the known ones store the hash of their own transaction, and rows about to be inserted are
   * in order.
   */
  ghost predicate Minted(chain: Chain, known: set<ClaimId>, s: State) {
    && (forall id :: id in s.claims && id !in known ==> HashesPrepared(chain, s.claims[id]))
    && (forall k :: k in s.calls ==> InputOk(chain, s.calls[k]))
  }

  lemma CallsMinted(chain: Chain, s: State, a: Action, k: nat)
    requires Enabled(s, a) && k in Apply(chain, s, a).calls && (k in s.calls ==> InputOk(chain, s.calls[k]))
    ensures InputOk(chain, Apply(chain, s, a).calls[k])
  {
  }

  lemma NewRows(chain: Chain, s: State, a: Action, id: ClaimId)
    requires Inv(chain, s) && Enabled(s, a) && id in Apply(chain, s, a).claims && id !in s.claims
    ensures a.Insert? && Apply(chain, s, a).claims[id] == PreparedRow(id, s.calls[a.call].prepare.input)
  {
    if a.Write? {
      WriteEdgesKeys(s, a.call);
    } else if !a.Insert? && !a.PollWrite? {
      TableUntouched(chain, s, a);
    }
  }

  lemma WriteEdgesKeys(s: State, k: nat)
    requires WellKeyed(s.claims) && OneActivePerKey(s.claims) && Enabled(s, Write(k))
    ensures ApplyWrite(s, k).claims.Keys == s.claims.Keys
  {
    if PendingUpdate(s.calls[k]).Some? {
      WriteEffect(s, s.calls[k]);
    }
  }

  lemma MintedStep(chain: Chain, known: set<ClaimId>, s: State, a: Action)
    requires Inv(chain, s) && Minted(chain, known, s) && Enabled(s, a)
    ensures Minted(chain, known, Apply(chain, s, a))
  {
    var s' := Apply(chain, s, a);
    StatusEdges(chain, s, a);
    forall id | id in s'.claims && id !in known ensures HashesPrepared(chain, s'.claims[id]) {
      if id !in s.claims {
        NewRows(chain, s, a, id);
        assert InputOk(chain, s.calls[a.call]);
      }
    }
    forall k | k in s'.calls ensures InputOk(chain, s'.calls[k]) {
      CallsMinted(chain, s, a, k);
    }
  }

  lemma {:induction false} MintedRun(chain: Chain, known: set<ClaimId>, s: State, acts: seq<Action>)
    requires Inv(chain, s) && Minted(chain, known, s) && IsRun(chain, s, acts)
    ensures Minted(chain, known, After(chain, s, acts))
    decreases |acts|
  {
    if acts != [] {
      MintedStep(chain, known, s, acts[0]);
      StepInv(chain, s, acts[0]);
      MintedRun(chain, known, Apply(chain, s, acts[0]), acts[1..]);
    }
  }

  /** The envelope wraps the claim's own transaction, if that has no second preimage. */
  ghost predicate WrapsPrepared(chain: Chain, c: Claim, signed: Envelope) {
    && c.prepared.Some? && !signed.Malformed?
    && (NoSecondPreimage(chain, c.prepared.value) ==> InnerTx(signed).body == c.prepared.value)
  }

  /**
   * Every relay of a claim inserted during the run wraps exactly the transaction stored with the claim,
   * unless another transaction has that one's hash.
   */
  lemma RelaysArePrepared(chain: Chain, s0: State, acts: seq<Action>, i: nat)
    requires Init(s0) && IsRun(chain, s0, acts) && i < |After(chain, s0, acts).relays|
    ensures
      var s := After(chain, s0, acts);
      var r := s.relays[i];
      r.claimId in s.claims && (r.claimId !in s0.claims ==> WrapsPrepared(chain, s.claims[r.claimId], r.signed))
  {
    InitInv(chain, s0);
    RelaysAreAuthentic(chain, s0, acts, i);
    MintedRun(chain, s0.claims.Keys, s0, acts);
  }
}
