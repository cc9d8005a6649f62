/** Runs that show where the claim protocol's guarantees end, and the exact condition in each case. */
module ClaimWitnesses {
  import opened Wrappers
  import opened ClaimChain
  import opened ClaimRepo
  import opened ClaimService
  import opened ClaimSafety
  import opened ClaimTheorems

  lemma {:induction false} RunConcat(chain: Chain, s: State, a: seq<Action>, b: seq<Action>)
    requires IsRun(chain, s, a) && IsRun(chain, After(chain, s, a), b)
    ensures IsRun(chain, s, a + b) && After(chain, s, a + b) == After(chain, After(chain, s, a), b)
    decreases |a|
  {
    if a == [] {
      assert a + b == b;
    } else {
      RunConcat(chain, Apply(chain, s, a[0]), a[1..], b);
      assert (a + b)[0] == a[0] && (a + b)[1..] == a[1..] + b;
    }
  }

  lemma RunOne(chain: Chain, s: State, a: Action)
    requires Enabled(s, a)
    ensures IsRun(chain, s, [a]) && After(chain, s, [a]) == Apply(chain, s, a)
  {
    assert [a][1..] == [];
    assert IsRun(chain, Apply(chain, s, a), []);
  }

  lemma Extend(chain: Chain, s: State, acts: seq<Action>, a: Action) returns (acts': seq<Action>)
    requires IsRun(chain, s, acts) && Enabled(After(chain, s, acts), a)
    ensures acts' == acts + [a] && IsRun(chain, s, acts')
    ensures After(chain, s, acts') == Apply(chain, After(chain, s, acts), a)
  {
    RunOne(chain, After(chain, s, acts), a);
    RunConcat(chain, s, acts, [a]);
    acts' := acts + [a];
  }

  /** The calls of the first state are where they were. */
  ghost predicate CallsKept(s: State,
                            s': State) { forall j :: j in s.calls ==> j in s'.calls && s'.calls[j] == s.calls[j] }

  /** A claim that a call can submit: prepared, unexpired, and signed as prepared. */
  predicate Submittable(chain: Chain, s: State, id: ClaimId, address: string, signed: Envelope) {
    && id in s.claims && s.claims[id].status.Prepared? && s.claims[id].id == id
    && s.claims[id].expiresAt.Some? && s.claims[id].expiresAt.value > s.clock
    && VerifySigned(chain, signed, ExpectedTx(s.claims[id], address)).None?
  }

  /** The first half of a submit, up to the suspended guarded update. */
  lemma ReachAcquire(chain: Chain, s: State, k: nat, id: ClaimId, address: string, signed: Envelope)
    returns (acts: seq<Action>)
    requires k !in s.calls && Submittable(chain, s, id, address, signed)
    ensures IsRun(chain, s, acts) && forall a :: a in acts ==> !a.PollWrite? && !a.Write?
    ensures
      var c := Submit(id, s.claims[id].userId, address, signed, Acquiring(s.claims[id], s.clock));
      After(chain, s, acts) == WithCall(s, k, c)
  {
    var u := s.claims[id].userId;
    var a1, a2, a3 := StartSubmit(k, id, u, address, signed), Find(k, Some(id)), Resume(k, 0);
    var s1 := Apply(chain, s, a1);
    assert s1 == WithCall(s, k, Submit(id, u, address, signed, Reading));
    var s2 := Apply(chain, s1, a2);
    assert s2 == WithCall(s, k, Submit(id, u, address, signed, Read(Some(s.claims[id]))));
    var s3 := Apply(chain, s2, a3);
    assert s3 == WithCall(s, k, Submit(id, u, address, signed, Acquiring(s.claims[id], s.clock)));
    RunOne(chain, s, a1);
    acts := Extend(chain, s, [a1], a2);
    acts := Extend(chain, s, acts, a3);
  }

  /** Any submittable claim can be relayed, accepted and paid. */
  lemma ReachPaid(chain: Chain, s: State, k: nat, id: ClaimId, address: string, signed: Envelope, h: string)
    returns (acts: seq<Action>)
    requires k !in s.calls && Submittable(chain, s, id, address, signed)
    ensures IsRun(chain, s, acts)
    ensures
      var s' := After(chain, s, acts);
      && s'.accepted == s.accepted + [id] && s'.clock == s.clock && s'.polls == s.polls
      && s'.claims == s.claims[id := s.claims[id].(status := Paid, settlementTx := Some(h))]
      && s'.calls.Keys == s.calls.Keys + {k} && CallsKept(s, s')
  {
    acts := ReachAcquire(chain, s, k, id, address, signed);
    AcquireAndAnswer(chain, After(chain, s, acts), k, h);
    acts := Extend(chain, s, acts, Write(k));
    acts := Extend(chain, s, acts, Answer(k, Pending(h)));
    acts := Extend(chain, s, acts, Write(k));
  }

  lemma AcquireAndAnswer(chain: Chain, s: State, k: nat, h: string)
    requires k in s.calls && s.calls[k].Submit? && s.calls[k].submit.Acquiring? && Hit(s.claims, s.calls[k])
    requires s.calls[k].submit.claim == s.claims[s.calls[k].submit.claim.id]
    ensures Enabled(s, Write(k))
    ensures
      var s1 := Apply(chain, s, Write(k));
      && Enabled(s1, Answer(k, Pending(h)))
      && var s2 := Apply(chain, s1, Answer(k, Pending(h)));
         && Enabled(s2, Write(k))
         && var s3, row := Apply(chain, s2, Write(k)), s.calls[k].submit.claim;
            && s3.accepted == s.accepted + [row.id] && s3.clock == s.clock && s3.polls == s.polls
            && s3.claims == s.claims[row.id := row.(status := Paid, settlementTx := Some(h))]
            && s3.calls.Keys == s.calls.Keys && (forall j :: j in s.calls && j != k ==> s3.calls[j] == s.calls[j])
  {
    var row := s.calls[k].submit.claim;
    var s1 := Apply(chain, s, Write(k));
    assert s1.calls[k].submit == Sending(row.(status := Submitting));
    var s2 := Apply(chain, s1, Answer(k, Pending(h)));
    assert s2.claims[row.id] == row.(status := Submitting);
  }

  const WINNING := Context(Some("resolved"), Some(PredictionInfo(Some("won"), "1", None)), false, false)

  /** The row a prepare inserts for nonce `n` at the current clock. */
  function FreshInput(chain: Chain, s: State, user: string, market: string, address: string, n: nat): (i: NewClaim) {
    var body := ClaimBody(chain, address, market, n, 0, s.clock, Simulation(0, ""));
    NewClaim(user, market, "1", n, chain.hash(body), body, body.maxTime * 1000)
  }

  lemma ReachChecking(chain: Chain, s: State, k: nat, user: string, market: string, address: string)
    returns (acts: seq<Action>)
    requires k !in s.calls && MayFind(s.claims, user, market, None)
    ensures IsRun(chain, s, acts)
    ensures After(chain, s, acts) == WithCall(s, k, Prepare(user, market, address, CheckingNonce("1")))
  {
    var a1 := StartPrepare(k, user, market, address);
    RunOne(chain, s, a1);
    acts := Extend(chain, s, [a1], Load(k, WINNING));
    assert After(chain, s, acts) == WithCall(s, k, Prepare(user, market, address, Finding("1")));
    acts := Extend(chain, s, acts, Find(k, None));
    assert After(chain, s, acts) == WithCall(s, k, Prepare(user, market, address, Found("1", None)));
    acts := Extend(chain, s, acts, Resume(k, 0));
  }

  lemma ReachInserting(chain: Chain, s: State, k: nat, user: string, market: string, address: string, n: nat)
    returns (acts: seq<Action>)
    requires k in s.calls && s.calls[k] == Prepare(user, market, address, CheckingNonce("1"))
    ensures IsRun(chain, s, acts)
    ensures
      After(chain, s, acts) ==
      WithCall(s, k, Prepare(user, market, address, Inserting(FreshInput(chain, s, user, market, address, n))))
  {
    RunOne(chain, s, Find(k, None));
    acts := Extend(chain, s, [Find(k, None)], Nonce(k, Some(n)));
    assert After(chain, s, acts) == WithCall(s, k, Prepare(user, market, address, Building("1", n)));
    acts := Extend(chain, s, acts, Build(k, 0, Some(Simulation(0, ""))));
  }

  /** A user with no claim that `findActiveClaim` sees can prepare one. */
  lemma ReachPrepared(chain: Chain, s: State, k: nat, user: string, market: string, address: string, id: ClaimId,
                      n: nat)
    returns (acts: seq<Action>)
    requires k !in s.calls && id !in s.claims && MayFind(s.claims, user, market, None)
    ensures IsRun(chain, s, acts)
    ensures
      var s' := After(chain, s, acts);
      && s'.claims == s.claims[id := PreparedRow(id, FreshInput(chain, s, user, market, address, n))]
      && s'.accepted == s.accepted && s'.clock == s.clock && s'.polls == s.polls && s'.calls.Keys == s.calls.Keys + {k}
      && CallsKept(s, s')
  {
    var a := ReachChecking(chain, s, k, user, market, address);
    var b := ReachInserting(chain, After(chain, s, a), k, user, market, address, n);
    RunConcat(chain, s, a, b);
    acts := Extend(chain, s, a + b, Insert(k, id));
  }

  /** The envelope a wallet returns for a freshly prepared claim. */
  function Signed(input: NewClaim): (e: Envelope) { Plain(Tx(input.prepared, ["signature"])) }

  lemma FreshIsSubmittable(chain: Chain, s: State, s': State, user: string, market: string, address: string,
                           id: ClaimId, n: nat)
    requires s'.clock < (s.clock / 1000 + CLAIM_TTL_SECONDS) * 1000 && id in s'.claims
    requires s'.claims[id] == PreparedRow(id, FreshInput(chain, s, user, market, address, n))
    ensures Submittable(chain, s', id, address, Signed(FreshInput(chain, s, user, market, address, n)))
  {
    var row := s'.claims[id];
    var e := ExpectedTx(row, address);
    assert OperationMismatch(chain, row.prepared.value.operations[0], e).None?;
  }

  /** One more paid claim of user "u" in market "m", accepted last; everything else as before. */
  ghost predicate OneMorePaid(s: State, s': State, id: ClaimId) {
    && s'.accepted == s.accepted + [id] && s'.clock == s.clock && s'.polls == s.polls
    && s'.claims.Keys == s.claims.Keys + {id} && (forall j :: j in s.claims && j != id ==> s'.claims[j] == s.claims[j])
    && s'.claims[id].userId == "u" && s'.claims[id].marketId == "m"
    && s'.claims[id].status.Paid? && s'.claims[id].settlementTx.Some?
  }

  /** Prepare, sign, submit, accepted, paid: one full claim by a user with no active claim. */
  lemma FullClaim(chain: Chain, s: State, k: nat, id: ClaimId, n: nat) returns (acts: seq<Action>)
    requires k !in s.calls && k + 1 !in s.calls && id !in s.claims && MayFind(s.claims, "u", "m", None)
    ensures IsRun(chain, s, acts) && OneMorePaid(s, After(chain, s, acts), id)
    ensures After(chain, s, acts).calls.Keys == s.calls.Keys + {k, k + 1} && CallsKept(s, After(chain, s, acts))
  {
    var a := ReachPrepared(chain, s, k, "u", "m", "G", id, n);
    var b := PayPrepared(chain, s, After(chain, s, a), k + 1, id, n);
    RunConcat(chain, s, a, b);
    acts := a + b;
  }

  /** The second half: submitting the claim just prepared. */
  lemma PayPrepared(chain: Chain, s: State, s1: State, k: nat, id: ClaimId, n: nat) returns (acts: seq<Action>)
    requires k !in s1.calls && id !in s.claims && s1.clock == s.clock && s1.polls == s.polls &&
             s1.accepted == s.accepted
    requires s1.claims == s.claims[id := PreparedRow(id, FreshInput(chain, s, "u", "m", "G", n))]
    ensures IsRun(chain, s1, acts) && OneMorePaid(s, After(chain, s1, acts), id)
    ensures After(chain, s1, acts).calls.Keys == s1.calls.Keys + {k} && CallsKept(s1, After(chain, s1, acts))
  {
    FreshIsSubmittable(chain, s, s1, "u", "m", "G", id, n);
    acts := ReachPaid(chain, s1, k, id, "G", Signed(FreshInput(chain, s, "u", "m", "G", n)), "h");
  }

  ghost function EmptyState(): (s: State)
    ensures Init(s)
  {
    State(0, map[], map[], map[], [], [], {})
  }

  function Outcome(settled: bool): (st: Status) { if settled then Settled else Rejected }

  /** A poll that finds a paid claim settled or rejected. */
  lemma PollEnds(chain: Chain, s: State, w: nat, id: ClaimId, settled: bool) returns (acts: seq<Action>)
    requires w !in s.polls && id in s.claims && s.claims[id].status.Paid? && s.claims[id].settlementTx.Some?
    ensures IsRun(chain, s, acts)
    ensures After(chain, s, acts) == s.(claims := s.claims[id := s.claims[id].(status := Outcome(settled))])
  {
    RunOne(chain, s, PollPick(w, id));
    acts := Extend(chain, s, [PollPick(w, id)], PollWrite(w, settled));
    assert After(chain, s, acts).polls == s.polls;
  }

  /** With one confirmer write in between, a second relay of the same user and market is accepted. */
  lemma SecondAcceptance(chain: Chain) returns (acts: seq<Action>)
    ensures IsRun(chain, EmptyState(), acts)
    ensures
      var s := After(chain, EmptyState(), acts);
      && s.accepted == [0, 1] && 0 in s.claims && 1 in s.claims
      && SameKey(s.claims[0], s.claims[1]) && s.claims[0].status.Rejected?
  {
    var s0 := EmptyState();
    var a := FullClaim(chain, s0, 0, 0, 0);
    var s1 := After(chain, s0, a);
    var b := PollEnds(chain, s1, 0, 0, false);
    var s2 := After(chain, s1, b);
    RunConcat(chain, s0, a, b);
    var c := FullClaim(chain, s2, 2, 1, 1);
    RunConcat(chain, s0, a + b, c);
    acts := a + b + c;
  }

  // ---------------------------------------------------------------------
  // Overlapping settle-confirmer polls
  // ---------------------------------------------------------------------

  /** No poll picks a claim that another poll is still holding. */
  ghost predicate ExclusivePolls(chain: Chain, s: State, acts: seq<Action>)
    requires IsRun(chain, s, acts)
    decreases |acts|
  {
    acts != [] ==>
      && (acts[0].PollPick? ==> forall w :: w in s.polls ==> s.polls[w] != acts[0].claim)
      && ExclusivePolls(chain, Apply(chain, s, acts[0]), acts[1..])
  }

  /** Each poll holds a paid claim of its own. */
  ghost predicate PollsHoldPaid(s: State) {
    && (forall w :: w in s.polls ==> s.polls[w] in s.claims && s.claims[s.polls[w]].status.Paid?)
    && (forall v, w :: v in s.polls && w in s.polls && v != w ==> s.polls[v] != s.polls[w])
  }

  lemma ServiceKeepsPolls(chain: Chain, s: State, a: Action)
    requires Inv(chain, s) && PollsHoldPaid(s) && Enabled(s, a) && !a.PollPick? && !a.PollWrite? && !a.PollDrop?
    ensures PollsHoldPaid(Apply(chain, s, a))
  {
    PollsUntouched(chain, s, a);
    StatusEdges(chain, s, a);
  }

  lemma PollKeepsPolls(chain: Chain, s: State, a: Action)
    requires PollsHoldPaid(s) && Enabled(s, a) && (a.PollPick? || a.PollWrite? || a.PollDrop?)
    requires a.PollPick? ==> forall w :: w in s.polls ==> s.polls[w] != a.claim
    ensures PollsHoldPaid(Apply(chain, s, a))
  {
  }

  lemma {:induction false} ExclusiveRun(chain: Chain, s: State, acts: seq<Action>)
    requires Inv(chain, s) && PollsHoldPaid(s) && IsRun(chain, s, acts) && ExclusivePolls(chain, s, acts)
    ensures PollsHoldPaid(After(chain, s, acts))
    decreases |acts|
  {
    if acts != [] {
      var a := acts[0];
      if a.PollPick? || a.PollWrite? || a.PollDrop? {
        PollKeepsPolls(chain, s, a);
      } else {
        ServiceKeepsPolls(chain, s, a);
      }
      StepInv(chain, s, a);
      ExclusiveRun(chain, Apply(chain, s, a), acts[1..]);
    }
  }

  /** While no poll picks a claim that another holds, as with one sequential worker, every outcome reached is final. */
  lemma ExclusiveIsFinal(chain: Chain, s0: State, acts: seq<Action>, id: ClaimId, more: seq<Action>)
    requires Init(s0) && IsRun(chain, s0, acts) && ExclusivePolls(chain, s0, acts)
    requires HasOutcome(After(chain, s0, acts), id)
    ensures Keeps(chain, After(chain, s0, acts), more, id)
  {
    InitInv(chain, s0);
    RunInv(chain, s0, acts);
    ExclusiveRun(chain, s0, acts);
    OutcomeFinalExactly(chain, After(chain, s0, acts), id);
  }

  /** Two overlapping polls can turn a settled claim into a rejected one. */
  lemma OverlapUnsettles(chain: Chain, s: State, id: ClaimId) returns (before: seq<Action>, last: Action)
    requires id in s.claims && s.claims[id].status.Paid? && s.claims[id].settlementTx.Some?
    requires 0 !in s.polls && 1 !in s.polls
    ensures IsRun(chain, s, before) && Enabled(After(chain, s, before), last)
    ensures id in After(chain, s, before).claims && After(chain, s, before).claims[id].status.Settled?
    ensures id in Apply(chain, After(chain, s, before), last).claims
    ensures Apply(chain, After(chain, s, before), last).claims[id].status.Rejected?
  {
    RunOne(chain, s, PollPick(0, id));
    before := Extend(chain, s, [PollPick(0, id)], PollPick(1, id));
    before := Extend(chain, s, before, PollWrite(0, true));
    last := PollWrite(1, false);
  }

  // ---------------------------------------------------------------------
  // Every coded edge is taken
  // ---------------------------------------------------------------------

  /** The claim's status before and after one last step of the run. */
  ghost predicate Takes(chain: Chain, s: State, acts: seq<Action>, last: Action, id: ClaimId, from: Status,
                        to: Status) {
    && IsRun(chain, s, acts) && Enabled(After(chain, s, acts), last)
    && StepTakes(chain, After(chain, s, acts), last, id, from, to)
  }

  ghost predicate StepTakes(chain: Chain, s: State, a: Action, id: ClaimId, from: Status, to: Status)
    requires Enabled(s, a)
  {
    id in s.claims && s.claims[id].status == from && id in Apply(chain, s, a).claims &&
      Apply(chain, s, a).claims[id].status == to
  }

  /** The call is suspended on an update of the row from one status to another, and the row matches. */
  predicate WaitsToWrite(s: State, k: nat, id: ClaimId, from: Status, to: Status) {
    && k in s.calls && PendingUpdate(s.calls[k]).Some? && Hit(s.claims, s.calls[k])
    && var u := PendingUpdate(s.calls[k]).value; u.0 == id && u.1 == from && u.2 == to
  }

  lemma WriteTakes(chain: Chain, s: State, k: nat, id: ClaimId, from: Status, to: Status)
    requires WaitsToWrite(s, k, id, from, to)
    ensures Enabled(s, Write(k)) && StepTakes(chain, s, Write(k), id, from, to)
  {
  }

  /** What the network answers for the claim to leave `submitting` this way. */
  function AnswerFor(to: Status): (a: SendAnswer) {
    if to.Prepared? then Threw else if to.Paid? then Pending("h") else SendError(false)
  }

  /** Up to the suspended exit transition. */
  lemma ReachExit(chain: Chain, s: State, k: nat, id: ClaimId, address: string, signed: Envelope, to: Status)
    returns (acts: seq<Action>)
    requires k !in s.calls && Submittable(chain, s, id, address, signed) && ServiceEdge(Submitting, to)
    ensures IsRun(chain, s, acts)
    ensures WaitsToWrite(After(chain, s, acts), k, id, Submitting, to)
  {
    acts := ReachAcquire(chain, s, k, id, address, signed);
    var s1 := After(chain, s, acts);
    ExitState(chain, s1, k, id, to);
    acts := Extend(chain, s, acts, Write(k));
    acts := Extend(chain, s, acts, Answer(k, AnswerFor(to)));
  }

  lemma ExitState(chain: Chain, s: State, k: nat, id: ClaimId, to: Status)
    requires k in s.calls && s.calls[k].Submit? && s.calls[k].submit.Acquiring? && Hit(s.claims, s.calls[k])
    requires id in s.claims && s.calls[k].submit.claim == s.claims[id] && s.claims[id].id == id &&
             ServiceEdge(Submitting, to)
    ensures Enabled(s, Write(k))
    ensures Enabled(Apply(chain, s, Write(k)), Answer(k, AnswerFor(to)))
    ensures WaitsToWrite(Apply(chain, Apply(chain, s, Write(k)), Answer(k, AnswerFor(to))), k, id, Submitting, to)
  {
    var s1 := Apply(chain, s, Write(k));
    assert s1.calls[k].submit == Sending(s.claims[id].(status := Submitting));
    assert s1.claims[id].status.Submitting?;
  }

  /** Up to the suspended `prepared -> expired` update of a late submit. */
  lemma ReachExpiring(chain: Chain, s: State, k: nat, id: ClaimId, address: string, signed: Envelope)
    returns (acts: seq<Action>)
    requires k !in s.calls && Submittable(chain, s, id, address, signed)
    ensures IsRun(chain, s, acts)
    ensures WaitsToWrite(After(chain, s, acts), k, id, Prepared, Expired)
  {
    var row := s.claims[id];
    var late := Tick(row.expiresAt.value - s.clock);
    RunOne(chain, s, late);
    acts := Extend(chain, s, [late], StartSubmit(k, id, row.userId, address, signed));
    acts := Extend(chain, s, acts, Find(k, Some(id)));
    assert After(chain, s, acts).calls[k].submit == Read(Some(row));
    acts := Extend(chain, s, acts, Resume(k, 0));
  }

  /**
   * From any state with a submittable claim, each coded status change of that claim happens in some run,
   * the return from `submitting` to `prepared` included.
   */
  lemma EveryEdgeTaken(chain: Chain, s: State, k: nat, id: ClaimId, address: string, signed: Envelope, from: Status,
                       to: Status)
    returns (acts: seq<Action>, last: Action)
    requires k !in s.calls && Submittable(chain, s, id, address, signed) && ServiceEdge(from, to)
    ensures Takes(chain, s, acts, last, id, from, to)
  {
    last := Write(k);
    if from.Submitting? {
      acts := ReachExit(chain, s, k, id, address, signed, to);
    } else if to.Expired? {
      acts := ReachExpiring(chain, s, k, id, address, signed);
    } else {
      acts := ReachAcquire(chain, s, k, id, address, signed);
    }
    WriteTakes(chain, After(chain, s, acts), k, id, from, to);
  }
}
