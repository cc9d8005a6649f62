/** New claims of a user and market whose claim has settled: how they come about, and exactly when they can. */
module ClaimReopen {
  import opened Wrappers
  import opened ClaimChain
  import opened ClaimRepo
  import opened ClaimService
  import opened ClaimSafety
  import opened ClaimTheorems
  import opened ClaimWitnesses

  // ---------------------------------------------------------------------
  // A second acceptance after settlement
  // ---------------------------------------------------------------------

  /** A prepare that is past its lookup inserts once the first claim has settled, since the index drops settled rows. */
  lemma InsertAfterSettlement(chain: Chain, s: State, k: nat, id: ClaimId, n: nat) returns (acts: seq<Action>)
    requires k in s.calls && s.calls[k] == Prepare("u", "m", "G", CheckingNonce("1")) && id !in s.claims
    requires !Conflicts(s.claims, "u", "m")
    ensures IsRun(chain, s, acts)
    ensures
      var s' := After(chain, s, acts);
      && s'.claims == s.claims[id := PreparedRow(id, FreshInput(chain, s, "u", "m", "G", n))]
      && s'.clock == s.clock && s'.polls == s.polls && s'.accepted == s.accepted && s'.calls.Keys == s.calls.Keys
  {
    acts := ReachInserting(chain, s, k, "u", "m", "G", n);
    acts := Extend(chain, s, acts, Insert(k, id));
  }

  /** The first claim has this status while the second prepare waits. */
  ghost predicate Waiting(s: State, status: Status) {
    && s.accepted == [0] && s.claims.Keys == {0} && s.calls.Keys == {0, 1, 9} && s.clock == 0 && s.polls == map[]
    && s.claims[0].userId == "u" && s.claims[0].marketId == "m" && s.claims[0].status == status
    && s.claims[0].settlementTx.Some? && s.calls[9] == Prepare("u", "m", "G", CheckingNonce("1"))
  }

  lemma ReachPaidAndWaiting(chain: Chain) returns (acts: seq<Action>)
    ensures IsRun(chain, EmptyState(), acts) && Waiting(After(chain, EmptyState(), acts), Paid)
  {
    var s0 := EmptyState();
    var a := ReachChecking(chain, s0, 9, "u", "m", "G");
    var b := PayWhileWaiting(chain, After(chain, s0, a));
    RunConcat(chain, s0, a, b);
    acts := a + b;
  }

  lemma PayWhileWaiting(chain: Chain, s: State) returns (acts: seq<Action>)
    requires s == WithCall(EmptyState(), 9, Prepare("u", "m", "G", CheckingNonce("1")))
    ensures IsRun(chain, s, acts) && Waiting(After(chain, s, acts), Paid)
  {
    acts := FullClaim(chain, s, 0, 0, 0);
    assert 9 in s.calls;
  }

  lemma ReachSettledAndWaiting(chain: Chain) returns (acts: seq<Action>)
    ensures IsRun(chain, EmptyState(), acts) && Waiting(After(chain, EmptyState(), acts), Settled)
  {
    var a := ReachPaidAndWaiting(chain);
    var b := SettleWhileWaiting(chain, After(chain, EmptyState(), a));
    RunConcat(chain, EmptyState(), a, b);
    acts := a + b;
  }

  lemma SettleWhileWaiting(chain: Chain, s: State) returns (acts: seq<Action>)
    requires Waiting(s, Paid)
    ensures IsRun(chain, s, acts) && Waiting(After(chain, s, acts), Settled)
  {
    acts := PollEnds(chain, s, 0, 0, true);
  }

  lemma AcceptAgain(chain: Chain, s: State) returns (acts: seq<Action>)
    requires Waiting(s, Settled)
    ensures IsRun(chain, s, acts)
    ensures
      var s' := After(chain, s, acts);
      s'.accepted == [0, 1] && s'.claims.Keys == {0, 1} && s'.claims[0] == s.claims[0] &&
      s'.claims[1].userId == "u" && s'.claims[1].marketId == "m"
  {
    var a := InsertAfterSettlement(chain, s, 9, 1, 1);
    var b := PayPrepared(chain, s, After(chain, s, a), 2, 1, 1);
    RunConcat(chain, s, a, b);
    acts := a + b;
  }

  /** With the first claim settled, not rejected, a second relay of the same user and market is accepted. */
  lemma SecondAcceptanceSettled(chain: Chain) returns (acts: seq<Action>)
    ensures IsRun(chain, EmptyState(), acts)
    ensures
      var s := After(chain, EmptyState(), acts);
      && s.accepted == [0, 1] && 0 in s.claims && 1 in s.claims
      && SameKey(s.claims[0], s.claims[1]) && s.claims[0].status.Settled?
  {
    var a := ReachSettledAndWaiting(chain);
    var b := AcceptAgain(chain, After(chain, EmptyState(), a));
    RunConcat(chain, EmptyState(), a, b);
    acts := a + b;
  }

  // ---------------------------------------------------------------------
  // Which prepares can still insert
  // ---------------------------------------------------------------------

  predicate OfKey(c: Claim, user: string, market: string) { c.userId == user && c.marketId == market }

  /** A prepare of this user and market that has looked for an existing claim and goes on to insert. */
  predicate PastLookup(c: Call, user: string, market: string) {
    && c.Prepare? && c.userId == user && c.marketId == market
    && match c.prepare {
         case Found(_, e) => e.None? || e.value.status.Prepared?
         case Expiring(_, _) => true
         case CheckingNonce(_) => true
         case AskingNonce(_, _) => true
         case Building(_, _) => true
         case Inserting(_) => true
         case _ => false
       }
  }

  /** A lookup of this user and market that is not yet done. */
  predicate AtLookup(c: Call, user: string, market: string) {
    c.Prepare? && c.userId == user && c.marketId == market && c.prepare.Finding?
  }

  /** The run adds a claim of this user and market. */
  ghost predicate Opens(chain: Chain, s: State, acts: seq<Action>, known: set<ClaimId>, user: string, market: string) {
    IsRun(chain, s, acts) && HasNew(After(chain, s, acts).claims, known, user, market)
  }

  ghost predicate HasNew(t: Table, known: set<ClaimId>, user: string, market: string) {
    exists j :: j in t && j !in known && OfKey(t[j], user, market)
  }

  /** No claim of this user and market is under the index. */
  ghost predicate KeyFree(t: Table, user: string, market: string) {
    forall j :: j in t && OfKey(t[j], user, market) ==> !Indexed(t[j].status)
  }

  // ---------------------------------------------------------------------
  // Nobody past the lookup, no poll: no new claim
  // ---------------------------------------------------------------------

  ghost predicate InputsOk(chain: Chain, s: State) { forall k :: k in s.calls ==> InputOk(chain, s.calls[k]) }

  ghost predicate Shut(chain: Chain, s: State, id: ClaimId, user: string, market: string) {
    && id in s.claims && OfKey(s.claims[id], user, market) && s.claims[id].status.Settled? && Unheld(s, id)
    && KeyFree(s.claims, user, market) && InputsOk(chain, s)
    && (forall k :: k in s.calls ==> !PastLookup(s.calls[k], user, market))
  }

  /** A call gets past its lookup only by the lookup itself. */
  lemma PastFrom(chain: Chain, s: State, a: Action, k: nat, user: string, market: string)
    requires Enabled(s, a) && k in Apply(chain, s, a).calls && PastLookup(Apply(chain, s, a).calls[k], user, market)
    requires k in s.calls ==> !PastLookup(s.calls[k], user, market)
    ensures a.Find? && a.call == k && k in s.calls && AtLookup(s.calls[k], user, market)
  {
  }

  /** The lookup finds the settled claim, or another one that is over. */
  lemma LookupShut(chain: Chain, s: State, k: nat, found: Option<ClaimId>, id: ClaimId, user: string, market: string)
    requires Shut(chain, s, id, user, market) && Enabled(s, Find(k, found)) && AtLookup(s.calls[k], user, market)
    ensures !PastLookup(Apply(chain, s, Find(k, found)).calls[k], user, market)
  {
    assert MayFind(s.claims, user, market, found);
    assert Active(s.claims[id].status);
  }

  lemma ShutCalls(chain: Chain, s: State, a: Action, id: ClaimId, user: string, market: string, k: nat)
    requires Shut(chain, s, id, user, market) && Enabled(s, a) && k in Apply(chain, s, a).calls
    ensures !PastLookup(Apply(chain, s, a).calls[k], user, market)
  {
    if PastLookup(Apply(chain, s, a).calls[k], user, market) {
      PastFrom(chain, s, a, k, user, market);
      LookupShut(chain, s, k, a.found, id, user, market);
    }
  }

  /** Only a prepare past its lookup inserts. */
  lemma NewRowPast(chain: Chain, s: State, a: Action, j: ClaimId, user: string, market: string)
    requires Inv(chain, s) && InputsOk(chain, s) && Enabled(s, a)
    requires j in Apply(chain, s, a).claims && j !in s.claims && OfKey(Apply(chain, s, a).claims[j], user, market)
    ensures exists k :: k in s.calls && PastLookup(s.calls[k], user, market)
  {
    NewRows(chain, s, a, j);
    assert InputOk(chain, s.calls[a.call]);
    assert PastLookup(s.calls[a.call], user, market);
  }

  /** All claims of this user and market are known ones. */
  ghost predicate AllKnown(t: Table, known: set<ClaimId>, user: string, market: string) {
    forall j :: j in t && OfKey(t[j], user, market) ==> j in known
  }

  lemma ShutRows(chain: Chain, s: State, a: Action, known: set<ClaimId>, id: ClaimId, user: string, market: string)
    requires Inv(chain, s) && Shut(chain, s, id, user, market) && Enabled(s, a)
    requires AllKnown(s.claims, known, user, market)
    ensures KeyFree(Apply(chain, s, a).claims, user, market) && AllKnown(Apply(chain, s, a).claims, known, user, market)
  {
    var t := Apply(chain, s, a).claims;
    StatusEdges(chain, s, a);
    forall j | j in t && OfKey(t[j], user, market) ensures j in s.claims && OfKey(s.claims[j], user, market) {
      if j !in s.claims {
        NewRowPast(chain, s, a, j, user, market);
      }
    }
  }

  lemma ShutStep(chain: Chain, s: State, a: Action, known: set<ClaimId>, id: ClaimId, user: string, market: string)
    requires Inv(chain, s) && Shut(chain, s, id, user, market) && Enabled(s, a)
    requires AllKnown(s.claims, known, user, market)
    ensures Shut(chain, Apply(chain, s, a), id, user, market) &&
            AllKnown(Apply(chain, s, a).claims, known, user, market)
  {
    var s' := Apply(chain, s, a);
    UnheldStep(chain, s, a, id);
    StatusEdges(chain, s, a);
    ShutRows(chain, s, a, known, id, user, market);
    forall k | k in s'.calls ensures InputOk(chain, s'.calls[k]) && !PastLookup(s'.calls[k], user, market) {
      CallsMinted(chain, s, a, k);
      ShutCalls(chain, s, a, id, user, market, k);
    }
  }

  lemma {:induction false} ShutRun(chain: Chain, s: State, acts: seq<Action>, known: set<ClaimId>, id: ClaimId,
                                   user: string, market: string)
    requires Inv(chain, s) && Shut(chain, s, id, user, market) && IsRun(chain, s, acts)
    requires AllKnown(s.claims, known, user, market)
    ensures AllKnown(After(chain, s, acts).claims, known, user, market)
    decreases |acts|
  {
    if acts != [] {
      ShutStep(chain, s, acts[0], known, id, user, market);
      StepInv(chain, s, acts[0]);
      ShutRun(chain, Apply(chain, s, acts[0]), acts[1..], known, id, user, market);
    }
  }

  // ---------------------------------------------------------------------
  // A prepare past its lookup inserts
  // ---------------------------------------------------------------------

  lemma FreshId(used: set<nat>) returns (id: nat)
    ensures id !in used
  {
    id := Above(used);
  }

  lemma {:induction false} Above(used: set<nat>) returns (n: nat)
    ensures forall x :: x in used ==> x < n
    decreases |used|
  {
    if used == {} {
      n := 0;
    } else {
      var x :| x in used;
      var m := Above(used - {x});
      n := if m > x then m else x + 1;
      assert forall y :: y in used ==> y == x || y in used - {x};
    }
  }

  lemma Prepend(chain: Chain, s: State, a: Action, rest: seq<Action>, known: set<ClaimId>, user: string, market: string)
    requires Enabled(s, a) && Opens(chain, Apply(chain, s, a), rest, known, user, market)
    ensures Opens(chain, s, [a] + rest, known, user, market)
  {
    assert ([a] + rest)[0] == a && ([a] + rest)[1..] == rest;
  }

  /** Call `k` prepares for this user and market, and the index is free for them. */
  ghost predicate Ready(s: State, k: nat, known: set<ClaimId>, user: string, market: string) {
    && k in s.calls && s.calls[k].Prepare? && s.calls[k].userId == user && s.calls[k].marketId == market
    && s.claims.Keys == known && KeyFree(s.claims, user, market)
  }

  lemma FromInserting(chain: Chain, s: State, k: nat, known: set<ClaimId>, user: string,
                      market: string) returns (acts: seq<Action>)
    requires Ready(s, k, known, user, market) && s.calls[k].prepare.Inserting? && InputOk(chain, s.calls[k])
    ensures Opens(chain, s, acts, known, user, market)
  {
    var id := FreshId(known);
    var a := Insert(k, id);
    assert Apply(chain, s, a).claims[id] == PreparedRow(id, s.calls[k].prepare.input);
    acts := [a];
    RunOne(chain, s, a);
  }

  lemma FromBuilding(chain: Chain, s: State, k: nat, known: set<ClaimId>, user: string,
                     market: string) returns (acts: seq<Action>)
    requires Ready(s, k, known, user, market) && s.calls[k].prepare.Building?
    ensures Opens(chain, s, acts, known, user, market)
  {
    var a := Build(k, 0, Some(Simulation(0, "")));
    acts := FromInserting(chain, Apply(chain, s, a), k, known, user, market);
    Prepend(chain, s, a, acts, known, user, market);
    acts := [a] + acts;
  }

  lemma FromAsking(chain: Chain, s: State, k: nat, known: set<ClaimId>, user: string,
                   market: string) returns (acts: seq<Action>)
    requires Ready(s, k, known, user, market) && s.calls[k].prepare.AskingNonce?
    ensures Opens(chain, s, acts, known, user, market)
  {
    var a := Nonce(k, Some(0));
    acts := FromBuilding(chain, Apply(chain, s, a), k, known, user, market);
    Prepend(chain, s, a, acts, known, user, market);
    acts := [a] + acts;
  }

  lemma FromChecking(chain: Chain, s: State, k: nat, known: set<ClaimId>, user: string,
                     market: string) returns (acts: seq<Action>)
    requires Ready(s, k, known, user, market) && s.calls[k].prepare.CheckingNonce?
    ensures Opens(chain, s, acts, known, user, market)
  {
    var a := Find(k, None);
    acts := FromAsking(chain, Apply(chain, s, a), k, known, user, market);
    Prepend(chain, s, a, acts, known, user, market);
    acts := [a] + acts;
  }

  lemma WriteReady(chain: Chain, s: State, k: nat, known: set<ClaimId>, user: string, market: string)
    requires Inv(chain, s) && Ready(s, k, known, user, market) && s.calls[k].prepare.Expiring?
    ensures Ready(ApplyWrite(s, k), k, known, user, market) && ApplyWrite(s, k).calls[k].prepare.CheckingNonce?
  {
    WriteEdges(s, k);
    WriteEdgesKeys(s, k);
  }

  lemma FromExpiring(chain: Chain, s: State, k: nat, known: set<ClaimId>, user: string,
                     market: string) returns (acts: seq<Action>)
    requires Inv(chain, s) && Ready(s, k, known, user, market) && s.calls[k].prepare.Expiring?
    ensures Opens(chain, s, acts, known, user, market)
  {
    var a := Write(k);
    WriteReady(chain, s, k, known, user, market);
    acts := FromChecking(chain, Apply(chain, s, a), k, known, user, market);
    Prepend(chain, s, a, acts, known, user, market);
    acts := [a] + acts;
  }

  /** The existing claim found is gone or over by now. */
  predicate Stale(s: State, e: Option<Claim>) {
    e.Some? ==> e.value.status.Prepared? && (e.value.expiresAt.Some? ==> e.value.expiresAt.value <= s.clock)
  }

  lemma FromStale(chain: Chain, s: State, k: nat, known: set<ClaimId>, user: string,
                  market: string) returns (acts: seq<Action>)
    requires Inv(chain, s) && Ready(s, k, known, user, market)
    requires s.calls[k].prepare.Found? && Stale(s, s.calls[k].prepare.existing)
    ensures Opens(chain, s, acts, known, user, market)
  {
    var a := Resume(k, 0);
    StepInv(chain, s, a);
    var s' := Apply(chain, s, a);
    if s.calls[k].prepare.existing.Some? {
      acts := FromExpiring(chain, s', k, known, user, market);
    } else {
      acts := FromChecking(chain, s', k, known, user, market);
    }
    Prepend(chain, s, a, acts, known, user, market);
    acts := [a] + acts;
  }

  lemma FromFound(chain: Chain, s: State, k: nat, known: set<ClaimId>, user: string,
                  market: string) returns (acts: seq<Action>)
    requires Inv(chain, s) && Ready(s, k, known, user, market) && s.calls[k].prepare.Found?
    requires PastLookup(s.calls[k], user, market)
    ensures Opens(chain, s, acts, known, user, market)
  {
    var e := s.calls[k].prepare.existing;
    if Stale(s, e) {
      acts := FromStale(chain, s, k, known, user, market);
    } else {
      var a := Tick(e.value.expiresAt.value - s.clock);
      StepInv(chain, s, a);
      acts := FromStale(chain, Apply(chain, s, a), k, known, user, market);
      Prepend(chain, s, a, acts, known, user, market);
      acts := [a] + acts;
    }
  }

  lemma PastOpens(chain: Chain, s: State, k: nat, user: string, market: string) returns (acts: seq<Action>)
    requires Inv(chain, s) && InputsOk(chain, s) && KeyFree(s.claims, user, market)
    requires k in s.calls && PastLookup(s.calls[k], user, market)
    ensures Opens(chain, s, acts, s.claims.Keys, user, market)
  {
    var known := s.claims.Keys;
    match s.calls[k].prepare
    case Found(_, _) => acts := FromFound(chain, s, k, known, user, market);
    case Expiring(_, _) => acts := FromExpiring(chain, s, k, known, user, market);
    case CheckingNonce(_) => acts := FromChecking(chain, s, k, known, user, market);
    case AskingNonce(_, _) => acts := FromAsking(chain, s, k, known, user, market);
    case Building(_, _) => acts := FromBuilding(chain, s, k, known, user, market);
    case Inserting(_) => acts := FromInserting(chain, s, k, known, user, market);
  }

  // ---------------------------------------------------------------------
  // A poll that still holds the claim reopens its key
  // ---------------------------------------------------------------------

  /** The claim is the only one of its user and market that `findActiveClaim` sees. */
  ghost predicate OnlyActive(s: State, id: ClaimId) {
    id in s.claims && forall j :: j in s.claims && j != id && SameKey(s.claims[j], s.claims[id]) ==>
      !Active(s.claims[j].status)
  }

  lemma HeldOpens(chain: Chain, s: State, w: nat, id: ClaimId) returns (acts: seq<Action>)
    requires OnlyActive(s, id) && w in s.polls && s.polls[w] == id
    ensures Opens(chain, s, acts, s.claims.Keys, s.claims[id].userId, s.claims[id].marketId)
  {
    var user, market := s.claims[id].userId, s.claims[id].marketId;
    var a := PollWrite(w, false);
    var s' := Apply(chain, s, a);
    assert s'.claims.Keys == s.claims.Keys && MayFind(s'.claims, user, market, None);
    var k := FreshId(s'.calls.Keys);
    var fresh' := FreshId(s'.claims.Keys);
    acts := ReachPrepared(chain, s', k, user, market, "G", fresh', 0);
    assert After(chain, s', acts).claims[fresh'].userId == user;
    Prepend(chain, s, a, acts, s.claims.Keys, user, market);
    acts := [a] + acts;
  }

  /**
   * After settlement a new claim of the same user and market can appear if and only if a prepare is already past its
   * lookup or a poll still holds the settled claim.
   */
  lemma ReopensExactly(chain: Chain, s: State, id: ClaimId)
    requires Inv(chain, s) && InputsOk(chain, s) && OnlyActive(s, id) && s.claims[id].status.Settled?
    ensures
      var user, market := s.claims[id].userId, s.claims[id].marketId;
      (exists acts :: Opens(chain, s, acts, s.claims.Keys, user, market)) <==>
      (exists k :: k in s.calls && PastLookup(s.calls[k], user, market)) || !Unheld(s, id)
  {
    var user, market := s.claims[id].userId, s.claims[id].marketId;
    assert KeyFree(s.claims, user, market);
    if k :| k in s.calls && PastLookup(s.calls[k], user, market) {
      var acts := PastOpens(chain, s, k, user, market);
    } else if !Unheld(s, id) {
      var w :| w in s.polls && s.polls[w] == id;
      var acts := HeldOpens(chain, s, w, id);
    } else {
      forall acts ensures !Opens(chain, s, acts, s.claims.Keys, user, market) {
        if IsRun(chain, s, acts) {
          ShutRun(chain, s, acts, s.claims.Keys, id, user, market);
        }
      }
    }
  }

  /** Every reachable state meets the two invariants above. */
  lemma ReachableInputsOk(chain: Chain, s0: State, acts: seq<Action>)
    requires Init(s0) && IsRun(chain, s0, acts)
    ensures Inv(chain, After(chain, s0, acts)) && InputsOk(chain, After(chain, s0, acts))
  {
    InitInv(chain, s0);
    RunInv(chain, s0, acts);
    MintedRun(chain, s0.claims.Keys, s0, acts);
  }
}
