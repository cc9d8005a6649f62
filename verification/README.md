# Verified models of the prediction-market backend

A Dafny 4.11 project that models the concurrent, stateful and arithmetic cores of the backend and
proves what they guarantee. `dafny verify dfyconfig.toml` checks everything.

| area | modules |
|---|---|
| user-signed claims | `ClaimChain`, `ClaimRepo`, `ClaimService` (transition system), `ClaimSafety` (invariant), `ClaimTheorems`, `ClaimWitnesses` (runs), `ClaimTiming`, `ClaimReopen`, `ClaimOrigin` (where claims come from), `ClaimOutcomes` (answers and rows said outright), `ClaimCalls` (the two procedures) |
| fraud clusters | `UnionFind`, `FraudGraph`, `FraudClusters`, `FraudTheorems`, `FraudOrder`, `FraudRows` |
| indexer recovery | `EventId`, `Recovery`, `Planner` |
| admission control | `CircuitBreaker`, `TokenBucket`, `SlidingWindow` |
| signup anomalies | `Baseline`, `AnomalyDetector`, `ZeroMad`, `Minorities`, `BucketSeries` |
| paging, counts, export | `PredictionPaging`, `Cursor`, `SocialCounts`, `CsvExport` |
| shared helpers | `Wrappers`, `Sequences`, `Strings`, `Dedup`, `Rounding` |

How things are modelled:

- **Claims.** Any number of `prepareClaim` and `submitClaim` calls run at once. `ClaimService` gives each
  call one suspended state per await; an `Action` is one atomic step of one call, a crash, a step of a
  settle-confirmer poll, or the clock moving on. The RPC answers anything. Theorems quantify over all
  initial tables that respect the partial unique index and all finite runs. `ClaimCalls` writes the two
  procedures out over the repository class and shows each to be a run of that system with the outcome that
  `ClaimOutcomes` spells out case by case: literal status, error code and row.
- **Definitions and what pins them.** Each rule the code computes step by step is also stated on its own terms, without
  the functions that compute it: members named `...Exactly` and the outcome predicates do this.
- **Classes.** Code that updates fields is a class (`UnionFind.Sets`, `ClaimRepo.ClaimTable`,
  `CircuitBreaker.CircuitBreaker`, `TokenBucket.Limiter`, `SlidingWindow.SlidingWindowStore`,
  `SocialCounts.SocialRepository`). Each method's new state is a function of the old one, and the
  run-level results are proved about those functions.
- **Loops.** Loops of the source are `while` loops proved equal to a specification function.
- **Clocks, random ids, network answers, database contents** are parameters or actions. Clocks never go
  back unless a result says otherwise.
- **Numbers.** Integers are unbounded with the source's safe-integer checks written out; token counts and
  statistics are exact reals.

Where the code does less than its comments say, the model follows the code, a concrete input shows the
difference and a theorem gives the exact condition:

- The claim header's diagram (`src/services/claimService.ts:15-20`) omits the edge `submitting -> prepared`, which
  `ClaimTheorems.StatusEdges` includes and `ClaimWitnesses.EveryEdgeTaken` takes.
- The expiry guard of `prepared -> submitting` compares with a clock read before the update commits
  (`ClaimTiming.GuardReadsEarly`), so updates commit before expiry in all runs exactly when they run at once
  (`ClaimTiming.InTimeExactly`); the time read was always before expiry.
- A call that crashes while its claim is `submitting` leaves the claim stuck for good
  (`ClaimTheorems.CrashOrphans`, `ClaimTheorems.OrphanIsStuck`); a claim can leave `submitting` if and only if a
  live call owns it (`ClaimTheorems.RecoverableExactly`).
- The settle-confirmer writes without a status guard, so overlapping polls can turn `settled` into `rejected`
  (`ClaimWitnesses.OverlapUnsettles`); either status is final if and only if no poll holds the claim
  (`ClaimTheorems.OutcomeFinalExactly`).
- The fraud graph's edge key can collide when addresses contain `::`. Scores are exact if and only if no two
  edges collide (`FraudTheorems.TotalScore`), and clusters are the true classes if and only if every pair offered
  under a used key is linked by first-offered pairs (`FraudTheorems.ClustersAreClasses`,
  `FraudTheorems.CollisionSplitsClass`). Clusters are the same for every row order if and only if no keys collide
  (`FraudOrder.RowOrderExactly`, `FraudOrder.RowOrderMatters`); the total score always is
  (`FraudTheorems.TotalScoreOrderFree`). Addresses without colons never collide.
- A pattern key joins market, outcome, amount and five-minute slot with `|`. Without pipes in these fields the clusters
  are the classes of rows that share a funder, a transaction or a bet in the same five minutes
  (`FraudRows.ClustersAreRowClasses`); in general exactly when rows of one joined text are linked anyway
  (`FraudRows.RowClassesExactly`), and two rows show that a pipe can cluster strangers (`FraudRows.PipesCollide`).
- Event ids sort like positions exactly up to 19 digits of packed id and 10 digits of event index
  (`EventId.OrderExact`).
- A circuit-breaker reset while a probe is in flight admits a second probe
  (`CircuitBreaker.ResetAdmitsSecondProbe`); this is the only way (`CircuitBreaker.AtMostOneProbe`).
- The z-score falls back to the mean deviation when the MAD is 0, so a burst smaller than half of the baseline can
  hide a flood from the z-score rule: d changed buckets can exactly when d - 1 changes give some count the majority
  (`Minorities.MinorityHidesExactly`). The report then shows the flood exactly when it clears the floor and the
  ratio over that count (`Minorities.HiddenUnlessRatio`); a flood over the ratio of the clean maximum is always
  reported (`AnomalyDetector.FloodCannotHide`).
- A settled claim does not close its user and market for good: a prepare past its lookup can still insert
  (`ClaimReopen.SecondAcceptanceSettled`), exactly as `ClaimReopen.ReopensExactly` says.
- An open circuit breaker is closed before its cool-down ends by the late success of an older call
  (`CircuitBreaker.EarlyAdmissionExactly`).
- The paging cursor keeps milliseconds while the database keeps microseconds, so a row's cursor can skip another
  row of the same millisecond (`PredictionPaging.SkipsExactly`). Paging a fixed table misses nothing if and only if
  no matching row's cursor skips another (`PredictionPaging.PagingExact`).

## Model

| member | source | states |
|---|---|---|
| `ClaimChain.VerifiedHash` | src/services/claimChain.ts:157-223 | an accepted envelope parses, is signed, and its inner transaction hashes to the stored hash |
| `ClaimChain.HashIsTheAuthority` | src/services/claimChain.ts:157-223 | against the transaction built at prepare time, when no other transaction has its hash, an envelope is accepted if and only if it is signed and wraps exactly that transaction: the field checks refuse nothing the hash would accept |
| `ClaimOutcomes.AcceptsExactly` | src/services/claimChain.ts:157-223 | an envelope is accepted if and only if its inner transaction is signed, has the user as source and the stored hash, and holds one operation of that source (or none) calling `claim_winnings` of the contract with user, market and nonce |
| `ClaimOutcomes.GateExactly` | src/services/claimService.ts:236-279 | a context passes if and only if the market is resolved, the prediction unambiguous, confirmed, unclaimed and won; its amount goes on; otherwise the error of the first failing condition |
| `ClaimOutcomes.LosingExactly` | src/services/claimService.ts:440-446 | a submit that lost its claim reports what the row read back calls for |
| `ClaimOutcomes.YieldingExactly` | src/services/claimService.ts:331-336 | a prepare that lost the insert answers with the winner's prepared claim or 409 `claim_in_progress` |
| `ClaimOutcomes.PollWritesExactly` | src/workers/settleConfirmer.ts:45-68 | a poll writes settled or rejected to its own claim and nothing else |
| `ClaimRepo.TransitionKeepsIndex` | src/services/claimRepo.ts:133-151 | a guarded update that never makes an unindexed row indexed keeps one active claim per user and market |
| `ClaimRepo.InsertKeepsIndex` | src/services/claimRepo.ts:115-126 | an insert that found no conflict keeps the partial unique index |
| `ClaimRepo.ClaimTable.InsertPrepared` | src/services/claimRepo.ts:115-126 | returns null, changing nothing, exactly when a prepared, submitting or paid claim of the user and market exists; otherwise adds exactly the row with the given terms |
| `ClaimRepo.ClaimTable.Transition` | src/services/claimRepo.ts:133-151 | updates exactly the row whose id, status and expiry guard match and keeps its terms; otherwise null and no change; raises exactly on an index violation, which no update of an indexed row causes |
| `ClaimRepo.ClaimTable.FindActiveClaim` | src/services/claimRepo.ts:85-98 | returns some claim of the user and market in prepared, submitting, paid or settled; null exactly when all are failed, expired or rejected |
| `ClaimRepo.ClaimTable.HasConsumedNonce` | src/services/claimRepo.ts:100-113 | true exactly when a paid or settled claim of the user and market exists |
| `ClaimRepo.ClaimTable.FindById` | src/services/claimRepo.ts:128-131 | the row with that id, if any |
| `ClaimSafety.StepInv` | src/services/claimService.ts:226-505 | every step of every call, crash or poll keeps the invariant: one owner per submitting claim, owners' rows in submitting, one accepted answer per claim, authentic relays, index intact |
| `ClaimSafety.RunInv` | src/services/claimService.ts:226-505 | hence every reachable state satisfies it |
| `ClaimSafety.OwnerExitHits` | src/services/claimService.ts:460-485 | whenever an owner runs its exit transition, the row is still in submitting and the update hits |
| `ClaimTheorems.AcceptedRelays` | src/services/claimService.ts:394-505 | in every run two relays answered PENDING or DUPLICATE belong to different claims, and for one user and market one of those claims has since left paid through the settle-confirmer |
| `ClaimTheorems.AtMostOneAccepted` | src/services/claimService.ts:394-505 | in every interleaving with crashes and without settle-confirmer writes, at most one relay per user and market is ever answered PENDING or DUPLICATE |
| `ClaimTheorems.StatusEdges` | src/services/claimService.ts:281-505 | each step changes each status along a coded edge or not at all, removes no row and changes no claim's terms (`ClaimWitnesses.EveryEdgeTaken` shows that all these edges occur) |
| `ClaimTheorems.FinalStatuses` | src/services/claimRepo.ts:133-151 | over any run expired and failed are never left, and id, user, market, nonce, stored hash and expiry never change |
| `ClaimTheorems.SingleOwner` | src/services/claimService.ts:437-475 | in every reachable state: one live owner per submitting claim, every owner's row still in submitting, every owner's exit update (to paid, failed or back to prepared) hits, so the fallback result is never used, one indexed claim per user and market |
| `ClaimTheorems.RelaysAreAuthentic` | src/services/claimService.ts:402-464 | every relay, resends included, was made by a call of the claim's own user, carries a signed transaction with the hash stored at prepare time, and its guard read a time before expiry |
| `ClaimTheorems.RelaysArePrepared` | src/services/claimService.ts:322-464 | every relay of a claim inserted during the run wraps exactly the transaction stored with that claim, unless another transaction has that one's hash |
| `ClaimTheorems.SuccessMeansAccepted` | src/services/claimService.ts:350-405 | a submit that reports success reports a claim of its own user whose relay was accepted, or that was paid before the run began |
| `ClaimTheorems.OwnRowsOnly` | src/services/claimService.ts:281-485 | in every run a call's write changes no row but its own user's |
| `ClaimTheorems.PreparedIsOwn` | src/services/claimService.ts:281-344 | in every run a prepare that succeeds answers with a prepared claim of its own user and market |
| `ClaimOrigin.ClaimsAreRightful` | src/services/claimService.ts:226-344 | every claim present after a run and absent before it was inserted by a call started for its user and market that had read a resolved market with one unclaimed winning prediction of the claim's amount |
| `ClaimTheorems.CrashOrphans` | src/services/claimService.ts:437-475 | the crash of the owning call leaves the claim in submitting without an owner |
| `ClaimTheorems.OrphanIsStuck` | src/services/claimService.ts:437-475 | such a claim stays submitting in every continuation and blocks its user and market |
| `ClaimTheorems.RecoverableExactly` | src/services/claimService.ts:437-485 | a submitting claim leaves submitting in some continuation if and only if a live call owns it |
| `ClaimTheorems.OutcomeFinalExactly` | src/workers/settleConfirmer.ts:45-68 | a settled or rejected claim keeps its status in every continuation if and only if no poll holds it |
| `ClaimWitnesses.EveryEdgeTaken` | src/services/claimService.ts:409-485 | from any state with a submittable claim each coded status change happens in some run, the return from submitting to prepared included |
| `ClaimTiming.CommittedNearExpiry` | src/services/claimService.ts:437-448 | if no guarded update runs more than d after its clock read, every relay's update commits before expiry + d |
| `ClaimTiming.InTimeExactly` | src/services/claimService.ts:437-448 | every relay's update commits before expiry in every run if and only if d is 0 |
| `ClaimTiming.GuardReadsEarly` | src/services/claimService.ts:437-448 | a submit whose update is delayed is relayed all the same, and commits before expiry exactly when clock + delay is before expiry |
| `ClaimTiming.ReadBeforeCommit` | src/services/claimService.ts:437-448 | in every run the guard's clock read is no later than the commit |
| `ClaimWitnesses.SecondAcceptance` | src/workers/settleConfirmer.ts:63-68 | a run in which, after one settle-confirmer write, a second relay for the same user and market is accepted |
| `ClaimReopen.SecondAcceptanceSettled` | src/services/claimService.ts:303-336 | a run with a second acceptance after settlement: a prepare past its lookup inserts once the index has dropped the settled row |
| `ClaimReopen.ReopensExactly` | src/services/claimService.ts:281-336 | after settlement a new claim of the same user and market can appear if and only if a prepare is already past its lookup or a poll still holds the settled claim |
| `ClaimReopen.ReachableInputsOk` | src/services/claimService.ts:322-330 | in every reachable state a row about to be inserted carries its caller's user and market and the hash of its own transaction |
| `ClaimWitnesses.ExclusiveIsFinal` | src/workers/settleConfirmer.ts:45-68 | while no poll picks a claim another holds, every settled or rejected status reached is final |
| `ClaimWitnesses.OverlapUnsettles` | src/workers/settleConfirmer.ts:45-68 | two overlapping polls can turn a settled claim into a rejected one |
| `ClaimCalls.SubmitClaim` | src/services/claimService.ts:394-505 | an uninterrupted submit is a run of the transition system; an absent or another user's claim gives 404 `claim_not_found` and no change; otherwise by the stored status, the expiry, the envelope and the network's answer: the literal result or error and the exact row written |
| `ClaimCalls.PrepareClaim` | src/services/claimService.ts:226-344 | an uninterrupted prepare is a run of the transition system; it succeeds only for a resolved market and one confirmed, unclaimed, winning prediction; otherwise the error of the first failing condition and no change; then the live claim handed back, the 409 of a claim under way, or a new row with the prediction's amount, the nonce, the five-minute expiry and the exact transaction, after expiring an overdue one |
| `ClaimCalls.ReportStored` | src/services/claimService.ts:365-386 | a claim that cannot be submitted: its receipt if paid or settled, otherwise the literal 409 of its status |
| `ClaimCalls.Acquire` | src/services/claimService.ts:437-505 | a row still prepared and unexpired at the guard's clock goes to the network and ends as its answer says; otherwise nothing changes and the row read back decides the error |
| `ClaimCalls.InsertOrYield` | src/services/claimService.ts:322-337 | without an indexed claim the new row is inserted; with one nothing changes and the winner's prepared claim, or 409 `claim_in_progress`, is the answer |
| `UnionFind.Sets.Add` | src/services/fraudService.ts:187-192 | a new node becomes a class of its own and no class changes |
| `UnionFind.Sets.Find` | src/services/fraudService.ts:194-209 | terminates, returns the representative, and compresses the path without changing any class |
| `UnionFind.Sets.Climb` | src/services/fraudService.ts:196-199 | the climbing loop terminates at the representative |
| `UnionFind.Sets.Compress` | src/services/fraudService.ts:200-207 | every node on the path ends up pointing at the root, no other link moves, and every class is kept |
| `UnionFind.Sets.Union` | src/services/fraudService.ts:211-227 | afterwards two nodes have one representative exactly when united pairs connect them; true exactly when the two were not connected before |
| `UnionFind.Sets.Link` | src/services/fraudService.ts:214-226 | hangs the lower-ranked root under the other, merging exactly the two classes, and keeps the forest with rising ranks |
| `UnionFind.Sets.Components` | src/services/fraudService.ts:229-238 | one group per representative, holding exactly its nodes in insertion order |
| `UnionFind.RootIsLabel` | src/services/fraudService.ts:194-209 | following parent links reaches the class representative from every node |
| `UnionFind.RootFacts` | src/services/fraudService.ts:194-227 | a representative is a root that outranks every other node of its class |
| `UnionFind.CompressKeepsClasses` | src/services/fraudService.ts:200-206 | pointing a node at its root keeps the forest, the ranks and every class |
| `UnionFind.LinkForest` | src/services/fraudService.ts:215-225 | linking by rank keeps ranks strictly rising to the root |
| `UnionFind.MergedLabels` | src/services/fraudService.ts:211-227 | merging the classes of the two ends keeps "same representative if and only if connected by united pairs" |
| `FraudGraph.BucketsFaithful` | src/services/fraudService.ts:327-349 | each bucket holds exactly the addresses some row places in it, once |
| `FraudGraph.CandidatesSpec` | src/services/fraudService.ts:364-395 | the pair loops offer exactly the ordered pairs that share a bucket, each once |
| `FraudGraph.PairsCount` | src/services/fraudService.ts:368-372 | a bucket of n addresses offers n(n-1)/2 pairs |
| `FraudGraph.NothingDropped` | src/services/fraudService.ts:351-362 | deduplication drops nothing if and only if no two offered edges share a key |
| `FraudGraph.KeyInjective` | src/services/fraudService.ts:351-362 | with colon-free addresses the key determines the edge, whatever the detail contains |
| `FraudGraph.KeptIsFresh` | src/services/fraudService.ts:351-362 | the edge map holds, in order, the first edge offered under every key |
| `FraudGraph.CandidateScore` | src/services/fraudService.ts:168-172 | the offered edges weigh 5, 8 and 3 times the sums of n(n-1)/2 over the three kinds of bucket |
| `FraudGraph.Bucketize` | src/services/fraudService.ts:322-349 | the row loop fills the three bucket maps and the node set as specified |
| `FraudGraph.AddBucketEdges` | src/services/fraudService.ts:364-373 | the nested loops offer exactly the pairs of every bucket, in order |
| `FraudGraph.BuildGraph` | src/services/fraudService.ts:318-398 | the loops return the non-empty addresses and the first offered edge of every key |
| `FraudClusters.Clusterize` | src/services/fraudService.ts:404-432 | the clusters are exactly the connected components of size at least two, disjoint, sorted, each with its edges, total weight and the digest of its members joined by pipes |
| `FraudClusters.EdgeInOneCluster` | src/services/fraudService.ts:409-430 | every edge lies in exactly one cluster, with both ends |
| `FraudClusters.ScoreConserved` | src/services/fraudService.ts:418-430 | the cluster scores add up to the weight of all edges |
| `FraudTheorems.ClustersAreClasses` | src/services/fraudService.ts:318-432 | the clusters are exactly the classes of size at least two of the closure of "shares a bucket" if and only if every pair offered under a used key is linked by pairs offered first under theirs |
| `FraudTheorems.KeptAreFirst` | src/services/fraudService.ts:351-362 | the kept edges join exactly the pairs offered first under their key |
| `FraudTheorems.ColonFreeNoCollision` | src/services/fraudService.ts:351-362 | rows with colon-free addresses have no colliding edge keys |
| `FraudTheorems.EdgesComplete` | src/services/fraudService.ts:351-397 | every suspicious pair is kept if and only if no two collide |
| `FraudTheorems.NoCollisionNoLinkLost` | src/services/fraudService.ts:351-397 | without colliding keys no link is lost |
| `FraudTheorems.TotalScore` | src/services/fraudService.ts:318-432 | the total score equals 5, 8 and 3 per bucket pair if and only if no edge keys collide, and is never more |
| `FraudTheorems.CollisionSplitsClass` | src/services/fraudService.ts:351-362 | four rows whose true class of three addresses is not a cluster |
| `FraudTheorems.RowOrderIrrelevant` | src/services/fraudService.ts:318-432 | when no edge keys collide, reordering or repeating rows changes no cluster's members, score, key or set of edges |
| `FraudTheorems.TotalScoreOrderFree` | src/services/fraudService.ts:351-430 | the total score never depends on row order or repetition, colliding keys or not |
| `FraudOrder.EdgesOrderFreeExactly` | src/services/fraudService.ts:318-398 | the graph has the same edges for every order of the rows, repeated or not, if and only if no edge keys collide |
| `FraudOrder.CollisionChangesClusters` | src/services/fraudService.ts:318-432 | with any colliding keys some order of the same rows gives clusters that do not match in members, score, key and edges, for all clusterings of both |
| `FraudOrder.RowOrderExactly` | src/services/fraudService.ts:318-432 | whatever clusters the graphs, every order of the rows gives matching clusters if and only if no edge keys collide |
| `FraudOrder.FrontPairKept` | src/services/fraudService.ts:351-395 | the pair made by the first two rows is always kept |
| `FraudOrder.RowOrderMatters` | src/services/fraudService.ts:351-362 | four rows whose reordering clusters a different address |
| `FraudRows.PatternKeys` | src/services/fraudService.ts:343-348 | rows of one market, outcome, amount and five-minute slot have one pattern key; the converse holds when no field contains a pipe |
| `FraudRows.FunderBuckets` | src/services/fraudService.ts:331-335 | a funder bucket holds exactly the addresses with that non-empty funder |
| `FraudRows.HashBuckets` | src/services/fraudService.ts:337-341 | a hash bucket holds exactly the addresses with that non-empty transaction hash |
| `FraudRows.SamePartitionExactly` | src/services/fraudService.ts:322-349 | sharing buckets and sharing a funder, transaction or bet link the same addresses if and only if rows of one joined bet text are linked anyway |
| `FraudRows.PipeFreeLinked` | src/services/fraudService.ts:343-348 | which holds whenever no field contains a pipe |
| `FraudRows.ClustersAreRowClasses` | src/services/fraudService.ts:318-432 | in that case the clusters are exactly the classes of rows that share a funder, a transaction or a bet in the same five minutes if and only if every pair offered under a used key is linked by first-offered pairs |
| `FraudRows.RowClassesExactly` | src/services/fraudService.ts:318-432 | and when no link is lost they are these classes if and only if rows of one joined bet text are linked anyway |
| `FraudRows.PipesCollide` | src/services/fraudService.ts:343-348 | two rows with pipes in their fields are clustered though they share nothing |
| `FraudRows.ClusterRows` | src/services/fraudService.ts:482-483 | graph building and clustering together: for colon-free addresses the exact classes and the full score; without pipes, the classes of rows that share a funder, a transaction or a bet |
| `EventId.ToidLayout` | src/services/indexerRecovery.ts:71-85 | in range the packed id is ledger * 2^32 + order * 2^12 + operation (Stellar SEP-0035, section Specification) |
| `EventId.RoundTrip` | src/services/indexerRecovery.ts:34-85 | decoding a formatted id returns the same four numbers if and only if each fits its field and the event index is a safe integer |
| `EventId.DecodeAccepts` | src/services/indexerRecovery.ts:34-66 | an id is accepted exactly when, trimmed, it is two digit runs joined by one dash with a safe event index |
| `EventId.TrimExactly` | src/services/indexerRecovery.ts:34-66 | trimming takes white space off both ends and nothing else |
| `EventId.OrderPreserved` | src/services/indexerRecovery.ts:71-85 | while both parts fit their padding, string order of ids is lexicographic order of positions |
| `EventId.LedgerFits` | src/services/indexerRecovery.ts:71-85 | every ledger below 2^31 with an event index below 10^10 fits the padding |
| `EventId.OrderExact` | src/services/indexerRecovery.ts:71-85 | ids of packed value below l and event index below n sort like their positions if and only if l <= 10^19 and n <= 10^10 |
| `EventId.OrderBreaksPast19Digits` | src/services/indexerRecovery.ts:81-83 | the last 19-digit and the first 20-digit packed id sort the wrong way round |
| `EventId.OrderBreaksPast10Digits` | src/services/indexerRecovery.ts:81-83 | so do the last 10-digit and the first 11-digit event index |
| `Recovery.IdentityInjective` | src/services/indexerRecovery.ts:116-120 | two events have one identity string if and only if ledger, hash, operation and event index agree, for every hash |
| `Recovery.DedupeSpec` | src/services/indexerRecovery.ts:128-137 | deduplication keeps the first event of every identity and nothing else, in first-seen order |
| `Recovery.DedupeEvents` | src/services/indexerRecovery.ts:128-137 | the filter with its seen set computes that deduplication |
| `Recovery.ValidateExactly` | src/services/indexerRecovery.ts:235-242 | which error each event gives: ledger, transaction order, operation and event index must be whole numbers up to 2^53 - 1, checked in this order, and the hash must hold more than white space |
| `Recovery.FirstErrorExactly` | src/services/indexerRecovery.ts:244-246 | a page's error is that of its first invalid event |
| `Recovery.NormalSpec` | src/services/indexerRecovery.ts:244-254 | normalized events are in comparator order, without repeated identity, and cover exactly the identities given |
| `Recovery.NormalExactly` | src/services/indexerRecovery.ts:244-254 | a normalized page is lexicographic in ledger, transaction order, operation, event index and hash rank, and holds exactly the first event seen of each identity |
| `Recovery.NormalAbsorbs` | src/services/indexerRecovery.ts:244-254 | normalizing a prefix first makes no difference, ties included |
| `Recovery.MergeSpec` | src/services/indexerRecovery.ts:256-266 | a merge lists exactly the observed ledgers, empty ones included, ascending, each with its normalized events |
| `Recovery.MergedPage` | src/services/indexerRecovery.ts:256-266 | so is every merged page: only events reported for its ledger, and one of the identity of each |
| `Recovery.MergeSucceeds` | src/services/indexerRecovery.ts:235-266 | merging fails exactly when some ledger number or event is invalid |
| `Recovery.MergeFails` | src/services/indexerRecovery.ts:256-266 | the error is that of a bad ledger number, or else of the first invalid event of the lowest ledger that has one |
| `Recovery.MergeIncremental` | src/services/indexerRecovery.ts:256-266 | merging a merge with further pages equals merging all pages at once, errors included |
| `Recovery.Redelivery` | src/services/indexerRecovery.ts:256-266 | redelivering any pages already delivered changes nothing, errors included |
| `Recovery.RedeliveryAnywhere` | src/services/indexerRecovery.ts:256-266 | also when more pages follow, errors included |
| `Recovery.MergeIdempotent` | src/services/indexerRecovery.ts:256-266 | a merge is its own merge |
| `Recovery.MergeObservations` | src/services/indexerRecovery.ts:256-266 | the map-building loop computes the merge, with the same first error |
| `Planner.GapsSpec` | src/services/indexerRecovery.ts:143-151 | the gaps of a range are exactly its unobserved ledgers, strictly ascending |
| `Planner.FindUnobservedLedgers` | src/services/indexerRecovery.ts:143-151 | the loop computes the gaps |
| `Planner.GroupLedgerRanges` | src/services/indexerRecovery.ts:153-169 | for any list: non-empty ascending ranges, at least one ledger apart, covering exactly the listed ledgers |
| `Planner.CutAllSpec` | src/services/indexerRecovery.ts:172-181 | cutting such ranges gives ascending disjoint non-empty chunks of at most the maximum that cover the same ledgers; a chunk followed at once by another is full |
| `Planner.ChunkReplayRanges` | src/services/indexerRecovery.ts:172-181 | the nested loops compute that cutting, and refuse a maximum below one |
| `Planner.DecisionSpec` | src/services/indexerRecovery.ts:216-226 | accepted exactly when nothing is missing; the missing ranges cover exactly the unobserved ledgers; the next checkpoint is the target or the current one |
| `Planner.DecideCheckpoint` | src/services/indexerRecovery.ts:216-226 | computes that decision |
| `Planner.NewPlanner` | src/services/indexerRecovery.ts:275-278 | construction succeeds exactly for a positive chunk size, and keeps it |
| `Planner.PlanReplay` | src/services/indexerRecovery.ts:280-283 | computes the plan for the planner's chunk size |
| `Planner.AdvanceCheckpoint` | src/services/indexerRecovery.ts:285-288 | computes the checkpoint or the error thrown |
| `Planner.PlanExact` | src/services/indexerRecovery.ts:275-283 | a plan consists of ascending disjoint non-empty chunks of at most the maximum that cover exactly the unobserved ledgers of (current, target]; it fails exactly when merging fails |
| `Planner.CheckpointExact` | src/services/indexerRecovery.ts:228-233 | the checkpoint call succeeds exactly when the observations are valid and every ledger of (current, target] was observed, and then returns the target, or the current one if that is ahead |
| `Planner.CheckpointFails` | src/services/indexerRecovery.ts:228-233 | a refused checkpoint names the merge error, or else the number of separate ranges that cover exactly the unobserved ledgers |
| `Planner.ReplayCompletes` | src/services/indexerRecovery.ts:275-289 | observing every planned ledger makes the checkpoint return the target |
| `Planner.CheckpointSafe` | src/services/indexerRecovery.ts:285-288 | over any run the checkpoint never goes back and every ledger it crossed was explicitly observed |
| `CircuitBreaker.CircuitBreaker.FireStart` | src/lib/circuitBreaker.ts:88-96 | rejection, or admission with the state remembered across the await, and the fields afterwards |
| `CircuitBreaker.CircuitBreaker.FireSucceeded` | src/lib/circuitBreaker.ts:98-110 | the breaker is closed without failures, and a probe's flag is down |
| `CircuitBreaker.CircuitBreaker.FireFailed` | src/lib/circuitBreaker.ts:102-129 | a probe's failure opens the breaker at the last clock reading and takes the flag down; another one keeps the failures of the window and itself, and opens exactly at the threshold |
| `CircuitBreaker.CircuitBreaker.constructor` | src/lib/circuitBreaker.ts:55-65 | the given options, with 5 failures, 60000 ms and 30000 ms as defaults and the older name of the cool-down accepted |
| `CircuitBreaker.CircuitBreaker.Reset` | src/lib/circuitBreaker.ts:132-137 | reset restores the initial fields |
| `CircuitBreaker.CircuitBreaker.GetState` | src/lib/circuitBreaker.ts:74-82 | an open breaker becomes half-open exactly when the cool-down is over; nothing else changes |
| `CircuitBreaker.CircuitBreaker.RecordFailure` | src/lib/circuitBreaker.ts:113-125 | the fields after a recorded failure |
| `CircuitBreaker.AtMostOneProbe` | src/lib/circuitBreaker.ts:88-137 | in every interleaving the flag says exactly whether a half-open call is in flight, and there is at most one, if and only if no reset happens under a running probe |
| `CircuitBreaker.ClosedUnderThreshold` | src/lib/circuitBreaker.ts:113-125 | in every run a closed breaker keeps fewer failures than the threshold, exactly for positive thresholds |
| `CircuitBreaker.OpensExactly` | src/lib/circuitBreaker.ts:113-130 | in every run a failure of a call admitted while closed opens the breaker exactly when the full log since the last success holds enough recent failures |
| `CircuitBreaker.SuccessRecovers` | src/lib/circuitBreaker.ts:74-129 | in every run after the success of any call the breaker is closed without failures, stays so until a probe fails or the recent failures reach the threshold, and meanwhile admits every call as closed, however many overlap |
| `CircuitBreaker.StaysClosedExactly` | src/lib/circuitBreaker.ts:74-129 | in every run a closed breaker stays closed over a stretch if and only if no failure in it is a probe's or reaches the threshold |
| `CircuitBreaker.ProbeFailureReopens` | src/lib/circuitBreaker.ts:112-116 | the failure of a probe opens the breaker again from that moment, with the flag down |
| `CircuitBreaker.FailsFast` | src/lib/circuitBreaker.ts:74-96 | from opening to the end of the cool-down nothing is admitted, whatever calls start and fail, until a call succeeds or the breaker is reset |
| `CircuitBreaker.ProbeFailureFailsFast` | src/lib/circuitBreaker.ts:74-116 | and for another cool-down nothing is admitted, whatever calls start and fail, until a call succeeds or the breaker is reset |
| `CircuitBreaker.EarlyAdmissionExactly` | src/lib/circuitBreaker.ts:88-110 | without resets an open breaker admits a call before its cool-down ends in some run if and only if a call is in flight, whose late success closes it |
| `CircuitBreaker.ProbeAfterCooldown` | src/lib/circuitBreaker.ts:74-96 | after the cool-down the next call is admitted, as a probe, if and only if no probe is in flight, and further ones are rejected while a probe runs |
| `CircuitBreaker.ResetAdmitsSecondProbe` | src/lib/circuitBreaker.ts:132-137 | a run in which a reset leads to two probes in flight |
| `TokenBucket.LimitsOf` | src/middleware/rateLimit.ts:244-249 | capacity and window are the whole parts of the given numbers, 60 and 60000 by default, at least one each; rate times window is the capacity |
| `TokenBucket.Limiter.Handle` | src/middleware/rateLimit.ts:261-340 | the whole new bucket map in the bucket's own numbers: refill for the time since the last one up to the capacity, admission exactly when a token is there, one token less; the remaining count, and the delays announced |
| `TokenBucket.RefillSplit` | src/middleware/rateLimit.ts:267-274 | refilling in two parts is refilling once |
| `TokenBucket.Potential` | src/middleware/rateLimit.ts:267-323 | admissions since any instant plus tokens left never exceed capacity plus refill since then |
| `TokenBucket.AdmissionBound` | src/middleware/rateLimit.ts:244-323 | in every run and interval of length d a key is admitted at most capacity + d * capacity / window times |
| `TokenBucket.BurstExact` | src/middleware/rateLimit.ts:261-323 | on a fresh key exactly the first `capacity` requests of one instant pass |
| `TokenBucket.RejectionLeaves` | src/middleware/rateLimit.ts:276-281 | what a rejected request leaves in its bucket: the refill, and less than one token |
| `TokenBucket.RetryExact` | src/middleware/rateLimit.ts:276-282 | after a rejection, with no admission since and however many rejected requests split the refill, a request is admitted exactly from now + msUntilNextToken on |
| `TokenBucket.NoWait` | src/middleware/rateLimit.ts:326-330 | with a token left the shortest wait is announced |
| `TokenBucket.RejectedUntilThen` | src/middleware/rateLimit.ts:276-282 | before that instant every request for the key is rejected |
| `TokenBucket.RetryAfterEnough` | src/middleware/rateLimit.ts:281-284 | waiting the Retry-After seconds is enough |
| `SlidingWindow.RetryAfterSeconds` | src/middleware/rateLimitAnon.ts:115-118 | the fewest whole seconds, at least one, after which the oldest timestamp has left the window |
| `SlidingWindow.SlidingWindowStore.GetTimestamps` | src/middleware/rateLimitAnon.ts:24-34 | returns the in-window timestamps and stores exactly those, dropping an empty bucket |
| `SlidingWindow.SlidingWindowStore.Record` | src/middleware/rateLimitAnon.ts:37-41 | stores the in-window timestamps and the new one |
| `SlidingWindow.Handle` | src/middleware/rateLimitAnon.ts:120-162 | authenticated callers pass untouched; others pass exactly when fewer than the maximum are in the window, and blocked ones get the delay from the oldest timestamp, or none when there is no timestamp |
| `SlidingWindow.StoreShowsWindow` | src/middleware/rateLimitAnon.ts:20-47 | from any later instant the pruned store shows exactly the in-window part of the full admission history |
| `SlidingWindow.StoreIsWindow` | src/middleware/rateLimitAnon.ts:24-41 | right after a request the stored list is that part, for positive windows |
| `SlidingWindow.RefinesHistory` | src/middleware/rateLimitAnon.ts:129-160 | admission exactly when the full history holds fewer than the maximum in the window |
| `SlidingWindow.WindowBound` | src/middleware/rateLimitAnon.ts:120-162 | in every run any window of the configured length holds at most the maximum admissions of a key |
| `SlidingWindow.NonPositiveLimit` | src/middleware/rateLimitAnon.ts:134-135 | a limit of zero or less admits nobody and never has a timestamp to compute a delay from |
| `SlidingWindow.RetryExact` | src/middleware/rateLimitAnon.ts:115-162 | after a rejection and without other admissions the key is admitted exactly from oldest + window on |
| `SlidingWindow.RetryAfterEnough` | src/middleware/rateLimitAnon.ts:115-162 | waiting the announced Retry-After guarantees admission |
| `Baseline.MedianRobust` | src/services/anomalyDetector.ts:286-293 | changing fewer than half of the counts keeps the median between the original minimum and maximum, for odd and even lengths |
| `Baseline.MadRobust` | src/services/anomalyDetector.ts:302-316 | and keeps the MAD between 0 and maximum - minimum |
| `Baseline.StatsRobust` | src/services/anomalyDetector.ts:302-316 | both, for the computed statistics |
| `Baseline.BreakdownPoint` | src/services/anomalyDetector.ts:14-18 | the median stays bounded under d changes if and only if d is less than half of the counts |
| `Baseline.MedianExactly` | src/services/anomalyDetector.ts:286-293 | the median is the middle of any ascending arrangement, or half way between its two middle values |
| `Baseline.StatsExactly` | src/services/anomalyDetector.ts:302-316 | the median, the median and the mean of the distances from it, and the number of counts |
| `AnomalyDetector.ScoreMonotone` | src/services/anomalyDetector.ts:337-358 | scores lie in [0, 1000] and never fall as the count rises |
| `AnomalyDetector.ScoreExactly` | src/services/anomalyDetector.ts:328-358 | the score by its equation: 0 up to the median, then 0.6745 times the distance over the spread, capped at 1000; the spread is the MAD, else 1.253314 times the mean deviation, and at least 0.6745 times the root of the median |
| `AnomalyDetector.DetectAnomalies` | src/services/anomalyDetector.ts:427-481 | the loop computes the specified report: it shows an evaluated bucket exactly when its count clears the floor and, given a baseline, its score or its ratio reaches the threshold; every field of every entry follows from its count |
| `AnomalyDetector.ReportedExactly` | src/services/anomalyDetector.ts:438-473 | an evaluated bucket is in the report if and only if its count clears the floor and, with enough baseline buckets, its z-score reaches the z threshold or it is at least the ratio threshold times the median (or 1) |
| `AnomalyDetector.ReportDescribed` | src/services/anomalyDetector.ts:445-473 | each rule is listed exactly when it fires itself, a cold start alone without a baseline; critical exactly from twice a threshold; the expected count, the bucket's end, and score and ratio to two decimals |
| `AnomalyDetector.ReportedAsOften` | src/services/anomalyDetector.ts:438-473 | a reported bucket is reported as often as it was evaluated |
| `AnomalyDetector.ReportExact` | src/services/anomalyDetector.ts:438-478 | the report lists exactly the flagged buckets, each as often as it was evaluated, highest score first, later bucket first on ties |
| `AnomalyDetector.TopScoreIsMax` | src/services/anomalyDetector.ts:436-440 | the top score is the largest score of any evaluated bucket, or 0 |
| `AnomalyDetector.TopScoreExactly` | src/services/anomalyDetector.ts:436-440 | the reported top score is, to two decimals, the largest score of an evaluated bucket, 0 without a baseline |
| `AnomalyDetector.FloodCannotHide` | src/services/anomalyDetector.ts:427-481 | a flood above the floor and the ratio over the clean maximum is reported whatever happened to a minority of the baseline |
| `AnomalyDetector.QuietBucketPasses` | src/services/anomalyDetector.ts:427-481 | a bucket no busier than the clean minimum is not reported despite such contamination |
| `AnomalyDetector.ZScoreRobust` | src/services/anomalyDetector.ts:337-358 | whenever the MAD is still positive after a minority changed, the score is at least what the clean range guarantees |
| `Minorities.MinorityScoreFloor` | src/services/anomalyDetector.ts:337-358 | if d - 1 changes give no value the majority of the clean counts, no change of up to d counts, fewer than half, pushes a flood's score below what the clean range guarantees |
| `Minorities.MinorityHidesExactly` | src/services/anomalyDetector.ts:14-18 | for fewer than half, changing up to d signup counts can make a flood's score arbitrarily small if and only if the clean counts have a value for which d - 1 more occurrences make a majority |
| `Minorities.HiddenUnlessRatio` | src/services/anomalyDetector.ts:427-481 | in that case some such change leaves the flood to the ratio rule: the report shows it exactly when it clears the floor and the ratio over that value |
| `ZeroMad.MeanFallbackBreaks` | src/services/anomalyDetector.ts:342-350 | if more than half of all counts are equal without bucket i, some signup count there makes the score of any larger count smaller than any eps |
| `ZeroMad.HiddenExactly` | src/services/anomalyDetector.ts:337-358 | changing one given bucket of three or more can make a flood's score arbitrarily small if and only if more than half of all counts are equal without it |
| `ZeroMad.ZeroMadMajority` | src/services/anomalyDetector.ts:302-316 | the MAD is 0 only when more than half of the counts equal the median |
| `BucketSeries.BucketStartFor` | src/services/anomalyDetector.ts:365-367 | the multiple of the width in whose bucket the time falls |
| `BucketSeries.DensifyBuckets` | src/services/anomalyDetector.ts:377-398 | the two loops compute the dense series |
| `BucketSeries.DenseAt` | src/services/anomalyDetector.ts:393-397 | entry i is the i-th bucket from the first on, with the sum of its positive entries, zero if none; the series ends at the last start before the end |
| `BucketSeries.SeriesExactly` | src/services/anomalyDetector.ts:377-398 | entry i starts i widths after the multiple of the width at or before `since`, holds the positive counts reported for its own times, and exists exactly while it starts before `until` |
| `BucketSeries.SignupsConserved` | src/services/anomalyDetector.ts:377-398 | the series' counts add up to the positive entries of the window: none lost, none counted twice |
| `PredictionPaging.QuerySpec` | src/repositories/predictionRepo.ts:96-152 | the query returns exactly the rows that match the filters and follow the cursor, in strict (createdAt, id) descending order |
| `PredictionPaging.PageSpec` | src/repositories/predictionRepo.ts:154-177 | a page has at most `limit` rows, and a next cursor only when it is full, made from its last row |
| `PredictionPaging.PageExactly` | src/repositories/predictionRepo.ts:85-178 | a page is the first `limit` of the caller's rows that equal every given non-empty filter in its own column and come after the cursor, newest first and then by descending id; a next cursor, from the last row's millisecond and id, exactly when rows remain |
| `PredictionPaging.CursorExact` | src/repositories/predictionRepo.ts:115-129 | a cursor lets every later row through exactly when its row's time is a whole millisecond |
| `PredictionPaging.CursorBehind` | src/repositories/predictionRepo.ts:115-129 | a cursor never lets through a row at or before its own |
| `PredictionPaging.WalkDescends` | src/repositories/predictionRepo.ts:85-178 | whatever happens to the table between reads, all pages together are strictly descending in (createdAt, id) |
| `PredictionPaging.NoRowTwice` | src/repositories/predictionRepo.ts:85-178 | so no row is returned twice |
| `PredictionPaging.WalkComplete` | src/repositories/predictionRepo.ts:85-178 | following the cursor to null while rows come and go returns every row that matches at every read, for a positive limit and tables in which no matching row's cursor skips another |
| `PredictionPaging.PagingExact` | src/repositories/predictionRepo.ts:85-178 | paging a fixed table returns every matching row for every page size if and only if no matching row's cursor skips another; page size one alone decides it |
| `PredictionPaging.SkipsExactly` | src/repositories/predictionRepo.ts:115-129 | a cursor skips a later row only within one millisecond, and exactly when its own row is past the start of it and the other is not at the start with a smaller id |
| `PredictionPaging.SafeTimes` | src/repositories/predictionRepo.ts:115-129 | whole-millisecond times, or at most one row per millisecond, rule skips out |
| `PredictionPaging.WalkFinishes` | src/repositories/predictionRepo.ts:85-178 | on a fixed table the cursor becomes null after at most one read more than there are rows |
| `PredictionPaging.SubMillisecondRowLost` | src/repositories/predictionRepo.ts:115-129 | two rows of one instant, paged one by one, are both returned exactly when the instant is a whole millisecond |
| `PredictionPaging.TokenRoundTrip` | src/repositories/predictionRepo.ts:161-168 | a minted token decodes to the key it was made from, for times that print and parse back |
| `PredictionPaging.ZeroLimitReturnsNothing` | src/repositories/predictionRepo.ts:152-168 | a limit of zero returns no rows and a null cursor |
| `Cursor.RoundTrip` | src/utils/cursor.ts:61-105 | a token gives back its key, whatever pipes it contains, exactly when both parts are non-empty |
| `SocialCounts.SocialRepository.FollowUser` | src/repositories/socialRepository.ts:69-122 | the whole new database, the errors in order, and the state reported |
| `SocialCounts.SocialRepository.UnfollowUser` | src/repositories/socialRepository.ts:124-169 | likewise for unfollowing |
| `SocialCounts.FollowExactly` | src/repositories/socialRepository.ts:69-122 | a follow of oneself fails, then of or by an unknown user, then of a private one; any other succeeds, adds the edge and one to both counts if it is new, and touches nothing else |
| `SocialCounts.UnfollowExactly` | src/repositories/socialRepository.ts:124-169 | an unfollow fails likewise, privacy aside; it removes the edge and one from both counts, never below zero, if the edge was there, and touches nothing else |
| `SocialCounts.FindUserExactly` | src/repositories/socialRepository.ts:171-193 | the lookup returns the first user with the address, and nothing exactly when nobody has it |
| `SocialCounts.ClampNeverClips` | src/repositories/socialRepository.ts:150-164 | when an edge is removed both counts are at least one |
| `SocialCounts.RunAgrees` | src/repositories/socialRepository.ts:69-169 | every sequence of follows and unfollows keeps each user's counts equal to the in-edges and out-edges |
| `SocialCounts.TotalsAreEdges` | src/repositories/socialRepository.ts:69-169 | after every sequence both column totals equal the number of edges |
| `SocialCounts.FollowThenUnfollow` | src/repositories/socialRepository.ts:69-169 | unfollowing after a new follow restores the whole database |
| `SocialCounts.FollowTwice` | src/repositories/socialRepository.ts:97-118 | repeating a follow changes nothing more |
| `CsvExport.FieldBack` | src/services/exportService.ts:26-33 | an escaped field is read back by the quoting rules of section 2 of RFC 4180, null as empty |
| `CsvExport.QuotedExactly` | src/services/exportService.ts:26-33 | a field stands as it is exactly when it has no comma, quote or line break, and is quoted with doubled quotes otherwise |
| `CsvExport.RecordBack` | src/services/exportService.ts:38-50 | so is a whole line |
| `CsvExport.ExportRoundTrip` | src/services/exportService.ts:26-50 | parsing any concatenation of formatted lines gives back the nine field strings of every row |
| `CsvExport.ExportColumns` | src/services/exportService.ts:38-50 | parsed column i of a line is the row's id, market, user, outcome, amount, transaction hash, status, result (empty for null) and time, in this order |
| `CsvExport.ExportInjective` | src/services/exportService.ts:26-50 | two exports are equal only if all field strings are |

## Left out

- Express routing, schemas, headers other than the rate-limit delays, logging, metrics and tracing: plumbing.
- Stellar SDK, XDR parsing, strkey checksums and SHA-256: transactions are datatypes, the hash is a function.
- `loadContext` and `recordPredictionClaim`: the prediction and market tables are read as arbitrary environment input and the prediction update is a step without effect on claims.
- In-place interleaving of `prepareClaim` and `submitClaim`: interleavings are modelled on values, one state per await; the procedures in `ClaimCalls` cover uninterrupted calls only.
- The settle-confirmer's retry columns and Horizon queries: a poll is an arbitrary settled, rejected or dropped outcome.
- On-chain nonce checking after a claim has left `paid`: it happens in the contract.
- The legacy claim status `pending` and the timestamp columns of `claims`: no step of the two procedures depends on them.
- The digest in `makeClusterKey`: any function of the joined sorted members.
- `runFraudScan`, `resolveCarryDecision` and the flag tables: database bookkeeping around the clustering.
- `detectReorgs`, `reorgAffectedRange` and `positionIdentity`: the comparison of a replay with the canonical stream by position.
- Non-integer, NaN and infinite JavaScript numbers: ledgers, counts and times are integers.
- `localeCompare`: an arbitrary ranking of strings, which covers every locale.
- IEEE rounding in the token bucket and the statistics; `Math.sqrt` is an arbitrary function, assumed non-negative and rising only in `AnomalyDetector.ZScoreRobust`, `ZeroMad.HiddenExactly` and `Minorities`.
- Rate-limit key extraction (`getUserRateKey`, `extractClientIp`, `normalizeIp`): keys are parameters.
- ISO-8601 printing and parsing of dates, UTF-8 and base64url: the cursor codec is modelled on the bytes between them.
- The join of predictions with markets: a joined row is a value.
- Concurrent follow transactions: each transaction is one step, since its edge insert or delete decides and its count updates are relative.
- `getPredictionsStream`: offset paging by creation time alone, so its coverage under ties is not decided by the code.
- The rest of the repository (markets, disputes, leaderboards, webhooks, idempotency, health checks, workers): not modelled.
