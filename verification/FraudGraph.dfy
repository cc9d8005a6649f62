/** The suspicion graph: addresses that share a funder, a transaction hash or a betting pattern. */
module FraudGraph {
  import opened Wrappers
  import opened Sequences
  import opened Strings
  import opened Dedup

  const PATTERN_BUCKET_MS: int := 300000

  datatype EdgeReason = SharedFundingSource | SharedTxHash | RepeatedPattern

  datatype Row = Row(
    stellarAddress: string, marketId: string, outcome: string, amount: string,
    txHash: string, fundingSource: Option<string>, createdAt: int)

  datatype GraphEdge = GraphEdge(a: string, b: string, reason: EdgeReason, detail: string)

  datatype AddressGraph = AddressGraph(nodes: seq<string>, edges: seq<GraphEdge>)

  function ReasonName(r: EdgeReason): (s: string) {
    match r
    case SharedFundingSource => "SHARED_FUNDING_SOURCE"
    case SharedTxHash => "SHARED_TX_HASH"
    case RepeatedPattern => "REPEATED_PATTERN"
  }

  function Weight(e: GraphEdge): (w: int) {
    match e.reason
    case SharedFundingSource => 5
    case SharedTxHash => 8
    case RepeatedPattern => 3
  }

  // ---------------------------------------------------------------------
  // Buckets
  // ---------------------------------------------------------------------

  /** What a row contributes to the buckets of one reason, if anything. */
  function Detail(reason: EdgeReason, r: Row): (d: Option<string>) {
    match reason
    case SharedFundingSource => if OrElse(r.fundingSource, "") == "" then None else r.fundingSource
    case SharedTxHash => if r.txHash == "" then None else Some(r.txHash)
    case RepeatedPattern =>
      Some(r.marketId + "|" + r.outcome + "|" + r.amount + "|" + IntToString(r.createdAt / PATTERN_BUCKET_MS))
  }

  /** A Map from detail to a Set of addresses, both in insertion order. */
  datatype Buckets = Buckets(keys: seq<string>, members: map<string, seq<string>>)

  const NO_BUCKETS := Buckets([], map[])

  function Put(b: Buckets, k: string, x: string): (b': Buckets) {
    var held := if k in b.members then b.members[k] else [];
    Buckets(if k in b.members then b.keys else b.keys + [k],
            b.members[k := if x in held then held else held + [x]])
  }

  function PutRow(b: Buckets, reason: EdgeReason, r: Row): (b': Buckets) {
    var d := Detail(reason, r);
    if r.stellarAddress == "" || d.None? then b else Put(b, d.value, r.stellarAddress)
  }

  /** The buckets of one reason after reading `rows`. */
  function BucketsFor(rows: seq<Row>, reason: EdgeReason): (b: Buckets) {
    if rows == [] then NO_BUCKETS
    else PutRow(BucketsFor(rows[..|rows| - 1], reason), reason, rows[|rows| - 1])
  }

  function NodesOf(rows: seq<Row>): (s: seq<string>) {
    if rows == [] then []
    else
      var s, x := NodesOf(rows[..|rows| - 1]), rows[|rows| - 1].stellarAddress;
      if x == "" || x in s then s else s + [x]
  }

  predicate Places(r: Row, reason: EdgeReason, k: string, x: string) {
    r.stellarAddress == x && x != "" && Detail(reason, r) == Some(k)
  }

  /** Some row places address `x` in bucket `k` of the reason. */
  ghost predicate Holds(rows: seq<Row>, reason: EdgeReason, k: string, x: string) {
    exists r :: r in rows && Places(r, reason, k, x)
  }

  /** The buckets hold exactly what the rows say, without repetition. */
  ghost predicate Faithful(b: Buckets, rows: seq<Row>, reason: EdgeReason) {
    && Distinct(b.keys) && (forall k :: k in b.keys <==> k in b.members)
    && (forall k :: k in b.members ==> Distinct(b.members[k]))
    && (forall k, x :: (k in b.members && x in b.members[k]) <==> Holds(rows, reason, k, x))
  }

  lemma HoldsLast(rows: seq<Row>, reason: EdgeReason, k: string, x: string)
    requires rows != []
    ensures Holds(rows, reason, k, x) <==>
            Holds(rows[..|rows| - 1], reason, k, x) || Places(rows[|rows| - 1], reason, k, x)
  {
    assert rows == rows[..|rows| - 1] + [rows[|rows| - 1]];
  }

  lemma PutMember(b: Buckets, k: string, x: string, k': string, y: string)
    ensures
      var b' := Put(b, k, x);
      (k' in b'.members && y in b'.members[k']) <==> (k' in b.members && y in b.members[k']) || (k' == k && y == x)
  {
  }

  lemma {:induction false} BucketsFaithful(rows: seq<Row>, reason: EdgeReason)
    ensures Faithful(BucketsFor(rows, reason), rows, reason)
  {
    if rows != [] {
      BucketsFaithful(rows[..|rows| - 1], reason);
      FaithfulStep(BucketsFor(rows[..|rows| - 1], reason), rows, reason);
    }
  }

  lemma FaithfulStep(b: Buckets, rows: seq<Row>, reason: EdgeReason)
    requires rows != [] && Faithful(b, rows[..|rows| - 1], reason)
    ensures Faithful(PutRow(b, reason, rows[|rows| - 1]), rows, reason)
  {
    var r := rows[|rows| - 1];
    var b', d := PutRow(b, reason, r), Detail(reason, r);
    forall k, x ensures (k in b'.members && x in b'.members[k]) <==> Holds(rows, reason, k, x) {
      HoldsLast(rows, reason, k, x);
      if d.Some? {
        PutMember(b, d.value, r.stellarAddress, k, x);
      }
    }
    if d.Some? {
      PutShape(b, d.value, r.stellarAddress);
    }
  }

  /** Adding to a bucket repeats neither keys nor addresses. */
  lemma PutShape(b: Buckets, k: string, x: string)
    requires Distinct(b.keys) && (forall j :: j in b.keys <==> j in b.members)
    requires forall j :: j in b.members ==> Distinct(b.members[j])
    ensures var b' := Put(b, k, x);
      && Distinct(b'.keys) && (forall j :: j in b'.keys <==> j in b'.members)
      && (forall j :: j in b'.members ==> Distinct(b'.members[j]))
  {
  }

  // ---------------------------------------------------------------------
  // Candidate edges
  // ---------------------------------------------------------------------

  /** `orderedPair` applied to the two ends. */
  function Edge(x: string, y: string, reason: EdgeReason, detail: string): (e: GraphEdge) {
    if StrLess(x, y) then GraphEdge(x, y, reason, detail) else GraphEdge(y, x, reason, detail)
  }

  function Star(x: string, rest: seq<string>, reason: EdgeReason, detail: string): (es: seq<GraphEdge>)
    ensures |es| == |rest|
  {
    seq(|rest|, j requires 0 <= j < |rest| => Edge(x, rest[j], reason, detail))
  }

  /** One edge per unordered pair of a bucket, in loop order. */
  function Pairs(list: seq<string>, reason: EdgeReason, detail: string): (es: seq<GraphEdge>) {
    if list == [] then []
    else Star(list[0], list[1..], reason, detail) + Pairs(list[1..], reason, detail)
  }

  function Bucket(b: Buckets, k: string): (list: seq<string>) { if k in b.members then b.members[k] else [] }

  /** The pairs of the first n buckets. */
  function BucketPairs(b: Buckets, reason: EdgeReason, n: nat): (es: seq<GraphEdge>)
    requires n <= |b.keys|
  {
    if n == 0 then []
    else BucketPairs(b, reason, n - 1) + Pairs(Bucket(b, b.keys[n - 1]), reason, b.keys[n - 1])
  }

  /** All pairs of all buckets of one reason. */
  function CandidatesFor(rows: seq<Row>, reason: EdgeReason): (es: seq<GraphEdge>) {
    var b := BucketsFor(rows, reason);
    BucketPairs(b, reason, |b.keys|)
  }

  function Candidates(rows: seq<Row>): (es: seq<GraphEdge>) {
    CandidatesFor(rows, SharedFundingSource) + CandidatesFor(rows, SharedTxHash) + CandidatesFor(rows, RepeatedPattern)
  }

  /** The pair is ordered and both ends are in the edge's bucket. */
  ghost predicate Suspicious(rows: seq<Row>, e: GraphEdge) {
    StrLess(e.a, e.b) && Holds(rows, e.reason, e.detail, e.a) && Holds(rows, e.reason, e.detail, e.b)
  }

  ghost predicate PairOf(list: seq<string>, reason: EdgeReason, detail: string, e: GraphEdge) {
    e.reason == reason && e.detail == detail && e.a in list && e.b in list && StrLess(e.a, e.b)
  }

  lemma StarMember(x: string, rest: seq<string>, reason: EdgeReason, detail: string, e: GraphEdge)
    requires x !in rest
    ensures e in Star(x, rest, reason, detail) <==>
      e.reason == reason && e.detail == detail && StrLess(e.a, e.b) &&
        ((e.a == x && e.b in rest) || (e.b == x && e.a in rest))
  {
    var star := Star(x, rest, reason, detail);
    if e in star {
      var j :| 0 <= j < |star| && star[j] == e;
      StrLessTotal(x, rest[j]);
    }
    if e.reason == reason && e.detail == detail && StrLess(e.a, e.b) {
      StrLessTotal(e.a, e.b);
      if e.a == x && e.b in rest {
        var j :| 0 <= j < |rest| && rest[j] == e.b;
        assert star[j] == e;
      } else if e.b == x && e.a in rest {
        var j :| 0 <= j < |rest| && rest[j] == e.a;
        assert star[j] == e;
      }
    }
  }

  lemma {:induction false} PairsMember(list: seq<string>, reason: EdgeReason, detail: string, e: GraphEdge)
    requires Distinct(list)
    ensures e in Pairs(list, reason, detail) <==> PairOf(list, reason, detail, e)
  {
    if list != [] {
      assert list == [list[0]] + list[1..];
      assert list[0] !in list[1..];
      StarMember(list[0], list[1..], reason, detail, e);
      PairsMember(list[1..], reason, detail, e);
      StrLessTotal(list[0], list[0]);
    }
  }

  /** A bucket of n addresses gives n(n-1)/2 edges. */
  lemma {:induction false} PairsCount(list: seq<string>, reason: EdgeReason, detail: string)
    ensures 2 * |Pairs(list, reason, detail)| == |list| * (|list| - 1)
  {
    if list != [] {
      PairsCount(list[1..], reason, detail);
      var n := |list|;
      assert n * (n - 1) == (n - 1) * (n - 2) + 2 * (n - 1);
    }
  }

  lemma StarDistinct(x: string, rest: seq<string>, reason: EdgeReason, detail: string)
    requires x !in rest && Distinct(rest)
    ensures Distinct(Star(x, rest, reason, detail))
  {
  }

  lemma DistinctConcat<T>(a: seq<T>, b: seq<T>)
    requires Distinct(a) && Distinct(b) && forall x :: x in a ==> x !in b
    ensures Distinct(a + b)
  {
    forall i, j | 0 <= i < j < |a + b| ensures (a + b)[i] != (a + b)[j] {
      if i < |a| <= j {
        assert a[i] in a && b[j - |a|] in b;
      }
    }
  }

  lemma {:induction false} PairsDistinct(list: seq<string>, reason: EdgeReason, detail: string)
    requires Distinct(list)
    ensures Distinct(Pairs(list, reason, detail))
  {
    if list != [] {
      var rest := list[1..];
      assert list[0] !in rest;
      PairsDistinct(rest, reason, detail);
      StarDistinct(list[0], rest, reason, detail);
      var star, pairs := Star(list[0], rest, reason, detail), Pairs(rest, reason, detail);
      forall e | e in star ensures e !in pairs {
        StarMember(list[0], rest, reason, detail, e);
        PairsMember(rest, reason, detail, e);
      }
      DistinctConcat(star, pairs);
    }
  }

  /** Membership and distinctness for the pairs of the first n buckets. */
  lemma {:induction false} BucketPairsSpec(b: Buckets, reason: EdgeReason, n: nat)
    requires n <= |b.keys| && Distinct(b.keys) && forall k :: Distinct(Bucket(b, k))
    ensures Distinct(BucketPairs(b, reason, n))
    ensures forall e :: e in BucketPairs(b, reason, n) <==>
              e.detail in b.keys[..n] && PairOf(Bucket(b, e.detail), reason, e.detail, e)
  {
    if n > 0 {
      var k := b.keys[n - 1];
      BucketPairsSpec(b, reason, n - 1);
      PairsDistinct(Bucket(b, k), reason, k);
      assert b.keys[..n] == b.keys[..n - 1] + [k];
      assert k !in b.keys[..n - 1];
      forall e ensures e in Pairs(Bucket(b, k), reason, k) <==> PairOf(Bucket(b, k), reason, k, e) {
        PairsMember(Bucket(b, k), reason, k, e);
      }
      DistinctConcat(BucketPairs(b, reason, n - 1), Pairs(Bucket(b, k), reason, k));
    }
  }

  lemma CandidatesForSpec(rows: seq<Row>, reason: EdgeReason)
    ensures Distinct(CandidatesFor(rows, reason))
    ensures forall e :: e in CandidatesFor(rows, reason) <==> e.reason == reason && Suspicious(rows, e)
  {
    BucketsFaithful(rows, reason);
    var b := BucketsFor(rows, reason);
    BucketPairsSpec(b, reason, |b.keys|);
    assert b.keys[..|b.keys|] == b.keys;
    forall e ensures e in CandidatesFor(rows, reason) <==> e.reason == reason && Suspicious(rows, e) {
      assert e.reason == reason ==>
        (Holds(rows, reason, e.detail, e.a) <==> e.detail in b.members && e.a in b.members[e.detail]);
    }
  }

  /** The candidates are exactly the suspicious pairs, each once. */
  lemma CandidatesSpec(rows: seq<Row>)
    ensures Distinct(Candidates(rows))
    ensures forall e :: e in Candidates(rows) <==> Suspicious(rows, e)
  {
    CandidatesForSpec(rows, SharedFundingSource);
    CandidatesForSpec(rows, SharedTxHash);
    CandidatesForSpec(rows, RepeatedPattern);
    DistinctConcat(CandidatesFor(rows, SharedFundingSource), CandidatesFor(rows, SharedTxHash));
    DistinctConcat(CandidatesFor(rows, SharedFundingSource) + CandidatesFor(rows, SharedTxHash),
      CandidatesFor(rows, RepeatedPattern));
  }

  // ---------------------------------------------------------------------
  // Deduplication by key
  // ---------------------------------------------------------------------

  function Key(e: GraphEdge): (k: string) {
    ReasonName(e.reason) + "::" + e.detail + "::" + e.a + "::" + e.b
  }

  /** The edge map: its values in insertion order, and its keys. */
  datatype EdgeMap = EdgeMap(edges: seq<GraphEdge>, used: set<string>)

  const NO_EDGES := EdgeMap([], {})

  /** `addEdge`: the first edge with a key stays. */
  function AddEdge(m: EdgeMap, e: GraphEdge): (m': EdgeMap) {
    if Key(e) in m.used then m else EdgeMap(m.edges + [e], m.used + {Key(e)})
  }

  /** The edge map after offering `cands` in order. */
  function Kept(m: EdgeMap, cands: seq<GraphEdge>): (m': EdgeMap) {
    if cands == [] then m else AddEdge(Kept(m, cands[..|cands| - 1]), cands[|cands| - 1])
  }

  lemma {:induction false} KeptConcat(m: EdgeMap, a: seq<GraphEdge>, b: seq<GraphEdge>)
    ensures Kept(m, a + b) == Kept(Kept(m, a), b)
  {
    if b == [] {
      assert a + b == a;
    } else {
      assert (a + b)[..|a + b| - 1] == a + b[..|b| - 1];
      KeptConcat(m, a, b[..|b| - 1]);
    }
  }

  /** The edges kept of those offered: the first of every key. */
  function KeptEdges(cands: seq<GraphEdge>): (es: seq<GraphEdge>) { Fresh({}, cands, Key) }

  /** The map after offering edges, in terms of what is new. */
  lemma {:induction false} KeptIsFresh(m: EdgeMap, cands: seq<GraphEdge>)
    ensures Kept(m, cands).edges == m.edges + Fresh(m.used, cands, Key)
    ensures Kept(m, cands).used == m.used + Keys(cands, Key)
  {
    if cands != [] {
      var init, last := cands[..|cands| - 1], cands[|cands| - 1];
      KeptIsFresh(m, init);
      DropLast(cands);
      LastOffered(m, init, last);
    }
  }

  lemma LastOffered(m: EdgeMap, init: seq<GraphEdge>, last: GraphEdge)
    requires Kept(m, init).edges == m.edges + Fresh(m.used, init, Key)
    requires Kept(m, init).used == m.used + Keys(init, Key)
    ensures AddEdge(Kept(m, init), last).edges == m.edges + Fresh(m.used, init + [last], Key)
    ensures AddEdge(Kept(m, init), last).used == m.used + Keys(init + [last], Key)
  {
    FreshLast(m.used, init, last, Key);
    AddEdgeParts(Kept(m, init), last);
  }

  lemma AddEdgeParts(m: EdgeMap, e: GraphEdge)
    ensures AddEdge(m, e).edges == m.edges + if Key(e) in m.used then [] else [e]
    ensures AddEdge(m, e).used == m.used + {Key(e)}
  {
  }

  /** What is kept: only candidates, and one per key. */
  lemma KeptSpec(cands: seq<GraphEdge>)
    ensures KeysDiffer(KeptEdges(cands), Key)
    ensures forall e :: e in KeptEdges(cands) ==> e in cands
  {
    FreshSpec({}, cands, Key);
  }

  /** No edge is dropped exactly when no two candidates share a key. */
  lemma NothingDropped(cands: seq<GraphEdge>)
    ensures KeptEdges(cands) == cands <==> KeysDiffer(cands, Key)
  {
    FreshSpec({}, cands, Key);
    if KeysDiffer(cands, Key) {
      FreshAll({}, cands, Key);
    }
  }

  /** Addresses without a colon, as Stellar account ids are. */
  ghost predicate ColonFree(rows: seq<Row>) {
    forall r :: r in rows ==> Free(r.stellarAddress, ':')
  }

  /** With colon-free ends the key determines the edge, whatever the detail contains. */
  lemma KeyInjective(e: GraphEdge, f: GraphEdge)
    requires Free(e.a, ':') && Free(e.b, ':') && Free(f.a, ':') && Free(f.b, ':')
    requires Key(e) == Key(f)
    ensures e == f
  {
    var e1, f1 := ReasonName(e.reason) + "::" + e.detail, ReasonName(f.reason) + "::" + f.detail;
    DoubleCut(e1 + "::" + e.a, e.b, f1 + "::" + f.a, f.b);
    DoubleCut(e1, e.a, f1, f.a);
    ReasonFree(e.reason);
    ReasonFree(f.reason);
    assert e1 == ReasonName(e.reason) + [':'] + ([':'] + e.detail);
    assert f1 == ReasonName(f.reason) + [':'] + ([':'] + f.detail);
    FirstCut(ReasonName(e.reason), [':'] + e.detail, ReasonName(f.reason), [':'] + f.detail, ':');
    assert ([':'] + e.detail)[1..] == e.detail && ([':'] + f.detail)[1..] == f.detail;
  }

  lemma DoubleCut(r: string, a: string, s: string, b: string)
    requires Free(a, ':') && Free(b, ':') && r + "::" + a == s + "::" + b
    ensures a == b && r == s
  {
    assert r + "::" + a == (r + ":") + [':'] + a && s + "::" + b == (s + ":") + [':'] + b;
    LastCut(r + ":", a, s + ":", b, ':');
    assert (r + ":")[..|r|] == r && (s + ":")[..|s|] == s;
  }

  lemma ReasonFree(r: EdgeReason)
    ensures Free(ReasonName(r), ':')
    ensures forall q :: ReasonName(q) == ReasonName(r) ==> q == r
  {
  }

  lemma SuspiciousFree(rows: seq<Row>, e: GraphEdge)
    requires ColonFree(rows) && Suspicious(rows, e)
    ensures Free(e.a, ':') && Free(e.b, ':')
  {
  }

  // ---------------------------------------------------------------------
  // Score conservation
  // ---------------------------------------------------------------------

  function PairCount(list: seq<string>): (n: int) { |list| * (|list| - 1) / 2 }

  /** The sum of n(n-1)/2 over the buckets of a reason. */
  function PairTotal(b: Buckets): (n: int) { Sum(b.keys, (k: string) => PairCount(Bucket(b, k))) }

  lemma {:induction false} SumConstant(es: seq<GraphEdge>, w: int)
    requires forall e :: e in es ==> Weight(e) == w
    ensures Sum(es, Weight) == w * |es|
  {
    if es != [] {
      SumConstant(es[..|es| - 1], w);
    }
  }

  lemma {:induction false} BucketPairsCount(b: Buckets, reason: EdgeReason, n: nat)
    requires n <= |b.keys|
    ensures |BucketPairs(b, reason, n)| == Sum(b.keys[..n], (k: string) => PairCount(Bucket(b, k)))
  {
    if n > 0 {
      BucketPairsCount(b, reason, n - 1);
      PairsCount(Bucket(b, b.keys[n - 1]), reason, b.keys[n - 1]);
      assert b.keys[..n][..n - 1] == b.keys[..n - 1];
    }
  }

  lemma ReasonScore(rows: seq<Row>, reason: EdgeReason, w: int)
    requires w == Weight(GraphEdge("", "", reason, ""))
    ensures Sum(CandidatesFor(rows, reason), Weight) == w * PairTotal(BucketsFor(rows, reason))
  {
    var b := BucketsFor(rows, reason);
    CandidatesForSpec(rows, reason);
    SumConstant(CandidatesFor(rows, reason), w);
    BucketPairsCount(b, reason, |b.keys|);
    assert b.keys[..|b.keys|] == b.keys;
  }

  /** The candidate pairs weigh 5, 8 and 3 times the pair counts of the three kinds of bucket. */
  lemma CandidateScore(rows: seq<Row>)
    ensures Sum(Candidates(rows), Weight) ==
            5 * PairTotal(BucketsFor(rows, SharedFundingSource)) +
            8 * PairTotal(BucketsFor(rows, SharedTxHash)) +
            3 * PairTotal(BucketsFor(rows, RepeatedPattern))
  {
    ReasonScore(rows, SharedFundingSource, 5);
    ReasonScore(rows, SharedTxHash, 8);
    ReasonScore(rows, RepeatedPattern, 3);
    SumAppend(CandidatesFor(rows, SharedFundingSource), CandidatesFor(rows, SharedTxHash), Weight);
    SumAppend(CandidatesFor(rows, SharedFundingSource) + CandidatesFor(rows, SharedTxHash),
      CandidatesFor(rows, RepeatedPattern), Weight);
  }

  // ---------------------------------------------------------------------
  // buildGraph
  // ---------------------------------------------------------------------

  lemma NextBucket(start: EdgeMap, b: Buckets, reason: EdgeReason, n: nat)
    requires n < |b.keys|
    ensures Kept(start, BucketPairs(b, reason, n + 1)) ==
            Kept(Kept(start, BucketPairs(b, reason, n)), Pairs(Bucket(b, b.keys[n]), reason, b.keys[n]))
  {
    KeptConcat(start, BucketPairs(b, reason, n), Pairs(Bucket(b, b.keys[n]), reason, b.keys[n]));
  }

  /** A bucket with fewer than two addresses offers nothing. */
  lemma SmallBucket(start: EdgeMap, list: seq<string>, reason: EdgeReason, detail: string)
    requires |list| < 2
    ensures Kept(start, Pairs(list, reason, detail)) == start
  {
    assert list != [] ==> list[1..] == [];
    assert Pairs(list, reason, detail) == [];
  }

  /** Offers every pair of every bucket. */
  method AddBucketEdges(start: EdgeMap, b: Buckets, reason: EdgeReason) returns (edges: EdgeMap)
    requires forall k :: Distinct(Bucket(b, k))
    ensures edges == Kept(start, BucketPairs(b, reason, |b.keys|))
  {
    edges := start;
    var n := 0;
    while n < |b.keys|
      invariant n <= |b.keys| && edges == Kept(start, BucketPairs(b, reason, n))
    {
      edges := AddNextBucket(start, edges, b, reason, n);
      n := n + 1;
    }
  }

  method AddNextBucket(ghost start: EdgeMap, before: EdgeMap, b: Buckets, reason: EdgeReason,
                       n: nat) returns (edges: EdgeMap)
    requires n < |b.keys| && Distinct(Bucket(b, b.keys[n])) && before == Kept(start, BucketPairs(b, reason, n))
    ensures edges == Kept(start, BucketPairs(b, reason, n + 1))
  {
    NextBucket(start, b, reason, n);
    edges := AddBucket(before, Bucket(b, b.keys[n]), reason, b.keys[n]);
  }

  /** Buckets with fewer than two addresses are skipped. */
  method AddBucket(start: EdgeMap, list: seq<string>, reason: EdgeReason, detail: string) returns (edges: EdgeMap)
    requires Distinct(list)
    ensures edges == Kept(start, Pairs(list, reason, detail))
  {
    if |list| < 2 {
      SmallBucket(start, list, reason, detail);
      edges := start;
    } else {
      edges := AddPairs(start, list, reason, detail);
    }
  }

  lemma NextStar(start: EdgeMap, list: seq<string>, i: nat, reason: EdgeReason, detail: string)
    requires i < |list|
    ensures Kept(start, Pairs(list[i..], reason, detail)) ==
            Kept(Kept(start, Star(list[i], list[i + 1..], reason, detail)), Pairs(list[i + 1..], reason, detail))
  {
    assert list[i..][1..] == list[i + 1..];
    KeptConcat(start, Star(list[i], list[i + 1..], reason, detail), Pairs(list[i + 1..], reason, detail));
  }

  /** The loop over i. */
  method AddPairs(start: EdgeMap, list: seq<string>, reason: EdgeReason, detail: string) returns (edges: EdgeMap)
    requires Distinct(list)
    ensures edges == Kept(start, Pairs(list, reason, detail))
  {
    edges := start;
    assert list[0..] == list;
    var i := 0;
    while i < |list|
      invariant i <= |list|
      invariant Kept(edges, Pairs(list[i..], reason, detail)) == Kept(start, Pairs(list, reason, detail))
    {
      NextStar(edges, list, i, reason, detail);
      edges := AddStar(edges, list[i], list[i + 1..], reason, detail);
      i := i + 1;
    }
  }

  lemma NextEdge(start: EdgeMap, x: string, rest: seq<string>, j: nat, reason: EdgeReason, detail: string)
    requires j < |rest|
    ensures Kept(start, Star(x, rest[..j + 1], reason, detail)) ==
            AddEdge(Kept(start, Star(x, rest[..j], reason, detail)), Edge(x, rest[j], reason, detail))
  {
    var star := Star(x, rest[..j + 1], reason, detail);
    assert star[..j] == Star(x, rest[..j], reason, detail);
  }

  /** The inner loop over the addresses after `x`. */
  method AddStar(start: EdgeMap, x: string, rest: seq<string>, reason: EdgeReason,
                 detail: string) returns (edges: EdgeMap)
    requires x !in rest
    ensures edges == Kept(start, Star(x, rest, reason, detail))
  {
    edges := start;
    var j := 0;
    while j < |rest|
      invariant j <= |rest| && edges == Kept(start, Star(x, rest[..j], reason, detail))
    {
      NextEdge(start, x, rest, j, reason, detail);
      if x != rest[j] {
        edges := AddEdge(edges, Edge(x, rest[j], reason, detail));
      }
      j := j + 1;
    }
    assert rest[..j] == rest;
  }

  /** Reads the rows once, filling the three bucket maps. */
  method Bucketize(rows: seq<Row>) returns (nodes: seq<string>, byFunder: Buckets, byTxHash: Buckets,
                   byPattern: Buckets)
    ensures nodes == NodesOf(rows) && byFunder == BucketsFor(rows, SharedFundingSource)
    ensures byTxHash == BucketsFor(rows, SharedTxHash) && byPattern == BucketsFor(rows, RepeatedPattern)
  {
    nodes, byFunder, byTxHash, byPattern := [], NO_BUCKETS, NO_BUCKETS, NO_BUCKETS;
    for i := 0 to |rows|
      invariant nodes == NodesOf(rows[..i]) && byFunder == BucketsFor(rows[..i], SharedFundingSource)
      invariant byTxHash == BucketsFor(rows[..i], SharedTxHash) && byPattern == BucketsFor(rows[..i], RepeatedPattern)
    {
      var r := rows[i];
      assert rows[..i + 1][..i] == rows[..i];
      if r.stellarAddress != "" {
        if r.stellarAddress !in nodes {
          nodes := nodes + [r.stellarAddress];
        }
        byFunder := PutRow(byFunder, SharedFundingSource, r);
        byTxHash := PutRow(byTxHash, SharedTxHash, r);
        byPattern := PutRow(byPattern, RepeatedPattern, r);
      }
    }
    assert rows[..|rows|] == rows;
  }

  /** Offering the three kinds of pair in turn is offering all candidates. */
  lemma AllOffered(rows: seq<Row>)
    ensures
      var funder := Kept(NO_EDGES, CandidatesFor(rows, SharedFundingSource));
      var tx := Kept(funder, CandidatesFor(rows, SharedTxHash));
      Kept(tx, CandidatesFor(rows, RepeatedPattern)).edges == KeptEdges(Candidates(rows))
  {
    var funder, tx := CandidatesFor(rows, SharedFundingSource), CandidatesFor(rows, SharedTxHash);
    KeptConcat(NO_EDGES, funder, tx);
    KeptConcat(NO_EDGES, funder + tx, CandidatesFor(rows, RepeatedPattern));
    KeptIsFresh(NO_EDGES, Candidates(rows));
  }

  /** The graph: one node per non-empty address, one edge per key among the candidate pairs. */
  method BuildGraph(rows: seq<Row>) returns (g: AddressGraph)
    ensures g.nodes == NodesOf(rows) && g.edges == KeptEdges(Candidates(rows))
  {
    var nodes, byFunder, byTxHash, byPattern := Bucketize(rows);
    BucketsFaithful(rows, SharedFundingSource);
    BucketsFaithful(rows, SharedTxHash);
    BucketsFaithful(rows, RepeatedPattern);
    var edges := AddBucketEdges(NO_EDGES, byFunder, SharedFundingSource);
    edges := AddBucketEdges(edges, byTxHash, SharedTxHash);
    edges := AddBucketEdges(edges, byPattern, RepeatedPattern);
    AllOffered(rows);
    g := AddressGraph(nodes, edges.edges);
  }

  lemma {:induction false} NodesSpec(rows: seq<Row>)
    ensures Distinct(NodesOf(rows))
    ensures forall x :: x in NodesOf(rows) <==> x != "" && exists r :: r in rows && r.stellarAddress == x
  {
    if rows != [] {
      NodesSpec(rows[..|rows| - 1]);
      assert rows == rows[..|rows| - 1] + [rows[|rows| - 1]];
    }
  }

  lemma SharedKey(es: seq<GraphEdge>, e: GraphEdge, f: GraphEdge)
    requires e in es && f in es && e != f && Key(e) == Key(f)
    ensures !KeysDiffer(es, Key)
  {
    var i :| 0 <= i < |es| && es[i] == e;
    var j :| 0 <= j < |es| && es[j] == f;
    assert Key(es[i]) == Key(es[j]);
  }
}
