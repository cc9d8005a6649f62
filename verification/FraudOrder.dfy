/** How the order of the rows can change the clusters, and exactly when it does. */
module FraudOrder {
  import opened Wrappers
  import opened Sequences
  import opened Strings
  import opened Dedup
  import opened FraudGraph
  import opened UnionFind
  import opened FraudClusters
  import opened FraudTheorems

  // ---------------------------------------------------------------------
  // The pair of the first two rows is kept
  // ---------------------------------------------------------------------

  /** The first row's bucket comes first. */
  lemma {:induction false} FirstBucket(rows: seq<Row>, reason: EdgeReason)
    requires rows != [] && rows[0].stellarAddress != "" && Detail(reason, rows[0]).Some?
    ensures var b := BucketsFor(rows, reason); b.keys != [] && b.keys[0] == Detail(reason, rows[0]).value
  {
    if |rows| == 1 {
      assert rows[..0] == [];
    } else {
      FirstBucket(rows[..|rows| - 1], reason);
    }
  }

  lemma {:induction false} FirstBucketPairs(b: Buckets, reason: EdgeReason, n: nat)
    requires 1 <= n <= |b.keys|
    ensures Pairs(Bucket(b, b.keys[0]), reason, b.keys[0]) <= BucketPairs(b, reason, n)
  {
    if n == 1 {
      assert BucketPairs(b, reason, 0) == [];
    } else {
      FirstBucketPairs(b, reason, n - 1);
    }
  }

  /** Two rows in front that place two addresses in one bucket make those its first two addresses. */
  lemma {:induction false} FirstTwo(rows: seq<Row>, reason: EdgeReason, k: string, x: string, y: string)
    requires |rows| >= 2 && Places(rows[0], reason, k, x) && Places(rows[1], reason, k, y) && x != y
    ensures [x, y] <= Bucket(BucketsFor(rows, reason), k)
  {
    if |rows| == 2 {
      assert rows[..1][..0] == [];
      assert BucketsFor(rows[..1], reason) == Put(NO_BUCKETS, k, x);
    } else {
      FirstTwo(rows[..|rows| - 1], reason, k, x, y);
      PutKeepsPrefix(BucketsFor(rows[..|rows| - 1], reason), reason, rows[|rows| - 1], k, [x, y]);
    }
  }

  lemma PutKeepsPrefix(b: Buckets, reason: EdgeReason, r: Row, k: string, prefix: seq<string>)
    requires prefix <= Bucket(b, k)
    ensures prefix <= Bucket(PutRow(b, reason, r), k)
  {
  }

  lemma FirstPair(list: seq<string>, reason: EdgeReason, k: string)
    requires |list| >= 2
    ensures
      var pairs := Pairs(list, reason, k);
      pairs != [] && pairs[0] == Edge(list[0], list[1], reason, k)
  {
    assert Star(list[0], list[1..], reason, k) <= Pairs(list, reason, k);
    assert list[1..][0] == list[1];
  }

  /** The pair of the first bucket's first two addresses is offered before all others of its reason. */
  lemma FirstOfReason(rows: seq<Row>, e: GraphEdge)
    requires |rows| >= 2 && StrLess(e.a, e.b)
    requires Places(rows[0], e.reason, e.detail, e.a) && Places(rows[1], e.reason, e.detail, e.b)
    ensures CandidatesFor(rows, e.reason) != [] && CandidatesFor(rows, e.reason)[0] == e
  {
    var b := BucketsFor(rows, e.reason);
    StrLessTotal(e.a, e.b);
    FirstTwo(rows, e.reason, e.detail, e.a, e.b);
    FirstBucket(rows, e.reason);
    FirstBucketPairs(b, e.reason, |b.keys|);
    FirstPair(Bucket(b, e.detail), e.reason, e.detail);
  }

  lemma KeyFixesReason(e: GraphEdge, f: GraphEdge)
    requires Key(e) == Key(f)
    ensures e.reason == f.reason
  {
    KeyFixesWeight(e);
    KeyFixesWeight(f);
  }

  /** An edge preceded only by edges of other reasons is the first of its key. */
  lemma FirstAfterOthers(before: seq<GraphEdge>, es: seq<GraphEdge>, rest: seq<GraphEdge>)
    requires es != [] && forall f :: f in before ==> f.reason != es[0].reason
    ensures es[0] in KeptEdges(before + es + rest)
  {
    var all := before + es + rest;
    assert all[|before|] == es[0];
    forall m | 0 <= m < |before| ensures Key(all[m]) != Key(all[|before|]) {
      assert all[m] == before[m] && before[m] in before;
      if Key(all[m]) == Key(es[0]) {
        KeyFixesReason(all[m], es[0]);
      }
    }
    FirstIsKept(all, |before|, Key);
  }

  /** One of three lists, between the others. */
  lemma Around(funder: seq<GraphEdge>, tx: seq<GraphEdge>, pattern: seq<GraphEdge>, reason: EdgeReason)
    returns (before: seq<GraphEdge>, mine: seq<GraphEdge>, rest: seq<GraphEdge>)
    requires forall f :: f in funder ==> f.reason == SharedFundingSource
    requires forall f :: f in tx ==> f.reason == SharedTxHash
    ensures funder + tx + pattern == before + mine + rest
    ensures mine ==
            match reason case SharedFundingSource => funder case SharedTxHash => tx case RepeatedPattern => pattern
    ensures forall f :: f in before ==> f.reason != reason
  {
    match reason
    case SharedFundingSource => before, mine, rest := [], funder, tx + pattern;
    case SharedTxHash => before, mine, rest := funder, tx, pattern;
    case RepeatedPattern => before, mine, rest := funder + tx, pattern, [];
  }

  /** The candidates of one reason, between those of other reasons. */
  lemma CandidatesAround(rows: seq<Row>, reason: EdgeReason) returns (before: seq<GraphEdge>, rest: seq<GraphEdge>)
    ensures Candidates(rows) == before + CandidatesFor(rows, reason) + rest
    ensures forall f :: f in before ==> f.reason != reason
  {
    var funder, tx := CandidatesFor(rows, SharedFundingSource), CandidatesFor(rows, SharedTxHash);
    CandidatesForSpec(rows, SharedFundingSource);
    CandidatesForSpec(rows, SharedTxHash);
    var mine;
    before, mine, rest := Around(funder, tx, CandidatesFor(rows, RepeatedPattern), reason);
  }

  /** So it is kept. */
  lemma FrontPairKept(rows: seq<Row>, e: GraphEdge)
    requires |rows| >= 2 && StrLess(e.a, e.b)
    requires Places(rows[0], e.reason, e.detail, e.a) && Places(rows[1], e.reason, e.detail, e.b)
    ensures e in KeptEdges(Candidates(rows))
  {
    FirstOfReason(rows, e);
    var before, rest := CandidatesAround(rows, e.reason);
    FirstAfterOthers(before, CandidatesFor(rows, e.reason), rest);
  }

  // ---------------------------------------------------------------------
  // Every collision makes some order change the edges
  // ---------------------------------------------------------------------

  ghost predicate Reordered(rows: seq<Row>, rows': seq<Row>) { multiset(rows) == multiset(rows') }

  lemma ReorderedSameRows(rows: seq<Row>, rows': seq<Row>)
    requires Reordered(rows, rows')
    ensures SameRows(rows, rows')
  {
    forall r ensures r in rows <==> r in rows' {
      assert r in rows <==> r in multiset(rows);
      assert r in rows' <==> r in multiset(rows');
    }
  }

  lemma BringFront(s: seq<Row>, r: Row) returns (rest: seq<Row>)
    requires r in s
    ensures multiset([r] + rest) == multiset(s)
    ensures forall x :: x in s && x != r ==> x in rest
  {
    var i :| 0 <= i < |s| && s[i] == r;
    rest := s[..i] + s[i + 1..];
    SplitIndex(s, i);
    RestMembers(s, i);
  }

  lemma RestMembers(s: seq<Row>, i: nat)
    requires i < |s|
    ensures forall x :: x in s && x != s[i] ==> x in s[..i] + s[i + 1..]
  {
    var rest := s[..i] + s[i + 1..];
    forall x | x in s && x != s[i] ensures x in rest {
      var j :| 0 <= j < |s| && s[j] == x;
      assert rest[if j < i then j else j - 1] == x;
    }
  }

  /** The rows with the two that make the pair moved to the front. */
  lemma PairInFront(rows: seq<Row>, e: GraphEdge) returns (rows': seq<Row>)
    requires Suspicious(rows, e)
    ensures Reordered(rows, rows') && e in KeptEdges(Candidates(rows'))
  {
    StrLessTotal(e.a, e.b);
    var r :| r in rows && Places(r, e.reason, e.detail, e.a);
    var q :| q in rows && Places(q, e.reason, e.detail, e.b);
    var rest := BringFront(rows, r);
    var rest' := BringFront(rest, q);
    rows' := [r] + ([q] + rest');
    assert multiset(rows') == multiset([r]) + multiset([q] + rest') == multiset([r] + rest);
    assert rows'[0] == r && rows'[1] == q;
    FrontPairKept(rows', e);
  }

  /** Of two colliding pairs one is not kept. */
  lemma DroppedPair(rows: seq<Row>) returns (e: GraphEdge)
    requires !NoCollision(rows)
    ensures Suspicious(rows, e) && e !in KeptEdges(Candidates(rows))
  {
    var x, y :| Suspicious(rows, x) && Suspicious(rows, y) && Key(x) == Key(y) && x != y;
    KeptSpec(Candidates(rows));
    e := x;
    if x in KeptEdges(Candidates(rows)) {
      e := y;
      if y in KeptEdges(Candidates(rows)) {
        SharedKey(KeptEdges(Candidates(rows)), x, y);
      }
    }
  }

  ghost predicate SameEdgeBag(rows: seq<Row>, rows': seq<Row>) {
    multiset(GraphOf(rows).edges) == multiset(GraphOf(rows').edges)
  }

  /** The graph has the same edges for every order of the rows, repetitions or not, if and only if no keys collide. */
  lemma EdgesOrderFreeExactly(rows: seq<Row>)
    ensures NoCollision(rows) <==> forall rows' :: SameRows(rows, rows') ==> SameEdgeBag(rows, rows')
    ensures NoCollision(rows) <==> forall rows' :: Reordered(rows, rows') ==> SameEdgeBag(rows, rows')
  {
    if NoCollision(rows) {
      forall rows' | SameRows(rows, rows') ensures SameEdgeBag(rows, rows') {
        SameEdges(rows, rows');
      }
      forall rows' | Reordered(rows, rows') ensures SameEdgeBag(rows, rows') {
        ReorderedSameRows(rows, rows');
      }
    } else {
      var e := DroppedPair(rows);
      var rows' := PairInFront(rows, e);
      ReorderedSameRows(rows, rows');
      assert e in multiset(GraphOf(rows').edges) && e !in multiset(GraphOf(rows).edges);
    }
  }

  // ---------------------------------------------------------------------
  // And the clusters
  // ---------------------------------------------------------------------

  ghost predicate HasMatch(out: seq<Cluster>, c: Cluster) { exists d :: d in out && SameCluster(c, d) }

  /** Each cluster of either list has a counterpart in the other. */
  ghost predicate ClustersMatch(out: seq<Cluster>, out': seq<Cluster>) {
    (forall c :: c in out ==> HasMatch(out', c)) && (forall c :: c in out' ==> HasMatch(out, c))
  }

  lemma NoCollisionMatches(rows: seq<Row>, rows': seq<Row>, digest: string -> string, out: seq<Cluster>,
                           out': seq<Cluster>)
    requires SameRows(rows, rows') && NoCollision(rows)
    requires IsClustering(GraphOf(rows), digest, out) && IsClustering(GraphOf(rows'), digest, out')
    ensures ClustersMatch(out, out')
  {
    SameSuspicion(rows, rows');
    forall c | c in out ensures HasMatch(out', c) {
      var d := RowOrderIrrelevant(rows, rows', digest, out, out', c);
    }
    forall c | c in out' ensures HasMatch(out, c) {
      var d := RowOrderIrrelevant(rows', rows, digest, out', out, c);
    }
  }

  /** A cluster with an edge that the other graph lacks has no counterpart there. */
  lemma NoCounterpart(g: AddressGraph, digest: string -> string, out: seq<Cluster>, c: Cluster, e: GraphEdge)
    requires IsClustering(g, digest, out) && e !in g.edges && e in c.edges
    ensures !HasMatch(out, c)
  {
    if d :| d in out && SameCluster(c, d) {
      assert ClusterOk(g, digest, d);
      assert e in multiset(c.edges);
      assert e in multiset(d.edges);
      FilterMember(g.edges, StartsIn(d.members), e);
    }
  }

  /** With colliding keys some order of the same rows gives clusters that do not match, for all clusterings of both. */
  lemma CollisionChangesClusters(rows: seq<Row>) returns (rows': seq<Row>)
    requires !NoCollision(rows)
    ensures Reordered(rows, rows')
    ensures forall digest: string -> string, out, out' ::
              IsClustering(GraphOf(rows), digest, out) && IsClustering(GraphOf(rows'), digest, out') ==>
              !ClustersMatch(out, out')
  {
    var e := DroppedPair(rows);
    rows' := PairInFront(rows, e);
    forall digest: string -> string, out, out' |
      IsClustering(GraphOf(rows), digest, out) && IsClustering(GraphOf(rows'), digest, out')
      ensures !ClustersMatch(out, out')
    {
      Mismatch(rows, rows', digest, out, out', e);
    }
  }

  lemma Mismatch(rows: seq<Row>, rows': seq<Row>, digest: string -> string, out: seq<Cluster>, out': seq<Cluster>,
                 e: GraphEdge)
    requires IsClustering(GraphOf(rows), digest, out) && IsClustering(GraphOf(rows'), digest, out')
    requires e !in KeptEdges(Candidates(rows)) && e in KeptEdges(Candidates(rows'))
    ensures !ClustersMatch(out, out')
  {
    KeptSuspicious(rows', e);
    EdgeInOneCluster(GraphOf(rows'), digest, out', e);
    var c :| c in out' && e.a in c.members;
    NoCounterpart(GraphOf(rows), digest, out, c, e);
  }

  /** Whatever clusters the graphs, as `Clusterize` does: row order never matters if and only if no keys collide. */
  lemma RowOrderExactly(rows: seq<Row>, digest: string -> string, clusters: seq<Row> -> seq<Cluster>)
    requires forall rs :: IsClustering(GraphOf(rs), digest, clusters(rs))
    ensures NoCollision(rows) <==>
            forall rows' :: Reordered(rows, rows') ==> ClustersMatch(clusters(rows), clusters(rows'))
  {
    if NoCollision(rows) {
      forall rows' | Reordered(rows, rows') ensures ClustersMatch(clusters(rows), clusters(rows')) {
        ReorderedSameRows(rows, rows');
        NoCollisionMatches(rows, rows', digest, clusters(rows), clusters(rows'));
      }
    } else {
      var rows' := CollisionChangesClusters(rows);
      assert !ClustersMatch(clusters(rows), clusters(rows'));
    }
  }

  // ---------------------------------------------------------------------
  // Four rows
  // ---------------------------------------------------------------------

  /** The same four rows, the other bucket first. */
  function ReorderedRows(): (rows: seq<Row>) {
    [FundedRow("a::b", "f", "3"), FundedRow("c", "f", "4"), FundedRow("b", "f::a", "1"), FundedRow("c", "f::a", "2")]
  }

  lemma ReorderedSame()
    ensures SameRows(CollidingRows(), ReorderedRows())
  {
  }

  /** Of the two colliding pairs, only the one whose funder comes first is kept. */
  lemma OnlyFirstKept(rows: seq<Row>, kept: GraphEdge)
    requires SameRows(rows, CollidingRows())
    requires kept == CollidingEdge("b", "f::a") || kept == CollidingEdge("a::b", "f")
    requires |rows| >= 2 && Places(rows[0], SharedFundingSource, kept.detail, kept.a)
    requires Places(rows[1], SharedFundingSource, kept.detail, kept.b)
    ensures forall e :: e in KeptEdges(Candidates(rows)) <==> e == kept
  {
    SameSuspicion(rows, CollidingRows());
    CollidingSuspicious();
    FrontPairKept(rows, kept);
    forall f | f in KeptEdges(Candidates(rows)) ensures f == kept {
      KeptSuspicious(rows, f);
      CollidingPairs(f);
      CollidingKeys();
      SameKeySame(Candidates(rows), f, kept);
    }
  }

  lemma SameKeySame(cands: seq<GraphEdge>, e: GraphEdge, f: GraphEdge)
    requires e in KeptEdges(cands) && f in KeptEdges(cands) && Key(e) == Key(f)
    ensures e == f
  {
    KeptSpec(cands);
    if e != f {
      SharedKey(KeptEdges(cands), e, f);
    }
  }

  lemma CollidingSuspicious()
    ensures Suspicious(CollidingRows(), CollidingEdge("a::b", "f")) &&
            Suspicious(CollidingRows(), CollidingEdge("b", "f::a"))
  {
    SuspiciousPair(CollidingRows(), 2, 3, CollidingEdge("a::b", "f"));
    SuspiciousPair(CollidingRows(), 0, 1, CollidingEdge("b", "f::a"));
  }

  /** An address that is an end of the only kept edge is in a cluster, and one that is not is in none. */
  lemma OneEdgeCovers(rows: seq<Row>, digest: string -> string, out: seq<Cluster>, e: GraphEdge, x: string)
    requires IsClustering(GraphOf(rows), digest, out) && forall f :: f in KeptEdges(Candidates(rows)) <==> f == e
    ensures Covered(out, e.a)
    ensures x != e.a && x != e.b ==> !Covered(out, x)
  {
    KeptSuspicious(rows, e);
    EdgeInOneCluster(GraphOf(rows), digest, out, e);
    if x != e.a && x != e.b && Covered(out, x) {
      var c :| c in out && x in c.members;
      MemberHasEdge(GraphOf(rows), digest, c, x);
    }
  }

  /** Every member of a cluster is an end of some edge. */
  lemma MemberHasEdge(g: AddressGraph, digest: string -> string, c: Cluster, x: string)
    requires ClusterOk(g, digest, c) && x in c.members
    ensures exists e :: e in g.edges && (e.a == x || e.b == x)
  {
    StrictDistinct(c.members);
    var y := if c.members[0] == x then c.members[1] else c.members[0];
    assert y in c.members && Linked(g, x, y);
    var path :| IsPath(EdgePairs(g.edges), path, x, y);
    assert Adjacent(EdgePairs(g.edges), path[0], path[0 + 1]);
  }

  /** With colliding keys it can: the same four rows in another order cluster a different address. */
  lemma RowOrderMatters(digest: string -> string, out: seq<Cluster>, out': seq<Cluster>)
    requires IsClustering(GraphOf(CollidingRows()), digest, out) && IsClustering(GraphOf(ReorderedRows()), digest, out')
    ensures SameRows(CollidingRows(), ReorderedRows())
    ensures Covered(out, "b") && !Covered(out', "b")
  {
    ReorderedSame();
    OnlyFirstKept(CollidingRows(), CollidingEdge("b", "f::a"));
    OnlyFirstKept(ReorderedRows(), CollidingEdge("a::b", "f"));
    OneEdgeCovers(CollidingRows(), digest, out, CollidingEdge("b", "f::a"), "b");
    OneEdgeCovers(ReorderedRows(), digest, out', CollidingEdge("a::b", "f"), "b");
  }
}
