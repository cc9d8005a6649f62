/** What the fraud clusters of a list of rows are, said without mentioning the graph. */
module FraudTheorems {
  import opened Wrappers
  import opened Sequences
  import opened Strings
  import opened Dedup
  import opened FraudGraph
  import opened UnionFind
  import opened FraudClusters

  ghost predicate Address(rows: seq<Row>, x: string) { x in NodesOf(rows) }

  /** Both addresses are placed in one bucket by some rows. */
  ghost predicate Shares(rows: seq<Row>, x: string, y: string) {
    exists reason, k :: Holds(rows, reason, k, x) && Holds(rows, reason, k, y)
  }

  ghost function SharePairs(rows: seq<Row>): (s: set<(string, string)>) {
    set x, y | x in NodesOf(rows) && y in NodesOf(rows) && Shares(rows, x, y) :: (x, y)
  }

  /** Linked by a chain of shared buckets. */
  ghost predicate SameClass(rows: seq<Row>, x: string, y: string) { Connected(SharePairs(rows), x, y) }

  /** A whole class, by the given pairs, of at least two addresses. */
  ghost predicate IsClass(rows: seq<Row>, pairs: set<(string, string)>, members: seq<string>) {
    && |members| >= 2 && Ordered(members, StrLess)
    && (forall x :: x in members ==> Address(rows, x))
    && (forall x, y :: x in members && Address(rows, y) ==> (y in members <==> Connected(pairs, x, y)))
  }

  /** The clusters are the classes of size at least two, each listed once. */
  ghost predicate AreClasses(rows: seq<Row>, pairs: set<(string, string)>, out: seq<Cluster>) {
    && (forall c :: c in out ==> IsClass(rows, pairs, c.members))
    && (forall i, j, x :: 0 <= i < j < |out| && x in out[i].members ==> x !in out[j].members)
    && (forall x, y :: Address(rows, x) && Address(rows, y) && x != y && Connected(pairs, x, y) ==> Covered(out, x))
  }

  ghost predicate AreTheClasses(rows: seq<Row>, out: seq<Cluster>) { AreClasses(rows, SharePairs(rows), out) }

  /** What `BuildGraph` returns. */
  ghost function GraphOf(rows: seq<Row>): (g: AddressGraph) {
    AddressGraph(NodesOf(rows), KeptEdges(Candidates(rows)))
  }

  // ---------------------------------------------------------------------
  // Classes
  // ---------------------------------------------------------------------

  lemma HoldsAddress(rows: seq<Row>, reason: EdgeReason, k: string, x: string)
    requires Holds(rows, reason, k, x)
    ensures Address(rows, x)
  {
    NodesSpec(rows);
  }

  /** The vertices of the graph are the non-empty addresses of the rows. */
  lemma VerticesAreAddresses(rows: seq<Row>, x: string)
    ensures Vertex(GraphOf(rows), x) <==> Address(rows, x)
  {
    var es := KeptEdges(Candidates(rows));
    ElementsSpec(NodesOf(rows), x);
    EndsSpec(es, x);
    if x in Ends(es) {
      var e :| e in es && (e.a == x || e.b == x);
      KeptSuspicious(rows, e);
      HoldsAddress(rows, e.reason, e.detail, x);
    }
  }

  lemma KeptSuspicious(rows: seq<Row>, e: GraphEdge)
    requires e in KeptEdges(Candidates(rows))
    ensures Suspicious(rows, e) && e.a != e.b
  {
    KeptSpec(Candidates(rows));
    CandidatesSpec(rows);
    StrLessTotal(e.a, e.b);
  }

  /** A kept edge joins two addresses that share its bucket. */
  lemma LinkedShares(rows: seq<Row>, x: string, y: string)
    requires Linked(GraphOf(rows), x, y)
    ensures SameClass(rows, x, y)
  {
    var pairs := EdgePairs(KeptEdges(Candidates(rows)));
    forall p | p in pairs ensures p in SharePairs(rows) {
      var e :| e in KeptEdges(Candidates(rows)) && p == (e.a, e.b);
      KeptSuspicious(rows, e);
      HoldsAddress(rows, e.reason, e.detail, e.a);
      HoldsAddress(rows, e.reason, e.detail, e.b);
    }
    ConnectedMono(pairs, SharePairs(rows), x, y);
  }

  /** Every candidate pair is still linked by the kept edges. */
  ghost predicate NoLinkLost(rows: seq<Row>) {
    forall e :: e in Candidates(rows) ==> Linked(GraphOf(rows), e.a, e.b)
  }

  lemma ShareLinked(rows: seq<Row>, x: string, y: string)
    requires NoLinkLost(rows) && Shares(rows, x, y)
    ensures Linked(GraphOf(rows), x, y)
  {
    var reason, k :| Holds(rows, reason, k, x) && Holds(rows, reason, k, y);
    var pairs := EdgePairs(KeptEdges(Candidates(rows)));
    var e := Edge(x, y, reason, k);
    StrLessTotal(x, y);
    CandidatesSpec(rows);
    if x == y {
      ConnectedRefl(pairs, x);
    } else {
      assert Suspicious(rows, e);
      assert Linked(GraphOf(rows), e.a, e.b);
      if e.a != x {
        ConnectedSym(pairs, y, x);
      }
    }
  }

  /** A chain of pairs each linked by other pairs is a chain of those. */
  lemma {:induction false} PathLinked(pairs: set<(string, string)>, links: set<(string, string)>, path: seq<string>,
                                      x: string, y: string)
    requires forall a, b :: (a, b) in pairs ==> Connected(links, a, b)
    requires IsPath(pairs, path, x, y)
    ensures Connected(links, x, y)
    decreases |path|
  {
    if |path| == 1 {
      ConnectedRefl(links, x);
    } else {
      assert Adjacent(pairs, path[0], path[0 + 1]);
      TailPath(pairs, path, x, y);
      PathLinked(pairs, links, path[1..], path[1], y);
      if (path[1], x) in pairs {
        ConnectedSym(links, path[1], x);
      }
      ConnectedTrans(links, x, path[1], y);
    }
  }

  lemma TailPath(pairs: set<(string, string)>, path: seq<string>, x: string, y: string)
    requires IsPath(pairs, path, x, y) && |path| > 1
    ensures IsPath(pairs, path[1..], path[1], y)
  {
    forall i | 0 <= i < |path[1..]| - 1 ensures Adjacent(pairs, path[1..][i], path[1..][i + 1]) {
      assert Adjacent(pairs, path[i + 1], path[i + 1 + 1]);
    }
  }

  lemma LinkedIsSameClass(rows: seq<Row>, x: string, y: string)
    requires NoLinkLost(rows)
    ensures Linked(GraphOf(rows), x, y) <==> SameClass(rows, x, y)
  {
    if Linked(GraphOf(rows), x, y) {
      LinkedShares(rows, x, y);
    }
    if SameClass(rows, x, y) {
      var path :| IsPath(SharePairs(rows), path, x, y);
      var links := EdgePairs(KeptEdges(Candidates(rows)));
      forall a, b | (a, b) in SharePairs(rows) ensures Connected(links, a, b) {
        ShareLinked(rows, a, b);
        assert Linked(GraphOf(rows), a, b);
      }
      PathLinked(SharePairs(rows), links, path, x, y);
    }
  }

  /** The pairs offered first under their key. */
  ghost function FirstPairs(es: seq<GraphEdge>): (s: set<(string, string)>) {
    set i | 0 <= i < |es| && FirstOfKey(es, i, Key) :: (es[i].a, es[i].b)
  }

  /** Every pair offered under a key already used is linked by the pairs offered first under theirs. */
  ghost predicate RepeatsLinked(rows: seq<Row>) {
    var es := Candidates(rows);
    forall i :: 0 <= i < |es| && !FirstOfKey(es, i, Key) ==> Connected(FirstPairs(es), es[i].a, es[i].b)
  }

  /** The kept edges are the pairs offered first. */
  lemma KeptAreFirst(es: seq<GraphEdge>)
    ensures EdgePairs(KeptEdges(es)) == FirstPairs(es)
  {
    forall p | p in EdgePairs(KeptEdges(es)) ensures p in FirstPairs(es) {
      var e :| e in KeptEdges(es) && p == (e.a, e.b);
      var i := KeptIsFirst(es, e, Key);
    }
    forall p | p in FirstPairs(es) ensures p in EdgePairs(KeptEdges(es)) {
      var i :| 0 <= i < |es| && FirstOfKey(es, i, Key) && p == (es[i].a, es[i].b);
      FirstIsKept(es, i, Key);
    }
  }

  lemma FirstLinked(es: seq<GraphEdge>, i: nat)
    requires i < |es| && FirstOfKey(es, i, Key)
    ensures Connected(FirstPairs(es), es[i].a, es[i].b)
  {
    assert (es[i].a, es[i].b) in FirstPairs(es);
    ConnectedPair(FirstPairs(es), es[i].a, es[i].b);
  }

  lemma NoLinkLostExactly(rows: seq<Row>)
    ensures NoLinkLost(rows) <==> RepeatsLinked(rows)
  {
    var es := Candidates(rows);
    KeptAreFirst(es);
    if RepeatsLinked(rows) {
      forall e | e in es ensures Linked(GraphOf(rows), e.a, e.b) {
        var i :| 0 <= i < |es| && es[i] == e;
        if FirstOfKey(es, i, Key) {
          FirstLinked(es, i);
        }
      }
    }
    if NoLinkLost(rows) {
      forall i | 0 <= i < |es| ensures Connected(FirstPairs(es), es[i].a, es[i].b) {
        assert Linked(GraphOf(rows), es[i].a, es[i].b);
      }
    }
  }

  /**
   * The clusters are exactly the classes of shared buckets if and only if every pair offered under a used key
   * is linked by first-offered pairs.
   */
  lemma ClustersAreClasses(rows: seq<Row>, digest: string -> string, out: seq<Cluster>)
    requires IsClustering(GraphOf(rows), digest, out)
    ensures AreTheClasses(rows, out) <==> RepeatsLinked(rows)
  {
    NoLinkLostExactly(rows);
    if NoLinkLost(rows) {
      CompleteGraphClasses(rows, digest, out);
    }
    if AreTheClasses(rows, out) {
      forall e | e in Candidates(rows) ensures Linked(GraphOf(rows), e.a, e.b) {
        ClassesLink(rows, digest, out, e);
      }
    }
  }

  lemma CompleteGraphClasses(rows: seq<Row>, digest: string -> string, out: seq<Cluster>)
    requires IsClustering(GraphOf(rows), digest, out) && NoLinkLost(rows)
    ensures AreTheClasses(rows, out)
  {
    forall x ensures Vertex(GraphOf(rows), x) <==> Address(rows, x) {
      VerticesAreAddresses(rows, x);
    }
    forall x, y ensures Linked(GraphOf(rows), x, y) <==> Connected(SharePairs(rows), x, y) {
      LinkedIsSameClass(rows, x, y);
    }
    ClusteringClasses(rows, SharePairs(rows), GraphOf(rows), digest, out);
  }

  /** The clusters of a graph whose links are these pairs. */
  lemma ClusteringClasses(rows: seq<Row>, pairs: set<(string, string)>, g: AddressGraph, digest: string -> string,
                          out: seq<Cluster>)
    requires IsClustering(g, digest, out) && (forall x :: Vertex(g, x) <==> Address(rows, x))
    requires forall x, y :: Linked(g, x, y) <==> Connected(pairs, x, y)
    ensures AreClasses(rows, pairs, out)
  {
    forall c | c in out ensures IsClass(rows, pairs, c.members) {
      assert ClusterOk(g, digest, c);
      forall x, y | x in c.members && Address(rows, y) ensures y in c.members <==> Connected(pairs, x, y) {
        assert Vertex(g, y) && (Linked(g, x, y) <==> Connected(pairs, x, y));
      }
    }
  }

  lemma ClassesLink(rows: seq<Row>, digest: string -> string, out: seq<Cluster>, e: GraphEdge)
    requires IsClustering(GraphOf(rows), digest, out) && AreTheClasses(rows, out) && e in Candidates(rows)
    ensures Linked(GraphOf(rows), e.a, e.b)
  {
    CandidatesSpec(rows);
    StrLessTotal(e.a, e.b);
    HoldsAddress(rows, e.reason, e.detail, e.a);
    HoldsAddress(rows, e.reason, e.detail, e.b);
    assert (e.a, e.b) in SharePairs(rows);
    ConnectedPair(SharePairs(rows), e.a, e.b);
    assert SameClass(rows, e.a, e.b);
    VerticesAreAddresses(rows, e.b);
    var c :| c in out && e.a in c.members;
    assert IsClass(rows, SharePairs(rows), c.members) && ClusterOk(GraphOf(rows), digest, c);
  }

  // ---------------------------------------------------------------------
  // Colliding edge keys
  // ---------------------------------------------------------------------

  /** No two suspicious pairs of these rows have one edge key. */
  ghost predicate NoCollision(rows: seq<Row>) {
    forall e, f :: Suspicious(rows, e) && Suspicious(rows, f) && Key(e) == Key(f) ==> e == f
  }

  lemma ColonFreeNoCollision(rows: seq<Row>)
    requires ColonFree(rows)
    ensures NoCollision(rows)
  {
    forall e, f | Suspicious(rows, e) && Suspicious(rows, f) && Key(e) == Key(f) ensures e == f {
      SuspiciousFree(rows, e);
      SuspiciousFree(rows, f);
      KeyInjective(e, f);
    }
  }

  /** No suspicious pair is dropped exactly when no two collide. */
  lemma EdgesComplete(rows: seq<Row>)
    ensures KeptEdges(Candidates(rows)) == Candidates(rows) <==> NoCollision(rows)
  {
    var es := Candidates(rows);
    CandidatesSpec(rows);
    NothingDropped(es);
    if NoCollision(rows) {
      forall i, j | 0 <= i < j < |es| ensures Key(es[i]) != Key(es[j]) {
        assert es[i] in es && es[j] in es && es[i] != es[j];
      }
    }
    if !NoCollision(rows) {
      var e, f :| Suspicious(rows, e) && Suspicious(rows, f) && Key(e) == Key(f) && e != f;
      SharedKey(es, e, f);
    }
  }

  lemma NoCollisionNoLinkLost(rows: seq<Row>)
    requires NoCollision(rows)
    ensures NoLinkLost(rows)
  {
    EdgesComplete(rows);
    var pairs := EdgePairs(KeptEdges(Candidates(rows)));
    forall e | e in Candidates(rows) ensures Linked(GraphOf(rows), e.a, e.b) {
      assert (e.a, e.b) in pairs;
      ConnectedPair(pairs, e.a, e.b);
    }
  }

  function FundedRow(x: string, funder: string, market: string): (r: Row) {
    Row(x, market, "o", "1", "", Some(funder), 0)
  }

  lemma SuspiciousPair(rows: seq<Row>, i: nat, j: nat, e: GraphEdge)
    requires i < |rows| && j < |rows| && StrLess(e.a, e.b)
    requires Places(rows[i], e.reason, e.detail, e.a) && Places(rows[j], e.reason, e.detail, e.b)
    ensures Suspicious(rows, e)
  {
    assert rows[i] in rows && rows[j] in rows;
  }

  function CollidingRows(): (rows: seq<Row>) {
    [FundedRow("b", "f::a", "1"), FundedRow("c", "f::a", "2"), FundedRow("a::b", "f", "3"), FundedRow("c", "f", "4")]
  }

  predicate FundedBy(k: string, x: string) {
    (k == "f::a" && (x == "b" || x == "c")) || (k == "f" && (x == "a::b" || x == "c"))
  }

  predicate MarketOf(k: char, x: string) {
    (k == '1' && x == "b") || (k == '2' && x == "c") || (k == '3' && x == "a::b") || (k == '4' && x == "c")
  }

  lemma CollidingHolds(reason: EdgeReason, k: string, x: string)
    requires Holds(CollidingRows(), reason, k, x)
    ensures reason == SharedFundingSource || reason == RepeatedPattern
    ensures reason == SharedFundingSource ==> FundedBy(k, x)
    ensures reason == RepeatedPattern ==> k != "" && MarketOf(k[0], x)
  {
  }

  lemma CollidingPair(k: string, x: string, y: string)
    requires FundedBy(k, x) && FundedBy(k, y) && StrLess(x, y)
    ensures (k, x, y) == ("f::a", "b", "c") || (k, x, y) == ("f", "a::b", "c")
  {
    StrLessTotal(x, y);
  }

  lemma CollidingPairs(e: GraphEdge)
    requires Suspicious(CollidingRows(), e)
    ensures e == CollidingEdge("a::b", "f") || e == CollidingEdge("b", "f::a")
  {
    CollidingHolds(e.reason, e.detail, e.a);
    CollidingHolds(e.reason, e.detail, e.b);
    StrLessTotal(e.a, e.b);
    if e.reason == SharedFundingSource {
      CollidingPair(e.detail, e.a, e.b);
    }
  }

  function CollidingEdge(x: string, funder: string): (e: GraphEdge) { GraphEdge(x, "c", SharedFundingSource, funder) }

  /** A node that no pair touches is linked to itself only. */
  lemma Alone(pairs: set<(string, string)>, x: string, y: string)
    requires Connected(pairs, x, y) && forall p :: p in pairs ==> p.0 != x && p.1 != x
    ensures x == y
  {
    var path :| IsPath(pairs, path, x, y);
    assert |path| > 1 ==> Adjacent(pairs, path[0], path[0 + 1]);
  }

  /** When two suspicious pairs with one key are all there is, a link is lost. */
  lemma LinkLost(rows: seq<Row>, e: GraphEdge, f: GraphEdge)
    requires Suspicious(rows, e) && Suspicious(rows, f) && Key(e) == Key(f)
    requires e.b == f.b && e.a != f.a && e.a != e.b && f.a != f.b
    requires forall x :: Suspicious(rows, x) ==> x == e || x == f
    ensures !NoLinkLost(rows)
  {
    var es := KeptEdges(Candidates(rows));
    CandidatesSpec(rows);
    KeptSpec(Candidates(rows));
    if e in es && f in es {
      SharedKey(es, e, f);
    }
    var gone, left := if e in es then f else e, if e in es then e else f;
    assert gone !in es && forall p :: p in EdgePairs(es) ==> p == (left.a, left.b);
    if Linked(GraphOf(rows), gone.a, gone.b) {
      Alone(EdgePairs(es), gone.a, gone.b);
    }
  }

  /** Three addresses in one class, which are not one cluster. */
  lemma CollisionSplitsClass(digest: string -> string, out: seq<Cluster>)
    requires IsClustering(GraphOf(CollidingRows()), digest, out)
    ensures !AreTheClasses(CollidingRows(), out)
  {
    var rows := CollidingRows();
    var e, f := CollidingEdge("a::b", "f"), CollidingEdge("b", "f::a");
    SuspiciousPair(rows, 2, 3, e);
    SuspiciousPair(rows, 0, 1, f);
    CollidingKeys();
    forall x | Suspicious(rows, x) ensures x == e || x == f {
      CollidingPairs(x);
    }
    LinkLost(rows, e, f);
    NoLinkLostExactly(rows);
    ClustersAreClasses(rows, digest, out);
  }

  lemma CollidingKeys()
    ensures Key(CollidingEdge("a::b", "f")) == Key(CollidingEdge("b", "f::a"))
  {
    assert Key(CollidingEdge("a::b", "f")) == "SHARED_FUNDING_SOURCE::f::a::b::c";
    assert Key(CollidingEdge("b", "f::a")) == "SHARED_FUNDING_SOURCE::f::a::b::c";
  }

  // ---------------------------------------------------------------------
  // Scores
  // ---------------------------------------------------------------------

  lemma KeptLast(cands: seq<GraphEdge>)
    requires cands != []
    ensures
      var kept, last := KeptEdges(cands[..|cands| - 1]), cands[|cands| - 1];
      KeptEdges(cands) == kept || KeptEdges(cands) == kept + [last]
  {
    var init, last := cands[..|cands| - 1], cands[|cands| - 1];
    DropLast(cands);
    FreshAppend({}, init, [last], Key);
    OneFresh({} + Keys(init, Key), last, Key);
  }

  lemma SumLast(es: seq<GraphEdge>, e: GraphEdge)
    ensures Sum(es + [e], Weight) == Sum(es, Weight) + Weight(e)
  {
    assert (es + [e])[..|es|] == es;
  }

  /** Dropping an edge loses weight. */
  lemma {:induction false} KeptWeight(cands: seq<GraphEdge>)
    ensures Sum(KeptEdges(cands), Weight) <= Sum(cands, Weight)
    ensures Sum(KeptEdges(cands), Weight) == Sum(cands, Weight) ==> KeptEdges(cands) == cands
  {
    if cands != [] {
      var init, last := cands[..|cands| - 1], cands[|cands| - 1];
      KeptWeight(init);
      KeptLast(cands);
      SumLast(KeptEdges(init), last);
      DropLast(cands);
    }
  }

  ghost function FullScore(rows: seq<Row>): (n: int) {
    5 * PairTotal(BucketsFor(rows, SharedFundingSource)) +
    8 * PairTotal(BucketsFor(rows, SharedTxHash)) +
    3 * PairTotal(BucketsFor(rows, RepeatedPattern))
  }

  /**
   * The cluster scores add up to 5, 8 and 3 per pair of the three kinds of bucket, exactly when no edge keys
   * collide.
   */
  lemma TotalScore(rows: seq<Row>, digest: string -> string, out: seq<Cluster>)
    requires IsClustering(GraphOf(rows), digest, out)
    ensures Sum(out, Score) == FullScore(rows) <==> NoCollision(rows)
    ensures Sum(out, Score) <= FullScore(rows)
  {
    var g := GraphOf(rows);
    forall e | e in g.edges ensures e.a != e.b {
      KeptSuspicious(rows, e);
    }
    ScoreConserved(g, digest, out);
    CandidateScore(rows);
    KeptWeight(Candidates(rows));
    EdgesComplete(rows);
  }

  // ---------------------------------------------------------------------
  // Row order
  // ---------------------------------------------------------------------

  ghost predicate SameRows(rows: seq<Row>, rows': seq<Row>) { forall r :: r in rows <==> r in rows' }

  lemma SameSuspicion(rows: seq<Row>, rows': seq<Row>)
    requires SameRows(rows, rows')
    ensures forall e :: Suspicious(rows, e) <==> Suspicious(rows', e)
    ensures NoCollision(rows) <==> NoCollision(rows')
    ensures forall x :: Address(rows, x) <==> Address(rows', x)
  {
    forall reason, k, x ensures Holds(rows, reason, k, x) <==> Holds(rows', reason, k, x) {
    }
    NodesSpec(rows);
    NodesSpec(rows');
  }

  /** The edges of both graphs are the same, in possibly different order. */
  lemma SameEdges(rows: seq<Row>, rows': seq<Row>)
    requires SameRows(rows, rows') && NoCollision(rows)
    ensures multiset(GraphOf(rows).edges) == multiset(GraphOf(rows').edges)
    ensures EdgePairs(GraphOf(rows).edges) == EdgePairs(GraphOf(rows').edges)
  {
    SameSuspicion(rows, rows');
    EdgesComplete(rows);
    EdgesComplete(rows');
    CandidatesSpec(rows);
    CandidatesSpec(rows');
    SameElementsSameMultiset(Candidates(rows), Candidates(rows'));
  }

  /** A cluster's counterpart: same members, score and key, and the same edges up to order. */
  ghost predicate SameCluster(c: Cluster, c': Cluster) {
    c.members == c'.members && c.score == c'.score && c.key == c'.key && multiset(c.edges) == multiset(c'.edges)
  }

  lemma SameMembers(members: seq<string>, members': seq<string>)
    requires Ordered(members, StrLess) && Ordered(members', StrLess)
    requires forall x :: x in members <==> x in members'
    ensures members == members'
  {
    StrLeqOrder();
    StrictDistinct(members);
    StrictDistinct(members');
    SameElementsSameMultiset(members, members');
    OrderedUnique(members, members', StrLeq);
  }

  lemma StrictDistinct(s: seq<string>)
    requires Ordered(s, StrLess)
    ensures Distinct(s) && Ordered(s, StrLeq)
  {
    forall i, j | 0 <= i < j < |s| ensures s[i] != s[j] {
      StrLessTotal(s[i], s[j]);
    }
  }

  lemma SameScore(es: seq<GraphEdge>, es': seq<GraphEdge>, members: seq<string>)
    requires multiset(es) == multiset(es')
    ensures multiset(Filter(es, StartsIn(members))) == multiset(Filter(es', StartsIn(members)))
    ensures Sum(Filter(es, StartsIn(members)), Weight) == Sum(Filter(es', StartsIn(members)), Weight)
  {
    var p := StartsIn(members);
    FilterMultiset(es, p);
    FilterMultiset(es', p);
    assert multiset(Filter(es, p)) == multiset(Filter(es', p));
    SumPermutation(Filter(es, p), Filter(es', p), Weight);
  }

  /** Any reordering or repetition of the rows gives the same clusters. */
  lemma RowOrderIrrelevant(rows: seq<Row>, rows': seq<Row>, digest: string -> string, out: seq<Cluster>,
                           out': seq<Cluster>, c: Cluster)
    returns (c': Cluster)
    requires SameRows(rows, rows') && NoCollision(rows)
    requires IsClustering(GraphOf(rows), digest, out) && IsClustering(GraphOf(rows'), digest, out') && c in out
    ensures c' in out' && SameCluster(c, c')
  {
    var g, g' := GraphOf(rows), GraphOf(rows');
    assert ClusterOk(g, digest, c);
    SameSuspicion(rows, rows');
    SameEdges(rows, rows');
    forall x ensures Vertex(g, x) <==> Vertex(g', x) {
      VerticesAreAddresses(rows, x);
      VerticesAreAddresses(rows', x);
    }
    c' := Counterpart(g, g', digest, out', c);
    assert ClusterOk(g', digest, c');
    SameScore(g.edges, g'.edges, c.members);
  }

  /** In graphs with the same vertices and links, each cluster of one is a cluster of the other. */
  lemma Counterpart(g: AddressGraph, g': AddressGraph, digest: string -> string, out': seq<Cluster>,
                    c: Cluster) returns (c': Cluster)
    requires ClusterOk(g, digest, c) && IsClustering(g', digest, out')
    requires EdgePairs(g.edges) == EdgePairs(g'.edges) && forall x :: Vertex(g, x) <==> Vertex(g', x)
    ensures c' in out' && c'.members == c.members
  {
    var x, y := c.members[0], c.members[1];
    StrictDistinct(c.members);
    assert x in c.members && y in c.members;
    assert Linked(g, x, y) && Linked(g', x, y);
    assert Covered(out', x);
    c' :| c' in out' && x in c'.members;
    assert ClusterOk(g', digest, c');
    forall z ensures z in c.members <==> z in c'.members {
      assert Linked(g, x, z) <==> Linked(g', x, z);
    }
    SameMembers(c.members, c'.members);
  }

  // ---------------------------------------------------------------------
  // What row order can and cannot change
  // ---------------------------------------------------------------------

  /** The weight a key stands for: it starts with the reason's name. */
  function KeyWeight(k: string): (w: int) {
    if |k| > 7 && k[0] == 'R' then 3 else if |k| > 7 && k[7] == 'F' then 5 else 8
  }

  lemma KeyFixesWeight(e: GraphEdge)
    ensures KeyWeight(Key(e)) == Weight(e)
  {
    var name := ReasonName(e.reason);
    assert Key(e)[0] == name[0] && Key(e)[7] == name[7];
  }

  function KeyList(es: seq<GraphEdge>): (ks: seq<string>)
    ensures |ks| == |es|
  {
    seq(|es|, i requires 0 <= i < |es| => Key(es[i]))
  }

  lemma {:induction false} WeightByKeys(es: seq<GraphEdge>)
    ensures Sum(es, Weight) == Sum(KeyList(es), KeyWeight)
  {
    if es != [] {
      var n := |es| - 1;
      WeightByKeys(es[..n]);
      assert KeyList(es)[..n] == KeyList(es[..n]);
      KeyFixesWeight(es[n]);
    }
  }

  /** The keys of the kept edges are the keys of all suspicious pairs. */
  lemma KeptKeys(rows: seq<Row>, k: string)
    ensures k in KeyList(KeptEdges(Candidates(rows))) <==> exists e :: Suspicious(rows, e) && Key(e) == k
  {
    var es := Candidates(rows);
    var kept := KeptEdges(es);
    CandidatesSpec(rows);
    FreshSpec({}, es, Key);
    if k in KeyList(kept) {
      var i :| 0 <= i < |kept| && KeyList(kept)[i] == k;
      assert kept[i] in kept;
    }
    if e :| Suspicious(rows, e) && Key(e) == k {
      assert e in es && Key(e) in Keys(es, Key);
      assert k in Keys(kept, Key);
      var f :| f in kept && Key(f) == k;
      var i :| 0 <= i < |kept| && kept[i] == f;
      assert KeyList(kept)[i] == k;
    }
  }

  lemma KeptWeightSame(rows: seq<Row>, rows': seq<Row>)
    requires SameRows(rows, rows')
    ensures Sum(KeptEdges(Candidates(rows)), Weight) == Sum(KeptEdges(Candidates(rows')), Weight)
  {
    var a, b := KeptEdges(Candidates(rows)), KeptEdges(Candidates(rows'));
    SameSuspicion(rows, rows');
    KeptSpec(Candidates(rows));
    KeptSpec(Candidates(rows'));
    forall k ensures k in KeyList(a) <==> k in KeyList(b) {
      KeptKeys(rows, k);
      KeptKeys(rows', k);
    }
    SameElementsSameMultiset(KeyList(a), KeyList(b));
    SumPermutation(KeyList(a), KeyList(b), KeyWeight);
    WeightByKeys(a);
    WeightByKeys(b);
  }

  lemma ScoreIsKeptWeight(rows: seq<Row>, digest: string -> string, out: seq<Cluster>)
    requires IsClustering(GraphOf(rows), digest, out)
    ensures Sum(out, Score) == Sum(KeptEdges(Candidates(rows)), Weight)
  {
    forall e | e in GraphOf(rows).edges ensures e.a != e.b {
      KeptSuspicious(rows, e);
    }
    ScoreConserved(GraphOf(rows), digest, out);
  }

  /** The total score never depends on row order or repetition, colliding keys or not. */
  lemma TotalScoreOrderFree(rows: seq<Row>, rows': seq<Row>, digest: string -> string, out: seq<Cluster>,
                            out': seq<Cluster>)
    requires SameRows(rows, rows')
    requires IsClustering(GraphOf(rows), digest, out) && IsClustering(GraphOf(rows'), digest, out')
    ensures Sum(out, Score) == Sum(out', Score)
  {
    ScoreIsKeptWeight(rows, digest, out);
    ScoreIsKeptWeight(rows', digest, out');
    KeptWeightSame(rows, rows');
  }
}
