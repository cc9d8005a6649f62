/** What the rows of one cluster have in common, said of the rows themselves: no buckets, no keys. */
module FraudRows {
  import opened Wrappers
  import opened Sequences
  import opened Strings
  import opened FraudGraph
  import opened UnionFind
  import opened FraudClusters
  import opened FraudTheorems

  // ---------------------------------------------------------------------
  // Buckets
  // ---------------------------------------------------------------------

  /** The same bet in the same five minutes. */
  predicate SameBet(r: Row, s: Row) {
    && r.marketId == s.marketId && r.outcome == s.outcome && r.amount == s.amount
    && r.createdAt / 300000 == s.createdAt / 300000
  }

  /** A common funder, a common transaction or the same bet in the same five minutes. */
  predicate RowsShare(r: Row, s: Row) {
    || (r.fundingSource == s.fundingSource && r.fundingSource != None && r.fundingSource != Some(""))
    || (r.txHash == s.txHash && r.txHash != "")
    || SameBet(r, s)
  }

  predicate PipeFreeRow(r: Row) { Free(r.marketId, '|') && Free(r.outcome, '|') && Free(r.amount, '|') }

  ghost predicate PipeFree(rows: seq<Row>) { forall r :: r in rows ==> PipeFreeRow(r) }

  lemma Regroup(a: string, b: string, c: string, d: string)
    ensures a + "|" + b + "|" + c + "|" + d == a + ['|'] + (b + ['|'] + (c + ['|'] + d))
  {
  }

  /** Four fields joined by the separator determine the fields when the first three do not contain it. */
  lemma FieldsBack(a: string, b: string, c: string, d: string, a': string, b': string, c': string, d': string)
    requires Free(a, '|') && Free(b, '|') && Free(c, '|') && Free(a', '|') && Free(b', '|') && Free(c', '|')
    requires a + "|" + b + "|" + c + "|" + d == a' + "|" + b' + "|" + c' + "|" + d'
    ensures a == a' && b == b' && c == c' && d == d'
  {
    Regroup(a, b, c, d);
    Regroup(a', b', c', d');
    FirstCut(a, b + ['|'] + (c + ['|'] + d), a', b' + ['|'] + (c' + ['|'] + d'), '|');
    FirstCut(b, c + ['|'] + d, b', c' + ['|'] + d', '|');
    FirstCut(c, d, c', d', '|');
  }

  /** Rows of the same bet have one pattern key; rows with one key are the same bet when the fields hold no pipe. */
  lemma PatternKeys(r: Row, s: Row)
    ensures SameBet(r, s) ==> Detail(RepeatedPattern, r) == Detail(RepeatedPattern, s)
    ensures PipeFreeRow(r) && PipeFreeRow(s) ==>
              (Detail(RepeatedPattern, r) == Detail(RepeatedPattern, s) <==> SameBet(r, s))
  {
    if PipeFreeRow(r) && PipeFreeRow(s) && Detail(RepeatedPattern, r) == Detail(RepeatedPattern, s) {
      FieldsBack(r.marketId, r.outcome, r.amount, IntToString(r.createdAt / 300000),
                 s.marketId, s.outcome, s.amount, IntToString(s.createdAt / 300000));
      IntToStringInjective(r.createdAt / 300000, s.createdAt / 300000);
    }
  }

  /** The funder buckets hold exactly the addresses with that funder. */
  lemma FunderBuckets(rows: seq<Row>, k: string, x: string)
    ensures x in Bucket(BucketsFor(rows, SharedFundingSource), k) <==>
            k != "" && x != "" && exists r :: r in rows && r.stellarAddress == x && r.fundingSource == Some(k)
  {
    BucketsFaithful(rows, SharedFundingSource);
    var b := BucketsFor(rows, SharedFundingSource);
    assert (k in b.members && x in b.members[k]) <==> Holds(rows, SharedFundingSource, k, x);
  }

  /** The hash buckets hold exactly the addresses with that transaction. */
  lemma HashBuckets(rows: seq<Row>, k: string, x: string)
    ensures x in Bucket(BucketsFor(rows, SharedTxHash), k) <==>
            k != "" && x != "" && exists r :: r in rows && r.stellarAddress == x && r.txHash == k
  {
    BucketsFaithful(rows, SharedTxHash);
    var b := BucketsFor(rows, SharedTxHash);
    assert (k in b.members && x in b.members[k]) <==> Holds(rows, SharedTxHash, k, x);
  }

  // ---------------------------------------------------------------------
  // Classes of rows
  // ---------------------------------------------------------------------

  /** The addresses of rows that share something. */
  ghost function RowPairs(rows: seq<Row>): (s: set<(string, string)>) {
    set r, s | r in rows && s in rows && r.stellarAddress != "" && s.stellarAddress != "" && RowsShare(r, s)
      :: (r.stellarAddress, s.stellarAddress)
  }

  /** The market, outcome, amount and five-minute slot as one text. */
  function BetText(r: Row): (s: string) {
    r.marketId + "|" + r.outcome + "|" + r.amount + "|" + IntToString(r.createdAt / 300000)
  }

  /** Two rows of addresses with one bet text. */
  ghost predicate Twins(rows: seq<Row>, r: Row, s: Row) {
    r in rows && s in rows && r.stellarAddress != "" && s.stellarAddress != "" && BetText(r) == BetText(s)
  }

  /** Rows of one bet text belong to addresses that are linked anyway. */
  ghost predicate TextsLinked(rows: seq<Row>) {
    forall r, s :: Twins(rows, r, s) ==> Connected(RowPairs(rows), r.stellarAddress, s.stellarAddress)
  }

  /** Without the separator in the fields that is always so. */
  lemma PipeFreeLinked(rows: seq<Row>)
    requires PipeFree(rows)
    ensures TextsLinked(rows)
  {
    forall r, s | Twins(rows, r, s) ensures Connected(RowPairs(rows), r.stellarAddress, s.stellarAddress) {
      PatternKeys(r, s);
      assert (r.stellarAddress, s.stellarAddress) in RowPairs(rows);
      ConnectedPair(RowPairs(rows), r.stellarAddress, s.stellarAddress);
    }
  }

  /** Rows that share something are in a common bucket. */
  lemma RowsInBucket(rows: seq<Row>, r: Row, s: Row)
    requires r in rows && s in rows && r.stellarAddress != "" && s.stellarAddress != ""
    requires RowsShare(r, s) || BetText(r) == BetText(s)
    ensures (r.stellarAddress, s.stellarAddress) in SharePairs(rows)
  {
    PatternKeys(r, s);
    NodesSpec(rows);
    var reason :| Detail(reason, r) == Detail(reason, s) && Detail(reason, r).Some?;
    var k := Detail(reason, r).value;
    assert Places(r, reason, k, r.stellarAddress) && Places(s, reason, k, s.stellarAddress);
    assert Holds(rows, reason, k, r.stellarAddress) && Holds(rows, reason, k, s.stellarAddress);
    assert Shares(rows, r.stellarAddress, s.stellarAddress);
  }

  /** Rows in a common bucket share something or have one bet text. */
  lemma BucketRows(rows: seq<Row>, x: string, y: string)
    requires TextsLinked(rows) && (x, y) in SharePairs(rows)
    ensures Connected(RowPairs(rows), x, y)
  {
    var reason, k :| Holds(rows, reason, k, x) && Holds(rows, reason, k, y);
    var r :| r in rows && Places(r, reason, k, x);
    var s :| s in rows && Places(s, reason, k, y);
    SameDetail(r, s, reason);
    if RowsShare(r, s) {
      assert (x, y) in RowPairs(rows);
      ConnectedPair(RowPairs(rows), x, y);
    } else {
      assert Twins(rows, r, s);
    }
  }

  lemma SameDetail(r: Row, s: Row, reason: EdgeReason)
    requires Detail(reason, r) == Detail(reason, s) && Detail(reason, r).Some?
    ensures RowsShare(r, s) || BetText(r) == BetText(s)
  {
  }

  ghost predicate SamePartition(rows: seq<Row>) {
    forall x, y :: Connected(SharePairs(rows), x, y) <==> Connected(RowPairs(rows), x, y)
  }

  /** Buckets and rows give the same classes if and only if rows of one bet text are linked anyway. */
  lemma SamePartitionExactly(rows: seq<Row>)
    ensures SamePartition(rows) <==> TextsLinked(rows)
  {
    if TextsLinked(rows) {
      forall x, y ensures Connected(SharePairs(rows), x, y) <==> Connected(RowPairs(rows), x, y) {
        TextsPartition(rows, x, y);
      }
    }
    if SamePartition(rows) {
      forall r, s | Twins(rows, r, s) ensures Connected(RowPairs(rows), r.stellarAddress, s.stellarAddress) {
        RowsInBucket(rows, r, s);
        ConnectedPair(SharePairs(rows), r.stellarAddress, s.stellarAddress);
      }
    }
  }

  lemma TextsPartition(rows: seq<Row>, x: string, y: string)
    requires TextsLinked(rows)
    ensures Connected(SharePairs(rows), x, y) <==> Connected(RowPairs(rows), x, y)
  {
    if Connected(SharePairs(rows), x, y) {
      var path :| IsPath(SharePairs(rows), path, x, y);
      forall a, b | (a, b) in SharePairs(rows) ensures Connected(RowPairs(rows), a, b) {
        BucketRows(rows, a, b);
      }
      PathLinked(SharePairs(rows), RowPairs(rows), path, x, y);
    }
    if Connected(RowPairs(rows), x, y) {
      forall p | p in RowPairs(rows) ensures p in SharePairs(rows) {
        var r, s :| r in rows && s in rows && r.stellarAddress != "" && s.stellarAddress != "" && RowsShare(r, s) &&
          p == (r.stellarAddress, s.stellarAddress);
        RowsInBucket(rows, r, s);
      }
      ConnectedMono(RowPairs(rows), SharePairs(rows), x, y);
    }
  }

  /**
   * The clusters are exactly the classes of rows that share a funder, a transaction or a bet in the same five minutes,
   * if and only if every pair offered under a used key is linked by first-offered pairs.
   */
  lemma ClustersAreRowClasses(rows: seq<Row>, digest: string -> string, out: seq<Cluster>)
    requires IsClustering(GraphOf(rows), digest, out) && TextsLinked(rows)
    ensures AreClasses(rows, RowPairs(rows), out) <==> RepeatsLinked(rows)
  {
    ClustersAreClasses(rows, digest, out);
    SamePartitionExactly(rows);
    SameClasses(rows, SharePairs(rows), RowPairs(rows), out);
    SameClasses(rows, RowPairs(rows), SharePairs(rows), out);
  }

  lemma SameClasses(rows: seq<Row>, pairs: set<(string, string)>, pairs': set<(string, string)>, out: seq<Cluster>)
    requires forall x, y :: Connected(pairs, x, y) <==> Connected(pairs', x, y)
    ensures AreClasses(rows, pairs, out) ==> AreClasses(rows, pairs', out)
  {
    if AreClasses(rows, pairs, out) {
      forall c | c in out ensures IsClass(rows, pairs', c.members) {
        assert IsClass(rows, pairs, c.members);
      }
    }
  }

  /** Clusters that are the classes of two relations link the same addresses in both. */
  lemma TwoPartitions(rows: seq<Row>, pairs: set<(string, string)>, pairs': set<(string, string)>, out: seq<Cluster>,
                      x: string, y: string)
    requires AreClasses(rows, pairs, out) && AreClasses(rows, pairs', out)
    requires Address(rows, x) && Address(rows, y) && Connected(pairs, x, y)
    ensures Connected(pairs', x, y)
  {
    if x == y {
      ConnectedRefl(pairs', x);
    } else {
      var c :| c in out && x in c.members;
      assert IsClass(rows, pairs, c.members) && IsClass(rows, pairs', c.members);
    }
  }

  /** When no link is lost, the clusters are these classes if and only if rows of one bet text are linked anyway. */
  lemma RowClassesExactly(rows: seq<Row>, digest: string -> string, out: seq<Cluster>)
    requires IsClustering(GraphOf(rows), digest, out) && RepeatsLinked(rows)
    ensures AreClasses(rows, RowPairs(rows), out) <==> TextsLinked(rows)
  {
    if TextsLinked(rows) {
      ClustersAreRowClasses(rows, digest, out);
    }
    if AreClasses(rows, RowPairs(rows), out) {
      ClustersAreClasses(rows, digest, out);
      forall r, s | Twins(rows, r, s) ensures Connected(RowPairs(rows), r.stellarAddress, s.stellarAddress) {
        RowsInBucket(rows, r, s);
        ConnectedPair(SharePairs(rows), r.stellarAddress, s.stellarAddress);
        TwoPartitions(rows, SharePairs(rows), RowPairs(rows), out, r.stellarAddress, s.stellarAddress);
      }
    }
  }

  // ---------------------------------------------------------------------
  // Different bets with one text
  // ---------------------------------------------------------------------

  /** Two different bets of two addresses that have nothing else in common. */
  function PipedRows(): (rows: seq<Row>) {
    [Row("a", "m|x", "y", "1", "", None, 0), Row("b", "m", "x|y", "1", "", None, 0)]
  }

  /** Pairs that join nothing. */
  lemma {:induction false} LoopsOnly(pairs: set<(string, string)>, path: seq<string>, x: string, y: string)
    requires (forall p :: p in pairs ==> p.0 == p.1) && IsPath(pairs, path, x, y)
    ensures x == y
    decreases |path|
  {
    if |path| > 1 {
      assert Adjacent(pairs, path[0], path[0 + 1]);
      TailPath(pairs, path, x, y);
      LoopsOnly(pairs, path[1..], path[1], y);
    }
  }

  lemma PipedTexts()
    ensures BetText(PipedRows()[0]) == BetText(PipedRows()[1])
  {
    var rows := PipedRows();
    assert BetText(rows[0]) == "m|x|y|1|" + IntToString(0);
    assert BetText(rows[1]) == "m|x|y|1|" + IntToString(0);
  }

  lemma PipedApart()
    ensures forall p :: p in RowPairs(PipedRows()) ==> p.0 == p.1
  {
  }

  lemma PipedUnlinked()
    ensures !TextsLinked(PipedRows())
  {
    var rows := PipedRows();
    PipedTexts();
    PipedApart();
    assert rows[0] in rows && rows[1] in rows;
    if TextsLinked(rows) {
      assert Twins(rows, rows[0], rows[1]);
      var path :| IsPath(RowPairs(rows), path, "a", "b");
      LoopsOnly(RowPairs(rows), path, "a", "b");
    }
  }

  /** A pipe inside a field can cluster addresses that share nothing. */
  lemma PipesCollide(digest: string -> string, out: seq<Cluster>)
    requires IsClustering(GraphOf(PipedRows()), digest, out)
    ensures !AreClasses(PipedRows(), RowPairs(PipedRows()), out)
  {
    PipedUnlinked();
    ColonFreeLinked(PipedRows());
    RowClassesExactly(PipedRows(), digest, out);
  }

  lemma ColonFreeLinked(rows: seq<Row>)
    requires ColonFree(rows)
    ensures RepeatsLinked(rows)
  {
    ColonFreeNoCollision(rows);
    NoCollisionNoLinkLost(rows);
    NoLinkLostExactly(rows);
  }

  /**
   * From rows to clusters: with colon-free addresses, the exact classes and the full score; with bets free of the
   * separator too, the classes of rows that share something.
   */
  method ClusterRows(rows: seq<Row>, digest: string -> string) returns (out: seq<Cluster>)
    ensures IsClustering(GraphOf(rows), digest, out)
    ensures ColonFree(rows) ==> AreTheClasses(rows, out) && Sum(out, Score) == FullScore(rows)
    ensures ColonFree(rows) && PipeFree(rows) ==> AreClasses(rows, RowPairs(rows), out)
  {
    var g := BuildGraph(rows);
    out := Clusterize(g, digest);
    if ColonFree(rows) {
      ColonFreeNoCollision(rows);
      ColonFreeLinked(rows);
      ClustersAreClasses(rows, digest, out);
      TotalScore(rows, digest, out);
      if PipeFree(rows) {
        PipeFreeLinked(rows);
        ClustersAreRowClasses(rows, digest, out);
      }
    }
  }
}
