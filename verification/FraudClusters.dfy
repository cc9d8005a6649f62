/** Clusters of linked addresses: the connected components of size at least two. */
module FraudClusters {
  import opened Sequences
  import opened Strings
  import opened FraudGraph
  import opened UnionFind

  const MIN_CLUSTER_SIZE: nat := 2

  datatype Cluster = Cluster(key: string, members: seq<string>, edges: seq<GraphEdge>, score: int)

  /** `makeClusterKey`, for any digest function. */
  function ClusterKey(members: seq<string>, digest: string -> string): (k: string)
    requires members != []
  {
    SortMember(members, StrLeq, members[0]);
    digest(Join(Sort(members, StrLeq), '|'))
  }

  // ---------------------------------------------------------------------
  // What a clustering is
  // ---------------------------------------------------------------------

  ghost function EdgePairs(es: seq<GraphEdge>): (s: set<(string, string)>) { set e | e in es :: (e.a, e.b) }

  ghost function Elements(s: seq<string>): (r: set<string>) {
    if s == [] then {} else Elements(s[..|s| - 1]) + {s[|s| - 1]}
  }

  lemma {:induction false} ElementsSpec(s: seq<string>, x: string)
    ensures x in Elements(s) <==> x in s
  {
    if s != [] {
      ElementsSpec(s[..|s| - 1], x);
      assert s == s[..|s| - 1] + [s[|s| - 1]];
    }
  }

  /** The ends of the edges. */
  ghost function Ends(es: seq<GraphEdge>): (s: set<string>) {
    if es == [] then {} else Ends(es[..|es| - 1]) + {es[|es| - 1].a, es[|es| - 1].b}
  }

  ghost function Vertices(g: AddressGraph): (s: set<string>) { Elements(g.nodes) + Ends(g.edges) }

  ghost predicate Vertex(g: AddressGraph, x: string) { x in Vertices(g) }

  lemma {:induction false} EndsSpec(es: seq<GraphEdge>, x: string)
    ensures x in Ends(es) <==> exists e :: e in es && (e.a == x || e.b == x)
  {
    if es != [] {
      EndsSpec(es[..|es| - 1], x);
      assert es == es[..|es| - 1] + [es[|es| - 1]];
    }
  }

  ghost predicate Linked(g: AddressGraph, x: string, y: string) { Connected(EdgePairs(g.edges), x, y) }

  /** A whole connected component, sorted, with its edges, their total weight and its key. */
  ghost predicate ClusterOk(g: AddressGraph, digest: string -> string, c: Cluster) {
    && |c.members| >= 2 && Ordered(c.members, StrLess)
    && (forall x :: x in c.members ==> Vertex(g, x))
    && (forall x, y :: x in c.members && Vertex(g, y) ==> (y in c.members <==> Linked(g, x, y)))
    && c.edges == Filter(g.edges, StartsIn(c.members))
    && c.score == Sum(c.edges, Weight)
    && c.key == digest(Join(c.members, '|'))
  }

  function StartsIn(members: seq<string>): (p: GraphEdge -> bool) { (e: GraphEdge) => e.a in members }

  ghost predicate Covered(out: seq<Cluster>, x: string) { exists c :: c in out && x in c.members }

  /** Every component of size at least two, exactly once. */
  ghost predicate IsClustering(g: AddressGraph, digest: string -> string, out: seq<Cluster>) {
    && (forall c :: c in out ==> ClusterOk(g, digest, c))
    && (forall i, j, x :: 0 <= i < j < |out| && x in out[i].members ==> x !in out[j].members)
    && (forall x, y :: Vertex(g, x) && Vertex(g, y) && x != y && Linked(g, x, y) ==> Covered(out, x))
  }

  // ---------------------------------------------------------------------
  // clusterize
  // ---------------------------------------------------------------------

  lemma PairsStep(es: seq<GraphEdge>, i: nat)
    requires i < |es|
    ensures EdgePairs(es[..i + 1]) == EdgePairs(es[..i]) + {(es[i].a, es[i].b)}
    ensures Ends(es[..i + 1]) == Ends(es[..i]) + {es[i].a, es[i].b}
  {
    assert es[..i + 1] == es[..i] + [es[i]];
    assert es[..i + 1][..i] == es[..i];
  }

  /** Adds the nodes, then unites the ends of every edge. */
  method UniteAll(g: AddressGraph) returns (uf: Sets<string>)
    ensures fresh(uf) && uf.Valid() && uf.united == EdgePairs(g.edges) && uf.cls.Keys == Vertices(g)
  {
    uf := new Sets();
    AddNodes(uf, g.nodes);
    UniteEdges(uf, g.edges);
  }

  method AddNodes(uf: Sets<string>, nodes: seq<string>)
    requires uf.Valid() && uf.united == {} && uf.keys == []
    modifies uf
    ensures uf.Valid() && uf.united == {} && uf.cls.Keys == Elements(nodes)
  {
    var i := 0;
    while i < |nodes|
      invariant i <= |nodes| && uf.Valid() && uf.united == {}
      invariant uf.cls.Keys == Elements(nodes[..i])
    {
      uf.Add(nodes[i]);
      assert nodes[..i + 1][..i] == nodes[..i];
      i := i + 1;
    }
    assert nodes[..i] == nodes;
  }

  method UniteEdges(uf: Sets<string>, es: seq<GraphEdge>)
    requires uf.Valid() && uf.united == {}
    modifies uf
    ensures uf.Valid() && uf.united == EdgePairs(es) && uf.cls.Keys == old(uf.cls.Keys) + Ends(es)
  {
    var i := 0;
    while i < |es|
      invariant i <= |es| && uf.Valid() && uf.united == EdgePairs(es[..i])
      invariant uf.cls.Keys == old(uf.cls.Keys) + Ends(es[..i])
    {
      var _ := uf.Union(es[i].a, es[i].b);
      PairsStep(es, i);
      i := i + 1;
    }
    assert es[..i] == es;
  }

  ghost function RootEdges(es: seq<GraphEdge>, cls: map<string, string>, r: string): (s: seq<GraphEdge>) {
    Filter(es, RootedAt(cls, r))
  }

  ghost function RootedAt(cls: map<string, string>, r: string): (p: GraphEdge -> bool) {
    (e: GraphEdge) => e.a in cls && cls[e.a] == r
  }

  ghost predicate EdgesGrouped(perRoot: map<string, seq<GraphEdge>>, es: seq<GraphEdge>, cls: map<string, string>) {
    forall r :: RootEdges(es, cls, r) == if r in perRoot then perRoot[r] else []
  }

  lemma EdgesGroupedStep(perRoot: map<string, seq<GraphEdge>>, es: seq<GraphEdge>, i: nat, cls: map<string, string>)
    requires i < |es| && EdgesGrouped(perRoot, es[..i], cls) && es[i].a in cls
    ensures
      var r := cls[es[i].a];
      EdgesGrouped(perRoot[r := (if r in perRoot then perRoot[r] else []) + [es[i]]], es[..i + 1], cls)
  {
    assert es[..i + 1][..i] == es[..i];
  }

  /** Each edge goes to the representative of its first end. */
  method GroupEdges(uf: Sets<string>, es: seq<GraphEdge>) returns (perRoot: map<string, seq<GraphEdge>>)
    requires uf.Valid() && forall e :: e in es ==> e.a in uf.cls
    modifies uf
    ensures uf.Valid() && uf.united == old(uf.united) && uf.keys == old(uf.keys) && uf.cls == old(uf.cls)
    ensures EdgesGrouped(perRoot, es, uf.cls)
  {
    perRoot := map[];
    var i := 0;
    while i < |es|
      invariant i <= |es|
      invariant uf.Valid() && uf.united == old(uf.united) && uf.keys == old(uf.keys) && uf.cls == old(uf.cls)
      invariant EdgesGrouped(perRoot, es[..i], uf.cls)
    {
      var root := uf.FindKnown(es[i].a);
      EdgesGroupedStep(perRoot, es, i, uf.cls);
      var bucket := if root in perRoot then perRoot[root] else [];
      perRoot := perRoot[root := bucket + [es[i]]];
      i := i + 1;
    }
    assert es[..i] == es;
  }

  /** The cluster built for one representative. */
  ghost function ClusterFor(keys: seq<string>, cls: map<string, string>, es: seq<GraphEdge>, digest: string -> string,
                            r: string)
    : (c: Cluster)
    requires Members(keys, cls, r) != []
  {
    SortMember(Members(keys, cls, r), StrLeq, Members(keys, cls, r)[0]);
    var sorted, mine := Sort(Members(keys, cls, r), StrLeq), RootEdges(es, cls, r);
    Cluster(ClusterKey(sorted, digest), sorted, mine, Sum(mine, Weight))
  }

  ghost predicate Big(keys: seq<string>, cls: map<string, string>, r: string) {
    |Members(keys, cls, r)| >= MIN_CLUSTER_SIZE
  }

  ghost function IsBig(keys: seq<string>, cls: map<string, string>): (p: string -> bool) {
    r => Big(keys, cls, r)
  }

  ghost function Maker(keys: seq<string>, cls: map<string, string>, es: seq<GraphEdge>,
                       digest: string -> string): (f: string -> Cluster) {
    r => if Members(keys, cls, r) == [] then Cluster("", [], [], 0) else ClusterFor(keys, cls, es, digest, r)
  }

  /** The results of `f` on the elements of `s` that satisfy `p`. */
  ghost predicate Mapped<S, T>(out: seq<T>, s: seq<S>, p: S -> bool, f: S -> T) {
    var kept := Filter(s, p);
    |out| == |kept| && forall i :: 0 <= i < |kept| ==> out[i] == f(kept[i])
  }

  lemma MappedStep<S, T>(out: seq<T>, s: seq<S>, n: nat, p: S -> bool, f: S -> T)
    requires n < |s| && Mapped(out, s[..n], p, f)
    ensures Mapped(if p(s[n]) then out + [f(s[n])] else out, s[..n + 1], p, f)
  {
    FilterStep(s, n, p);
  }

  /** One cluster for each of the given representatives whose class is big enough. */
  ghost predicate Emitted(out: seq<Cluster>, roots: seq<string>, keys: seq<string>, cls: map<string, string>,
                          es: seq<GraphEdge>, digest: string -> string)
  {
    Mapped(out, roots, IsBig(keys, cls), Maker(keys, cls, es, digest))
  }

  /** The clusters of a graph. */
  method Clusterize(g: AddressGraph, digest: string -> string) returns (out: seq<Cluster>)
    ensures IsClustering(g, digest, out)
  {
    var uf := UniteAll(g);
    EdgesInside(g);
    var perRoot := GroupEdges(uf, g.edges);
    var roots, groups := uf.Components();
    LabelledBy(g, roots, uf.keys, uf.cls, groups);
    out := Emit(roots, groups, perRoot, digest, uf.keys, uf.cls, g.edges);
    EmittedIsClustering(g, digest, out, roots, uf.keys, uf.cls, groups);
  }

  method Emit(roots: seq<string>, groups: map<string, seq<string>>, perRoot: map<string, seq<GraphEdge>>,
              digest: string -> string,
              ghost keys: seq<string>, ghost cls: map<string, string>, ghost es: seq<GraphEdge>)
    returns (out: seq<Cluster>)
    requires Grouped(keys, cls, roots, groups) && EdgesGrouped(perRoot, es, cls)
    ensures Emitted(out, roots, keys, cls, es, digest)
  {
    out := [];
    var n := 0;
    assert roots[..0] == [];
    while n < |roots|
      invariant n <= |roots| && Emitted(out, roots[..n], keys, cls, es, digest)
    {
      var root := roots[n];
      var members := groups[root];
      MappedStep(out, roots, n, IsBig(keys, cls), Maker(keys, cls, es, digest));
      if |members| >= MIN_CLUSTER_SIZE {
        var c := MakeCluster(members, if root in perRoot then perRoot[root] else [], digest, root, keys, cls, es);
        out := out + [c];
      }
      n := n + 1;
    }
    assert roots[..n] == roots;
  }

  method MakeCluster(members: seq<string>, edges: seq<GraphEdge>, digest: string -> string,
                     ghost r: string, ghost keys: seq<string>, ghost cls: map<string, string>,
                     ghost es: seq<GraphEdge>)
    returns (c: Cluster)
    requires members != [] && members == Members(keys, cls, r) && edges == RootEdges(es, cls, r)
    ensures c == Maker(keys, cls, es, digest)(r)
  {
    var sorted := Sort(members, StrLeq);
    SortMember(members, StrLeq, members[0]);
    c := Cluster(ClusterKey(sorted, digest), sorted, edges, Sum(edges, Weight));
  }

  // ---------------------------------------------------------------------
  // Correctness of the emitted clusters
  // ---------------------------------------------------------------------

  lemma StrLeqOrder()
    ensures TotalPreorder(StrLeq)
    ensures forall x, y :: StrLeq(x, y) && StrLeq(y, x) ==> x == y
  {
    forall x, y ensures StrLeq(x, y) || StrLeq(y, x) {
      StrLessTotal(x, y);
    }
    forall x, y, z | StrLeq(x, y) && StrLeq(y, z) ensures StrLeq(x, z) {
      if StrLess(x, y) && StrLess(y, z) {
        StrLessTransitive(x, y, z);
      }
    }
    forall x, y | StrLeq(x, y) && StrLeq(y, x) ensures x == y {
      StrLessTotal(x, y);
    }
  }

  /** Sorting distinct strings gives a strictly ascending list of the same strings. */
  lemma SortedStrings(s: seq<string>)
    requires Distinct(s)
    ensures Ordered(Sort(s, StrLeq), StrLess) && |Sort(s, StrLeq)| == |s|
    ensures forall x :: x in Sort(s, StrLeq) <==> x in s
    ensures Sort(Sort(s, StrLeq), StrLeq) == Sort(s, StrLeq)
  {
    StrLeqOrder();
    SortOrdered(s, StrLeq);
    var t := Sort(s, StrLeq);
    SortOfOrdered(t, StrLeq);
    forall x ensures x in t <==> x in s {
      SortMember(s, StrLeq, x);
    }
    assert |t| == |multiset(t)| == |multiset(s)| == |s|;
    forall i, j | 0 <= i < j < |t| ensures StrLess(t[i], t[j]) {
      if t[i] == t[j] {
        RepeatCounts(t, i, j);
        DistinctMultiset(s, t[i]);
      }
      assert StrLeq(t[i], t[j]);
    }
  }

  lemma ClusterForMembers(keys: seq<string>, cls: map<string, string>, es: seq<GraphEdge>, digest: string -> string,
                          r: string)
    requires Distinct(keys) && Big(keys, cls, r)
    ensures
      var c := ClusterFor(keys, cls, es, digest, r);
      && |c.members| >= 2 && Ordered(c.members, StrLess)
      && (forall x :: x in c.members <==> x in keys && x in cls && cls[x] == r)
      && c.key == digest(Join(c.members, '|'))
  {
    MembersSpec(keys, cls, r);
    SortedStrings(Members(keys, cls, r));
    SortedKey(ClusterFor(keys, cls, es, digest, r).members, digest);
  }

  /** The key of ascending members hashes them as they stand. */
  lemma SortedKey(members: seq<string>, digest: string -> string)
    requires members != [] && Ordered(members, StrLess)
    ensures ClusterKey(members, digest) == digest(Join(members, '|'))
  {
    SortOfOrdered(members, StrLeq);
  }

  lemma ClusterForOk(g: AddressGraph, digest: string -> string, keys: seq<string>, cls: map<string, string>, r: string)
    requires Distinct(keys) && Labels(cls, EdgePairs(g.edges)) && (forall x :: x in keys <==> x in cls)
    requires (forall x :: x in keys <==> Vertex(g, x)) && Big(keys, cls, r)
    ensures ClusterOk(g, digest, ClusterFor(keys, cls, g.edges, digest, r))
  {
    var c := ClusterFor(keys, cls, g.edges, digest, r);
    ClusterForMembers(keys, cls, g.edges, digest, r);
    FilterSame(g.edges, RootedAt(cls, r), StartsIn(c.members));
  }

  /** A labelling of the vertices by the representatives that the emitted clusters were built from. */
  ghost predicate Labelled(g: AddressGraph, roots: seq<string>, keys: seq<string>, cls: map<string, string>,
                           groups: map<string, seq<string>>) {
    && Distinct(keys) && Labels(cls, EdgePairs(g.edges)) && (forall x :: x in keys <==> x in cls)
    && (forall x :: x in keys <==> Vertex(g, x)) && Grouped(keys, cls, roots, groups)
  }

  /** Two different nodes of one class make it big, and its representative is listed. */
  lemma BigClass(g: AddressGraph, roots: seq<string>, keys: seq<string>, cls: map<string, string>,
                 groups: map<string, seq<string>>, x: string, y: string)
    requires Labelled(g, roots, keys, cls, groups)
    requires x in keys && y in keys && x != y && cls[x] == cls[y]
    ensures cls[x] in roots && Big(keys, cls, cls[x])
  {
    MembersSpec(keys, cls, cls[x]);
    TwoMembers(Members(keys, cls, cls[x]), x, y);
  }

  lemma TwoMembers<T>(s: seq<T>, x: T, y: T)
    requires x in s && y in s && x != y
    ensures |s| >= 2
  {
    var i :| 0 <= i < |s| && s[i] == x;
    var j :| 0 <= j < |s| && s[j] == y;
  }

  lemma EdgesInside(g: AddressGraph)
    ensures forall e :: e in g.edges ==> e.a in Vertices(g) && e.b in Vertices(g)
  {
    forall e | e in g.edges ensures e.a in Vertices(g) && e.b in Vertices(g) {
      EndsSpec(g.edges, e.a);
      EndsSpec(g.edges, e.b);
    }
  }

  lemma LabelledBy(g: AddressGraph, roots: seq<string>, keys: seq<string>, cls: map<string, string>,
                   groups: map<string, seq<string>>)
    requires Distinct(keys) && Labels(cls, EdgePairs(g.edges)) && Grouped(keys, cls, roots, groups)
    requires cls.Keys == Vertices(g) && cls.Keys == set x | x in keys
    ensures Labelled(g, roots, keys, cls, groups)
  {
    forall x ensures (x in keys <==> x in cls) && (x in cls <==> Vertex(g, x)) {
      assert x in cls <==> x in cls.Keys;
    }
  }

  lemma EmittedIsClustering(g: AddressGraph, digest: string -> string, out: seq<Cluster>, roots: seq<string>,
                            keys: seq<string>,
                            cls: map<string, string>, groups: map<string, seq<string>>)
    requires Labelled(g, roots, keys, cls, groups) && Emitted(out, roots, keys, cls, g.edges, digest)
    ensures IsClustering(g, digest, out)
  {
    var p := IsBig(keys, cls);
    var big := Filter(roots, p);
    FilterDistinct(roots, p);
    forall i | 0 <= i < |out|
      ensures ClusterOk(g, digest, out[i]) && forall x :: x in out[i].members <==> x in keys && cls[x] == big[i]
    {
      assert big[i] in big;
      FilterMember(roots, p, big[i]);
      ClusterForOk(g, digest, keys, cls, big[i]);
      ClusterForMembers(keys, cls, g.edges, digest, big[i]);
    }
    forall x, y | Vertex(g, x) && Vertex(g, y) && x != y && Linked(g, x, y) ensures Covered(out, x) {
      BigClass(g, roots, keys, cls, groups, x, y);
      FilterMember(roots, p, cls[x]);
      var i :| 0 <= i < |big| && big[i] == cls[x];
      assert out[i] in out && x in out[i].members;
    }
  }

  // ---------------------------------------------------------------------
  // Every edge in exactly one cluster, and no score lost
  // ---------------------------------------------------------------------

  ghost function InsideOf(out: seq<Cluster>): (p: GraphEdge -> bool) { (e: GraphEdge) => Covered(out, e.a) }

  lemma {:induction false} SumSplit(es: seq<GraphEdge>, p: GraphEdge -> bool, q: GraphEdge -> bool,
                                    r: GraphEdge -> bool)
    requires forall e :: e in es ==> (r(e) <==> p(e) || q(e)) && !(p(e) && q(e))
    ensures Sum(Filter(es, r), Weight) == Sum(Filter(es, p), Weight) + Sum(Filter(es, q), Weight)
  {
    if es != [] {
      var init, last := es[..|es| - 1], es[|es| - 1];
      assert last in es;
      SumSplit(init, p, q, r);
      SumFilterLast(es, p);
      SumFilterLast(es, q);
      SumFilterLast(es, r);
    }
  }

  lemma SumFilterLast(es: seq<GraphEdge>, p: GraphEdge -> bool)
    requires es != []
    ensures Sum(Filter(es, p), Weight) ==
            Sum(Filter(es[..|es| - 1], p), Weight) + if p(es[|es| - 1]) then Weight(es[|es| - 1]) else 0
  {
    var f, last := Filter(es[..|es| - 1], p), es[|es| - 1];
    SumAppend(f, if p(last) then [last] else [], Weight);
    assert Sum([last], Weight) == Weight(last) by {
      assert [last][..0] == [];
    }
  }

  function Score(c: Cluster): (n: int) { c.score }

  /** The scores of the first n clusters add up to the weight of the edges inside them. */
  lemma {:induction false} PrefixScore(g: AddressGraph, digest: string -> string, out: seq<Cluster>, n: nat)
    requires IsClustering(g, digest, out) && n <= |out|
    ensures Sum(out[..n], Score) == Sum(Filter(g.edges, InsideOf(out[..n])), Weight)
  {
    if n == 0 {
      assert out[..0] == [];
      FilterNone(g.edges, InsideOf(out[..0]));
    } else {
      PrefixScore(g, digest, out, n - 1);
      var c := out[n - 1];
      assert c in out;
      assert out[..n][..n - 1] == out[..n - 1] && out[..n] == out[..n - 1] + [c];
      CoveredStep(out[..n - 1], c);
      SumSplit(g.edges, InsideOf(out[..n - 1]), StartsIn(c.members), InsideOf(out[..n]));
    }
  }

  lemma CoveredStep(before: seq<Cluster>, c: Cluster)
    requires forall i, x :: 0 <= i < |before| && x in before[i].members ==> x !in c.members
    ensures forall x :: Covered(before + [c], x) <==> Covered(before, x) || x in c.members
    ensures forall x :: Covered(before, x) ==> x !in c.members
  {
    forall x ensures Covered(before + [c], x) <==> Covered(before, x) || x in c.members {
      assert c in before + [c];
    }
  }

  /** Every edge between different addresses has both ends in exactly one cluster. */
  lemma EdgeInOneCluster(g: AddressGraph, digest: string -> string, out: seq<Cluster>, e: GraphEdge)
    requires IsClustering(g, digest, out) && e in g.edges && e.a != e.b
    ensures Covered(out, e.a)
    ensures forall c :: c in out ==> (e in c.edges <==> e.a in c.members) && (e.a in c.members <==> e.b in c.members)
    ensures forall i, j :: 0 <= i < |out| && 0 <= j < |out| && e in out[i].edges && e in out[j].edges ==> i == j
  {
    EndsSpec(g.edges, e.a);
    EndsSpec(g.edges, e.b);
    assert (e.a, e.b) in EdgePairs(g.edges);
    ConnectedPair(EdgePairs(g.edges), e.a, e.b);
    ConnectedPair(EdgePairs(g.edges), e.b, e.a);
    assert Linked(g, e.a, e.b) && Linked(g, e.b, e.a);
    forall c | c in out ensures (e in c.edges <==> e.a in c.members) && (e.a in c.members <==> e.b in c.members) {
      FilterMember(g.edges, StartsIn(c.members), e);
    }
  }

  /** The cluster scores add up to the weight of all edges. */
  lemma ScoreConserved(g: AddressGraph, digest: string -> string, out: seq<Cluster>)
    requires IsClustering(g, digest, out) && forall e :: e in g.edges ==> e.a != e.b
    ensures Sum(out, Score) == Sum(g.edges, Weight)
  {
    PrefixScore(g, digest, out, |out|);
    assert out[..|out|] == out;
    forall e | e in g.edges ensures InsideOf(out)(e) {
      EdgeInOneCluster(g, digest, out, e);
    }
    FilterAll(g.edges, InsideOf(out));
  }
}
