/** Union-find with path compression and union by rank, over insertion-ordered maps. */
module UnionFind {
  import opened Sequences

  // ---------------------------------------------------------------------
  // Forests
  // ---------------------------------------------------------------------

  /** A node's parent is a node, of strictly higher rank unless the node is a root. */
  ghost predicate LinkOk<T>(p: map<T, T>, r: map<T, nat>, x: T) {
    x in p && x in r && p[x] in p && p[x] in r && (p[x] != x ==> r[x] < r[p[x]])
  }

  ghost predicate Forest<T>(p: map<T, T>, r: map<T, nat>) {
    p.Keys == r.Keys && forall x {:trigger LinkOk(p, r, x)} :: x in p ==> LinkOk(p, r, x)
  }

  /** The nodes of higher rank: what climbing a parent link uses up. */
  ghost function Above<T>(p: map<T, T>, r: map<T, nat>, x: T): (s: set<T>)
    requires Forest(p, r) && x in p
  {
    set k | k in p && r[k] > r[x]
  }

  lemma AboveShrinks<T>(p: map<T, T>, r: map<T, nat>, x: T, y: T)
    requires Forest(p, r) && x in p && y in p && r[x] < r[y]
    ensures Above(p, r, y) < Above(p, r, x)
  {
    assert y in Above(p, r, x) && y !in Above(p, r, y);
  }

  /** The representative of a node's class. */
  ghost function Root<T>(p: map<T, T>, r: map<T, nat>, x: T): (root: T)
    requires Forest(p, r) && x in p
    decreases Above(p, r, x)
  {
    assert LinkOk(p, r, x);
    if p[x] == x then x
    else
      AboveShrinks(p, r, x, p[x]);
      Root(p, r, p[x])
  }

  /** The label of a node is its parent's, and a root's is the root itself. */
  ghost predicate LabelOk<T>(cls: map<T, T>, p: map<T, T>, x: T) {
    x in p && x in cls && p[x] in cls && cls[p[x]] == cls[x] && (p[x] == x ==> cls[x] == x)
  }

  /** A labelling that is constant along parent links and fixes the roots. */
  ghost predicate Represents<T>(cls: map<T, T>, p: map<T, T>) {
    cls.Keys == p.Keys && forall x {:trigger LabelOk(cls, p, x)} :: x in p ==> LabelOk(cls, p, x)
  }

  /** In a forest there is one such labelling, and following parent links computes it. */
  lemma {:induction false} RootIsLabel<T>(p: map<T, T>, r: map<T, nat>, cls: map<T, T>, x: T)
    requires Forest(p, r) && Represents(cls, p) && x in p
    ensures Root(p, r, x) == cls[x]
    decreases Above(p, r, x)
  {
    assert LinkOk(p, r, x) && LabelOk(cls, p, x);
    if p[x] != x {
      AboveShrinks(p, r, x, p[x]);
      RootIsLabel(p, r, cls, p[x]);
    }
  }

  /** A representative is a root, represents itself, and outranks the other nodes of its class. */
  lemma {:induction false} RootFacts<T>(p: map<T, T>, r: map<T, nat>, cls: map<T, T>, x: T)
    requires Forest(p, r) && Represents(cls, p) && x in p
    ensures var c := cls[x]; c in p && p[c] == c && cls[c] == c && (c == x || r[x] < r[c])
    decreases Above(p, r, x)
  {
    assert LinkOk(p, r, x) && LabelOk(cls, p, x);
    if p[x] != x {
      AboveShrinks(p, r, x, p[x]);
      RootFacts(p, r, cls, p[x]);
    }
  }

  /** Path compression: pointing a node at its root changes no class. */
  lemma CompressKeepsClasses<T>(p: map<T, T>, r: map<T, nat>, cls: map<T, T>, x: T)
    requires Forest(p, r) && Represents(cls, p) && x in p
    ensures Forest(p[x := cls[x]], r) && Represents(cls, p[x := cls[x]])
  {
    var p' := p[x := cls[x]];
    RootFacts(p, r, cls, x);
    forall y | y in p' ensures LinkOk(p', r, y) && LabelOk(cls, p', y) {
      assert LinkOk(p, r, y) && LabelOk(cls, p, y);
    }
  }

  /** Raising the rank of root `b` above that of root `a` makes room for the link. */
  ghost predicate CanLink<T>(p: map<T, T>, r: map<T, nat>, r': map<T, nat>, a: T, b: T) {
    && a in p && b in p && p[a] == a && p[b] == b && a != b
    && r'.Keys == r.Keys == p.Keys && r'[a] < r'[b] && r[b] <= r'[b]
    && forall k :: k in r && k != b ==> r'[k] == r[k]
  }

  lemma LinkForest<T>(p: map<T, T>, r: map<T, nat>, r': map<T, nat>, a: T, b: T)
    requires Forest(p, r) && CanLink(p, r, r', a, b)
    ensures Forest(p[a := b], r')
  {
    var p' := p[a := b];
    forall y | y in p' ensures LinkOk(p', r', y) {
      assert LinkOk(p, r, y);
    }
  }

  /** Linking one root under another merges exactly their two classes. */
  lemma LinkMergesClasses<T>(p: map<T, T>, cls: map<T, T>, a: T, b: T)
    requires Represents(cls, p) && a in p && b in p && p[a] == a && p[b] == b
    ensures Represents(Merged(cls, a, b, b), p[a := b])
  {
    var p', m := p[a := b], Merged(cls, a, b, b);
    assert LabelOk(cls, p, a) && LabelOk(cls, p, b);
    forall y | y in p' ensures LabelOk(m, p', y) {
      assert LabelOk(cls, p, y);
    }
  }

  /** A new node is a class of its own. */
  lemma AddKeepsClasses<T>(p: map<T, T>, r: map<T, nat>, cls: map<T, T>, x: T)
    requires Forest(p, r) && Represents(cls, p) && x !in p
    ensures Forest(p[x := x], r[x := 0]) && Represents(cls[x := x], p[x := x])
    ensures forall y :: y in cls ==> cls[y] != x
  {
    var p', r', cls' := p[x := x], r[x := 0], cls[x := x];
    forall y | y in p' ensures LinkOk(p', r', y) && LabelOk(cls', p', y) {
      assert y != x ==> LinkOk(p, r, y) && LabelOk(cls, p, y);
    }
    forall y | y in cls ensures cls[y] != x {
      RootFacts(p, r, cls, y);
    }
  }

  // ---------------------------------------------------------------------
  // Connectivity
  // ---------------------------------------------------------------------

  ghost predicate Adjacent<T>(pairs: set<(T, T)>, x: T, y: T) { (x, y) in pairs || (y, x) in pairs }

  ghost predicate IsPath<T>(pairs: set<(T, T)>, path: seq<T>, x: T, y: T) {
    && path != [] && path[0] == x && path[|path| - 1] == y
    && forall i :: 0 <= i < |path| - 1 ==> Adjacent(pairs, path[i], path[i + 1])
  }

  /** Linked by a chain of the given pairs, in either direction. */
  ghost predicate Connected<T(!new)>(pairs: set<(T, T)>, x: T, y: T) {
    exists path :: IsPath(pairs, path, x, y)
  }

  lemma ConnectedRefl<T(!new)>(pairs: set<(T, T)>, x: T)
    ensures Connected(pairs, x, x)
  {
    assert IsPath(pairs, [x], x, x);
  }

  lemma ConnectedPair<T(!new)>(pairs: set<(T, T)>, x: T, y: T)
    requires Adjacent(pairs, x, y)
    ensures Connected(pairs, x, y)
  {
    assert IsPath(pairs, [x, y], x, y);
  }

  lemma ConnectedSym<T(!new)>(pairs: set<(T, T)>, x: T, y: T)
    requires Connected(pairs, x, y)
    ensures Connected(pairs, y, x)
  {
    var path :| IsPath(pairs, path, x, y);
    var rev := seq(|path|, i requires 0 <= i < |path| => path[|path| - 1 - i]);
    forall i | 0 <= i < |rev| - 1 ensures Adjacent(pairs, rev[i], rev[i + 1]) {
      assert Adjacent(pairs, path[|path| - 2 - i], path[|path| - 2 - i + 1]);
    }
    assert IsPath(pairs, rev, y, x);
  }

  lemma ConnectedTrans<T(!new)>(pairs: set<(T, T)>, x: T, y: T, z: T)
    requires Connected(pairs, x, y) && Connected(pairs, y, z)
    ensures Connected(pairs, x, z)
  {
    var a :| IsPath(pairs, a, x, y);
    var b :| IsPath(pairs, b, y, z);
    var path := a + b[1..];
    forall i | 0 <= i < |path| - 1 ensures Adjacent(pairs, path[i], path[i + 1]) {
      if i < |a| - 1 {
        assert Adjacent(pairs, a[i], a[i + 1]);
      } else {
        assert path[i] == b[i - |a| + 1] && path[i + 1] == b[i - |a| + 2];
      }
    }
    assert IsPath(pairs, path, x, z);
  }

  lemma ConnectedMono<T(!new)>(pairs: set<(T, T)>, pairs': set<(T, T)>, x: T, y: T)
    requires Connected(pairs, x, y) && pairs <= pairs'
    ensures Connected(pairs', x, y)
  {
    var path :| IsPath(pairs, path, x, y);
    assert IsPath(pairs', path, x, y);
  }

  /** `cls` labels nodes so that adjacent nodes share a label: then connected nodes do. */
  lemma {:induction false} LabelsFollowPaths<T(!new)>(pairs: set<(T, T)>, cls: map<T, T>, path: seq<T>, x: T, y: T)
    requires forall a, b :: (a, b) in pairs ==> a in cls && b in cls && cls[a] == cls[b]
    requires IsPath(pairs, path, x, y) && x in cls
    ensures y in cls && cls[y] == cls[x]
    decreases |path|
  {
    if |path| > 1 {
      assert Adjacent(pairs, path[0], path[0 + 1]);
      forall i | 0 <= i < |path[1..]| - 1 ensures Adjacent(pairs, path[1..][i], path[1..][i + 1]) {
        assert Adjacent(pairs, path[i + 1], path[i + 1 + 1]);
      }
      LabelsFollowPaths(pairs, cls, path[1..], path[1], y);
    }
  }

  /** Equal labels exactly for connected nodes. */
  ghost predicate Labels<T(!new)>(cls: map<T, T>, pairs: set<(T, T)>) {
    && (forall a, b :: (a, b) in pairs ==> a in cls && b in cls)
    && (forall x, y :: x in cls && y in cls ==> (cls[x] == cls[y] <==> Connected(pairs, x, y)))
  }

  /** The labelling after merging the classes of `a` and `b` under label `to`. */
  ghost function Merged<T>(cls: map<T, T>, a: T, b: T, to: T): (m: map<T, T>)
    requires a in cls && b in cls
  {
    map x | x in cls :: if cls[x] == cls[a] || cls[x] == cls[b] then to else cls[x]
  }

  /** Merging is symmetric in the two classes, and depends only on their labels. */
  lemma MergedSame<T>(cls: map<T, T>, a: T, b: T, a': T, b': T, to: T)
    requires a in cls && b in cls && a' in cls && b' in cls
    requires (cls[a] == cls[a'] && cls[b] == cls[b']) || (cls[a] == cls[b'] && cls[b] == cls[a'])
    ensures Merged(cls, a, b, to) == Merged(cls, a', b', to)
  {
  }

  lemma MergedLabels<T(!new)>(cls: map<T, T>, pairs: set<(T, T)>, a: T, b: T, to: T)
    requires Labels(cls, pairs) && a in cls && b in cls && (to == cls[a] || to == cls[b])
    ensures Labels(Merged(cls, a, b, to), pairs + {(a, b)})
  {
    var m, pairs' := Merged(cls, a, b, to), pairs + {(a, b)};
    forall u, v | (u, v) in pairs' ensures u in m && v in m && m[u] == m[v] {
      if (u, v) in pairs {
        ConnectedPair(pairs, u, v);
      }
    }
    forall x, y | x in m && y in m ensures m[x] == m[y] <==> Connected(pairs', x, y) {
      if Connected(pairs', x, y) {
        var path :| IsPath(pairs', path, x, y);
        LabelsFollowPaths(pairs', m, path, x, y);
      } else if m[x] == m[y] {
        MergedConnected(cls, pairs, a, b, to, x, y);
      }
    }
  }

  /** Nodes with one merged label are connected once the new pair is added. */
  lemma MergedConnected<T(!new)>(cls: map<T, T>, pairs: set<(T, T)>, a: T, b: T, to: T, x: T, y: T)
    requires Labels(cls, pairs) && a in cls && b in cls && (to == cls[a] || to == cls[b])
    requires x in cls && y in cls && Merged(cls, a, b, to)[x] == Merged(cls, a, b, to)[y]
    ensures Connected(pairs + {(a, b)}, x, y)
  {
    var pairs' := pairs + {(a, b)};
    if cls[x] == cls[y] {
      ConnectedMono(pairs, pairs', x, y);
    } else {
      ToEnd(cls, pairs, a, b, x);
      ToEnd(cls, pairs, a, b, y);
      ConnectedSym(pairs', y, a);
      ConnectedTrans(pairs', x, a, y);
    }
  }

  /** Every node of either merged class reaches `a` through the new pair. */
  lemma ToEnd<T(!new)>(cls: map<T, T>, pairs: set<(T, T)>, a: T, b: T, x: T)
    requires Labels(cls, pairs) && a in cls && b in cls && x in cls && (cls[x] == cls[a] || cls[x] == cls[b])
    ensures Connected(pairs + {(a, b)}, x, a)
  {
    var pairs' := pairs + {(a, b)};
    if cls[x] == cls[a] {
      ConnectedMono(pairs, pairs', x, a);
    } else {
      ConnectedMono(pairs, pairs', x, b);
      ConnectedPair(pairs', b, a);
      ConnectedTrans(pairs', x, b, a);
    }
  }

  lemma AddedLabels<T(!new)>(cls: map<T, T>, pairs: set<(T, T)>, x: T)
    requires Labels(cls, pairs) && x !in cls && (forall y :: y in cls ==> cls[y] != x)
    ensures Labels(cls[x := x], pairs)
  {
    ConnectedRefl(pairs, x);
    forall y | y in cls ensures !Connected(pairs, x, y) && !Connected(pairs, y, x) {
      if Connected(pairs, y, x) {
        var path :| IsPath(pairs, path, y, x);
        LabelsFollowPathsEqual(cls, pairs);
        LabelsFollowPaths(pairs, cls, path, y, x);
      }
      if Connected(pairs, x, y) {
        ConnectedSym(pairs, x, y);
      }
    }
  }

  lemma LabelsFollowPathsEqual<T(!new)>(cls: map<T, T>, pairs: set<(T, T)>)
    requires Labels(cls, pairs)
    ensures forall a, b :: (a, b) in pairs ==> a in cls && b in cls && cls[a] == cls[b]
  {
    forall a, b | (a, b) in pairs ensures cls[a] == cls[b] {
      ConnectedPair(pairs, a, b);
    }
  }

  // ---------------------------------------------------------------------
  // The structure
  // ---------------------------------------------------------------------

  class Sets<T(==, !new)> {
    /** The keys of `parent` in insertion order, as a JavaScript Map keeps them. */
    var keys: seq<T>
    var parent: map<T, T>
    var rank: map<T, nat>
    /** The representative of every node. */
    ghost var cls: map<T, T>
    /** Every pair united so far. */
    ghost var united: set<(T, T)>

    /** A forest with rising ranks, whose roots are the representatives. */
    ghost predicate Shaped()
      reads this
    {
      && Forest(parent, rank) && Represents(cls, parent)
      && Distinct(keys) && parent.Keys == (set x | x in keys)
    }

    /** Two nodes have one representative exactly when united pairs link them. */
    ghost predicate Valid()
      reads this
    {
      Shaped() && Labels(cls, united)
    }

    constructor ()
      ensures Valid() && keys == [] && united == {}
    {
      keys, parent, rank := [], map[], map[];
      cls, united := map[], {};
    }

    method Add(x: T)
      requires Valid()
      modifies this
      ensures Valid() && united == old(united) && keys == WithKey(old(keys), x)
      ensures cls == (if x in old(cls) then old(cls) else old(cls)[x := x]) && cls.Keys == old(cls).Keys + {x}
    {
      if x !in parent {
        AddKeepsClasses(parent, rank, cls, x);
        AddedLabels(cls, united, x);
        keys := keys + [x];
        parent := parent[x := x];
        rank := rank[x := 0];
        cls := cls[x := x];
      }
    }

    /** Returns the representative; compresses the path; changes no class. */
    method Find(x: T) returns (root: T)
      requires Valid()
      modifies this
      ensures Valid() && united == old(united) && keys == WithKey(old(keys), x)
      ensures cls == if x in old(cls) then old(cls) else old(cls)[x := x]
      ensures x in cls && root == cls[x] && x in parent && parent[x] == root
    {
      Add(x);
      root := Climb(x);
      ghost var _ := Compress(x, root);
    }

    /** Follows parent links up to the root. */
    method Climb(x: T) returns (root: T)
      requires Valid() && x in parent
      ensures root == cls[x]
    {
      root := x;
      while parent[root] != root
        invariant root in parent && cls[root] == cls[x]
        decreases Above(parent, rank, root)
      {
        assert LinkOk(parent, rank, root) && LabelOk(cls, parent, root);
        AboveShrinks(parent, rank, root, parent[root]);
        root := parent[root];
      }
      assert LabelOk(cls, parent, root);
    }

    /** Points every node on the path from `x` at its root, and moves no other link. */
    method Compress(x: T, root: T) returns (ghost path: set<T>)
      requires Valid() && x in parent && root == cls[x]
      modifies this`parent
      ensures Valid() && Compressed(old(parent), parent, x, root, path)
    {
      var cur := x;
      path := {};
      while parent[cur] != root
        invariant Valid() && cur in parent && cls[cur] == root
        invariant Compressing(old(parent), parent, rank, x, cur, root, path)
        decreases Above(parent, rank, cur)
      {
        var next := parent[cur];
        assert LinkOk(parent, rank, cur) && LabelOk(cls, parent, cur);
        AboveShrinks(parent, rank, cur, next);
        CompressKeepsClasses(parent, rank, cls, cur);
        parent := parent[cur := root];
        path := path + {cur};
        cur := next;
      }
      path := path + {cur};
    }

    /** True exactly when two separate classes were merged. */
    method Union(a: T, b: T) returns (merged: bool)
      requires Valid()
      modifies this
      ensures Valid() && united == old(united) + {(a, b)}
      ensures keys == WithKey(WithKey(old(keys), a), b) && cls.Keys == old(cls).Keys + {a, b}
      ensures merged <==> !Connected(old(united), a, b)
    {
      var ra := Find(a);
      var rb := Find(b);
      assert cls.Keys == old(cls).Keys + {a, b} && cls[a] == ra;
      merged := Unite(a, b, ra, rb);
    }

    /** Merges the classes of two nodes whose representatives are known. */
    method Unite(a: T, b: T, ra: T, rb: T) returns (merged: bool)
      requires Valid() && a in cls && b in cls && ra == cls[a] && rb == cls[b]
      modifies this`parent, this`rank, this`cls, this`united
      ensures Valid() && united == old(united) + {(a, b)} && cls.Keys == old(cls).Keys
      ensures merged <==> !Connected(old(united), a, b)
    {
      merged := ra != rb;
      RootFacts(parent, rank, cls, a);
      RootFacts(parent, rank, cls, b);
      ghost var before, top := cls, TopRoot(rank, ra, rb);
      if merged {
        Link(ra, rb);
      }
      UnitedLabels(before, cls, united, a, b, top, merged);
      united := united + {(a, b)};
    }

    /** Hangs the root of lower rank under the other; on a tie the first root wins and its rank grows. */
    method Link(ra: T, rb: T)
      requires Shaped() && ra in parent && rb in parent && parent[ra] == ra && parent[rb] == rb && ra != rb
      modifies this`parent, this`rank, this`cls
      ensures Shaped() && ra in old(cls) && rb in old(cls)
      ensures cls == Merged(old(cls), ra, rb, TopRoot(old(rank), ra, rb)) && cls.Keys == old(cls).Keys
    {
      if rank[ra] < rank[rb] {
        LinkForest(parent, rank, rank, ra, rb);
        LinkMergesClasses(parent, cls, ra, rb);
        parent := parent[ra := rb];
        cls := Merged(cls, ra, rb, rb);
      } else {
        MergedSame(cls, ra, rb, rb, ra, ra);
        LinkForest(parent, rank, if rank[ra] == rank[rb] then rank[ra := rank[ra] + 1] else rank, rb, ra);
        LinkMergesClasses(parent, cls, rb, ra);
        parent := parent[rb := ra];
        if rank[ra] == rank[rb] {
          rank := rank[ra := rank[ra] + 1];
        }
        cls := Merged(cls, rb, ra, ra);
      }
    }

    /** `Find` on a node already present: only parent links may move. */
    method FindKnown(x: T) returns (root: T)
      requires Valid() && x in keys
      modifies this
      ensures Valid() && united == old(united) && keys == old(keys) && cls == old(cls)
      ensures x in cls && root == cls[x]
    {
      root := Find(x);
    }

    /** Groups the nodes by representative, in order of first appearance. */
    method Components() returns (roots: seq<T>, groups: map<T, seq<T>>)
      requires Valid()
      modifies this
      ensures Valid() && united == old(united) && keys == old(keys) && cls == old(cls)
      ensures Grouped(keys, cls, roots, groups)
    {
      roots, groups := [], map[];
      var i := 0;
      while i < |keys|
        invariant i <= |keys| && Valid() && united == old(united) && keys == old(keys) && cls == old(cls)
        invariant Grouped(keys[..i], cls, roots, groups)
      {
        var root := FindKnown(keys[i]);
        roots, groups := PutNode(keys, i, cls, roots, groups, root);
        i := i + 1;
      }
      assert keys[..i] == keys;
    }
  }

  /** Appends node i to its representative's group, opening the group if need be. */
  method PutNode<T(!new, ==)>(keys: seq<T>, i: nat, ghost cls: map<T, T>, roots: seq<T>, groups: map<T, seq<T>>,
                   root: T)
    returns (roots': seq<T>, groups': map<T, seq<T>>)
    requires i < |keys| && Grouped(keys[..i], cls, roots, groups) && keys[i] in cls && root == cls[keys[i]]
    ensures Grouped(keys[..i + 1], cls, roots', groups')
  {
    GroupedStep(keys[..i], keys[i], cls, roots, groups);
    assert keys[..i + 1] == keys[..i] + [keys[i]];
    var bucket := if root in groups then groups[root] else [];
    roots' := if root in groups then roots else roots + [root];
    groups' := groups[root := bucket + [keys[i]]];
  }

  /** The nodes from `x` up to the root, all of which now point at the root. */
  ghost predicate Compressed<T>(before: map<T, T>, after: map<T, T>, x: T, root: T, path: set<T>) {
    && after.Keys == before.Keys && x in path && path <= before.Keys
    && (forall y :: y in path ==> after[y] == root && (before[y] == root || before[y] in path))
    && (forall y :: y in before && y !in path ==> after[y] == before[y])
  }

  /** The same halfway: the nodes below `cur` are done. */
  ghost predicate Compressing<T>(before: map<T, T>, now: map<T, T>, rank: map<T, nat>, x: T, cur: T, root: T,
                                 path: set<T>) {
    && now.Keys == before.Keys == rank.Keys && cur in now && path <= before.Keys && (x in path || x == cur)
    && (forall y :: y in path ==> now[y] == root && rank[y] < rank[cur] && (before[y] == cur || before[y] in path))
    && (forall y :: y in before && y !in path ==> now[y] == before[y])
  }

  /** One non-empty group per representative, holding its nodes in insertion order. */
  ghost predicate Grouped<T(!new)>(keys: seq<T>, cls: map<T, T>, roots: seq<T>, groups: map<T, seq<T>>) {
    RootsListed(roots, groups) && NodesGrouped(keys, cls, groups) && GroupsExact(keys, cls, groups)
  }

  /** `roots` lists the keys of the map once each. */
  ghost predicate RootsListed<T(!new)>(roots: seq<T>, groups: map<T, seq<T>>) {
    Distinct(roots) && forall r :: r in roots <==> r in groups
  }

  ghost predicate NodesGrouped<T(!new)>(keys: seq<T>, cls: map<T, T>, groups: map<T, seq<T>>) {
    forall k :: k in keys ==> k in cls && cls[k] in groups
  }

  ghost predicate GroupsExact<T(!new)>(keys: seq<T>, cls: map<T, T>, groups: map<T, seq<T>>) {
    forall r :: r in groups ==> groups[r] != [] && groups[r] == Members(keys, cls, r)
  }

  lemma RootsStep<T(!new)>(roots: seq<T>, groups: map<T, seq<T>>, root: T, group: seq<T>)
    requires RootsListed(roots, groups)
    ensures RootsListed(if root in groups then roots else roots + [root], groups[root := group])
  {
  }

  lemma NodesStep<T(!new)>(keys: seq<T>, x: T, cls: map<T, T>, groups: map<T, seq<T>>, group: seq<T>)
    requires NodesGrouped(keys, cls, groups) && x in cls
    ensures NodesGrouped(keys + [x], cls, groups[cls[x] := group])
  {
  }

  lemma GroupsStep<T(!new)>(keys: seq<T>, x: T, cls: map<T, T>, groups: map<T, seq<T>>)
    requires NodesGrouped(keys, cls, groups) && GroupsExact(keys, cls, groups) && x in cls
    ensures GroupsExact(keys + [x], cls, groups[cls[x] := (if cls[x] in groups then groups[cls[x]] else []) + [x]])
  {
    var root := cls[x];
    var groups' := groups[root := (if root in groups then groups[root] else []) + [x]];
    forall r | r in groups' ensures groups'[r] != [] && groups'[r] == Members(keys + [x], cls, r) {
      GroupStep(keys, x, cls, groups, r);
    }
  }

  lemma GroupedStep<T(!new)>(keys: seq<T>, x: T, cls: map<T, T>, roots: seq<T>, groups: map<T, seq<T>>)
    requires Grouped(keys, cls, roots, groups) && x in cls
    ensures
      var root := cls[x];
      var bucket := if root in groups then groups[root] else [];
      Grouped(keys + [x], cls, if root in groups then roots else roots + [root], groups[root := bucket + [x]])
  {
    var group := (if cls[x] in groups then groups[cls[x]] else []) + [x];
    RootsStep(roots, groups, cls[x], group);
    NodesStep(keys, x, cls, groups, group);
    GroupsStep(keys, x, cls, groups);
  }

  lemma GroupStep<T(!new)>(keys: seq<T>, x: T, cls: map<T, T>, groups: map<T, seq<T>>, r: T)
    requires x in cls && (r in groups || r == cls[x])
    requires NodesGrouped(keys, cls, groups) && GroupsExact(keys, cls, groups)
    ensures Members(keys + [x], cls, r) == (if r in groups then groups[r] else []) + if r == cls[x] then [x] else []
  {
    MembersStep(keys, x, cls, r);
    if r !in groups {
      NoMembers(keys, cls, r);
    }
  }

  lemma MembersStep<T>(keys: seq<T>, x: T, cls: map<T, T>, r: T)
    requires x in cls
    ensures Members(keys + [x], cls, r) == Members(keys, cls, r) + if r == cls[x] then [x] else []
  {
    assert (keys + [x])[..|keys|] == keys;
  }

  lemma NoMembers<T>(keys: seq<T>, cls: map<T, T>, r: T)
    requires forall k :: k in keys ==> k in cls && cls[k] != r
    ensures Members(keys, cls, r) == []
  {
    FilterNone(keys, InClass(cls, r));
  }

  /** The nodes with representative `r`, in insertion order. */
  ghost function Members<T>(keys: seq<T>, cls: map<T, T>, r: T): (s: seq<T>) {
    Filter(keys, InClass(cls, r))
  }

  ghost function InClass<T>(cls: map<T, T>, r: T): (p: T -> bool) {
    k => k in cls && cls[k] == r
  }

  lemma MembersSpec<T>(keys: seq<T>, cls: map<T, T>, r: T)
    requires Distinct(keys)
    ensures Distinct(Members(keys, cls, r))
    ensures forall x :: x in Members(keys, cls, r) <==> x in keys && x in cls && cls[x] == r
  {
    FilterDistinct(keys, InClass(cls, r));
    forall x ensures x in Members(keys, cls, r) <==> x in keys && x in cls && cls[x] == r {
      FilterMember(keys, InClass(cls, r), x);
    }
  }

  /** The root that stays a root when two are linked. */
  ghost function TopRoot<T>(r: map<T, nat>, ra: T, rb: T): (top: T) {
    if ra in r && rb in r && r[ra] < r[rb] then rb else ra
  }

  /** One union step on labels: nothing changes, or the classes of `a` and `b` become one. */
  lemma UnitedLabels<T(!new)>(cls: map<T, T>, cls': map<T, T>, pairs: set<(T, T)>, a: T, b: T, to: T, merged: bool)
    requires Labels(cls, pairs) && a in cls && b in cls && merged == (cls[a] != cls[b])
    requires cls[a] in cls && cls[b] in cls && cls[cls[a]] == cls[a] && cls[cls[b]] == cls[b]
    requires !merged ==> cls' == cls
    requires merged ==> (to == cls[a] || to == cls[b]) && cls' == Merged(cls, cls[a], cls[b], to)
    ensures Labels(cls', pairs + {(a, b)})
    ensures merged <==> !Connected(pairs, a, b)
  {
    if merged {
      MergedSame(cls, cls[a], cls[b], a, b, to);
      MergedLabels(cls, pairs, a, b, to);
    } else {
      MergedLabels(cls, pairs, a, b, cls[a]);
      assert Merged(cls, a, b, cls[a]) == cls;
    }
  }

  /** Insertion order after touching `x`. */
  ghost function WithKey<T>(keys: seq<T>, x: T): (r: seq<T>) {
    if x in keys then keys else keys + [x]
  }
}
