/** Sequence helpers shared by the models: filtering, sums, and the stable sort behind `Array.prototype.sort`. */
module Sequences {

  /** Keeps the elements that satisfy `p`, in order. */
  function Filter<T>(s: seq<T>, p: T -> bool): (r: seq<T>)
  {
    if s == [] then []
    else Filter(s[..|s| - 1], p) + if p(s[|s| - 1]) then [s[|s| - 1]] else []
  }

  lemma {:induction false} FilterAppend<T>(a: seq<T>, b: seq<T>, p: T -> bool)
    ensures Filter(a + b, p) == Filter(a, p) + Filter(b, p)
  {
    if b == [] {
      assert a + b == a;
    } else {
      assert (a + b)[..|a + b| - 1] == a + b[..|b| - 1];
      FilterAppend(a, b[..|b| - 1], p);
    }
  }

  lemma FilterStep<T>(s: seq<T>, n: nat, p: T -> bool)
    requires n < |s|
    ensures Filter(s[..n + 1], p) == Filter(s[..n], p) + if p(s[n]) then [s[n]] else []
  {
    assert s[..n + 1][..n] == s[..n];
  }

  /** Exactly the satisfying elements survive, each as often as before. */
  lemma {:induction false} FilterMultiset<T>(s: seq<T>, p: T -> bool)
    ensures forall x :: multiset(Filter(s, p))[x] == if p(x) then multiset(s)[x] else 0
  {
    if s != [] {
      assert s == s[..|s| - 1] + [s[|s| - 1]];
      FilterMultiset(s[..|s| - 1], p);
    }
  }

  lemma FilterMember<T>(s: seq<T>, p: T -> bool, x: T)
    ensures x in Filter(s, p) <==> x in s && p(x)
  {
    FilterMultiset(s, p);
    assert x in Filter(s, p) <==> multiset(Filter(s, p))[x] > 0;
    assert x in s <==> multiset(s)[x] > 0;
  }

  /** Filtering twice is filtering once, when the second test implies the first. */
  lemma {:induction false} FilterNarrow<T>(s: seq<T>, p: T -> bool, q: T -> bool)
    requires forall x :: x in s && q(x) ==> p(x)
    ensures Filter(Filter(s, p), q) == Filter(s, q)
  {
    if s != [] {
      var init, last := s[..|s| - 1], s[|s| - 1];
      FilterNarrow(init, p, q);
      FilterAppend(Filter(init, p), if p(last) then [last] else [], q);
      assert Filter([last], q) == if q(last) then [last] else [];
    }
  }

  lemma {:induction false} FilterAll<T>(s: seq<T>, p: T -> bool)
    requires forall x :: x in s ==> p(x)
    ensures Filter(s, p) == s
  {
    if s != [] {
      assert s == s[..|s| - 1] + [s[|s| - 1]];
      FilterAll(s[..|s| - 1], p);
    }
  }

  lemma {:induction false} FilterNone<T>(s: seq<T>, p: T -> bool)
    requires forall x :: x in s ==> !p(x)
    ensures Filter(s, p) == []
  {
    if s != [] {
      FilterNone(s[..|s| - 1], p);
    }
  }

  lemma {:induction false} FilterDistinct<T>(s: seq<T>, p: T -> bool)
    requires Distinct(s)
    ensures Distinct(Filter(s, p))
  {
    if s != [] {
      FilterDistinct(s[..|s| - 1], p);
      FilterMember(s[..|s| - 1], p, s[|s| - 1]);
    }
  }

  lemma {:induction false} FilterSame<T>(s: seq<T>, p: T -> bool, q: T -> bool)
    requires forall x :: x in s ==> p(x) == q(x)
    ensures Filter(s, p) == Filter(s, q)
  {
    if s != [] {
      FilterSame(s[..|s| - 1], p, q);
    }
  }

  ghost predicate Distinct<T>(s: seq<T>) {
    forall i, j :: 0 <= i < j < |s| ==> s[i] != s[j]
  }

  /** Two duplicate-free sequences with the same elements have the same multiset. */
  lemma DistinctMultiset<T>(s: seq<T>, x: T)
    requires Distinct(s)
    ensures multiset(s)[x] == if x in s then 1 else 0
  {
    if x in s {
      var i :| 0 <= i < |s| && s[i] == x;
      SplitIndex(s, i);
    }
  }

  lemma RepeatCounts<T>(s: seq<T>, i: nat, j: nat)
    requires i < j < |s| && s[i] == s[j]
    ensures multiset(s)[s[i]] >= 2
  {
    SplitIndex(s, j);
    assert s[..j][i] == s[i];
    assert s[i] in s[..j];
  }

  lemma SameElementsSameMultiset<T>(a: seq<T>, b: seq<T>)
    requires Distinct(a) && Distinct(b)
    requires forall x :: x in a <==> x in b
    ensures multiset(a) == multiset(b)
  {
    forall x ensures multiset(a)[x] == multiset(b)[x] {
      DistinctMultiset(a, x);
      DistinctMultiset(b, x);
    }
  }

  // ---------------------------------------------------------------------
  // Weighted sums
  // ---------------------------------------------------------------------

  function Sum<T>(s: seq<T>, w: T -> int): (r: int)
  {
    if s == [] then 0 else Sum(s[..|s| - 1], w) + w(s[|s| - 1])
  }

  lemma {:induction false} SumAppend<T>(a: seq<T>, b: seq<T>, w: T -> int)
    ensures Sum(a + b, w) == Sum(a, w) + Sum(b, w)
  {
    if b == [] {
      assert a + b == a;
    } else {
      assert (a + b)[..|a + b| - 1] == a + b[..|b| - 1];
      SumAppend(a, b[..|b| - 1], w);
    }
  }

  /** A sum does not depend on the order of its terms. */
  lemma {:induction false} SumPermutation<T>(a: seq<T>, b: seq<T>, w: T -> int)
    requires multiset(a) == multiset(b)
    ensures Sum(a, w) == Sum(b, w)
    decreases |a|
  {
    assert |a| == |multiset(a)| == |multiset(b)| == |b|;
    if a != [] {
      var init, last := a[..|a| - 1], a[|a| - 1];
      assert last in multiset(a);
      var i := IndexOf(b, last);
      RemoveAt(b, i, w);
      RemoveAt(a, |a| - 1, w);
      assert a[..|a| - 1] + a[|a|..] == init;
      SumPermutation(init, b[..i] + b[i + 1..], w);
    }
  }

  lemma IndexOf<T>(s: seq<T>, x: T) returns (i: nat)
    requires x in multiset(s)
    ensures i < |s| && s[i] == x
  {
    assert x in s;
    i :| i < |s| && s[i] == x;
  }

  lemma RemoveAt<T>(s: seq<T>, i: nat, w: T -> int)
    requires i < |s|
    ensures multiset(s[..i] + s[i + 1..]) == multiset(s) - multiset{s[i]}
    ensures Sum(s, w) == Sum(s[..i] + s[i + 1..], w) + w(s[i])
  {
    SplitIndex(s, i);
    RemoveMiddle(s[..i], s[i], s[i + 1..], w);
  }

  lemma SplitIndex<T>(s: seq<T>, i: nat)
    requires i < |s|
    ensures s == (s[..i] + [s[i]]) + s[i + 1..]
  {
  }

  lemma RemoveMiddle<T>(a: seq<T>, x: T, b: seq<T>, w: T -> int)
    ensures multiset(a + b) == multiset((a + [x]) + b) - multiset{x}
    ensures Sum((a + [x]) + b, w) == Sum(a + b, w) + w(x)
  {
    SumAppend(a + [x], b, w);
    SumAppend(a, b, w);
    assert (a + [x])[..|a|] == a;
  }

  // ---------------------------------------------------------------------
  // Stable sort
  // ---------------------------------------------------------------------

  ghost predicate TotalPreorder<T(!new)>(le: (T, T) -> bool) {
    && (forall x, y :: le(x, y) || le(y, x))
    && (forall x, y, z :: le(x, y) && le(y, z) ==> le(x, z))
  }

  ghost predicate Ordered<T>(s: seq<T>, le: (T, T) -> bool) {
    forall i, j :: 0 <= i < j < |s| ==> le(s[i], s[j])
  }

  /** Puts `x` after the last element that may stand before it. */
  function Insert<T>(s: seq<T>, x: T, le: (T, T) -> bool): (r: seq<T>)
    ensures multiset(r) == multiset(s) + multiset{x}
  {
    if s == [] || le(s[|s| - 1], x) then s + [x]
    else
      assert s == s[..|s| - 1] + [s[|s| - 1]];
      Insert(s[..|s| - 1], x, le) + [s[|s| - 1]]
  }

  /** The stable sort by `le`. */
  function Sort<T>(s: seq<T>, le: (T, T) -> bool): (r: seq<T>)
    ensures multiset(r) == multiset(s)
  {
    if s == [] then []
    else
      assert s == s[..|s| - 1] + [s[|s| - 1]];
      Insert(Sort(s[..|s| - 1], le), s[|s| - 1], le)
  }

  lemma SortMember<T>(s: seq<T>, le: (T, T) -> bool, x: T)
    ensures x in Sort(s, le) <==> x in s
    ensures |Sort(s, le)| == |s|
  {
    assert x in Sort(s, le) <==> x in multiset(Sort(s, le));
    assert x in s <==> x in multiset(s);
    assert |Sort(s, le)| == |multiset(Sort(s, le))| == |multiset(s)|;
  }

  lemma {:induction false} InsertOrdered<T(!new)>(s: seq<T>, x: T, le: (T, T) -> bool)
    requires TotalPreorder(le) && Ordered(s, le)
    ensures Ordered(Insert(s, x, le), le)
  {
    if s == [] {
    } else if le(s[|s| - 1], x) {
      forall i | 0 <= i < |s| ensures le(s[i], x) {
        if i < |s| - 1 {
          assert le(s[i], s[|s| - 1]);
        }
      }
    } else {
      var init, last := s[..|s| - 1], s[|s| - 1];
      InsertOrdered(init, x, le);
      var r := Insert(init, x, le);
      forall i | 0 <= i < |r| ensures le(r[i], last) {
        assert r[i] in multiset(r);
        assert r[i] == x || r[i] in init;
        assert le(x, last);
      }
    }
  }

  lemma {:induction false} SortOrdered<T(!new)>(s: seq<T>, le: (T, T) -> bool)
    requires TotalPreorder(le)
    ensures Ordered(Sort(s, le), le)
  {
    if s != [] {
      SortOrdered(s[..|s| - 1], le);
      InsertOrdered(Sort(s[..|s| - 1], le), s[|s| - 1], le);
    }
  }

  /** Sorting what is already in order changes nothing. */
  lemma {:induction false} SortOfOrdered<T>(s: seq<T>, le: (T, T) -> bool)
    requires Ordered(s, le)
    ensures Sort(s, le) == s
  {
    if s != [] {
      SortOfOrdered(s[..|s| - 1], le);
    }
  }

  lemma SplitLast<T>(a: seq<T>, b: seq<T>)
    requires b != []
    ensures a + b == a + b[..|b| - 1] + [b[|b| - 1]]
  {
  }

  lemma SortLast<T>(s: seq<T>, x: T, le: (T, T) -> bool)
    ensures Sort(s + [x], le) == Insert(Sort(s, le), x, le)
  {
    assert (s + [x])[..|s + [x]| - 1] == s;
  }

  /** Sorting a prefix first makes no difference: this is where stability is used. */
  lemma {:induction false} SortPrefix<T>(a: seq<T>, a': seq<T>, b: seq<T>, le: (T, T) -> bool)
    requires Sort(a, le) == Sort(a', le)
    ensures Sort(a + b, le) == Sort(a' + b, le)
  {
    if b == [] {
      assert a + b == a && a' + b == a';
    } else {
      var init, last := b[..|b| - 1], b[|b| - 1];
      SortPrefix(a, a', init, le);
      SplitLast(a, b);
      SplitLast(a', b);
      SortLast(a + init, last, le);
      SortLast(a' + init, last, le);
    }
  }

  lemma SortAbsorbs<T(!new)>(a: seq<T>, b: seq<T>, le: (T, T) -> bool)
    requires TotalPreorder(le)
    ensures Sort(Sort(a, le) + b, le) == Sort(a + b, le)
  {
    SortOrdered(a, le);
    SortOfOrdered(Sort(a, le), le);
    SortPrefix(Sort(a, le), a, b, le);
  }

  /** A strict order has one arrangement: two ordered permutations of distinct elements are equal. */
  lemma {:induction false} OrderedUnique<T(!new)>(a: seq<T>, b: seq<T>, le: (T, T) -> bool)
    requires Ordered(a, le) && Ordered(b, le) && multiset(a) == multiset(b)
    requires forall x, y :: le(x, y) && le(y, x) ==> x == y
    ensures a == b
  {
    assert |a| == |multiset(a)| == |multiset(b)| == |b|;
    if a != [] {
      var last := OrderedLast(a, b, le);
      DropLast(a);
      DropLast(b);
      OrderedUnique(a[..|a| - 1], b[..|b| - 1], le);
    }
  }

  lemma DropLast<T>(s: seq<T>)
    requires s != []
    ensures s == s[..|s| - 1] + [s[|s| - 1]]
    ensures multiset(s[..|s| - 1]) == multiset(s) - multiset{s[|s| - 1]}
  {
    assert s == s[..|s| - 1] + [s[|s| - 1]];
  }

  lemma OrderedLast<T(!new)>(a: seq<T>, b: seq<T>, le: (T, T) -> bool) returns (last: T)
    requires |a| == |b| > 0 && Ordered(a, le) && Ordered(b, le) && multiset(a) == multiset(b)
    requires forall x, y :: le(x, y) && le(y, x) ==> x == y
    ensures a[|a| - 1] == last == b[|b| - 1]
  {
    var n := |a| - 1;
    last := a[n];
    assert a[n] in multiset(b) && b[n] in multiset(a);
    var i :| 0 <= i < |b| && b[i] == a[n];
    var j :| 0 <= j < |a| && a[j] == b[n];
    if i < n && j < n {
      assert le(b[i], b[n]) && le(a[j], a[n]);
    }
  }
}
