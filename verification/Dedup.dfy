/** Keeping the first element of each key, in order. */
module Dedup {
  import opened Sequences

  ghost function Keys<E, K>(es: seq<E>, key: E -> K): (s: set<K>) { set e | e in es :: key(e) }

  /** The elements whose key is new, each key once. */
  function Fresh<E, K(==)>(seen: set<K>, es: seq<E>, key: E -> K): (r: seq<E>)
    decreases |es|
  {
    if es == [] then []
    else (if key(es[0]) in seen then [] else [es[0]]) + Fresh(seen + {key(es[0])}, es[1..], key)
  }

  ghost predicate KeysDiffer<E, K>(es: seq<E>, key: E -> K) {
    forall i, j :: 0 <= i < j < |es| ==> key(es[i]) != key(es[j])
  }

  lemma KeysSplit<E, K>(es: seq<E>, key: E -> K)
    requires es != []
    ensures Keys(es, key) == {key(es[0])} + Keys(es[1..], key)
  {
    assert es == [es[0]] + es[1..];
  }

  lemma FreshCons<E, K>(seen: set<K>, e: E, rest: seq<E>, key: E -> K)
    ensures Fresh(seen, [e] + rest, key) == (if key(e) in seen then [] else [e]) + Fresh(seen + {key(e)}, rest, key)
  {
    assert ([e] + rest)[1..] == rest;
  }

  lemma SplitFirst<E>(a: seq<E>, b: seq<E>)
    requires a != []
    ensures a == [a[0]] + a[1..] && a + b == [a[0]] + (a[1..] + b)
  {
  }

  lemma {:induction false} FreshAppend<E, K>(seen: set<K>, a: seq<E>, b: seq<E>, key: E -> K)
    ensures Fresh(seen, a + b, key) == Fresh(seen, a, key) + Fresh(seen + Keys(a, key), b, key)
    decreases |a|
  {
    if a == [] {
      assert a + b == b && seen + Keys(a, key) == seen;
    } else {
      var seen' := seen + {key(a[0])};
      SplitFirst(a, b);
      FreshCons(seen, a[0], a[1..] + b, key);
      FreshCons(seen, a[0], a[1..], key);
      FreshAppend(seen', a[1..], b, key);
      KeysSplit(a, key);
      assert seen' + Keys(a[1..], key) == seen + Keys(a, key);
    }
  }

  /** Offering one more element. */
  lemma FreshLast<E, K>(seen: set<K>, es: seq<E>, e: E, key: E -> K)
    ensures Fresh(seen, es + [e], key) == Fresh(seen, es, key) + if key(e) in seen + Keys(es, key) then [] else [e]
    ensures Keys(es + [e], key) == Keys(es, key) + {key(e)}
  {
    FreshAppend(seen, es, [e], key);
    OneFresh(seen + Keys(es, key), e, key);
  }

  lemma OneFresh<E, K>(seen: set<K>, e: E, key: E -> K)
    ensures Fresh(seen, [e], key) == if key(e) in seen then [] else [e]
  {
    assert [e][1..] == [];
  }

  /** Nothing is new in what was already seen. */
  lemma {:induction false} FreshNone<E, K>(seen: set<K>, es: seq<E>, key: E -> K)
    requires Keys(es, key) <= seen
    ensures Fresh(seen, es, key) == []
    decreases |es|
  {
    if es != [] {
      KeysSplit(es, key);
      FreshNone(seen + {key(es[0])}, es[1..], key);
    }
  }

  /** Elements with keys already seen can be left out in the middle. */
  lemma FreshRedelivered<E, K>(a: seq<E>, b: seq<E>, c: seq<E>, key: E -> K)
    requires Keys(b, key) <= Keys(a, key)
    ensures Fresh({}, a + b + c, key) == Fresh({}, a + c, key)
  {
    FreshAppend({}, a + b, c, key);
    FreshAppend({}, a, b, key);
    FreshAppend({}, a, c, key);
    FreshNone({} + Keys(a, key), b, key);
    KeysAppend(a, b, key);
    assert {} + Keys(a + b, key) == {} + Keys(a, key);
  }

  lemma KeysAppend<E, K>(a: seq<E>, b: seq<E>, key: E -> K)
    ensures Keys(a + b, key) == Keys(a, key) + Keys(b, key)
  {
  }

  lemma {:induction false} FreshAll<E, K>(seen: set<K>, es: seq<E>, key: E -> K)
    requires KeysDiffer(es, key) && Keys(es, key) !! seen
    ensures Fresh(seen, es, key) == es
    decreases |es|
  {
    if es != [] {
      KeysSplit(es, key);
      assert key(es[0]) in Keys(es, key);
      assert key(es[0]) !in Keys(es[1..], key);
      FreshAll(seen + {key(es[0])}, es[1..], key);
      assert es == [es[0]] + es[1..];
    }
  }

  lemma {:induction false} FreshSpec<E, K>(seen: set<K>, es: seq<E>, key: E -> K)
    ensures KeysDiffer(Fresh(seen, es, key), key)
    ensures Keys(Fresh(seen, es, key), key) == Keys(es, key) - seen
    ensures forall e :: e in Fresh(seen, es, key) ==> e in es
    decreases |es|
  {
    if es != [] {
      KeysSplit(es, key);
      var rest := Fresh(seen + {key(es[0])}, es[1..], key);
      FreshSpec(seen + {key(es[0])}, es[1..], key);
      PrependDiffers(es[0], rest, key);
      assert Keys(Fresh(seen, es, key), key) == Keys(es, key) - seen by {
        assert Fresh(seen, es, key) == if key(es[0]) in seen then rest else [es[0]] + rest;
      }
    }
  }

  lemma PrependDiffers<E, K>(e: E, rest: seq<E>, key: E -> K)
    requires KeysDiffer(rest, key) && key(e) !in Keys(rest, key)
    ensures KeysDiffer([e] + rest, key) && Keys([e] + rest, key) == Keys(rest, key) + {key(e)}
  {
    forall i | 0 <= i < |rest| ensures key(rest[i]) != key(e) {
      assert key(rest[i]) in Keys(rest, key);
    }
    KeysSplit([e] + rest, key);
    assert ([e] + rest)[1..] == rest;
  }

  /** The first element with its key is kept. */
  lemma FirstIsKept<E, K>(es: seq<E>, n: nat, key: E -> K)
    requires n < |es| && forall m :: 0 <= m < n ==> key(es[m]) != key(es[n])
    ensures es[n] in Fresh({}, es, key)
  {
    assert es == es[..n] + es[n..];
    FreshAppend({}, es[..n], es[n..], key);
    assert es[n..][0] == es[n];
  }

  /** No earlier element has the key of element n. */
  ghost predicate FirstOfKey<E, K>(es: seq<E>, n: nat, key: E -> K)
    requires n < |es|
  {
    forall m :: 0 <= m < n ==> key(es[m]) != key(es[n])
  }

  lemma {:induction false} FirstWithKey<E, K>(es: seq<E>, n: nat, key: E -> K) returns (m: nat)
    requires n < |es|
    ensures m <= n && key(es[m]) == key(es[n]) && FirstOfKey(es, m, key)
  {
    if FirstOfKey(es, n, key) {
      m := n;
    } else {
      m :| 0 <= m < n && key(es[m]) == key(es[n]);
      m := FirstWithKey(es, m, key);
    }
  }

  /** What is kept is always the first element with its key. */
  lemma KeptIsFirst<E, K>(es: seq<E>, e: E, key: E -> K) returns (n: nat)
    requires e in Fresh({}, es, key)
    ensures n < |es| && es[n] == e && FirstOfKey(es, n, key)
  {
    var kept := Fresh({}, es, key);
    FreshSpec({}, es, key);
    var i :| 0 <= i < |es| && es[i] == e;
    n := FirstWithKey(es, i, key);
    FirstIsKept(es, n, key);
    var j :| 0 <= j < |kept| && kept[j] == e;
    var k :| 0 <= k < |kept| && kept[k] == es[n];
  }

  /** `at` gives the ascending positions of the elements of `d` in `es`. */
  ghost predicate Positions<E>(es: seq<E>, d: seq<E>, at: seq<nat>) {
    && |at| == |d| && (forall i, j :: 0 <= i < j < |at| ==> at[i] < at[j])
    && (forall i :: 0 <= i < |at| ==> at[i] < |es| && es[at[i]] == d[i])
  }

  /** The kept elements stand in their original order. */
  lemma {:induction false} FreshPositions<E, K>(seen: set<K>, es: seq<E>, key: E -> K) returns (at: seq<nat>)
    ensures Positions(es, Fresh(seen, es, key), at)
    decreases |es|
  {
    if es == [] {
      at := [];
    } else {
      var rest := FreshPositions(seen + {key(es[0])}, es[1..], key);
      at := ShiftPositions(es, Fresh(seen + {key(es[0])}, es[1..], key), rest, key(es[0]) in seen);
    }
  }

  lemma ShiftPositions<E>(es: seq<E>, d: seq<E>, at: seq<nat>, skip: bool) returns (at': seq<nat>)
    requires es != [] && Positions(es[1..], d, at)
    ensures Positions(es, (if skip then [] else [es[0]]) + d, at')
  {
    at' := ShiftByOne(es, d, at);
    if skip {
      assert [] + d == d;
    } else {
      PrependPosition(es, d, at');
      at' := [0] + at';
    }
  }

  lemma PrependPosition<E>(es: seq<E>, d: seq<E>, at: seq<nat>)
    requires es != [] && Positions(es, d, at) && forall i :: 0 <= i < |at| ==> at[i] > 0
    ensures Positions(es, [es[0]] + d, [0] + at)
  {
  }

  lemma ShiftByOne<E>(es: seq<E>, d: seq<E>, at: seq<nat>) returns (at': seq<nat>)
    requires es != [] && Positions(es[1..], d, at)
    ensures Positions(es, d, at') && forall i :: 0 <= i < |at'| ==> at'[i] > 0
  {
    at' := seq(|at|, i requires 0 <= i < |at| => at[i] + 1);
    forall i | 0 <= i < |at'| ensures at'[i] < |es| && es[at'[i]] == d[i] {
      assert es[1..][at[i]] == d[i];
    }
  }

  lemma PermutationDiffers<E, K>(d: seq<E>, s: seq<E>, key: E -> K)
    requires KeysDiffer(d, key) && multiset(d) == multiset(s)
    ensures KeysDiffer(s, key)
  {
    forall i, j | 0 <= i < j < |s| ensures key(s[i]) != key(s[j]) {
      if s[i] == s[j] {
        RepeatCounts(s, i, j);
        DistinctMultiset(d, s[i]);
      } else {
        assert s[i] in multiset(d) && s[j] in multiset(d);
        var m :| 0 <= m < |d| && d[m] == s[i];
        var n :| 0 <= n < |d| && d[n] == s[j];
      }
    }
  }

  lemma FreshStep<E, K>(r: seq<E>, seen: set<K>, es: seq<E>, i: nat, key: E -> K)
    requires i < |es|
    ensures r + Fresh(seen, es[i..], key) ==
            (if key(es[i]) in seen then r else r + [es[i]]) + Fresh(seen + {key(es[i])}, es[i + 1..], key)
  {
    assert es[i..][0] == es[i] && es[i..][1..] == es[i + 1..];
  }

  /** The filter with its `seen` set. */
  method KeepFirst<E, K(==)>(es: seq<E>, key: E -> K) returns (r: seq<E>)
    ensures r == Fresh({}, es, key)
  {
    r := [];
    var seen: set<K> := {};
    var i := 0;
    assert es[0..] == es;
    while i < |es|
      invariant i <= |es|
      invariant r + Fresh(seen, es[i..], key) == Fresh({}, es, key)
    {
      FreshStep(r, seen, es, i, key);
      if key(es[i]) !in seen {
        r := r + [es[i]];
        seen := seen + {key(es[i])};
      } else {
        assert seen + {key(es[i])} == seen;
      }
      i := i + 1;
    }
  }
}
