/**
 Sums of a measure over a sequence, and the four facts every table in this project needs about them:

  - a sum splits over concatenation, so one more row adds its own measure;
  - it changes by the difference when one row changes;
  - it does not depend on the order of the rows;
  - it can be taken group by group, as a GROUP BY query does.
 */
module Sums {

  function SumInt<T>(f: T -> int, s: seq<T>): (total: int)
  {
    if |s| == 0 then 0 else SumInt(f, s[..|s| - 1]) + f(s[|s| - 1])
  }

  function SumReal<T>(f: T -> real, s: seq<T>): (total: real)
  {
    if |s| == 0 then 0.0 else SumReal(f, s[..|s| - 1]) + f(s[|s| - 1])
  }

  /** One more row adds its own measure. */
  lemma SumIntSnoc<T>(f: T -> int, s: seq<T>, x: T)
    ensures SumInt(f, s + [x]) == SumInt(f, s) + f(x)
  {
  }

  /** The prefix a loop has already read grows by one row. */
  lemma SumIntPrefix<T>(f: T -> int, s: seq<T>, i: nat)
    requires i < |s|
    ensures SumInt(f, s[..i + 1]) == SumInt(f, s[..i]) + f(s[i])
  {
    assert s[..i + 1][..i] == s[..i];
  }

  lemma SumRealPrefix<T>(f: T -> real, s: seq<T>, i: nat)
    requires i < |s|
    ensures SumReal(f, s[..i + 1]) == SumReal(f, s[..i]) + f(s[i])
  {
    assert s[..i + 1][..i] == s[..i];
  }

  lemma {:induction false} SumIntAgree<A, B>(f: A -> int, s: seq<A>, g: B -> int, t: seq<B>)
    requires |s| == |t| && forall i :: 0 <= i < |s| ==> f(s[i]) == g(t[i])
    ensures SumInt(f, s) == SumInt(g, t)
  {
    if |s| > 0 {
      SumIntAgree(f, s[..|s| - 1], g, t[..|t| - 1]);
    }
  }

  lemma {:induction false} SumIntAppend<T>(f: T -> int, a: seq<T>, b: seq<T>)
    ensures SumInt(f, a + b) == SumInt(f, a) + SumInt(f, b)
  {
    if |b| == 0 {
      assert a + b == a;
    } else {
      var all := a + b;
      SumIntAppend(f, a, b[..|b| - 1]);
      assert all[..|all| - 1] == a + b[..|b| - 1];
    }
  }

  /** Replacing one row changes the sum by the difference of the two measures. */
  lemma SumIntUpdate<T>(f: T -> int, s: seq<T>, i: nat, x: T)
    requires i < |s|
    ensures SumInt(f, s[i := x]) == SumInt(f, s) - f(s[i]) + f(x)
  {
    var tail := s[i + 1..];
    assert s == s[..i] + [s[i]] + tail;
    assert s[i := x] == s[..i] + [x] + tail;
    SumIntAppend(f, s[..i] + [s[i]], tail);
    SumIntAppend(f, s[..i] + [x], tail);
    SumIntSnoc(f, s[..i], s[i]);
    SumIntSnoc(f, s[..i], x);
  }

  /** A sum depends only on which rows there are, not on the order they are read in. */
  lemma {:induction false} SumIntPermutation<T>(f: T -> int, a: seq<T>, b: seq<T>)
    requires multiset(a) == multiset(b)
    ensures SumInt(f, a) == SumInt(f, b)
    decreases |a|
  {
    if |a| == 0 {
      assert |multiset(b)| == 0;
    } else {
      var last := |a| - 1;
      var x := a[last];
      assert a == a[..last] + [x];
      assert x in multiset(b);
      var j :| 0 <= j < |b| && b[j] == x;
      var rest := b[..j] + b[j + 1..];
      assert b == b[..j] + [x] + b[j + 1..];
      assert multiset(rest) == multiset(b) - multiset{x};
      assert multiset(a[..last]) == multiset(a) - multiset{x};
      SumIntPermutation(f, a[..last], rest);
      SumIntAppend(f, b[..j], b[j + 1..]);
      SumIntAppend(f, b[..j] + [x], b[j + 1..]);
      SumIntSnoc(f, b[..j], x);
    }
  }

  /** The part of the sum that falls to the rows with a given key. */
  function SumGroup<T, K(==)>(key: T -> K, f: T -> int, k: K, s: seq<T>): (total: int)
  {
    if |s| == 0 then 0
    else SumGroup(key, f, k, s[..|s| - 1]) + if key(s[|s| - 1]) == k then f(s[|s| - 1]) else 0
  }

  function GroupTotal<T, K(==)>(key: T -> K, f: T -> int, s: seq<T>): K -> int
  {
    k => SumGroup(key, f, k, s)
  }

  ghost predicate Distinct<K>(ks: seq<K>) {
    forall i, j :: 0 <= i < j < |ks| ==> ks[i] != ks[j]
  }

  lemma {:induction false} GroupTotalSnoc<T, K>(key: T -> K, f: T -> int, s: seq<T>, x: T, ks: seq<K>)
    requires Distinct(ks)
    ensures SumInt(GroupTotal(key, f, s + [x]), ks)
         == SumInt(GroupTotal(key, f, s), ks) + if key(x) in ks then f(x) else 0
  {
    assert (s + [x])[..|s|] == s;
    if |ks| > 0 {
      GroupTotalSnoc(key, f, s, x, ks[..|ks| - 1]);
      assert forall k :: k in ks <==> k in ks[..|ks| - 1] || k == ks[|ks| - 1];
    }
  }

  /** GROUP BY loses nothing: distinct keys that cover every row split the sum exactly. */
  lemma {:induction false} SumByGroups<T, K>(key: T -> K, f: T -> int, s: seq<T>, ks: seq<K>)
    requires Distinct(ks)
    requires forall i :: 0 <= i < |s| ==> key(s[i]) in ks
    ensures SumInt(GroupTotal(key, f, s), ks) == SumInt(f, s)
  {
    if |s| == 0 {
      EmptyGroups(key, f, s, ks);
    } else {
      var init, x := s[..|s| - 1], s[|s| - 1];
      assert s == init + [x];
      SumByGroups(key, f, init, ks);
      GroupTotalSnoc(key, f, init, x, ks);
    }
  }

  lemma {:induction false} EmptyGroups<T, K>(key: T -> K, f: T -> int, s: seq<T>, ks: seq<K>)
    requires |s| == 0
    ensures SumInt(GroupTotal(key, f, s), ks) == 0
  {
    if |ks| > 0 {
      EmptyGroups(key, f, s, ks[..|ks| - 1]);
    }
  }
}
