/** Order-preserving filtering, subsequences and sums: the array operations the dashboard
    is built from (`Array.prototype.filter`, counting with `.length`, summing counters). */
module Sequences {

  /** The elements of `s` that satisfy `p`, in their original order. */
  function Filter<T(==)>(s: seq<T>, p: T -> bool): (r: seq<T>)
    ensures |r| <= |s|
    ensures forall i :: 0 <= i < |r| ==> p(r[i]) && r[i] in s
  {
    if s == [] then []
    else if p(s[0]) then [s[0]] + Filter(s[1..], p)
    else Filter(s[1..], p)
  }

  /** `r` can be obtained from `s` by deleting elements, without reordering the rest. */
  predicate IsSubsequence<T(==)>(r: seq<T>, s: seq<T>)
  {
    if r == [] then true
    else if s == [] then false
    else (r[0] == s[0] && IsSubsequence(r[1..], s[1..])) || IsSubsequence(r, s[1..])
  }

  predicate Distinct<T(==)>(s: seq<T>)
  {
    forall i, j :: 0 <= i < j < |s| ==> s[i] != s[j]
  }

  function Min(a: int, b: int): int
  {
    if a <= b then a else b
  }

  lemma {:induction false} FilterIsSubsequence<T>(s: seq<T>, p: T -> bool)
    ensures IsSubsequence(Filter(s, p), s)
  {
    if s != [] {
      FilterIsSubsequence(s[1..], p);
      var r := Filter(s, p);
      if p(s[0]) {
        assert r[0] == s[0] && r[1..] == Filter(s[1..], p);
      }
    }
  }

  /** Filtering keeps every copy of an element that satisfies `p` and no copy of one that does not. */
  lemma {:induction false} FilterMultiset<T>(s: seq<T>, p: T -> bool)
    ensures forall x :: multiset(Filter(s, p))[x] == if p(x) then multiset(s)[x] else 0
  {
    if s != [] {
      FilterMultiset(s[1..], p);
      assert s == [s[0]] + s[1..];
      assert multiset(s) == multiset{s[0]} + multiset(s[1..]);
    }
  }

  /** Every element of `s` that satisfies `p` is kept. */
  lemma FilterComplete<T>(s: seq<T>, p: T -> bool)
    ensures forall x :: x in s && p(x) ==> x in Filter(s, p)
  {
    FilterMultiset(s, p);
    forall x | x in s && p(x)
      ensures x in Filter(s, p)
    {
      assert multiset(s)[x] > 0;
    }
  }

  /** A prefix of a filtered sequence keeps the input's order, and each of its elements
      satisfies `p`. */
  lemma FilterPrefix<T>(s: seq<T>, p: T -> bool, k: nat)
    requires k <= |Filter(s, p)|
    ensures IsSubsequence(Filter(s, p)[..k], s)
    ensures forall x :: x in Filter(s, p)[..k] ==> p(x)
  {
    var kept := Filter(s, p);
    FilterIsSubsequence(s, p);
    SubsequencePrefix(kept, s, k);
    forall x | x in kept[..k]
      ensures p(x)
    {
      var i :| 0 <= i < k && kept[..k][i] == x;
      assert kept[i] == x;
    }
  }

  lemma {:induction false} FilterNone<T>(s: seq<T>, p: T -> bool)
    requires forall x :: x in s ==> !p(x)
    ensures Filter(s, p) == []
  {
    if s != [] {
      FilterNone(s[1..], p);
    }
  }

  lemma {:induction false} FilterAppend<T>(s: seq<T>, x: T, p: T -> bool)
    ensures Filter(s + [x], p) == Filter(s, p) + (if p(x) then [x] else [])
  {
    if s == [] {
      assert s + [x] == [x];
    } else {
      assert (s + [x])[0] == s[0] && (s + [x])[1..] == s[1..] + [x];
      FilterAppend(s[1..], x, p);
    }
  }

  lemma {:induction false} SubsequenceReflexive<T>(s: seq<T>)
    ensures IsSubsequence(s, s)
  {
    if s != [] {
      SubsequenceReflexive(s[1..]);
    }
  }

  /** A prefix of a subsequence is still a subsequence. */
  lemma {:induction false} SubsequencePrefix<T>(r: seq<T>, s: seq<T>, k: nat)
    requires IsSubsequence(r, s) && k <= |r|
    ensures IsSubsequence(r[..k], s)
    decreases |s|
  {
    if k > 0 {
      if r[0] == s[0] && IsSubsequence(r[1..], s[1..]) {
        SubsequencePrefix(r[1..], s[1..], k - 1);
        assert r[..k][0] == s[0] && r[..k][1..] == r[1..][..k - 1];
      } else {
        SubsequencePrefix(r, s[1..], k);
      }
    }
  }

  function Sum(s: seq<nat>): nat
  {
    if s == [] then 0 else Sum(s[..|s| - 1]) + s[|s| - 1]
  }

  /** The sum of the counters `m` holds under `keys`. */
  function SumOver<K>(keys: seq<K>, m: map<K, nat>): nat
    requires forall k :: k in keys ==> k in m
  {
    if keys == [] then 0 else SumOver(keys[..|keys| - 1], m) + m[keys[|keys| - 1]]
  }

  lemma {:induction false} SumOverUnaffected<K>(keys: seq<K>, m: map<K, nat>, k: K, v: nat)
    requires forall j :: j in keys ==> j in m
    requires k !in keys
    ensures SumOver(keys, m[k := v]) == SumOver(keys, m)
  {
    if keys != [] {
      SumOverUnaffected(keys[..|keys| - 1], m, k, v);
    }
  }

  /** Incrementing one counter under a list of distinct keys raises their sum by exactly one. */
  lemma {:induction false} SumOverIncrement<K>(keys: seq<K>, m: map<K, nat>, k: K)
    requires forall j :: j in keys ==> j in m
    requires Distinct(keys) && k in keys
    ensures SumOver(keys, m[k := m[k] + 1]) == SumOver(keys, m) + 1
  {
    var init, last := keys[..|keys| - 1], keys[|keys| - 1];
    assert keys == init + [last];
    if last == k {
      assert k !in init;
      SumOverUnaffected(init, m, k, m[k] + 1);
    } else {
      assert k in init;
      SumOverIncrement(init, m, k);
    }
  }

  /** Adding a fresh key with counter `v` raises the sum by `v`. */
  lemma SumOverAppendNew<K>(keys: seq<K>, m: map<K, nat>, k: K, v: nat)
    requires forall j :: j in keys ==> j in m
    requires k !in keys
    ensures SumOver(keys + [k], m[k := v]) == SumOver(keys, m) + v
  {
    assert (keys + [k])[..|keys|] == keys;
    SumOverUnaffected(keys, m, k, v);
  }

  lemma {:induction false} SumOverZero<K>(keys: seq<K>, m: map<K, nat>)
    requires forall k :: k in keys ==> k in m && m[k] == 0
    ensures SumOver(keys, m) == 0
  {
    if keys != [] {
      assert forall k :: k in keys[..|keys| - 1] ==> k in keys;
      SumOverZero(keys[..|keys| - 1], m);
    }
  }

  /** Reading the counters out in key order (`Object.values`) keeps their sum. */
  lemma {:induction false} SumOfValues<K>(keys: seq<K>, m: map<K, nat>, values: seq<nat>)
    requires forall k :: k in keys ==> k in m
    requires |values| == |keys|
    requires forall j :: 0 <= j < |keys| ==> values[j] == m[keys[j]]
    ensures Sum(values) == SumOver(keys, m)
  {
    if keys != [] {
      SumOfValues(keys[..|keys| - 1], m, values[..|values| - 1]);
    }
  }
}
