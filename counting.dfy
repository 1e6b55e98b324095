/**
 Counting over sequences and over Python-style count dictionaries.

 The classifier keeps every count in a dictionary from a key to a positive
 integer; here such a dictionary is a `map<K, nat>`, and `MapSum` is the
 `sum(d.values())` of such a dictionary.
 */
module Counting {

  /** `d.get(k, 0)`: the count stored under `k`, or 0 when `k` is absent. */
  function Get<K>(m: map<K, nat>, k: K): nat
  {
    if k in m then m[k] else 0
  }

  /** Number of positions of `s` that hold `x` (Python's `s.count(x)`). */
  function Occ<T(==)>(s: seq<T>, x: T): (r: nat)
    ensures r <= |s|
    ensures r > 0 <==> x in s
  {
    if |s| == 0 then 0
    else
      var init := s[..|s| - 1];
      assert s == init + [s[|s| - 1]];
      Occ(init, x) + (if s[|s| - 1] == x then 1 else 0)
  }

  /** No element of `s` appears twice. */
  predicate Distinct<T(==)>(s: seq<T>)
  {
    forall i, j :: 0 <= i < j < |s| ==> s[i] != s[j]
  }

  /** Sum of the counts that `m` stores under the keys of `keys`. */
  ghost function SumOver<K>(m: map<K, nat>, keys: set<K>): nat
    requires keys <= m.Keys
    decreases keys
  {
    if keys == {} then 0
    else
      var k :| k in keys;
      m[k] + SumOver(m, keys - {k})
  }

  /** Sum of all counts stored in `m`. */
  ghost function MapSum<K>(m: map<K, nat>): nat
  {
    SumOver(m, m.Keys)
  }

  /** Pointwise sum of two count maps: the keys of either, each with both counts added. */
  function AddCounts<K>(a: map<K, nat>, b: map<K, nat>): (r: map<K, nat>)
    ensures r.Keys == a.Keys + b.Keys
    ensures forall k :: k in r.Keys ==> r[k] == Get(a, k) + Get(b, k)
  {
    map k | k in a.Keys + b.Keys :: Get(a, k) + Get(b, k)
  }

  /** The part of `m` whose keys lie in `keys`. */
  function Restrict<K>(m: map<K, nat>, keys: set<K>): (r: map<K, nat>)
    ensures r.Keys == m.Keys * keys
    ensures forall k :: k in r ==> r[k] == m[k]
  {
    map k | k in m && k in keys :: m[k]
  }

  /** The sum does not depend on which key is taken out first. */
  lemma {:induction false} SumOverRemove<K>(m: map<K, nat>, keys: set<K>, k: K)
    requires keys <= m.Keys && k in keys
    ensures SumOver(m, keys) == m[k] + SumOver(m, keys - {k})
    decreases keys
  {
    var j :| j in keys && SumOver(m, keys) == m[j] + SumOver(m, keys - {j});
    if j != k {
      SumOverRemove(m, keys - {j}, k);
      SumOverRemove(m, keys - {k}, j);
      assert keys - {j} - {k} == keys - {k} - {j};
    }
  }

  /** The sum over `keys` reads only the counts stored under `keys`. */
  lemma {:induction false} SumOverAgree<K>(m1: map<K, nat>, m2: map<K, nat>, keys: set<K>)
    requires keys <= m1.Keys && keys <= m2.Keys
    requires forall k :: k in keys ==> m1[k] == m2[k]
    ensures SumOver(m1, keys) == SumOver(m2, keys)
    decreases keys
  {
    if keys != {} {
      var k :| k in keys;
      SumOverRemove(m1, keys, k);
      SumOverRemove(m2, keys, k);
      SumOverAgree(m1, m2, keys - {k});
    }
  }

  /** Taking one key out of a count map takes its count out of the sum. */
  lemma MapSumRemove<K>(m: map<K, nat>, k: K)
    requires k in m
    ensures MapSum(m) == m[k] + MapSum(m - {k})
  {
    SumOverRemove(m, m.Keys, k);
    SumOverAgree(m, m - {k}, m.Keys - {k});
  }

  /** Adding one to the count of `k` (or storing 1 for a new key) adds one to the sum. */
  lemma MapSumIncrement<K>(m: map<K, nat>, k: K)
    ensures MapSum(m[k := Get(m, k) + 1]) == MapSum(m) + 1
  {
    var m' := m[k := Get(m, k) + 1];
    MapSumRemove(m', k);
    assert m' - {k} == m - {k};
    MapSumRemoveAny(m, k);
  }

  /** Summing two count maps pointwise sums their totals. */
  lemma {:induction false} MapSumAdd<K>(a: map<K, nat>, b: map<K, nat>)
    ensures MapSum(AddCounts(a, b)) == MapSum(a) + MapSum(b)
    decreases |b|
  {
    if |b| == 0 {
      AddNothing(a, b);
    } else {
      var k :| k in b;
      assert |b - {k}| < |b| by { assert (b - {k}).Keys == b.Keys - {k}; }
      MapSumAdd(a - {k}, b - {k});
      AddWithout(a, b, k);
      MapSumRemove(AddCounts(a, b), k);
      MapSumRemove(b, k);
      MapSumRemoveAny(a, k);
    }
  }

  lemma AddNothing<K>(a: map<K, nat>, b: map<K, nat>)
    requires |b| == 0
    ensures AddCounts(a, b) == a && MapSum(b) == 0
  {
    assert b.Keys == {};
  }

  lemma AddWithout<K>(a: map<K, nat>, b: map<K, nat>, k: K)
    ensures AddCounts(a, b) - {k} == AddCounts(a - {k}, b - {k})
  {
  }

  /** `MapSumRemove` for a key that may be absent. */
  lemma MapSumRemoveAny<K>(m: map<K, nat>, k: K)
    ensures MapSum(m) == Get(m, k) + MapSum(m - {k})
  {
    if k in m {
      MapSumRemove(m, k);
    } else {
      assert m - {k} == m;
    }
  }

  /** Add-one smoothing: every key of `keys` with its count in `m` plus one. */
  function Smoothed<K>(m: map<K, nat>, keys: set<K>): (r: map<K, nat>)
    ensures r.Keys == keys
    ensures forall k :: k in r ==> r[k] == Get(m, k) + 1
  {
    map k | k in keys :: Get(m, k) + 1
  }

  /** Smoothing a count map over a key set that covers it adds one per key to its sum. */
  lemma {:induction false} MapSumSmoothed<K>(m: map<K, nat>, keys: set<K>)
    requires m.Keys <= keys
    ensures MapSum(Smoothed(m, keys)) == MapSum(m) + |keys|
    decreases |keys|
  {
    if |keys| == 0 {
      SmoothedNothing(m, keys);
    } else {
      var k :| k in keys;
      MapSumSmoothed(m - {k}, keys - {k});
      SmoothedWithout(m, keys, k);
      MapSumRemove(Smoothed(m, keys), k);
      MapSumRemoveAny(m, k);
    }
  }

  lemma SmoothedNothing<K>(m: map<K, nat>, keys: set<K>)
    requires m.Keys <= keys && |keys| == 0
    ensures MapSum(Smoothed(m, keys)) == 0 == MapSum(m)
  {
    assert keys == {} && m.Keys == {};
  }

  lemma SmoothedWithout<K>(m: map<K, nat>, keys: set<K>, k: K)
    ensures Smoothed(m, keys) - {k} == Smoothed(m - {k}, keys - {k})
  {
  }

  /** Extending a restriction by one more key of `m` adds that key's count. */
  lemma RestrictStep<K>(m: map<K, nat>, done: set<K>, k: K)
    requires k in m && k !in done
    ensures MapSum(Restrict(m, done + {k})) == MapSum(Restrict(m, done)) + m[k]
  {
    var r := Restrict(m, done + {k});
    MapSumRemove(r, k);
    assert r - {k} == Restrict(m, done);
  }
}
