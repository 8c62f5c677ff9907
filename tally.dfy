/**
 * JavaScript objects used as counters (`obj[k] = (obj[k] || 0) + v` inside a `forEach`),
 * modelled as association lists in key insertion order.  That is the order `Object.entries`
 * reports for keys that are neither array indices ("0", "7", "2024"), which JavaScript lists
 * first in numeric order, nor names `Object.prototype` already carries ("constructor",
 * "toString"), whose lookups find the inherited member; such keys are outside the model.
 */
module Tally {
  import opened Wrappers
  import opened Seqs

  /** A counter object: its entries in insertion order (for keys other than those above). */
  type Dict<K> = seq<(K, int)>

  function Keys<K>(d: Dict<K>): (ks: seq<K>)
    ensures |ks| == |d|
    ensures forall i :: 0 <= i < |d| ==> ks[i] == d[i].0
  {
    if d == [] then [] else [d[0].0] + Keys(d[1..])
  }

  /** The values in key order (`Object.values(obj)`). */
  function Values<K>(d: Dict<K>): (vs: seq<int>)
    ensures |vs| == |d|
    ensures forall i :: 0 <= i < |d| ==> vs[i] == d[i].1
  {
    seq(|d|, i requires 0 <= i < |d| => d[i].1)
  }

  /** `obj[k] || 0`: the value stored under `k`, or 0 when there is none. */
  function Get<K(==)>(d: Dict<K>, k: K): int {
    if d == [] then 0
    else if d[0].0 == k then d[0].1
    else Get(d[1..], k)
  }

  /** In a counter without repeated keys, the entry at position `i` is what a lookup of its key finds. */
  lemma {:induction false} GetAt<K>(d: Dict<K>, i: nat)
    requires Distinct(Keys(d)) && i < |d|
    ensures Get(d, d[i].0) == d[i].1
  {
    if i > 0 {
      assert Keys(d)[0] == d[0].0 && Keys(d)[i] == d[i].0;
      assert Keys(d[1..]) == Keys(d)[1..];
      GetAt(d[1..], i - 1);
    }
  }

  /** Lookups of keys the counter does not hold find 0. */
  lemma {:induction false} GetAbsent<K>(d: Dict<K>, k: K)
    requires k !in Keys(d)
    ensures Get(d, k) == 0
  {
    if d != [] {
      assert Keys(d) == [d[0].0] + Keys(d[1..]);
      GetAbsent(d[1..], k);
    }
  }

  /** The sum of all values (`Object.values(obj)` added up). */
  function Total<K>(d: Dict<K>): int {
    if d == [] then 0 else d[0].1 + Total(d[1..])
  }

  /** `obj[k] = (obj[k] || 0) + v`: adds to an existing entry in place, or appends a new one. */
  function Bump<K(==)>(d: Dict<K>, k: K, v: int): Dict<K> {
    if d == [] then [(k, v)]
    else if d[0].0 == k then [(k, d[0].1 + v)] + d[1..]
    else [d[0]] + Bump(d[1..], k, v)
  }

  lemma KeysCons<K>(e: (K, int), d: Dict<K>)
    ensures Keys([e] + d) == [e.0] + Keys(d)
  {
    assert ([e] + d)[1..] == d;
  }

  lemma {:induction false} BumpKeys<K>(d: Dict<K>, k: K, v: int)
    ensures Keys(Bump(d, k, v)) == if k in Keys(d) then Keys(d) else Keys(d) + [k]
  {
    if d != [] {
      assert d == [d[0]] + d[1..];
      KeysCons(d[0], d[1..]);
      if d[0].0 == k {
        KeysCons((k, d[0].1 + v), d[1..]);
      } else {
        BumpKeys(d[1..], k, v);
        KeysCons(d[0], Bump(d[1..], k, v));
      }
    }
  }

  /** What `Bump` does to each lookup: only the bumped key's value changes, by `v`. */
  lemma {:induction false} BumpGet<K>(d: Dict<K>, k: K, v: int, j: K)
    ensures Get(Bump(d, k, v), j) == Get(d, j) + if j == k then v else 0
  {
    if d != [] {
      if d[0].0 == k {
        var r := [(k, d[0].1 + v)] + d[1..];
        assert Bump(d, k, v) == r && r[1..] == d[1..];
      } else {
        BumpGet(d[1..], k, v, j);
        var r := [d[0]] + Bump(d[1..], k, v);
        assert Bump(d, k, v) == r && r[1..] == Bump(d[1..], k, v);
      }
    }
  }

  lemma {:induction false} BumpTotal<K>(d: Dict<K>, k: K, v: int)
    ensures Total(Bump(d, k, v)) == Total(d) + v
  {
    if d != [] {
      if d[0].0 == k {
        assert ([(k, d[0].1 + v)] + d[1..])[1..] == d[1..];
      } else {
        BumpTotal(d[1..], k, v);
        assert Bump(d, k, v)[1..] == Bump(d[1..], k, v);
      }
    }
  }

  /** The keys `ks` followed by the keys of `s` not seen before, in order of first occurrence. */
  function KeyOrder<T, K(==,!new)>(ks: seq<K>, s: seq<T>, key: T -> K): (r: seq<K>)
    ensures forall k :: k in r <==> k in ks || exists i :: 0 <= i < |s| && key(s[i]) == k
    ensures Distinct(ks) ==> Distinct(r)
    ensures ks <= r
  {
    if s == [] then ks
    else
      var r := KeyOrder(ks, s[..|s| - 1], key);
      assert forall i :: 0 <= i < |s| - 1 ==> s[..|s| - 1][i] == s[i];
      if key(s[|s| - 1]) in r then r else r + [key(s[|s| - 1])]
  }

  /** The sum of `val(x)` over the elements `x` of `s` with `key(x) == k`. */
  function SumBy<T, K(==)>(s: seq<T>, key: T -> K, val: T -> int, k: K): int {
    if s == [] then 0
    else SumBy(s[..|s| - 1], key, val, k) + (if key(s[|s| - 1]) == k then val(s[|s| - 1]) else 0)
  }

  /** The sum of `val(x)` over all elements of `s`. */
  function SumOf<T>(s: seq<T>, val: T -> int): int {
    if s == [] then 0 else SumOf(s[..|s| - 1], val) + val(s[|s| - 1])
  }

  /** The number of elements `x` of `s` with `key(x) == k`. */
  function CountBy<T, K(==)>(s: seq<T>, key: T -> K, k: K): (n: nat)
    ensures n <= |s|
  {
    if s == [] then 0
    else CountBy(s[..|s| - 1], key, k) + (if key(s[|s| - 1]) == k then 1 else 0)
  }

  function One<T>(x: T): int { 1 }

  lemma {:induction false} SumOfOne<T>(s: seq<T>)
    ensures SumOf(s, One) == |s|
  {
    if s != [] {
      SumOfOne(s[..|s| - 1]);
    }
  }

  lemma {:induction false} SumByOne<T, K>(s: seq<T>, key: T -> K, k: K)
    ensures SumBy(s, key, One, k) == CountBy(s, key, k)
  {
    if s != [] {
      SumByOne(s[..|s| - 1], key, k);
    }
  }

  /** The counter after the first `i` elements of `s`, as the loop below keeps it. */
  ghost predicate Tallied<T, K(!new)>(init: Dict<K>, s: seq<T>, key: T -> K, val: T -> int, d: Dict<K>) {
    && Distinct(Keys(d))
    && Keys(d) == KeyOrder(Keys(init), s, key)
    && (forall k :: Get(d, k) == Get(init, k) + SumBy(s, key, val, k))
    && Total(d) == Total(init) + SumOf(s, val)
  }

  lemma TalliedStep<T, K(!new)>(init: Dict<K>, s: seq<T>, x: T, key: T -> K, val: T -> int, d: Dict<K>)
    requires Distinct(Keys(init))
    requires Tallied(init, s, key, val, d)
    ensures Tallied(init, s + [x], key, val, Bump(d, key(x), val(x)))
  {
    var s' := s + [x];
    assert s'[..|s'| - 1] == s;
    var d' := Bump(d, key(x), val(x));
    assert Keys(d') == KeyOrder(Keys(init), s', key) && Distinct(Keys(d')) by {
      BumpKeys(d, key(x), val(x));
    }
    assert Total(d') == Total(init) + SumOf(s', val) by {
      BumpTotal(d, key(x), val(x));
    }
    TalliedGetStep(init, s, x, key, val, d);
  }

  lemma TalliedGetStep<T, K>(init: Dict<K>, s: seq<T>, x: T, key: T -> K, val: T -> int, d: Dict<K>)
    requires forall k :: Get(d, k) == Get(init, k) + SumBy(s, key, val, k)
    ensures forall k :: Get(Bump(d, key(x), val(x)), k) == Get(init, k) + SumBy(s + [x], key, val, k)
  {
    var s' := s + [x];
    assert s'[..|s'| - 1] == s;
    forall k
      ensures Get(Bump(d, key(x), val(x)), k) == Get(init, k) + SumBy(s', key, val, k)
    {
      BumpGet(d, key(x), val(x), k);
    }
  }

  /** The counter after adding `val(x)` under `key(x)` for each `x` of `s` in turn, starting from `init`. */
  function Fold<T, K(==)>(init: Dict<K>, s: seq<T>, key: T -> K, val: T -> int): Dict<K> {
    if s == [] then init
    else Bump(Fold(init, s[..|s| - 1], key, val), key(s[|s| - 1]), val(s[|s| - 1]))
  }

  /**
   * What a filled counter holds: no key twice, the initial keys followed by new keys in order of first
   * occurrence, under each key its initial value plus the sum for that key, and the grand total.
   */
  lemma {:induction false} FoldTallied<T, K(!new)>(init: Dict<K>, s: seq<T>, key: T -> K, val: T -> int)
    requires Distinct(Keys(init))
    ensures Tallied(init, s, key, val, Fold(init, s, key, val))
  {
    if s != [] {
      var s0 := s[..|s| - 1];
      FoldTallied(init, s0, key, val);
      TalliedStep(init, s0, s[|s| - 1], key, val, Fold(init, s0, key, val));
      assert s0 + [s[|s| - 1]] == s;
    } else {
      assert Keys(init) == KeyOrder(Keys(init), s, key);
      forall k
        ensures Get(init, k) == Get(init, k) + SumBy(s, key, val, k)
      {
      }
    }
  }

  /** Two counters filled with the same keys hold their keys in the same positions. */
  lemma FoldSameKeys<T, K(!new)>(init: Dict<K>, s: seq<T>, key: T -> K, val1: T -> int, val2: T -> int)
    requires Distinct(Keys(init))
    ensures Keys(Fold(init, s, key, val1)) == Keys(Fold(init, s, key, val2))
  {
    FoldTallied(init, s, key, val1);
    FoldTallied(init, s, key, val2);
  }

  /** The `forEach` that fills a counter object: adds `val(x)` under `key(x)` for each `x` of `s` in turn. */
  method TallyBy<T, K(==,!new)>(init: Dict<K>, s: seq<T>, key: T -> K, val: T -> int) returns (d: Dict<K>)
    requires Distinct(Keys(init))
    ensures d == Fold(init, s, key, val)
    ensures Distinct(Keys(d))
    ensures Keys(d) == KeyOrder(Keys(init), s, key)
    ensures forall k :: Get(d, k) == Get(init, k) + SumBy(s, key, val, k)
    ensures Total(d) == Total(init) + SumOf(s, val)
  {
    d := init;
    var i := 0;
    assert s[..0] == [];
    while i < |s|
      invariant 0 <= i <= |s|
      invariant d == Fold(init, s[..i], key, val)
      invariant Tallied(init, s[..i], key, val, d)
    {
      assert s[..i + 1] == s[..i] + [s[i]];
      assert s[..i + 1][..i] == s[..i];
      TalliedStep(init, s[..i], s[i], key, val, d);
      d := Bump(d, key(s[i]), val(s[i]));
      i := i + 1;
    }
    assert s[..i] == s;
  }

  /** A `forEach` that fills two counter objects under the same key, as in one pass over `s`. */
  method TallyTwo<T, K(==,!new)>(s: seq<T>, key: T -> K, val1: T -> int, val2: T -> int) returns (d1: Dict<K>, d2: Dict<K>)
    ensures d1 == Fold([], s, key, val1) && d2 == Fold([], s, key, val2)
  {
    d1, d2 := [], [];
    var i := 0;
    assert s[..0] == [];
    while i < |s|
      invariant 0 <= i <= |s|
      invariant d1 == Fold([], s[..i], key, val1) && d2 == Fold([], s[..i], key, val2)
    {
      assert s[..i + 1][..i] == s[..i];
      d1 := Bump(d1, key(s[i]), val1(s[i]));
      d2 := Bump(d2, key(s[i]), val2(s[i]));
      i := i + 1;
    }
    assert s[..i] == s;
  }
}
