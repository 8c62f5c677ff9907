/**
 * Sequence helpers for the array operations the source relies on: `Math.max(...xs, 0)`,
 * `reduce` sums, `Array.prototype.sort` (stable, by a numeric key), `slice(0, end)` and
 * `String.prototype.includes`.
 */
module Seqs {

  /** `Math.max(...s, 0)`: the largest element, or 0 when every element is below 0 or there are none. */
  function MaxOrZero(s: seq<int>): (m: int)
    ensures m >= 0
    ensures forall i :: 0 <= i < |s| ==> s[i] <= m
    ensures m == 0 || m in s
  {
    if s == [] then 0
    else
      var rest := MaxOrZero(s[..|s| - 1]);
      if s[|s| - 1] > rest then s[|s| - 1] else rest
  }

  /** `s.reduce((sum, x) => sum + x, 0)`. */
  function Sum(s: seq<int>): int
  {
    if s == [] then 0 else Sum(s[..|s| - 1]) + s[|s| - 1]
  }

  lemma {:induction false} SumAppend(a: seq<int>, b: seq<int>)
    ensures Sum(a + b) == Sum(a) + Sum(b)
  {
    if b == [] {
      assert a + b == a;
    } else {
      assert (a + b)[..|a + b| - 1] == a + b[..|b| - 1];
      SumAppend(a, b[..|b| - 1]);
    }
  }

  lemma {:induction false} SumNonNegative(s: seq<int>)
    requires forall i :: 0 <= i < |s| ==> s[i] >= 0
    ensures Sum(s) >= 0
  {
    if s != [] {
      SumNonNegative(s[..|s| - 1]);
    }
  }

  /** `s.filter(x => p(a, x))`: the elements of `s` that satisfy `p` with the extra argument `a`, in order. */
  function FilterWith<A, T(==,!new)>(s: seq<T>, p: (A, T) -> bool, a: A): (r: seq<T>)
    ensures |r| <= |s|
    ensures forall x :: x in r <==> x in s && p(a, x)
  {
    if s == [] then []
    else
      var rest := FilterWith(s[1..], p, a);
      assert forall x :: x in s <==> x == s[0] || x in s[1..];
      if p(a, s[0]) then [s[0]] + rest else rest
  }

  /** Filtering a sequence with one more element at the back adds that element when it passes. */
  lemma {:induction false} FilterWithSnoc<A, T(!new)>(s: seq<T>, x: T, p: (A, T) -> bool, a: A)
    ensures FilterWith(s + [x], p, a) == FilterWith(s, p, a) + (if p(a, x) then [x] else [])
  {
    if s == [] {
      assert s + [x] == [x] && [x][1..] == [];
    } else {
      assert (s + [x])[0] == s[0] && (s + [x])[1..] == s[1..] + [x];
      FilterWithSnoc(s[1..], x, p, a);
    }
  }

  /** Splitting `[x] + rest` in two: `x` goes to one side, and the parts of `rest` are kept. */
  lemma SplitStep<T>(x: T, rest: seq<T>, a0: seq<T>, b0: seq<T>, a: seq<T>, b: seq<T>, toA: bool)
    requires multiset(a0) + multiset(b0) == multiset(rest)
    requires toA ==> a == [x] + a0 && b == b0
    requires !toA ==> a == a0 && b == [x] + b0
    ensures multiset(a) + multiset(b) == multiset([x] + rest)
  {
  }

  /** One step of `FilterWith` from the front. */
  lemma FilterCons<A, T(!new)>(s: seq<T>, p: (A, T) -> bool, a: A)
    requires s != []
    ensures FilterWith(s, p, a) == (if p(a, s[0]) then [s[0]] else []) + FilterWith(s[1..], p, a)
  {
  }

  /** Filtering a prefix one element longer adds that element when it passes. */
  lemma FilterPrefixStep<A, T(!new)>(s: seq<T>, i: nat, p: (A, T) -> bool, a: A)
    requires i < |s|
    ensures FilterWith(s[..i + 1], p, a) == FilterWith(s[..i], p, a) + (if p(a, s[i]) then [s[i]] else [])
  {
    assert s[..i + 1] == s[..i] + [s[i]];
    FilterWithSnoc(s[..i], s[i], p, a);
  }

  /** Filtering with a predicate that agrees with `p` on every element of `s` gives the same result. */
  lemma {:induction false} FilterCongruent<A, B, T(!new)>(s: seq<T>, p: (A, T) -> bool, a: A, q: (B, T) -> bool, b: B)
    requires forall x :: x in s ==> (q(b, x) <==> p(a, x))
    ensures FilterWith(s, q, b) == FilterWith(s, p, a)
  {
    if s != [] {
      assert s[0] in s;
      assert forall x :: x in s[1..] ==> x in s;
      FilterCongruent(s[1..], p, a, q, b);
    }
  }

  /** Two filters one after the other are one filter by the conjunction, in the same order. */
  lemma {:induction false} FilterThen<A, B, C, T(!new)>(s: seq<T>, p: (A, T) -> bool, a: A, q: (B, T) -> bool, b: B,
                                                       both: (C, T) -> bool, c: C)
    requires forall x :: x in s ==> (both(c, x) <==> p(a, x) && q(b, x))
    ensures FilterWith(FilterWith(s, p, a), q, b) == FilterWith(s, both, c)
  {
    if s != [] {
      assert s[0] in s;
      assert forall x :: x in s[1..] ==> x in s;
      FilterThen(s[1..], p, a, q, b, both, c);
      FilterCons(s, p, a);
      if p(a, s[0]) {
        FilterCons(FilterWith(s, p, a), q, b);
      }
    }
  }

  /** A filter that no element passes is empty. */
  lemma {:induction false} FilterNone<A, T(!new)>(s: seq<T>, p: (A, T) -> bool, a: A)
    requires forall k :: 0 <= k < |s| ==> !p(a, s[k])
    ensures FilterWith(s, p, a) == []
  {
    if s != [] {
      FilterNone(s[1..], p, a);
    }
  }

  /** A filter that only the element at `i` passes keeps just that element. */
  lemma {:induction false} FilterOne<A, T(!new)>(s: seq<T>, p: (A, T) -> bool, a: A, i: nat)
    requires i < |s| && p(a, s[i])
    requires forall k :: 0 <= k < |s| && k != i ==> !p(a, s[k])
    ensures FilterWith(s, p, a) == [s[i]]
  {
    if i == 0 {
      FilterNone(s[1..], p, a);
    } else {
      FilterOne(s[1..], p, a, i - 1);
    }
  }

  /** A filter that only the elements at `i` and `j` pass keeps those two, in order. */
  lemma {:induction false} FilterTwo<A, T(!new)>(s: seq<T>, p: (A, T) -> bool, a: A, i: nat, j: nat)
    requires i < j < |s| && p(a, s[i]) && p(a, s[j])
    requires forall k :: 0 <= k < |s| && k != i && k != j ==> !p(a, s[k])
    ensures FilterWith(s, p, a) == [s[i], s[j]]
  {
    if i == 0 {
      FilterOne(s[1..], p, a, j - 1);
    } else {
      FilterTwo(s[1..], p, a, i - 1, j - 1);
    }
  }

  /** No element occurs twice. */
  predicate Distinct<T(==)>(s: seq<T>) {
    forall i, j :: 0 <= i < j < |s| ==> s[i] != s[j]
  }

  /** `s.includes(sub)` on strings: `sub` occurs as a contiguous part of `s`. */
  predicate IsInfix<T(==)>(sub: seq<T>, s: seq<T>)
    decreases |s|
  {
    |sub| <= |s| && (s[..|sub|] == sub || IsInfix(sub, s[1..]))
  }

  lemma {:induction false} IsInfixAt<T>(sub: seq<T>, s: seq<T>, i: nat)
    requires i + |sub| <= |s| && s[i..i + |sub|] == sub
    ensures IsInfix(sub, s)
    decreases i
  {
    if i > 0 {
      assert s[1..][i - 1..i - 1 + |sub|] == s[i..i + |sub|];
      IsInfixAt(sub, s[1..], i - 1);
    }
  }

  /** A sequence missing one of the elements of `sub` does not contain `sub`. */
  lemma {:induction false} NotInfixWithout<T>(sub: seq<T>, s: seq<T>, x: T)
    requires x in sub && x !in s
    ensures !IsInfix(sub, s)
    decreases |s|
  {
    if |sub| <= |s| {
      assert x !in s[..|sub|];
      NotInfixWithout(sub, s[1..], x);
    }
  }

  /** `s.slice(0, end)`: a negative end counts from the back, an end past the length stops at the length. */
  function SliceTo<T>(s: seq<T>, end: int): (r: seq<T>)
    ensures end >= 0 ==> |r| == if end < |s| then end else |s|
    ensures end < 0 ==> |r| == if |s| + end > 0 then |s| + end else 0
    ensures r <= s
  {
    var stop := if end < 0 then (if |s| + end > 0 then |s| + end else 0)
                else (if end < |s| then end else |s|);
    s[..stop]
  }

  // ---- stable sort by a real-valued key, largest key first: `xs.sort((a, b) => key(b) - key(a))`

  predicate SortedDesc<T>(s: seq<T>, key: T -> real) {
    forall i, j :: 0 <= i < j < |s| ==> key(s[i]) >= key(s[j])
  }

  lemma ConsSortedDesc<T>(a: T, s: seq<T>, key: T -> real)
    requires SortedDesc(s, key)
    requires s == [] || key(a) >= key(s[0])
    ensures SortedDesc([a] + s, key)
  {
  }

  /** Inserts `x` after every element whose key is at least `key(x)`, which keeps equal keys in arrival order. */
  function InsertDesc<T>(t: seq<T>, x: T, key: T -> real): (r: seq<T>)
    requires SortedDesc(t, key)
    ensures SortedDesc(r, key)
    ensures multiset(r) == multiset(t) + multiset{x}
    ensures |r| == |t| + 1
    ensures r[0] == if t != [] && key(t[0]) >= key(x) then t[0] else x
  {
    if t == [] then [x]
    else if key(t[0]) >= key(x) then
      var rest := InsertDesc(t[1..], x, key);
      assert t == [t[0]] + t[1..];
      ConsSortedDesc(t[0], rest, key);
      [t[0]] + rest
    else
      ConsSortedDesc(x, t, key);
      [x] + t
  }

  /** Insertion sort in arrival order: the result JavaScript's stable `sort` gives for this comparator. */
  function SortDesc<T>(s: seq<T>, key: T -> real): (r: seq<T>)
    ensures SortedDesc(r, key)
    ensures multiset(r) == multiset(s)
    ensures |r| == |s|
  {
    if s == [] then []
    else
      assert s == s[..|s| - 1] + [s[|s| - 1]];
      InsertDesc(SortDesc(s[..|s| - 1], key), s[|s| - 1], key)
  }

  /**
   * `sort(...).slice(0, n)` picks a top-`n`: it takes elements of `s`, and every element it leaves out
   * (counted with multiplicity) has a key no larger than any element it keeps.
   */
  lemma SliceOfSortedIsTop<T>(s: seq<T>, key: T -> real, n: int)
    ensures multiset(SliceTo(SortDesc(s, key), n)) <= multiset(s)
    ensures forall x :: multiset(s)[x] > multiset(SliceTo(SortDesc(s, key), n))[x] ==>
      forall y :: y in SliceTo(SortDesc(s, key), n) ==> key(y) >= key(x)
  {
    var t := SortDesc(s, key);
    var r := SliceTo(t, n);
    var rest := t[|r|..];
    assert t == r + rest;
    assert multiset(t) == multiset(r) + multiset(rest);
    SortedSplit(t, |r|, key);
    forall x | multiset(s)[x] > multiset(r)[x]
      ensures x in rest
    {
      assert x in multiset(rest);
    }
  }

  /** Cutting a sorted sequence in two leaves every key of the front at least every key of the back. */
  lemma SortedSplit<T>(t: seq<T>, k: nat, key: T -> real)
    requires SortedDesc(t, key) && k <= |t|
    ensures forall x, y :: x in t[k..] && y in t[..k] ==> key(y) >= key(x)
  {
    forall x, y | x in t[k..] && y in t[..k]
      ensures key(y) >= key(x)
    {
      var j :| 0 <= j < |t| - k && t[k..][j] == x;
      var i :| 0 <= i < k && t[..k][i] == y;
      assert t[i] == y && t[k + j] == x;
    }
  }

  /** Every element of a sorted prefix comes from the sorted sequence. */
  lemma SliceOfSortedFrom<T>(s: seq<T>, key: T -> real, n: int)
    ensures forall x :: x in SliceTo(SortDesc(s, key), n) ==> x in s
  {
    forall x | x in SliceTo(SortDesc(s, key), n)
      ensures x in s
    {
      assert x in multiset(SortDesc(s, key));
    }
  }

  // ---- ascending sort of integers: `xs.sort()` on numbers that all have one decimal digit

  predicate StrictlyIncreasing(s: seq<int>) {
    forall i, j :: 0 <= i < j < |s| ==> s[i] < s[j]
  }

  predicate Ascending(s: seq<int>) {
    forall i, j :: 0 <= i < j < |s| ==> s[i] <= s[j]
  }

  lemma ConsAscending(a: int, s: seq<int>)
    requires Ascending(s)
    requires s == [] || a <= s[0]
    ensures Ascending([a] + s)
  {
  }

  function InsertAsc(t: seq<int>, x: int): (r: seq<int>)
    requires Ascending(t)
    ensures Ascending(r)
    ensures multiset(r) == multiset(t) + multiset{x}
    ensures r[0] == if t != [] && t[0] <= x then t[0] else x
  {
    if t == [] then [x]
    else if t[0] <= x then
      var rest := InsertAsc(t[1..], x);
      assert t == [t[0]] + t[1..];
      ConsAscending(t[0], rest);
      [t[0]] + rest
    else
      ConsAscending(x, t);
      [x] + t
  }

  function SortAsc(s: seq<int>): (r: seq<int>)
    ensures Ascending(r)
    ensures multiset(r) == multiset(s)
  {
    if s == [] then []
    else
      assert s == s[..|s| - 1] + [s[|s| - 1]];
      InsertAsc(SortAsc(s[..|s| - 1]), s[|s| - 1])
  }

  lemma AscendingHeadIsLeast(a: seq<int>, x: int)
    requires Ascending(a) && x in a
    ensures a[0] <= x
  {
  }

  /** Two ascending sequences with the same elements, counted with multiplicity, are equal. */
  lemma {:induction false} AscendingUnique(a: seq<int>, b: seq<int>)
    requires Ascending(a) && Ascending(b)
    requires multiset(a) == multiset(b)
    ensures a == b
    decreases |a|
  {
    assert |a| == |b| by {
      assert |a| == |multiset(a)| && |b| == |multiset(b)|;
    }
    if a != [] {
      assert a[0] in b by { assert a[0] in multiset(a); }
      assert b[0] in a by { assert b[0] in multiset(b); }
      AscendingHeadIsLeast(a, b[0]);
      AscendingHeadIsLeast(b, a[0]);
      assert multiset(a) == multiset{a[0]} + multiset(a[1..]) by { assert a == [a[0]] + a[1..]; }
      assert multiset(b) == multiset{b[0]} + multiset(b[1..]) by { assert b == [b[0]] + b[1..]; }
      assert a[0] == b[0];
      assert multiset(a[1..]) == multiset(a) - multiset{a[0]};
      assert multiset(b[1..]) == multiset(b) - multiset{b[0]};
      AscendingUnique(a[1..], b[1..]);
      assert a == [a[0]] + a[1..] && b == [b[0]] + b[1..];
    }
  }

  /** A sequence without duplicates has each of its elements with multiplicity one. */
  lemma {:induction false} DistinctMultiplicity<T>(s: seq<T>, x: T)
    requires Distinct(s)
    ensures multiset(s)[x] == if x in s then 1 else 0
    decreases |s|
  {
    if s != [] {
      assert s == [s[0]] + s[1..];
      DistinctMultiplicity(s[1..], x);
    }
  }

  /** A sequence whose elements all have multiplicity at most one has no duplicates. */
  lemma MultiplicityDistinct<T>(s: seq<T>)
    requires forall x :: multiset(s)[x] <= 1
    ensures Distinct(s)
  {
    forall i, j | 0 <= i < j < |s|
      ensures s[i] != s[j]
    {
      assert s == s[..i] + [s[i]] + s[i + 1..j] + [s[j]] + s[j + 1..];
      assert multiset(s)[s[i]] >= 1 + (if s[j] == s[i] then 1 else 0);
    }
  }
}
