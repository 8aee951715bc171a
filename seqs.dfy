/** Sequence utilities standing for the array methods the source uses:
    `filter`, `slice`, and `Array.from(new Set(...))`. */
module Seqs {

  /** `s.filter(p)`: the elements of `s` that satisfy `p`, in order. */
  function Filter<T>(s: seq<T>, p: T -> bool): (r: seq<T>)
    ensures |r| <= |s|
    ensures forall i :: 0 <= i < |r| ==> r[i] in s && p(r[i])
    ensures forall i :: 0 <= i < |s| && p(s[i]) ==> s[i] in r
  {
    if s == [] then [] else (if p(s[0]) then [s[0]] else []) + Filter(s[1..], p)
  }

  /** The negation of a predicate, for `filter(x => !p(x))`. */
  function Not<T>(p: T -> bool): T -> bool {
    x => !p(x)
  }

  /** Filtering distributes over concatenation. */
  lemma {:induction false} FilterAppend<T>(a: seq<T>, b: seq<T>, p: T -> bool)
    ensures Filter(a + b, p) == Filter(a, p) + Filter(b, p)
  {
    if a == [] {
      assert a + b == b;
    } else {
      assert (a + b)[1..] == a[1..] + b;
      FilterAppend(a[1..], b, p);
    }
  }

  /** Filtering a prefix one element longer adds at most that element. */
  lemma FilterSnoc<T>(s: seq<T>, i: nat, p: T -> bool)
    requires i < |s|
    ensures Filter(s[..i + 1], p) == Filter(s[..i], p) + (if p(s[i]) then [s[i]] else [])
  {
    assert s[..i + 1] == s[..i] + [s[i]];
    FilterAppend(s[..i], [s[i]], p);
    assert Filter([s[i]], p) == (if p(s[i]) then [s[i]] else []) + Filter([s[i]][1..], p);
  }

  /** An element is kept exactly when it occurs and satisfies the predicate. */
  lemma {:induction false} FilterMembership<T>(s: seq<T>, p: T -> bool)
    ensures forall x :: x in Filter(s, p) <==> x in s && p(x)
  {
    if s != [] {
      FilterMembership(s[1..], p);
      assert forall x :: x in s <==> x == s[0] || x in s[1..];
    }
  }

  /** Both of two predicates, for `filter(p).filter(q)`. */
  function And<T>(p: T -> bool, q: T -> bool): T -> bool {
    x => p(x) && q(x)
  }

  /** Filtering twice is filtering once by both predicates. */
  lemma {:induction false} FilterFilter<T>(s: seq<T>, p: T -> bool, q: T -> bool)
    ensures Filter(Filter(s, p), q) == Filter(s, And(p, q))
  {
    if s != [] {
      FilterFilter(s[1..], p, q);
      var f := Filter(s, p);
      assert And(p, q)(s[0]) == (p(s[0]) && q(s[0]));
      if p(s[0]) {
        assert f == [s[0]] + Filter(s[1..], p);
        assert f[0] == s[0] && f[1..] == Filter(s[1..], p);
        assert Filter(f, q) == (if q(f[0]) then [f[0]] else []) + Filter(f[1..], q);
      } else {
        assert f == Filter(s[1..], p);
      }
    }
  }

  /** Two predicates that agree on every element select the same elements. */
  lemma {:induction false} FilterCongruent<T>(s: seq<T>, p: T -> bool, q: T -> bool)
    requires forall i :: 0 <= i < |s| ==> p(s[i]) == q(s[i])
    ensures Filter(s, p) == Filter(s, q)
  {
    if s != [] {
      FilterCongruent(s[1..], p, q);
    }
  }

  /** An element satisfying `p` and one satisfying its negation partition `s`:
      the two counts add up to the length. */
  lemma {:induction false} FilterPartition<T>(s: seq<T>, p: T -> bool)
    ensures |Filter(s, p)| + |Filter(s, Not(p))| == |s|
  {
    if s != [] {
      FilterPartition(s[1..], p);
    }
  }

  /** Selecting by a stronger predicate never yields more elements. */
  lemma {:induction false} FilterMonotone<T>(s: seq<T>, p: T -> bool, q: T -> bool)
    requires forall i :: 0 <= i < |s| ==> p(s[i]) ==> q(s[i])
    ensures |Filter(s, p)| <= |Filter(s, q)|
  {
    if s != [] {
      FilterMonotone(s[1..], p, q);
    }
  }

  /** The position of the first occurrence of `x` in `s`. */
  function FirstIndex<T(==)>(s: seq<T>, x: T): (k: nat)
    requires x in s
    ensures k < |s| && s[k] == x && x !in s[..k]
  {
    if s[0] == x then 0
    else
      assert s[1..][..FirstIndex(s[1..], x)] == s[1..1 + FirstIndex(s[1..], x)];
      1 + FirstIndex(s[1..], x)
  }

  /** The first occurrence is the only position holding `x` with no `x`
      before it. */
  lemma FirstIndexUnique<T>(s: seq<T>, x: T, k: nat)
    requires k < |s| && s[k] == x && x !in s[..k]
    ensures FirstIndex(s, x) == k
  {
  }

  /** `Array.from(new Set(s))`: the distinct elements of `s` in the order of
      their first occurrence. */
  function Distinct<T(==)>(s: seq<T>): (r: seq<T>)
    ensures DistinctOf(s, r)
  {
    if s == [] then []
    else
      var init, x := s[..|s| - 1], s[|s| - 1];
      var d := Distinct(init);
      assert s == init + [x];
      DistinctSnoc(init, x, d);
      if x in d then d else d + [x]
  }

  /** `r` lists each element of `s` exactly once, in the order of first
      occurrence. */
  predicate DistinctOf<T(==)>(s: seq<T>, r: seq<T>) {
    (forall i :: 0 <= i < |r| ==> r[i] in s) &&
    (forall i :: 0 <= i < |s| ==> s[i] in r) &&
    (forall i, j :: 0 <= i < j < |r| ==> r[i] != r[j]) &&
    (forall i, j :: 0 <= i < j < |r| ==> FirstIndex(s, r[i]) < FirstIndex(s, r[j]))
  }

  /** The distinct elements of `init + [x]` are those of `init`, followed by
      `x` when it is new. */
  lemma DistinctSnoc<T>(init: seq<T>, x: T, d: seq<T>)
    requires DistinctOf(init, d)
    ensures DistinctOf(init + [x], if x in d then d else d + [x])
  {
    FirstIndexKept(init, x, d);
    if x in d {
      DistinctSnocOld(init, x, d);
    } else {
      FirstIndexNew(init, x, d);
      DistinctSnocNew(init, x, d);
    }
  }

  /** An element already seen leaves the distinct elements as they are. */
  lemma DistinctSnocOld<T>(init: seq<T>, x: T, d: seq<T>)
    requires DistinctOf(init, d) && x in d
    requires forall i :: 0 <= i < |d| ==> FirstIndex(init + [x], d[i]) == FirstIndex(init, d[i])
    ensures DistinctOf(init + [x], d)
  {
    var s := init + [x];
    assert forall i :: 0 <= i < |init| ==> s[i] == init[i];
    assert forall i :: 0 <= i < |s| ==> s[i] in d by {
      forall i | 0 <= i < |s| ensures s[i] in d {
        if i < |init| { assert s[i] == init[i]; } else { assert s[i] == x; }
      }
    }
  }

  /** A new element is added after the distinct elements of the prefix. */
  lemma DistinctSnocNew<T>(init: seq<T>, x: T, d: seq<T>)
    requires DistinctOf(init, d) && x !in d
    requires forall i :: 0 <= i < |d| ==> FirstIndex(init + [x], d[i]) == FirstIndex(init, d[i])
    requires FirstIndex(init + [x], x) == |init|
    ensures DistinctOf(init + [x], d + [x])
  {
    var s, r := init + [x], d + [x];
    forall i | 0 <= i < |s| ensures s[i] in r {
      if i < |init| { assert s[i] == init[i]; } else { assert s[i] == x; }
    }
    forall i, j | 0 <= i < j < |r| ensures r[i] != r[j] {
      assert r[i] == d[i];
      if j < |d| { assert r[j] == d[j]; }
    }
    forall i | 0 <= i < |d| ensures d[i] in s && FirstIndex(s, d[i]) < |init| {
      assert FirstIndex(s, d[i]) == FirstIndex(init, d[i]);
    }
    forall i, j | 0 <= i < j < |d| ensures FirstIndex(s, d[i]) < FirstIndex(s, d[j]) {
      assert FirstIndex(s, d[i]) == FirstIndex(init, d[i]);
      assert FirstIndex(s, d[j]) == FirstIndex(init, d[j]);
    }
    SnocOrdered(s, d, x, |init|);
    forall i | 0 <= i < |r| ensures r[i] in s {
      if i < |d| { assert r[i] == d[i]; }
    }
  }

  /** Appending an element whose first occurrence comes after those of all
      of `d` keeps the list ordered by first occurrence. */
  lemma SnocOrdered<T>(s: seq<T>, d: seq<T>, x: T, n: nat)
    requires x in s && forall i :: 0 <= i < |d| ==> d[i] in s
    requires forall i, j :: 0 <= i < j < |d| ==> FirstIndex(s, d[i]) < FirstIndex(s, d[j])
    requires forall i :: 0 <= i < |d| ==> FirstIndex(s, d[i]) < n
    requires FirstIndex(s, x) == n
    ensures forall i, j :: 0 <= i < j < |d + [x]| ==> FirstIndex(s, (d + [x])[i]) < FirstIndex(s, (d + [x])[j])
  {
    var r := d + [x];
    forall i, j | 0 <= i < j < |r| ensures FirstIndex(s, r[i]) < FirstIndex(s, r[j]) {
      assert r[i] == d[i];
      if j < |d| { assert r[j] == d[j]; } else { assert r[j] == x; }
    }
  }

  /** Appending `x` keeps the first occurrence of every element of the
      prefix. */
  lemma FirstIndexKept<T>(init: seq<T>, x: T, d: seq<T>)
    requires forall i :: 0 <= i < |d| ==> d[i] in init
    ensures forall i :: 0 <= i < |d| ==> FirstIndex(init + [x], d[i]) == FirstIndex(init, d[i])
  {
    forall i | 0 <= i < |d| ensures FirstIndex(init + [x], d[i]) == FirstIndex(init, d[i]) {
      var k := FirstIndex(init, d[i]);
      assert (init + [x])[..k] == init[..k];
      FirstIndexUnique(init + [x], d[i], k);
    }
  }

  /** An element new to the prefix occurs first at the end. */
  lemma FirstIndexNew<T>(init: seq<T>, x: T, d: seq<T>)
    requires x !in d
    requires forall y :: y in init ==> y in d
    ensures FirstIndex(init + [x], x) == |init|
  {
    assert (init + [x])[..|init|] == init;
    FirstIndexUnique(init + [x], x, |init|);
  }


  /** `s.slice(start, end)` for non-negative bounds: JavaScript clamps both
      bounds to the length and yields `[]` when the range is empty. */
  function Slice<T>(s: seq<T>, start: nat, end: nat): (r: seq<T>)
    ensures start <= end ==> |r| <= end - start
    ensures forall i :: 0 <= i < |r| ==> start + i < |s| && r[i] == s[start + i]
    ensures start <= end <= |s| ==> |r| == end - start
    ensures start <= |s| <= end ==> |r| == |s| - start
    ensures end <= start || |s| <= start ==> r == []
  {
    var hi := if end <= |s| then end else |s|;
    if start >= hi then [] else s[start..hi]
  }
}
