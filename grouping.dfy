/** Counting a sequence group by group, for the per-category statistics:
    when the groups are distinct and cover every element, the group sizes
    add up to the length. */
module Grouping {
  import opened Seqs

  /** The elements whose key is `k`. */
  function KeyIs<T, K(==)>(key: T -> K, k: K): T -> bool {
    x => key(x) == k
  }

  /** The sum, over the keys `ks`, of the number of elements with that key. */
  function SumCounts<T, K(==)>(s: seq<T>, key: T -> K, ks: seq<K>): nat {
    if ks == [] then 0 else |Filter(s, KeyIs(key, ks[0]))| + SumCounts(s, key, ks[1..])
  }

  predicate NoDuplicates<K(==)>(ks: seq<K>) {
    forall i, j :: 0 <= i < j < |ks| ==> ks[i] != ks[j]
  }

  /** One more element adds one to the sum when its key is listed. */
  lemma {:induction false} SumCountsSnoc<T, K>(s: seq<T>, x: T, key: T -> K, ks: seq<K>)
    requires NoDuplicates(ks)
    ensures SumCounts(s + [x], key, ks) == SumCounts(s, key, ks) + (if key(x) in ks then 1 else 0)
  {
    if ks != [] {
      FilterAppend(s, [x], KeyIs(key, ks[0]));
      assert Filter([x], KeyIs(key, ks[0])) == (if key(x) == ks[0] then [x] else []) + Filter([x][1..], KeyIs(key, ks[0]));
      SumCountsSnoc(s, x, key, ks[1..]);
      assert key(x) in ks <==> key(x) == ks[0] || key(x) in ks[1..];
      if key(x) == ks[0] {
        assert key(x) !in ks[1..] by {
          forall j | 0 <= j < |ks[1..]| ensures ks[1..][j] != ks[0] {
            assert ks[1..][j] == ks[j + 1];
          }
        }
      }
    }
  }

  /** Distinct keys that cover every element partition the sequence. */
  lemma {:induction false} GroupsPartition<T, K>(s: seq<T>, key: T -> K, ks: seq<K>)
    requires NoDuplicates(ks)
    requires forall i :: 0 <= i < |s| ==> key(s[i]) in ks
    ensures SumCounts(s, key, ks) == |s|
  {
    if s == [] {
      SumCountsEmpty(key, ks);
    } else {
      var init := s[..|s| - 1];
      assert s == init + [s[|s| - 1]];
      assert forall i :: 0 <= i < |init| ==> init[i] == s[i];
      GroupsPartition(init, key, ks);
      SumCountsSnoc(init, s[|s| - 1], key, ks);
    }
  }

  lemma {:induction false} SumCountsEmpty<T, K>(key: T -> K, ks: seq<K>)
    ensures SumCounts([], key, ks) == 0
  {
    if ks != [] {
      SumCountsEmpty(key, ks[1..]);
    }
  }
}
