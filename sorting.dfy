/** A stable sort by an integer key, as `Array.prototype.sort` with a numeric
    comparator (`(a, b) => key(a) - key(b)`) performs it, and as an index scan
    returns rows ordered by an indexed field. */
module Sorting {

  /** Concatenation is associative (a step the filter-order lemmas need). */
  lemma ConcatAssoc<T>(x: seq<T>, y: seq<T>, t: seq<T>)
    ensures (x + y) + t == x + (y + t)
  {
  }

  predicate SortedBy<T>(s: seq<T>, key: T -> int) {
    forall i, j | 0 <= i < j < |s| :: key(s[i]) <= key(s[j])
  }

  /** Every key in `s` is at most `bound`. */
  predicate AllAtMost<T>(s: seq<T>, key: T -> int, bound: int) {
    forall i | 0 <= i < |s| :: key(s[i]) <= bound
  }
  lemma AppendSorted<T>(s: seq<T>, x: T, key: T -> int)
    requires SortedBy(s, key) && AllAtMost(s, key, key(x))
    ensures SortedBy(s + [x], key)
  {
    var r := s + [x];
    forall i, j | 0 <= i < j < |r| ensures key(r[i]) <= key(r[j]) {
      if j < |s| { assert r[i] == s[i] && r[j] == s[j]; } else { assert r[i] == s[i]; }
    }
  }
  /** A bound on every key survives appending an element within it. */
  lemma AppendAtMost<T>(s: seq<T>, x: T, key: T -> int, b: int)
    requires AllAtMost(s, key, b) && key(x) <= b
    ensures AllAtMost(s + [x], key, b)
  {
    assert forall i | 0 <= i < |s| :: (s + [x])[i] == s[i];
  }

  /** In a sorted sequence the last key bounds every key. */
  lemma LastIsLargest<T>(s: seq<T>, key: T -> int)
    requires s != [] && SortedBy(s, key)
    ensures AllAtMost(s, key, key(s[|s| - 1]))
  {
    forall i | 0 <= i < |s| ensures key(s[i]) <= key(s[|s| - 1]) {
      if i < |s| - 1 { assert key(s[i]) <= key(s[|s| - 1]); }
    }
  }

  /** Inserts `x` into the sorted `s` after every element whose key is not larger. */
  function InsertByKey<T>(s: seq<T>, x: T, key: T -> int): (r: seq<T>)
    requires SortedBy(s, key)
    ensures |r| == |s| + 1
    ensures multiset(r) == multiset(s) + multiset{x}
    ensures SortedBy(r, key)
    ensures forall b | AllAtMost(s, key, b) && key(x) <= b :: AllAtMost(r, key, b)
  {
    if s == [] || key(s[|s| - 1]) <= key(x) then
      assert AllAtMost(s, key, key(x)) by {
        if s != [] { LastIsLargest(s, key); }
      }
      AppendSorted(s, x, key);
      assert forall b | AllAtMost(s, key, b) && key(x) <= b :: AllAtMost(s + [x], key, b) by {
        forall b | AllAtMost(s, key, b) && key(x) <= b ensures AllAtMost(s + [x], key, b) {
          AppendAtMost(s, x, key, b);
        }
      }
      s + [x]
    else
      var init, last := s[..|s| - 1], s[|s| - 1];
      assert s == init + [last];
      var r' := InsertByKey(init, x, key);
      LastIsLargest(s, key);
      assert AllAtMost(init, key, key(last));
      assert AllAtMost(r', key, key(last));
      AppendSorted(r', last, key);
      assert forall b | AllAtMost(s, key, b) && key(x) <= b :: AllAtMost(r' + [last], key, b) by {
        forall b | AllAtMost(s, key, b) && key(x) <= b ensures AllAtMost(r' + [last], key, b) {
          assert AllAtMost(init, key, b);
          AppendAtMost(r', last, key, b);
        }
      }
      r' + [last]
  }

  /** Insertion sort: the result is ordered by `key` and is a permutation of `s`. */
  function SortByKey<T>(s: seq<T>, key: T -> int): (r: seq<T>)
    ensures |r| == |s|
    ensures multiset(r) == multiset(s)
    ensures SortedBy(r, key)
  {
    if s == [] then []
    else
      assert s == s[..|s| - 1] + [s[|s| - 1]];
      InsertByKey(SortByKey(s[..|s| - 1], key), s[|s| - 1], key)
  }

  /** A permutation has the same elements. */
  lemma SameElements<T>(r: seq<T>, s: seq<T>, x: T)
    requires multiset(r) == multiset(s)
    ensures x in r <==> x in s
  {
    assert x in r <==> x in multiset(r);
    assert x in s <==> x in multiset(s);
  }

  predicate Distinct<T(==)>(s: seq<T>) {
    forall i, j | 0 <= i < j < |s| :: s[i] != s[j]
  }

  /** A permutation of a sequence without repetitions has no repetitions. */
  lemma PermutationDistinct<T>(r: seq<T>, s: seq<T>)
    requires multiset(r) == multiset(s) && Distinct(s)
    ensures Distinct(r)
  {
    DistinctCountsOne(s);
    forall i, j | 0 <= i < j < |r| ensures r[i] != r[j] {
      if r[i] == r[j] {
        TwoPositions(r, i, j);
        assert false;
      }
    }
  }

  lemma {:induction false} DistinctCountsOne<T>(s: seq<T>)
    requires Distinct(s)
    ensures forall x :: multiset(s)[x] <= 1
  {
    if s != [] {
      var init, last := s[..|s| - 1], s[|s| - 1];
      assert s == init + [last];
      assert Distinct(init);
      DistinctCountsOne(init);
      assert last !in init;
    }
  }

  lemma TwoPositions<T>(r: seq<T>, i: nat, j: nat)
    requires i < j < |r| && r[i] == r[j]
    ensures multiset(r)[r[i]] >= 2
  {
    assert r == r[..i] + [r[i]] + r[i + 1..j] + [r[j]] + r[j + 1..];
  }
}
