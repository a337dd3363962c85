/** Sequence operations the table transformations are built from: boolean-mask
    selection, keyed selection (one group of a groupby), sums over a column,
    sorted sets of integer group keys and removal of duplicate rows. */
module Seqs {

  /** Every element occurs once. */
  predicate Distinct<T(==)>(s: seq<T>) {
    forall i, j :: 0 <= i < j < |s| ==> s[i] != s[j]
  }

  /** Every element is smaller than the ones after it (hence `Distinct`). */
  predicate StrictlyIncreasing(s: seq<int>) {
    forall i, j :: 0 <= i < j < |s| ==> s[i] < s[j]
  }

  /** A non-empty sequence is its front and its last element. */
  lemma LastSplit<T>(s: seq<T>)
    requires s != []
    ensures s == s[..|s| - 1] + [s[|s| - 1]]
  {
  }

  /** A longer prefix is the shorter one and the next element. */
  lemma PrefixSnoc<T>(s: seq<T>, i: int)
    requires 0 <= i < |s|
    ensures s[..i] + [s[i]] == s[..i + 1]
  {
  }

  /** `a` is `b` with some elements left out: `a[k]` is `b[idx[k]]`, and the
      positions strictly increase, so relative order is kept. */
  ghost predicate SubsequenceAt<T(!new)>(a: seq<T>, b: seq<T>, idx: seq<int>) {
    && |idx| == |a|
    && (forall k :: 0 <= k < |idx| ==> 0 <= idx[k] < |b| && a[k] == b[idx[k]])
    && (forall k, l :: 0 <= k < l < |idx| ==> idx[k] < idx[l])
  }

  ghost predicate IsSubsequence<T(!new)>(a: seq<T>, b: seq<T>) {
    exists idx :: SubsequenceAt(a, b, idx)
  }

  // ---------------------------------------------------------------------------
  // Selection

  /** The elements of `s` that satisfy `p`, in their original order: a table
      indexed by a boolean mask. */
  function Filter<T(!new)>(s: seq<T>, p: T -> bool): (r: seq<T>)
    ensures |r| <= |s|
    ensures forall x :: x in r <==> x in s && p(x)
  {
    if s == [] then []
    else
      var init := Filter(s[..|s| - 1], p);
      assert s == s[..|s| - 1] + [s[|s| - 1]];
      if p(s[|s| - 1]) then init + [s[|s| - 1]] else init
  }

  /** A filter keeps every copy of a row that satisfies the predicate and no
      copy of one that does not. */
  lemma {:induction false} FilterCounts<T(!new)>(s: seq<T>, p: T -> bool, x: T)
    ensures multiset(Filter(s, p))[x] == if p(x) then multiset(s)[x] else 0
  {
    if s != [] {
      var n := |s| - 1;
      assert s == s[..n] + [s[n]];
      FilterCounts(s[..n], p, x);
    }
  }

  /** Positions in `s` of the elements `Filter` keeps. */
  lemma {:induction false} FilterPositions<T(!new)>(s: seq<T>, p: T -> bool) returns (idx: seq<int>)
    ensures SubsequenceAt(Filter(s, p), s, idx)
    ensures forall k :: 0 <= k < |idx| ==> p(s[idx[k]])
  {
    if s == [] {
      idx := [];
    } else {
      var n := |s| - 1;
      var prev := FilterPositions(s[..n], p);
      if p(s[n]) {
        idx := prev + [n];
      } else {
        idx := prev;
      }
    }
  }

  /** A filter keeps the surviving rows in their original relative order. */
  lemma FilterIsSubsequence<T(!new)>(s: seq<T>, p: T -> bool)
    ensures IsSubsequence(Filter(s, p), s)
  {
    var idx := FilterPositions(s, p);
  }

  lemma {:induction false} FilterSnoc<T(!new)>(s: seq<T>, x: T, p: T -> bool)
    ensures Filter(s + [x], p) == Filter(s, p) + (if p(x) then [x] else [])
  {
    assert (s + [x])[..|s|] == s;
  }

  /** One group of a groupby: the elements whose key is `k`, in order. */
  function Select<T(!new), K(==)>(s: seq<T>, key: T -> K, k: K): (r: seq<T>)
    ensures forall x :: x in r <==> x in s && key(x) == k
  {
    Filter(s, x => key(x) == k)
  }

  // ---------------------------------------------------------------------------
  // Sums

  /** The sum of a column. */
  function Sum<T(!new)>(s: seq<T>, w: T -> int): int {
    if s == [] then 0 else Sum(s[..|s| - 1], w) + w(s[|s| - 1])
  }

  /** The weight that makes `Sum` a count. */
  function Unit<T(!new)>(x: T): int {
    1
  }

  lemma {:induction false} SumSnoc<T(!new)>(s: seq<T>, x: T, w: T -> int)
    ensures Sum(s + [x], w) == Sum(s, w) + w(x)
  {
    assert (s + [x])[..|s|] == s;
  }

  lemma {:induction false} SumUnit<T(!new)>(s: seq<T>)
    ensures Sum(s, Unit) == |s|
  {
    if s != [] {
      SumUnit(s[..|s| - 1]);
    }
  }

  /** A non-empty column of positive values has a positive sum. */
  lemma {:induction false} SumPositive<T(!new)>(s: seq<T>, w: T -> int)
    requires s != [] && forall x :: x in s ==> w(x) > 0
    ensures Sum(s, w) > 0
  {
    var n := |s| - 1;
    assert s[n] in s;
    if n > 0 {
      assert forall x :: x in s[..n] ==> x in s;
      SumPositive(s[..n], w);
    }
  }

  /** Two columns that agree row by row have the same sum. */
  lemma {:induction false} SumPointwise<T(!new), U(!new)>(s: seq<T>, w: T -> int, t: seq<U>, v: U -> int)
    requires |s| == |t|
    requires forall i :: 0 <= i < |s| ==> w(s[i]) == v(t[i])
    ensures Sum(s, w) == Sum(t, v)
  {
    if s != [] {
      SumPointwise(s[..|s| - 1], w, t[..|t| - 1], v);
    }
  }

  /** Leaving out elements of weight zero does not change a sum. */
  lemma {:induction false} SumFilterZero<T(!new)>(s: seq<T>, p: T -> bool, w: T -> int)
    requires forall x :: x in s && !p(x) ==> w(x) == 0
    ensures Sum(Filter(s, p), w) == Sum(s, w)
  {
    if s != [] {
      var n := |s| - 1;
      assert s == s[..n] + [s[n]];
      SumFilterZero(s[..n], p, w);
      if p(s[n]) {
        SumSnoc(Filter(s[..n], p), s[n], w);
      }
    }
  }

  /** The sum, over `keys`, of the total weight of each key's group. */
  function GroupTotals<T(!new), K(==)>(keys: seq<K>, s: seq<T>, key: T -> K, w: T -> int): int {
    if keys == [] then 0
    else GroupTotals(keys[..|keys| - 1], s, key, w) + Sum(Select(s, key, keys[|keys| - 1]), w)
  }

  lemma {:induction false} GroupTotalsOfEmpty<T(!new), K>(keys: seq<K>, key: T -> K, w: T -> int)
    ensures GroupTotals(keys, [], key, w) == 0
  {
    if keys != [] {
      GroupTotalsOfEmpty(keys[..|keys| - 1], key, w);
    }
  }

  lemma {:induction false} GroupTotalsSnoc<T(!new), K>(keys: seq<K>, s: seq<T>, x: T, key: T -> K, w: T -> int)
    requires Distinct(keys)
    ensures GroupTotals(keys, s + [x], key, w)
         == GroupTotals(keys, s, key, w) + (if key(x) in keys then w(x) else 0)
  {
    if keys != [] {
      var m := |keys| - 1;
      var k := keys[m];
      assert keys == keys[..m] + [k];
      GroupTotalsSnoc(keys[..m], s, x, key, w);
      FilterSnoc(s, x, y => key(y) == k);
      if key(x) == k {
        SumSnoc(Select(s, key, k), x, w);
        assert key(x) !in keys[..m];
      }
    }
  }

  /** Groups by a key partition the rows: when every row's key is among the
      distinct `keys`, the per-group totals add up to the grand total. */
  lemma {:induction false} PartitionTotal<T(!new), K>(keys: seq<K>, s: seq<T>, key: T -> K, w: T -> int)
    requires Distinct(keys)
    requires forall x :: x in s ==> key(x) in keys
    ensures GroupTotals(keys, s, key, w) == Sum(s, w)
  {
    if s == [] {
      GroupTotalsOfEmpty(keys, key, w);
    } else {
      var n := |s| - 1;
      assert s == s[..n] + [s[n]];
      PartitionTotal(keys, s[..n], key, w);
      GroupTotalsSnoc(keys, s[..n], s[n], key, w);
    }
  }

  // ---------------------------------------------------------------------------
  // Group keys

  /** Adds `x` to a strictly increasing sequence of keys. */
  function InsertKey(s: seq<int>, x: int): (r: seq<int>)
    requires StrictlyIncreasing(s)
    ensures StrictlyIncreasing(r)
    ensures forall y :: y in r <==> y in s || y == x
  {
    if s == [] then [x]
    else if x < s[0] then [x] + s
    else if x == s[0] then s
    else
      var rest := InsertKey(s[1..], x);
      assert forall j :: 0 <= j < |rest| ==> rest[j] in rest;
      [s[0]] + rest
  }

  /** The distinct values of `s` in ascending order: the keys a groupby emits. */
  function SortedKeys(s: seq<int>): (r: seq<int>)
    ensures StrictlyIncreasing(r)
    ensures forall y :: y in r <==> y in s
  {
    if s == [] then []
    else
      assert s == s[..|s| - 1] + [s[|s| - 1]];
      InsertKey(SortedKeys(s[..|s| - 1]), s[|s| - 1])
  }

  // ---------------------------------------------------------------------------
  // Duplicate removal

  /** The position of the first occurrence of `x` in `s`. */
  function FirstIndex<T(==,!new)>(s: seq<T>, x: T): (i: nat)
    requires x in s
    ensures i < |s| && s[i] == x && x !in s[..i]
  {
    if s[0] == x then 0
    else
      var i := 1 + FirstIndex(s[1..], x);
      assert s[..i] == [s[0]] + s[1..][..i - 1];
      i
  }

  lemma FirstIndexUnique<T(!new)>(s: seq<T>, x: T, i: int)
    requires 0 <= i < |s| && s[i] == x && x !in s[..i]
    ensures FirstIndex(s, x) == i
  {
  }

  lemma FirstIndexSnoc<T(!new)>(s: seq<T>, y: T, x: T)
    requires x in s
    ensures FirstIndex(s + [y], x) == FirstIndex(s, x)
  {
    var f := FirstIndex(s, x);
    assert (s + [y])[..f] == s[..f];
    FirstIndexUnique(s + [y], x, f);
  }

  /** The rows of `s` with later repetitions of a row left out (the first
      occurrence of each distinct row is kept). */
  function Dedup<T(==,!new)>(s: seq<T>): (r: seq<T>)
    ensures Distinct(r)
    ensures forall x :: x in r <==> x in s
    ensures |r| <= |s|
  {
    if s == [] then []
    else
      var init := Dedup(s[..|s| - 1]);
      assert s == s[..|s| - 1] + [s[|s| - 1]];
      if s[|s| - 1] in init then init else init + [s[|s| - 1]]
  }

  /** Distinct rows come out in the order of their first occurrences; together
      with `Distinct` and "same rows" this determines `Dedup` completely. */
  lemma {:induction false} DedupKeepsFirstOccurrenceOrder<T(!new)>(s: seq<T>)
    ensures forall i, j :: 0 <= i < j < |Dedup(s)| ==>
              FirstIndex(s, Dedup(s)[i]) < FirstIndex(s, Dedup(s)[j])
  {
    if s != [] {
      var n := |s| - 1;
      var y := s[n];
      var init := Dedup(s[..n]);
      assert s == s[..n] + [y];
      DedupKeepsFirstOccurrenceOrder(s[..n]);
      forall z | z in init
        ensures FirstIndex(s, z) == FirstIndex(s[..n], z)
      {
        FirstIndexSnoc(s[..n], y, z);
      }
      if y !in init {
        assert s[..n] == s[..n];
        FirstIndexUnique(s, y, n);
        forall i, j | 0 <= i < j < |Dedup(s)|
          ensures FirstIndex(s, Dedup(s)[i]) < FirstIndex(s, Dedup(s)[j])
        {
          assert Dedup(s)[i] in init;
          if j < |init| {
            assert Dedup(s)[j] in init;
          }
        }
      } else {
        forall i, j | 0 <= i < j < |Dedup(s)|
          ensures FirstIndex(s, Dedup(s)[i]) < FirstIndex(s, Dedup(s)[j])
        {
          assert Dedup(s)[i] in init && Dedup(s)[j] in init;
        }
      }
    }
  }

  /** Duplicate removal keeps the surviving rows in their original order. */
  lemma DedupIsSubsequence<T(!new)>(s: seq<T>)
    ensures IsSubsequence(Dedup(s), s)
  {
    var r := Dedup(s);
    DedupKeepsFirstOccurrenceOrder(s);
    var idx := seq(|r|, k requires 0 <= k < |r| => FirstIndex(s, r[k]));
    assert SubsequenceAt(r, s, idx);
  }

  // ---------------------------------------------------------------------------
  // String order

  /** Python's string order: by code point, a proper prefix first. */
  predicate LexLess(a: string, b: string) {
    if a == [] then b != []
    else if b == [] then false
    else if a[0] != b[0] then a[0] < b[0]
    else LexLess(a[1..], b[1..])
  }

  /** A string whose first character is smaller comes first. */
  lemma LexLessByHead(a: string, b: string)
    requires a != [] && b != [] && a[0] < b[0]
    ensures LexLess(a, b)
  {
  }

  /** Strings with a common first character compare as their tails do. */
  lemma LexLessByTail(a: string, b: string)
    requires a != [] && b != [] && a[0] == b[0] && LexLess(a[1..], b[1..])
    ensures LexLess(a, b)
  {
  }

  /** The string order is transitive. */
  lemma {:induction false} LexLessTransitive(a: string, b: string, c: string)
    requires LexLess(a, b) && LexLess(b, c)
    ensures LexLess(a, c)
  {
    if a != [] && a[0] == b[0] && b[0] == c[0] {
      LexLessTransitive(a[1..], b[1..], c[1..]);
    }
  }

  /** Strings that ascend step by step ascend pairwise. */
  lemma {:induction false} ChainAscending(labels: seq<string>)
    requires forall i :: 0 <= i < |labels| - 1 ==> LexLess(labels[i], labels[i + 1])
    ensures forall i, j :: 0 <= i < j < |labels| ==> LexLess(labels[i], labels[j])
  {
    if |labels| >= 2 {
      var m := |labels| - 1;
      var init := labels[..m];
      assert forall i :: 0 <= i < m ==> init[i] == labels[i];
      ChainAscending(init);
      forall i | 0 <= i < m - 1
        ensures LexLess(labels[i], labels[m])
      {
        assert LexLess(init[i], init[m - 1]);
        LexLessTransitive(labels[i], labels[m - 1], labels[m]);
      }
    }
  }
}
