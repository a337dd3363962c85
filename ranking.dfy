/** Ordinal ranking of a column and the equal-frequency five-way cut of the
    ranks that turns them into R, F and M scores. */
module Ranking {

  // ---------------------------------------------------------------------------
  // Ordinal ranks

  /** Row `j` comes before row `i` in ascending order of `vals`, equal values
      keeping their row order (the tie rule of an ordinal "first" rank). */
  predicate Precedes(vals: seq<int>, j: int, i: int)
    requires 0 <= j < |vals| && 0 <= i < |vals|
  {
    vals[j] < vals[i] || (vals[j] == vals[i] && j < i)
  }

  /** How many of the first `k` rows come before row `i`. */
  function CountPreceding(vals: seq<int>, i: int, k: int): (c: nat)
    requires 0 <= i < |vals| && 0 <= k <= |vals|
    ensures c <= k
    ensures i < k ==> c < k
  {
    if k == 0 then 0
    else CountPreceding(vals, i, k - 1) + (if Precedes(vals, k - 1, i) then 1 else 0)
  }

  /** The ordinal rank of row `i`: one more than the number of rows before it. */
  function Rank(vals: seq<int>, i: int): (r: int)
    requires 0 <= i < |vals|
    ensures 1 <= r <= |vals|
  {
    1 + CountPreceding(vals, i, |vals|)
  }

  /** Rows before `i` are also before every row that `i` comes before, and
      `i` itself is one more. */
  lemma {:induction false} CountPrecedingMonotone(vals: seq<int>, i: int, j: int, k: int)
    requires 0 <= i < |vals| && 0 <= j < |vals| && 0 <= k <= |vals|
    requires Precedes(vals, i, j)
    ensures CountPreceding(vals, i, k) + (if i < k then 1 else 0) <= CountPreceding(vals, j, k)
  {
    if k > 0 {
      CountPrecedingMonotone(vals, i, j, k - 1);
    }
  }

  /** Ranks follow the order: a smaller value, or an equal value in an
      earlier row, has the smaller rank, and conversely. */
  lemma RankOrder(vals: seq<int>, i: int, j: int)
    requires 0 <= i < |vals| && 0 <= j < |vals|
    ensures Rank(vals, i) < Rank(vals, j) <==> Precedes(vals, i, j)
  {
    if Precedes(vals, i, j) {
      CountPrecedingMonotone(vals, i, j, |vals|);
    } else if i != j {
      assert Precedes(vals, j, i);
      CountPrecedingMonotone(vals, j, i, |vals|);
    }
  }

  /** Distinct rows have distinct ranks. */
  lemma RankInjective(vals: seq<int>, i: int, j: int)
    requires 0 <= i < |vals| && 0 <= j < |vals| && i != j
    ensures Rank(vals, i) != Rank(vals, j)
  {
    RankOrder(vals, i, j);
    RankOrder(vals, j, i);
  }

  /** The ranks of the first `k` rows. */
  function RankSet(vals: seq<int>, k: int): set<int>
    requires 0 <= k <= |vals|
  {
    set i | 0 <= i < k :: Rank(vals, i)
  }

  lemma {:induction false} RankSetSize(vals: seq<int>, k: int)
    requires 0 <= k <= |vals|
    ensures |RankSet(vals, k)| == k
  {
    if k > 0 {
      RankSetSize(vals, k - 1);
      assert RankSet(vals, k) == RankSet(vals, k - 1) + {Rank(vals, k - 1)};
      forall i | 0 <= i < k - 1
        ensures Rank(vals, i) != Rank(vals, k - 1)
      {
        RankInjective(vals, i, k - 1);
      }
    }
  }

  /** The integers 1 to `n`. */
  function Interval(n: nat): (s: set<int>)
    ensures |s| == n
    ensures forall r :: r in s <==> 1 <= r <= n
  {
    if n == 0 then {} else Interval(n - 1) + {n}
  }

  lemma SubsetSize(a: set<int>, b: set<int>)
    requires a <= b
    ensures |a| <= |b|
  {
    assert b == a + (b - a);
    assert a * (b - a) == {};
  }

  /** The ranks form a permutation of 1..n: every value in 1..n is the rank of
      some row (and, by RankInjective, of exactly one). */
  lemma RanksArePermutation(vals: seq<int>, r: int)
    requires 1 <= r <= |vals|
    ensures exists i :: 0 <= i < |vals| && Rank(vals, i) == r
  {
    var n := |vals|;
    var ranks := RankSet(vals, n);
    RankSetSize(vals, n);
    if r !in ranks {
      SubsetSize(ranks, Interval(n) - {r});
      assert false;
    }
  }

  // ---------------------------------------------------------------------------
  // Equal-frequency cut into five buckets

  /** Multiplying by a positive factor keeps strict order, both ways. */
  lemma MulStrict(x: int, y: int, d: int)
    requires d > 0
    ensures x < y <==> x * d < y * d
  {
    if x < y {
      assert y * d - x * d == (y - x) * d;
    } else {
      assert x * d - y * d == (x - y) * d;
    }
  }

  /** Integer division rounding up. */
  function CeilDiv(a: int, d: int): (c: int)
    requires d > 0
    ensures (c - 1) * d < a <= c * d
  {
    (a + d - 1) / d
  }

  /** The bucket (0..4) of rank `r` among `n` ranks when 1..n is cut at its
      0, 20, 40, 60, 80 and 100 percent quantiles 1 + k(n-1)/5: a rank lies in
      the bucket whose right-closed interval holds it, the lowest interval
      also holding its left edge. */
  function Bucket(r: int, n: int): (b: int)
    requires n >= 2 && 1 <= r <= n
    ensures 0 <= b <= 4
    ensures 5 * (r - 1) <= (b + 1) * (n - 1)
    ensures r == 1 || b * (n - 1) < 5 * (r - 1)
  {
    if r == 1 then 0
    else
      var c := CeilDiv(5 * (r - 1), n - 1);
      MulStrict(c - 1, 5, n - 1);
      MulStrict(0, c, n - 1);
      c - 1
  }

  /** Rank `r` lies in interval `b` of the cut: above edge b (or on the first
      edge, for the lowest interval) and not above edge b + 1. */
  predicate InQuintile(r: int, n: int, b: int)
    requires n >= 2
  {
    && 0 <= b <= 4
    && 5 * (r - 1) <= (b + 1) * (n - 1)
    && (b * (n - 1) < 5 * (r - 1) || (b == 0 && r == 1))
  }

  /** The bucket is the one interval of the cut that holds the rank. */
  lemma BucketIsQuintile(r: int, n: int, b: int)
    requires n >= 2 && 1 <= r <= n
    ensures InQuintile(r, n, b) <==> b == Bucket(r, n)
  {
    var c := Bucket(r, n);
    MulStrict(b, c + 1, n - 1);
    MulStrict(c, b + 1, n - 1);
  }

  /** A higher rank never falls in a lower bucket. */
  lemma BucketMonotone(r1: int, r2: int, n: int)
    requires n >= 2 && 1 <= r1 <= r2 <= n
    ensures Bucket(r1, n) <= Bucket(r2, n)
  {
    var b1, b2 := Bucket(r1, n), Bucket(r2, n);
    MulStrict(b2, b1, n - 1);
  }

  /** The lowest rank is in the first bucket and the highest in the last. */
  lemma BucketEnds(n: int)
    requires n >= 2
    ensures Bucket(1, n) == 0
    ensures Bucket(n, n) == 4
  {
    var b := Bucket(n, n);
    MulStrict(b, 4, n - 1);
  }

  // ---------------------------------------------------------------------------
  // Bucket sizes

  /** The ranks 1..k that fall in bucket `b`. */
  function BucketMembers(n: int, b: int, k: int): set<int>
    requires n >= 2 && 0 <= k <= n
  {
    set r | 1 <= r <= k && Bucket(r, n) == b
  }

  /** Edge `c` of the cut, as the number of ranks after the first that lie on
      or below it: floor(c(n-1)/5). */
  function Edge(n: int, c: int): int {
    (c * (n - 1)) / 5
  }

  /** `5x <= a` exactly when `x` is at most the floor of `a / 5`. */
  lemma FloorFifth(a: int, x: int)
    requires a >= 0
    ensures 5 * x <= a <==> x <= a / 5
  {
  }

  /** Consecutive edges are (n-1)/5 or (n-1)/5 + 1 apart, and the edges run
      from 0 to n - 1. */
  lemma EdgeStep(n: int, c: int)
    requires n >= 2 && 0 <= c <= 4
    ensures (n - 1) / 5 <= Edge(n, c + 1) - Edge(n, c) <= (n - 1) / 5 + 1
    ensures 0 <= Edge(n, c) && Edge(n, c + 1) <= n - 1
  {
    var m := n - 1;
    var a := c * m;
    assert (c + 1) * m == a + m;
    assert 0 <= a <= 4 * m;
    assert Edge(n, c + 1) == (a + m) / 5;
  }

  /** Rank `r` is in bucket `b` exactly when it lies on or below edge b + 1
      and, unless b is the first bucket, above edge b. */
  lemma BucketByEdges(r: int, n: int, b: int)
    requires n >= 2 && 1 <= r <= n && 0 <= b <= 4
    ensures Bucket(r, n) == b <==> r <= Edge(n, b + 1) + 1 && (b == 0 || r > Edge(n, b) + 1)
  {
    BucketIsQuintile(r, n, b);
    FloorFifth((b + 1) * (n - 1), r - 1);
    FloorFifth(b * (n - 1), r - 1);
    MulStrict(0, b, n - 1);
  }

  /** The smaller of k and e + 1: how many of the ranks 1..k lie on or below
      edge e. */
  function Capped(k: int, e: int): int {
    if k <= e + 1 then k else e + 1
  }

  lemma {:induction false} BucketMembersCount(n: int, b: int, k: int)
    requires n >= 2 && 0 <= b <= 4 && 0 <= k <= n
    ensures |BucketMembers(n, b, k)| ==
            Capped(k, Edge(n, b + 1)) - (if b == 0 then 0 else Capped(k, Edge(n, b)))
  {
    if k == 0 {
      assert BucketMembers(n, b, 0) == {};
    } else {
      BucketMembersCount(n, b, k - 1);
      BucketMembersStep(n, b, k);
      BucketByEdges(k, n, b);
      EdgeStep(n, b);
    }
  }

  /** Rank k joins bucket b's members exactly when it falls in bucket b. */
  lemma BucketMembersStep(n: int, b: int, k: int)
    requires n >= 2 && 1 <= k <= n
    ensures |BucketMembers(n, b, k)| == |BucketMembers(n, b, k - 1)| + (if Bucket(k, n) == b then 1 else 0)
  {
    if Bucket(k, n) == b {
      assert BucketMembers(n, b, k) == BucketMembers(n, b, k - 1) + {k};
    } else {
      assert BucketMembers(n, b, k) == BucketMembers(n, b, k - 1);
    }
  }

  /** Every bucket holds (n-1)/5 or (n-1)/5 + 1 of the ranks 1..n. */
  lemma BucketSize(n: int, b: int)
    requires n >= 2 && 0 <= b <= 4
    ensures (n - 1) / 5 <= |BucketMembers(n, b, n)| <= (n - 1) / 5 + 1
  {
    BucketMembersCount(n, b, n);
    EdgeStep(n, b);
    if b > 0 {
      EdgeStep(n, b - 1);
    }
  }

  /** The cut is as even as the number of customers allows: any two buckets
      differ in size by at most one. */
  lemma BucketsBalanced(n: int, b1: int, b2: int)
    requires n >= 2 && 0 <= b1 <= 4 && 0 <= b2 <= 4
    ensures |BucketMembers(n, b1, n)| <= |BucketMembers(n, b2, n)| + 1
  {
    BucketSize(n, b1);
    BucketSize(n, b2);
  }

  /** Recency labels run 5 down to 1: the label of the quintile holding the
      rank, the lowest ranks (most recent) scoring 5. */
  function RecencyScore(r: int, n: int): (s: int)
    requires n >= 2 && 1 <= r <= n
    ensures 1 <= s <= 5
    ensures InQuintile(r, n, 5 - s)
  {
    BucketIsQuintile(r, n, Bucket(r, n));
    5 - Bucket(r, n)
  }

  /** Frequency and monetary labels run 1 up to 5: the label of the quintile
      holding the rank. */
  function AscendingScore(r: int, n: int): (s: int)
    requires n >= 2 && 1 <= r <= n
    ensures 1 <= s <= 5
    ensures InQuintile(r, n, s - 1)
  {
    BucketIsQuintile(r, n, Bucket(r, n));
    Bucket(r, n) + 1
  }

  /** Scores move with the rank: ascending labels never fall and recency
      labels never rise as the rank grows; the ends score 5 and 1. */
  lemma ScoresMonotone(r1: int, r2: int, n: int)
    requires n >= 2 && 1 <= r1 <= r2 <= n
    ensures AscendingScore(r1, n) <= AscendingScore(r2, n)
    ensures RecencyScore(r1, n) >= RecencyScore(r2, n)
    ensures RecencyScore(1, n) == 5 && AscendingScore(1, n) == 1
    ensures RecencyScore(n, n) == 1 && AscendingScore(n, n) == 5
  {
    BucketMonotone(r1, r2, n);
    BucketEnds(n);
  }
}
