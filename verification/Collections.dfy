/** Facts about finite sets and sequences that several components share. */
module Collections {

  datatype Option<+T> = None | Some(value: T)

  /** A set whose elements carry distinct ranks in 1..n has at most n elements. */
  lemma {:induction false} DistinctRanksBound<A>(s: set<A>, rank: A -> int, n: nat)
    requires forall a <- s :: 1 <= rank(a) <= n
    requires forall a <- s, b <- s :: rank(a) == rank(b) ==> a == b
    ensures |s| <= n
  {
    if n == 0 {
      assert s == {};
    } else {
      var top := set a <- s | rank(a) == n;
      var rest := s - top;
      assert s == top + rest;
      DistinctRanksBound(rest, rank, n - 1);
      AtMostOne(top);
    }
  }

  ghost predicate Takes<A>(s: set<A>, rank: A -> int, k: int) {
    exists a <- s :: rank(a) == k
  }

  /** If moreover every rank in 1..n is used, there are exactly n elements. */
  lemma {:induction false} DistinctRanksExact<A>(s: set<A>, rank: A -> int, n: nat)
    requires forall a <- s :: 1 <= rank(a) <= n
    requires forall a <- s, b <- s :: rank(a) == rank(b) ==> a == b
    requires forall k :: 1 <= k <= n ==> Takes(s, rank, k)
    ensures |s| == n
  {
    if n == 0 {
      assert s == {};
    } else {
      assert Takes(s, rank, n);
      var x :| x in s && rank(x) == n;
      var rest := s - {x};
      forall k | 1 <= k <= n - 1 ensures Takes(rest, rank, k) {
        assert Takes(s, rank, k);
        var a :| a in s && rank(a) == k;
        assert a in rest;
      }
      DistinctRanksExact(rest, rank, n - 1);
    }
  }

  /** Distinct positive ranks without gaps are exactly 1, 2, ..., |s|. */
  lemma RanksWithoutGaps<A>(s: set<A>, rank: A -> int)
    requires forall a <- s :: 1 <= rank(a) && (1 < rank(a) ==> Takes(s, rank, rank(a) - 1))
    requires forall a <- s, b <- s :: rank(a) == rank(b) ==> a == b
    ensures forall a <- s :: rank(a) <= |s|
    ensures forall k :: 1 <= k <= |s| ==> Takes(s, rank, k)
  {
    forall a <- s ensures rank(a) <= |s| {
      var low := set b <- s | rank(b) <= rank(a);
      forall k | 1 <= k <= rank(a) ensures Takes(low, rank, k) {
        LowerRankTaken(s, rank, a, k);
        var b :| b in s && rank(b) == k;
        assert b in low;
      }
      DistinctRanksExact(low, rank, rank(a));
      SubsetSize(low, s);
    }
    forall k | 1 <= k <= |s| ensures Takes(s, rank, k) {
      if !Takes(s, rank, k) {
        forall a <- s ensures rank(a) <= k - 1 {
          if k <= rank(a) {
            LowerRankTaken(s, rank, a, k);
          }
        }
        DistinctRanksBound(s, rank, k - 1);
      }
    }
  }

  lemma {:induction false} LowerRankTaken<A>(s: set<A>, rank: A -> int, a: A, k: int)
    requires forall b <- s :: 1 < rank(b) ==> Takes(s, rank, rank(b) - 1)
    requires a in s && 1 <= k <= rank(a)
    ensures Takes(s, rank, k)
    decreases rank(a) - k
  {
    if k < rank(a) {
      var b :| b in s && rank(b) == rank(a) - 1;
      LowerRankTaken(s, rank, b, k);
    }
  }

  lemma {:induction false} SubsetSize<A>(s: set<A>, t: set<A>)
    requires s <= t
    ensures |s| <= |t|
  {
    if a :| a in s {
      SubsetSize(s - {a}, t - {a});
    }
  }

  /** The set {1, ..., n}. */
  function UpTo(n: nat): (s: set<nat>)
    ensures |s| == n
    ensures forall k: nat :: k in s <==> 1 <= k <= n
  {
    if n == 0 then {} else UpTo(n - 1) + {n}
  }

  lemma AtMostOne<A>(s: set<A>)
    requires forall a <- s, b <- s :: a == b
    ensures |s| <= 1
  {
    if x :| x in s {
      assert s == {x};
    }
  }
}
