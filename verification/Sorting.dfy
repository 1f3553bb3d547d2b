/** The stable sort that `Array.prototype.sort` performs for a comparator `le`. */
module Sorting {

  ghost predicate TotalPreorder<T(!new)>(le: (T, T) -> bool) {
    && (forall a, b :: le(a, b) || le(b, a))
    && (forall a, b, c :: le(a, b) && le(b, c) ==> le(a, c))
  }

  ghost predicate Antisymmetric<T(!new)>(le: (T, T) -> bool) {
    forall a, b :: le(a, b) && le(b, a) ==> a == b
  }

  ghost predicate Sorted<T>(s: seq<T>, le: (T, T) -> bool) {
    forall i, j :: 0 <= i < j < |s| ==> le(s[i], s[j])
  }

  /** `x` goes before the first element that may follow it, so equal elements keep their order. */
  function Insert<T>(x: T, s: seq<T>, le: (T, T) -> bool): seq<T> {
    if s == [] || le(x, s[0]) then [x] + s else [s[0]] + Insert(x, s[1..], le)
  }

  function Sort<T>(s: seq<T>, le: (T, T) -> bool): seq<T> {
    if s == [] then [] else Insert(s[0], Sort(s[1..], le), le)
  }

  lemma {:induction false} InsertKeeps<T>(x: T, s: seq<T>, le: (T, T) -> bool)
    ensures multiset(Insert(x, s, le)) == multiset{x} + multiset(s)
  {
    if s != [] && !le(x, s[0]) {
      InsertKeeps(x, s[1..], le);
      assert s == [s[0]] + s[1..];
    }
  }

  lemma {:induction false} SortKeeps<T>(s: seq<T>, le: (T, T) -> bool)
    ensures multiset(Sort(s, le)) == multiset(s) && |Sort(s, le)| == |s|
  {
    if s != [] {
      SortKeeps(s[1..], le);
      InsertKeeps(s[0], Sort(s[1..], le), le);
      assert s == [s[0]] + s[1..];
    }
    assert |multiset(Sort(s, le))| == |Sort(s, le)|;
  }

  lemma {:induction false} InsertSorts<T(!new)>(x: T, s: seq<T>, le: (T, T) -> bool)
    requires TotalPreorder(le) && Sorted(s, le)
    ensures Sorted(Insert(x, s, le), le)
  {
    if s != [] && !le(x, s[0]) {
      InsertSorts(x, s[1..], le);
      var rest := Insert(x, s[1..], le);
      InsertKeeps(x, s[1..], le);
      forall y <- rest ensures le(s[0], y) {
        assert y in multiset(rest);
        assert y == x || y in s[1..];
      }
    }
  }

  lemma {:induction false} SortSorts<T(!new)>(s: seq<T>, le: (T, T) -> bool)
    requires TotalPreorder(le)
    ensures Sorted(Sort(s, le), le)
  {
    if s != [] {
      SortSorts(s[1..], le);
      InsertSorts(s[0], Sort(s[1..], le), le);
    }
  }

  lemma FirstIsLeast<T>(s: seq<T>, x: T, le: (T, T) -> bool)
    requires Sorted(s, le) && x in multiset(s)
    ensures s != [] && (x == s[0] || le(s[0], x))
  {
  }

  lemma WithoutFirst<T>(s: seq<T>)
    requires s != []
    ensures multiset(s[1..]) == multiset(s) - multiset{s[0]} && s == [s[0]] + s[1..]
  {
    assert s == [s[0]] + s[1..];
  }

  /** For an order, the sorted arrangement of a collection is unique. */
  lemma {:induction false} SortedUnique<T(!new)>(s: seq<T>, t: seq<T>, le: (T, T) -> bool)
    requires Antisymmetric(le)
    requires Sorted(s, le) && Sorted(t, le) && multiset(s) == multiset(t)
    ensures s == t
  {
    assert |multiset(s)| == |s| && |multiset(t)| == |t|;
    if s != [] {
      FirstIsLeast(t, s[0], le);
      FirstIsLeast(s, t[0], le);
      WithoutFirst(s);
      WithoutFirst(t);
      SortedUnique(s[1..], t[1..], le);
    }
  }

  // ----- the first k of a sorted list -----

  /** `top` is sorted and everything left out may follow everything in it. */
  ghost predicate Dominates<T>(top: seq<T>, omitted: seq<T>, s: seq<T>, le: (T, T) -> bool) {
    && multiset(top) + multiset(omitted) == multiset(s)
    && Sorted(top, le)
    && (forall a <- top, b <- omitted :: le(a, b))
  }

  lemma PrefixDominates<T(!new)>(s: seq<T>, le: (T, T) -> bool, k: nat)
    requires TotalPreorder(le) && k <= |s|
    ensures |Sort(s, le)| == |s| && Dominates(Sort(s, le)[..k], Sort(s, le)[k..], s, le)
  {
    SortKeeps(s, le);
    SortSorts(s, le);
    SplitSorted(Sort(s, le), le, k);
  }

  lemma SplitSorted<T>(t: seq<T>, le: (T, T) -> bool, k: nat)
    requires Sorted(t, le) && k <= |t|
    ensures multiset(t[..k]) + multiset(t[k..]) == multiset(t)
    ensures Sorted(t[..k], le) && forall a <- t[..k], b <- t[k..] :: le(a, b)
  {
    assert t == t[..k] + t[k..];
    forall a <- t[..k], b <- t[k..] ensures le(a, b) {
      var i :| 0 <= i < k && t[i] == a;
      var j :| 0 <= j < |t| - k && t[k..][j] == b;
      assert t[k + j] == b;
    }
  }

  function Prefix<T>(s: seq<T>, k: nat): seq<T> {
    if |s| <= k then s else s[..k]
  }

  ghost predicate Leads<T(!new)>(top: seq<T>, s: seq<T>, le: (T, T) -> bool) {
    exists omitted :: Dominates(top, omitted, s, le)
  }

  lemma PrefixLeads<T(!new)>(s: seq<T>, le: (T, T) -> bool, k: nat)
    requires TotalPreorder(le)
    ensures |Sort(s, le)| == |s| && Leads(Prefix(Sort(s, le), k), s, le)
  {
    var n := if |s| <= k then |s| else k;
    PrefixDominates(s, le, n);
    assert Prefix(Sort(s, le), k) == Sort(s, le)[..n];
  }

  /** The elements that tie with `c`, in their order. */
  function Ties<T>(s: seq<T>, le: (T, T) -> bool, c: T): seq<T> {
    if s == [] then [] else
    (if le(s[0], c) && le(c, s[0]) then [s[0]] else []) + Ties(s[1..], le, c)
  }

  lemma {:induction false} InsertIsStable<T(!new)>(x: T, s: seq<T>, le: (T, T) -> bool, c: T)
    requires TotalPreorder(le)
    ensures Ties(Insert(x, s, le), le, c) == Ties([x] + s, le, c)
  {
    assert ([x] + s)[1..] == s;
    if s != [] && !le(x, s[0]) {
      InsertIsStable(x, s[1..], le, c);
      assert ([x] + s[1..])[1..] == s[1..];
      assert Insert(x, s, le)[1..] == Insert(x, s[1..], le);
    }
  }

  /** Elements that compare equal keep their order. */
  lemma {:induction false} SortIsStable<T(!new)>(s: seq<T>, le: (T, T) -> bool, c: T)
    requires TotalPreorder(le)
    ensures Ties(Sort(s, le), le, c) == Ties(s, le, c)
  {
    if s != [] {
      SortIsStable(s[1..], le, c);
      InsertIsStable(s[0], Sort(s[1..], le), le, c);
      var sorted := Sort(s[1..], le);
      assert ([s[0]] + sorted)[1..] == sorted;
    }
  }

  /** `x` stands somewhere before `y`. */
  predicate Before<T(==)>(s: seq<T>, x: T, y: T) {
    s != [] && ((s[0] == x && y in s[1..]) || Before(s[1..], x, y))
  }

  lemma {:induction false} BeforeAt<T>(s: seq<T>, i: nat, j: nat)
    requires i < j < |s|
    ensures Before(s, s[i], s[j])
  {
    if i == 0 {
      assert s[1..][j - 1] == s[j];
    } else {
      BeforeAt(s[1..], i - 1, j - 1);
    }
  }

  lemma {:induction false} BeforeWhere<T>(s: seq<T>, x: T, y: T) returns (i: nat, j: nat)
    requires Before(s, x, y)
    ensures i < j < |s| && s[i] == x && s[j] == y
  {
    if s[0] == x && y in s[1..] {
      i := 0;
      j :| 1 <= j < |s| && s[j] == y;
    } else {
      i, j := BeforeWhere(s[1..], x, y);
      i, j := i + 1, j + 1;
    }
  }

  lemma {:induction false} TiesKeepBefore<T>(s: seq<T>, le: (T, T) -> bool, c: T, x: T, y: T)
    requires le(x, c) && le(c, x) && le(y, c) && le(c, y)
    ensures y in s <==> y in Ties(s, le, c)
    ensures Before(s, x, y) <==> Before(Ties(s, le, c), x, y)
  {
    if s != [] {
      TiesKeepBefore(s[1..], le, c, x, y);
      var rest := Ties(s[1..], le, c);
      assert s == [s[0]] + s[1..];
      if le(s[0], c) && le(c, s[0]) {
        assert Ties(s, le, c) == [s[0]] + rest && Ties(s, le, c)[1..] == rest;
      } else {
        assert Ties(s, le, c) == rest;
      }
    }
  }

  /** Sorting keeps the order of any two elements that compare equal. */
  lemma TiedKeepOrder<T(!new)>(s: seq<T>, le: (T, T) -> bool, x: T, y: T)
    requires TotalPreorder(le) && le(x, y) && le(y, x)
    ensures Before(Sort(s, le), x, y) <==> Before(s, x, y)
  {
    assert le(x, x) || le(x, x);
    SortIsStable(s, le, x);
    TiesKeepBefore(s, le, x, x, y);
    TiesKeepBefore(Sort(s, le), le, x, x, y);
  }

  lemma OrderedPairStays<T>(a: T, b: T, le: (T, T) -> bool)
    requires le(a, b)
    ensures Sort([a, b], le) == [a, b]
  {
    assert [a, b][1..] == [b] && [b][1..] == [];
    assert Sort([b], le) == [b];
  }

  // ----- sorting by what an element shows -----

  function By<T, U>(f: T -> U, le: (U, U) -> bool): (T, T) -> bool {
    (a, b) => le(f(a), f(b))
  }

  function Map<T, U>(s: seq<T>, f: T -> U): (r: seq<U>)
    ensures |r| == |s| && forall i :: 0 <= i < |s| ==> r[i] == f(s[i])
  {
    if s == [] then [] else [f(s[0])] + Map(s[1..], f)
  }

  lemma {:induction false} InsertThenMap<T, U>(x: T, s: seq<T>, f: T -> U, le: (U, U) -> bool)
    ensures Map(Insert(x, s, By(f, le)), f) == Insert(f(x), Map(s, f), le)
  {
    if s != [] && !le(f(x), f(s[0])) {
      InsertThenMap(x, s[1..], f, le);
      var inserted := Insert(x, s[1..], By(f, le));
      assert ([s[0]] + inserted)[1..] == inserted;
    } else {
      assert ([x] + s)[1..] == s;
    }
  }

  lemma {:induction false} SortThenMap<T, U>(s: seq<T>, f: T -> U, le: (U, U) -> bool)
    ensures Map(Sort(s, By(f, le)), f) == Sort(Map(s, f), le)
  {
    if s != [] {
      SortThenMap(s[1..], f, le);
      InsertThenMap(s[0], Sort(s[1..], By(f, le)), f, le);
    }
  }

  lemma ByScorePreorder<T(!new), U(!new)>(f: T -> U, le: (U, U) -> bool)
    requires TotalPreorder(le)
    ensures TotalPreorder(By(f, le))
  {
  }
}
