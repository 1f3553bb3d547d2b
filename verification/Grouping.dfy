/** Splitting a list into per-key lists through a Map. */
module Grouping {
  import opened OrderedMap

  type Groups<T> = OMap<string, seq<T>>

  /** The elements of `s` with the given key, in their order. */
  function Members<T>(s: seq<T>, key: T -> string, k: string): seq<T> {
    if s == [] then [] else
    Members(s[..|s| - 1], key, k) + (if key(s[|s| - 1]) == k then [s[|s| - 1]] else [])
  }

  /** Where a key first occurs in `s`; the length of `s` if it does not. */
  function FirstAt<T>(s: seq<T>, key: T -> string, k: string): (i: nat)
    ensures i <= |s|
    ensures i < |s| <==> Members(s, key, k) != []
  {
    if s == [] then 0 else
    var i := FirstAt(s[..|s| - 1], key, k);
    if i == |s| - 1 && key(s[i]) != k then |s| else i
  }

  function TotalSize<T>(g: Groups<T>): nat {
    if g == [] then 0 else TotalSize(g[..|g| - 1]) + |g[|g| - 1].value|
  }

  /** The group of `k`, empty if there is none. */
  function Lookup<T>(g: Groups<T>, k: string): seq<T> {
    if Has(g, k) then Get(g, k) else []
  }

  /** Each key that occurs has one group, holding exactly its elements in order; no group is
      empty; and the groups stand in the order in which their keys first occur. */
  ghost predicate IsGrouping<T>(g: Groups<T>, s: seq<T>, key: T -> string) {
    && DistinctKeys(g)
    && (forall k :: Lookup(g, k) == Members(s, key, k))
    && (forall i :: 0 <= i < |g| ==> g[i].value != [])
    && InOrder(g, s, key)
  }

  ghost predicate InOrder<T>(g: Groups<T>, s: seq<T>, key: T -> string) {
    forall i, j :: 0 <= i < j < |g| ==> FirstAt(s, key, g[i].key) < FirstAt(s, key, g[j].key)
  }

  /** `x` joins the group of its key, or founds it. */
  function Grow<T>(g: Groups<T>, k: string, x: T): Groups<T> {
    Put(g, Pair(k, Lookup(g, k) + [x]))
  }

  function Grouped<T>(s: seq<T>, key: T -> string): Groups<T> {
    if s == [] then [] else Grow(Grouped(s[..|s| - 1], key), key(s[|s| - 1]), s[|s| - 1])
  }

  method GroupBy<T>(s: seq<T>, key: T -> string) returns (g: Groups<T>)
    ensures g == Grouped(s, key)
    ensures IsGrouping(g, s, key)
    ensures TotalSize(g) == |s|
  {
    g := [];
    for i := 0 to |s|
      invariant g == Grouped(s[..i], key)
    {
      assert s[..i + 1][..i] == s[..i];
      var k := key(s[i]);
      SetThenPush(g, k, s[i]);
      if !Has(g, k) {
        g := Put(g, Pair(k, []));
      }
      g := Put(g, Pair(k, Get(g, k) + [s[i]]));
    }
    assert s[..|s|] == s;
    GroupsAreMembers(s, key);
  }

  lemma SetThenPush<T>(g: Groups<T>, k: string, x: T)
    ensures var ready := if Has(g, k) then g else Put(g, Pair(k, []));
      Has(ready, k) && Put(ready, Pair(k, Get(ready, k) + [x])) == Grow(g, k, x)
  {
    if !Has(g, k) {
      PutAndFind(g, Pair(k, []));
      IndexOfBound(Put(g, Pair(k, [])), |g|);
    }
  }

  lemma {:induction false} GroupsAreMembers<T>(s: seq<T>, key: T -> string)
    ensures IsGrouping(Grouped(s, key), s, key)
    ensures TotalSize(Grouped(s, key)) == |s|
  {
    if s != [] {
      var front, x := s[..|s| - 1], s[|s| - 1];
      var g, k := Grouped(front, key), key(x);
      GroupsAreMembers(front, key);
      GrowLooksUp(g, k, x);
      AddMemberOrder(g, s, key);
    }
  }

  lemma GrowLooksUp<T>(g: Groups<T>, k: string, x: T)
    requires DistinctKeys(g) && (forall i :: 0 <= i < |g| ==> g[i].value != [])
    ensures var after := Grow(g, k, x);
      && DistinctKeys(after) && (forall i :: 0 <= i < |after| ==> after[i].value != [])
      && (forall j :: Lookup(after, j) == if j == k then Lookup(g, k) + [x] else Lookup(g, j))
      && TotalSize(after) == TotalSize(g) + 1
  {
    var p := Pair(k, Lookup(g, k) + [x]);
    PutLooksUp(g, p);
    PutKeepsDistinct(g, p);
    PutKeepsOthers(g, p);
    AddMemberSize(g, p);
  }

  lemma AddMemberOrder<T>(g: Groups<T>, s: seq<T>, key: T -> string)
    requires s != [] && IsGrouping(g, s[..|s| - 1], key)
    ensures InOrder(Grow(g, key(s[|s| - 1]), s[|s| - 1]), s, key)
  {
    var front, x := s[..|s| - 1], s[|s| - 1];
    var k := key(x);
    PutKeepsOthers(g, Pair(k, Lookup(g, k) + [x]));
    forall i | 0 <= i < |g| ensures FirstAt(front, key, g[i].key) < |front| {
      GroupAt(g, front, key, i);
    }
    assert Lookup(g, k) == Members(front, key, k);
  }

  lemma GroupAt<T>(g: Groups<T>, s: seq<T>, key: T -> string, i: nat)
    requires IsGrouping(g, s, key) && i < |g|
    ensures g[i].value == Members(s, key, g[i].key)
  {
  }

  lemma {:induction false} AddMemberSize<T>(g: Groups<T>, p: Pair<string, seq<T>>)
    requires |p.value| == 1 + if Has(g, p.key) then |Get(g, p.key)| else 0
    ensures TotalSize(Put(g, p)) == TotalSize(g) + 1
  {
    var i := IndexOf(g, p.key);
    if i < |g| {
      SizeWith(g, i, p);
    } else {
      assert (g + [p])[..|g|] == g;
    }
  }

  lemma {:induction false} SizeWith<T>(g: Groups<T>, i: nat, p: Pair<string, seq<T>>)
    requires i < |g|
    ensures TotalSize(g[i := p]) == TotalSize(g) - |g[i].value| + |p.value|
  {
    var last := |g| - 1;
    if i < last {
      SizeWith(g[..last], i, p);
      assert g[i := p][..last] == g[..last][i := p];
    } else {
      assert g[i := p][..last] == g[..last];
    }
  }

  /** There are as many groups as distinct keys. */
  lemma GroupCount<T>(g: Groups<T>, s: seq<T>, key: T -> string)
    requires IsGrouping(g, s, key)
    ensures |g| == |KeysOf(s, key)|
  {
    GroupKeys(g, s, key);
    DistinctKeyCount(g);
  }

  lemma GroupKeys<T>(g: Groups<T>, s: seq<T>, key: T -> string)
    requires IsGrouping(g, s, key)
    ensures (set p <- g :: p.key) == KeysOf(s, key)
  {
    forall k ensures k in KeysOf(s, key) <==> Has(g, k) {
      assert Lookup(g, k) == Members(s, key, k);
      MembersBelong(s, key, k);
      if Has(g, k) {
        assert Get(g, k) != [];
      }
    }
    forall p <- g ensures Has(g, p.key) {
      var i :| 0 <= i < |g| && g[i] == p;
      IndexOfBound(g, i);
    }
    forall k | Has(g, k) ensures exists p <- g :: p.key == k {
      assert g[IndexOf(g, k)] in g;
    }
  }

  lemma {:induction false} TotalFromFront<T>(g: Groups<T>)
    requires g != []
    ensures TotalSize(g) == |g[0].value| + TotalSize(g[1..])
  {
    if |g| > 1 {
      TotalFromFront(g[..|g| - 1]);
      assert g[..|g| - 1][1..] == g[1..][..|g| - 2];
    }
  }

  ghost function KeysOf<T>(s: seq<T>, key: T -> string): set<string> {
    set x <- s :: key(x)
  }

  lemma {:induction false} MembersBelong<T>(s: seq<T>, key: T -> string, k: string)
    ensures forall x <- Members(s, key, k) :: key(x) == k && x in s
    ensures k in KeysOf(s, key) <==> Members(s, key, k) != []
  {
    if s != [] {
      MembersBelong(s[..|s| - 1], key, k);
      assert s == s[..|s| - 1] + [s[|s| - 1]];
    }
  }

  lemma {:induction false} DistinctKeyCount<V>(g: OMap<string, V>)
    requires DistinctKeys(g)
    ensures |set p <- g :: p.key| == |g|
  {
    if g != [] {
      var front, p := g[..|g| - 1], g[|g| - 1];
      DistinctKeyCount(front);
      assert g == front + [p];
      assert (set q <- g :: q.key) == (set q <- front :: q.key) + {p.key};
    }
  }

  lemma {:induction false} MembersAppend<T>(s: seq<T>, t: seq<T>, key: T -> string, k: string)
    ensures Members(s + t, key, k) == Members(s, key, k) + Members(t, key, k)
  {
    if t == [] {
      assert s + t == s;
    } else {
      MembersAppend(s, t[..|t| - 1], key, k);
      assert (s + t)[..|s + t| - 1] == s + t[..|t| - 1];
    }
  }

  lemma {:induction false} MembersOfOneKey<T>(s: seq<T>, key: T -> string, k: string)
    requires forall x <- s :: key(x) == k
    ensures forall j :: Members(s, key, j) == if j == k then s else []
  {
    if s != [] {
      MembersOfOneKey(s[..|s| - 1], key, k);
    }
  }

  /** Where in `s` the elements with the key stand. */
  ghost function Where<T>(s: seq<T>, key: T -> string, k: string): set<int> {
    set i | 0 <= i < |s| && key(s[i]) == k
  }

  lemma WhereOneMore<T>(s: seq<T>, key: T -> string, k: string)
    requires s != []
    ensures var n := |s| - 1;
      Where(s, key, k) == Where(s[..n], key, k) + (if key(s[n]) == k then {n} else {}) && n !in Where(s[..n], key, k)
  {
  }

  lemma {:induction false} MembersCount<T>(s: seq<T>, key: T -> string, k: string)
    ensures |Members(s, key, k)| == |Where(s, key, k)|
  {
    if s != [] {
      MembersCount(s[..|s| - 1], key, k);
      WhereOneMore(s, key, k);
    }
  }
}
