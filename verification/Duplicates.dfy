/** Groups of rows that share a natural key, as the duplicate queries list them, and what
    keeping the first row of each group does to ids. */
module Duplicates {
  import opened Collections

  type Id = string

  datatype Row<+K> = Row(key: K, createdAt: int)

  ghost predicate SameKey<K>(rows: map<Id, Row<K>>, a: Id, b: Id) {
    a in rows && b in rows && rows[a].key == rows[b].key
  }

  ghost predicate NoYounger<K>(rows: map<Id, Row<K>>, a: Id, b: Id) {
    a in rows && b in rows && rows[a].createdAt <= rows[b].createdAt
  }

  /** All ids of one key with several rows, oldest first; ties may be broken either way. */
  ghost predicate IsGroup<K>(rows: map<Id, Row<K>>, g: seq<Id>) {
    && |g| > 1
    && (forall id :: id in g <==> SameKey(rows, g[0], id))
    && (forall i, j :: 0 <= i < j < |g| ==> g[i] != g[j] && NoYounger(rows, g[i], g[j]))
  }

  ghost predicate Listed(groups: seq<seq<Id>>, id: Id) {
    exists i :: 0 <= i < |groups| && id in groups[i]
  }

  /** What GROUP BY key HAVING COUNT(*) > 1 ORDER BY count DESC may answer. */
  ghost predicate Listing<K>(rows: map<Id, Row<K>>, groups: seq<seq<Id>>) {
    && (forall i :: 0 <= i < |groups| ==> IsGroup(rows, groups[i]))
    && (forall i, j :: 0 <= i < j < |groups| ==> |groups[i]| >= |groups[j]| && Elements(groups[i]) !! Elements(groups[j]))
    && (forall a, b :: a != b && SameKey(rows, a, b) ==> Listed(groups, a))
  }

  ghost predicate UniqueKeys<K>(rows: map<Id, Row<K>>) {
    forall a <- rows, b <- rows :: rows[a].key == rows[b].key ==> a == b
  }

  predicate NonEmpty(groups: seq<seq<Id>>) {
    forall g <- groups :: |g| > 0
  }

  function Elements(ids: seq<Id>): set<Id> {
    set id <- ids
  }

  /** The ids that are deleted: all but the first of each group. */
  function Deleted(groups: seq<seq<Id>>): set<Id>
    requires NonEmpty(groups)
  {
    if groups == [] then {} else
    Deleted(groups[..|groups| - 1]) + Elements(groups[|groups| - 1][1..])
  }

  /** Where a reference to `id` points once group after group has been merged. */
  function Redirect(groups: seq<seq<Id>>, id: Id): Id
    requires NonEmpty(groups)
  {
    if groups == [] then id else
    Repoint(groups[|groups| - 1], Redirect(groups[..|groups| - 1], id))
  }

  function Repoint(g: seq<Id>, id: Id): Id
    requires |g| > 0
  {
    if id in g[1..] then g[0] else id
  }

  function RedirectOption(groups: seq<seq<Id>>, id: Option<Id>): Option<Id>
    requires NonEmpty(groups)
  {
    if id.None? then None else Some(Redirect(groups, id.value))
  }

  /** The sum of (group size - 1). */
  function Surplus(groups: seq<seq<Id>>): int {
    if groups == [] then 0 else Surplus(groups[..|groups| - 1]) + |groups[|groups| - 1]| - 1
  }

  lemma {:induction false} Unlisted(groups: seq<seq<Id>>, id: Id)
    requires NonEmpty(groups) && !Listed(groups, id)
    ensures Redirect(groups, id) == id && id !in Deleted(groups)
  {
    if groups != [] {
      var n := |groups| - 1;
      assert id !in groups[n] && forall x <- groups[n][1..] :: x in groups[n];
      assert forall i :: 0 <= i < n ==> groups[..n][i] == groups[i];
      Unlisted(groups[..n], id);
    }
  }

  lemma {:induction false} InOneGroup(groups: seq<seq<Id>>, i: nat, id: Id)
    requires NonEmpty(groups) && i < |groups| && id in groups[i]
    requires forall k <- groups :: forall x <- k[1..] :: x != k[0]
    requires forall j, k :: 0 <= j < k < |groups| ==> Elements(groups[j]) !! Elements(groups[k])
    ensures Redirect(groups, id) == groups[i][0]
    ensures id in Deleted(groups) <==> id != groups[i][0]
  {
    var n := |groups| - 1;
    var g := groups[n];
    assert g in groups && g == [g[0]] + g[1..];
    if i == n {
      forall j | 0 <= j < n ensures id !in groups[..n][j] {
        assert id in Elements(g) && Elements(groups[j]) !! Elements(g);
      }
      Unlisted(groups[..n], id);
    } else {
      InOneGroup(groups[..n], i, id);
      assert id in Elements(groups[i]) && groups[i][0] in Elements(groups[i]);
      assert Elements(groups[i]) !! Elements(g);
    }
  }

  lemma ListingShape<K>(rows: map<Id, Row<K>>, groups: seq<seq<Id>>)
    requires Listing(rows, groups)
    ensures NonEmpty(groups)
    ensures forall k <- groups :: forall x <- k[1..] :: x != k[0]
  {
  }

  /** A listed merge sends every row to an oldest row of its key and leaves other ids alone;
      the rows it deletes are exactly those it sends elsewhere. */
  lemma Merge<K>(rows: map<Id, Row<K>>, groups: seq<seq<Id>>, id: Id)
    requires Listing(rows, groups)
    ensures NonEmpty(groups)
    ensures id in Deleted(groups) <==> Redirect(groups, id) != id
    ensures id !in rows ==> Redirect(groups, id) == id
    ensures id in rows ==> var to := Redirect(groups, id);
      && SameKey(rows, to, id) && to !in Deleted(groups)
      && forall other :: SameKey(rows, id, other) ==>
           Redirect(groups, other) == to && NoYounger(rows, to, other)
  {
    ListingShape(rows, groups);
    if Listed(groups, id) {
      var i :| 0 <= i < |groups| && id in groups[i];
      var g := groups[i];
      assert IsGroup(rows, g);
      InOneGroup(groups, i, id);
      InOneGroup(groups, i, g[0]);
      forall other | SameKey(rows, id, other)
        ensures Redirect(groups, other) == g[0] && NoYounger(rows, g[0], other)
      {
        assert other in g;
        InOneGroup(groups, i, other);
        var k :| 0 <= k < |g| && g[k] == other;
      }
    } else {
      Unlisted(groups, id);
    }
  }

  /** Hence no two rows of one key are left. */
  lemma MergedKeysUnique<K>(rows: map<Id, Row<K>>, groups: seq<seq<Id>>)
    requires Listing(rows, groups)
    ensures NonEmpty(groups) && UniqueKeys(rows - Deleted(groups))
  {
    ListingShape(rows, groups);
    forall a <- rows - Deleted(groups), b <- rows - Deleted(groups) | rows[a].key == rows[b].key ensures a == b {
      Merge(rows, groups, a);
      Merge(rows, groups, b);
      assert SameKey(rows, a, b);
    }
  }

  /** Rows without duplicates have only the empty listing. */
  lemma NothingListed<K>(rows: map<Id, Row<K>>, groups: seq<seq<Id>>)
    requires Listing(rows, groups)
    ensures UniqueKeys(rows) <==> groups == []
  {
    if groups != [] {
      var g := groups[0];
      assert IsGroup(rows, g);
      assert SameKey(rows, g[0], g[1]) by {
        assert g[1] in g;
      }
    } else {
      forall a <- rows, b <- rows | rows[a].key == rows[b].key ensures a == b {
        assert a != b && SameKey(rows, a, b) ==> Listed(groups, a);
      }
    }
  }

  /** As many ids are deleted as the groups have members beyond their first. */
  lemma {:induction false} DeletedCount(groups: seq<seq<Id>>)
    requires NonEmpty(groups)
    requires forall g <- groups :: forall i, j :: 0 <= i < j < |g| ==> g[i] != g[j]
    requires forall j, k :: 0 <= j < k < |groups| ==> Elements(groups[j]) !! Elements(groups[k])
    ensures |Deleted(groups)| == Surplus(groups)
  {
    if groups != [] {
      var n := |groups| - 1;
      var g := groups[n];
      assert g in groups;
      DeletedCount(groups[..n]);
      ElementsCount(g[1..]);
      forall id <- Deleted(groups[..n]) ensures id !in g {
        DeletedIsListed(groups[..n], id);
        var j :| 0 <= j < n && id in groups[..n][j];
        assert id in Elements(groups[j]) && Elements(groups[j]) !! Elements(g);
      }
      assert Deleted(groups[..n]) !! Elements(g[1..]);
    }
  }

  lemma DeletedIsListed(groups: seq<seq<Id>>, id: Id)
    requires NonEmpty(groups) && id in Deleted(groups)
    ensures Listed(groups, id)
  {
  }

  lemma {:induction false} ElementsCount(ids: seq<Id>)
    requires forall i, j :: 0 <= i < j < |ids| ==> ids[i] != ids[j]
    ensures |Elements(ids)| == |ids|
  {
    if ids != [] {
      ElementsCount(ids[1..]);
      assert Elements(ids) == {ids[0]} + Elements(ids[1..]);
    }
  }

  // ----- every table has a listing -----

  lemma {:induction false} OldestFirst<K>(rows: map<Id, Row<K>>, ids: set<Id>) returns (g: seq<Id>)
    requires ids <= rows.Keys
    ensures Elements(g) == ids && |g| == |ids|
    ensures forall i, j :: 0 <= i < j < |g| ==> g[i] != g[j] && NoYounger(rows, g[i], g[j])
  {
    if ids == {} {
      g := [];
    } else {
      var last := Youngest(rows, ids);
      var rest := OldestFirst(rows, ids - {last});
      g := rest + [last];
      assert Elements(g) == Elements(rest) + {last};
      assert forall i :: 0 <= i < |rest| ==> rest[i] in Elements(rest);
    }
  }

  lemma {:induction false} Youngest<K>(rows: map<Id, Row<K>>, ids: set<Id>) returns (y: Id)
    requires ids <= rows.Keys && ids != {}
    ensures y in ids && forall id <- ids :: NoYounger(rows, id, y)
  {
    var x :| x in ids;
    if ids == {x} {
      y := x;
    } else {
      assert ids - {x} != {};
      var z := Youngest(rows, ids - {x});
      y := if rows[x].createdAt < rows[z].createdAt then z else x;
      forall id <- ids ensures NoYounger(rows, id, y) {
        assert id == x || NoYounger(rows, id, z);
      }
    }
  }

  ghost function IdsOf<K>(rows: map<Id, Row<K>>, key: K): set<Id> {
    set id <- rows | rows[id].key == key
  }

  lemma {:induction false} Rarest<K>(rows: map<Id, Row<K>>, keys: set<K>) returns (k: K)
    requires keys != {}
    ensures k in keys && forall other <- keys :: |IdsOf(rows, k)| <= |IdsOf(rows, other)|
  {
    k :| k in keys;
    if keys != {k} {
      var other := Rarest(rows, keys - {k});
      k := if |IdsOf(rows, other)| < |IdsOf(rows, k)| then other else k;
    }
  }

  /** `groups` list exactly the rows whose key is among `keys`. */
  ghost predicate Lists<K>(rows: map<Id, Row<K>>, groups: seq<seq<Id>>, keys: set<K>) {
    && (forall i :: 0 <= i < |groups| ==> IsGroup(rows, groups[i]))
    && (forall i, j :: 0 <= i < j < |groups| ==> |groups[i]| >= |groups[j]| && Elements(groups[i]) !! Elements(groups[j]))
    && (forall id <- rows :: rows[id].key in keys <==> Listed(groups, id))
  }

  lemma ListOneMoreKey<K>(rows: map<Id, Row<K>>, rest: seq<seq<Id>>, keys: set<K>, g: seq<Id>, k: K)
    requires Lists(rows, rest, keys) && k !in keys && IsGroup(rows, g) && g[0] in rows && rows[g[0]].key == k
    requires forall i :: 0 <= i < |rest| ==> |rest[i]| >= |g|
    ensures Lists(rows, rest + [g], keys + {k})
  {
    var groups := rest + [g];
    forall i | 0 <= i < |rest| ensures Elements(rest[i]) !! Elements(g) {
      forall id <- Elements(g) ensures id !in rest[i] {
        assert SameKey(rows, g[0], id);
        assert id in rest[i] ==> Listed(rest, id);
      }
    }
    forall id <- rows ensures Listed(groups, id) <==> Listed(rest, id) || id in g {
      if Listed(rest, id) {
        var i :| 0 <= i < |rest| && id in rest[i];
        assert id in groups[i];
      }
      assert groups[|rest|] == g;
    }
    assert forall id <- rows :: id in g <==> rows[id].key == k by {
      assert forall id :: id in g <==> SameKey(rows, g[0], id);
    }
  }

  lemma {:induction false} ListKeys<K>(rows: map<Id, Row<K>>, keys: set<K>) returns (groups: seq<seq<Id>>)
    requires forall k <- keys :: |IdsOf(rows, k)| > 1
    ensures Lists(rows, groups, keys)
  {
    if keys == {} {
      groups := [];
    } else {
      var k := Rarest(rows, keys);
      var rest := ListKeys(rows, keys - {k});
      var g := OldestFirst(rows, IdsOf(rows, k));
      assert g[0] in Elements(g);
      forall id ensures id in g <==> SameKey(rows, g[0], id) {
        assert id in g <==> id in Elements(g);
      }
      forall i | 0 <= i < |rest| ensures |rest[i]| >= |g| {
        GroupSize(rows, rest[i]);
        assert rest[i][0] in rest[i] && Listed(rest, rest[i][0]);
      }
      ListOneMoreKey(rows, rest, keys - {k}, g, k);
      assert keys - {k} + {k} == keys;
      groups := rest + [g];
    }
  }

  lemma GroupSize<K>(rows: map<Id, Row<K>>, g: seq<Id>)
    requires IsGroup(rows, g)
    ensures g[0] in rows && |g| == |IdsOf(rows, rows[g[0]].key)|
  {
    assert SameKey(rows, g[0], g[0]) by {
      assert g[0] in g;
    }
    assert forall id :: id in Elements(g) <==> id in IdsOf(rows, rows[g[0]].key);
    assert Elements(g) == IdsOf(rows, rows[g[0]].key);
    ElementsCount(g);
  }

  /** Whatever the table holds, the query has an answer. */
  lemma ListingExists<K>(rows: map<Id, Row<K>>) returns (groups: seq<seq<Id>>)
    ensures Listing(rows, groups)
  {
    var keys := set id <- rows | |IdsOf(rows, rows[id].key)| > 1 :: rows[id].key;
    groups := ListKeys(rows, keys);
    forall a, b | a != b && SameKey(rows, a, b) ensures Listed(groups, a) {
      SubsetSize({a, b}, IdsOf(rows, rows[a].key));
    }
  }
}
