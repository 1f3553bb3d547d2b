/** The configuration diff: what was added, removed and changed between two item lists. */
module ConfigDiff {
  import opened Collections
  import opened OrderedMap

  datatype Item = Item(key: string, value: string, category: Option<string>)

  datatype Change = Change(key: string, baseline: string, current: string, category: Option<string>)

  datatype Diff = Diff(added: seq<Item>, removed: seq<Item>, changed: seq<Change>, equalCount: nat)

  type Items = OMap<string, Item>

  /** `new Map(items.map(c => [c.key, c]))`. */
  function ByKey(items: seq<Item>): Items {
    if items == [] then [] else
    Put(ByKey(items[..|items| - 1]), Pair(items[|items| - 1].key, items[|items| - 1]))
  }

  // ----- what a diff means -----

  /** The configuration a list of items describes: the last value given for each key. */
  function Values(items: seq<Item>): map<string, string> {
    if items == [] then map[] else Values(items[..|items| - 1])[items[|items| - 1].key := items[|items| - 1].value]
  }

  function ItemKeys(items: seq<Item>): set<string> {
    set i <- items :: i.key
  }

  function ChangeKeys(changes: seq<Change>): set<string> {
    set c <- changes :: c.key
  }

  /** Overwrite with the current values of the changes. */
  function WithChanges(config: map<string, string>, changes: seq<Change>): map<string, string> {
    if changes == [] then config else
    WithChanges(config, changes[..|changes| - 1])[changes[|changes| - 1].key := changes[|changes| - 1].current]
  }

  function WithItems(config: map<string, string>, items: seq<Item>): map<string, string> {
    if items == [] then config else
    WithItems(config, items[..|items| - 1])[items[|items| - 1].key := items[|items| - 1].value]
  }

  /** The diff applied as a patch: drop the removed keys, then set the changed and added ones. */
  function Apply(d: Diff, config: map<string, string>): map<string, string> {
    WithItems(WithChanges(config - ItemKeys(d.removed), d.changed), d.added)
  }

  // ----- the diff, entry by entry -----

  /** The items of `m` whose key `other` lacks, in the order of `m`. */
  function Missing(m: Items, other: Items): seq<Item> {
    if m == [] then [] else
    var p := m[|m| - 1];
    Missing(m[..|m| - 1], other)
    + (if Has(other, p.key) then [] else [Item(p.key, p.value.value, p.value.category)])
  }

  function Changed(m: Items, baseline: Items): seq<Change> {
    if m == [] then [] else
    var p := m[|m| - 1];
    Changed(m[..|m| - 1], baseline)
    + (if Has(baseline, p.key) && Get(baseline, p.key).value != p.value.value
       then [Change(p.key, Get(baseline, p.key).value, p.value.value, p.value.category)] else [])
  }

  function Unchanged(m: Items, baseline: Items): nat {
    if m == [] then 0 else
    var p := m[|m| - 1];
    Unchanged(m[..|m| - 1], baseline)
    + (if Has(baseline, p.key) && Get(baseline, p.key).value == p.value.value then 1 else 0)
  }

  function DiffOf(current: seq<Item>, baseline: seq<Item>): Diff {
    var curr, base := ByKey(current), ByKey(baseline);
    Diff(Missing(curr, base), Missing(base, curr), Changed(curr, base), Unchanged(curr, base))
  }

  method DiffConfigs(current: seq<Item>, baseline: seq<Item>) returns (d: Diff)
    ensures d == DiffOf(current, baseline)
    ensures Apply(d, Values(baseline)) == Values(current)
    ensures |d.added| + |d.changed| + d.equalCount == |Values(current)|
    ensures |d.removed| + |d.changed| + d.equalCount == |Values(baseline)|
  {
    var baseMap, currMap := ByKey(baseline), ByKey(current);
    var added: seq<Item> := [];
    var removed: seq<Item> := [];
    var changed: seq<Change> := [];
    var equalCount: nat := 0;
    for i := 0 to |currMap|
      invariant added == Missing(currMap[..i], baseMap)
      invariant changed == Changed(currMap[..i], baseMap) && equalCount == Unchanged(currMap[..i], baseMap)
    {
      OneMore(currMap, i, baseMap);
      var key, curr := currMap[i].key, currMap[i].value;
      if !Has(baseMap, key) {
        added := added + [Item(key, curr.value, curr.category)];
      } else if Get(baseMap, key).value != curr.value {
        changed := changed + [Change(key, Get(baseMap, key).value, curr.value, curr.category)];
      } else {
        equalCount := equalCount + 1;
      }
    }
    assert currMap[..|currMap|] == currMap;
    for i := 0 to |baseMap|
      invariant removed == Missing(baseMap[..i], currMap)
    {
      OneMore(baseMap, i, currMap);
      var key, base := baseMap[i].key, baseMap[i].value;
      if !Has(currMap, key) {
        removed := removed + [Item(key, base.value, base.category)];
      }
    }
    assert baseMap[..|baseMap|] == baseMap;
    d := Diff(added, removed, changed, equalCount);
    DiffIsPatch(current, baseline);
    DiffCounts(current, baseline);
  }

  /** What the entry at `i` contributes to each list. */
  lemma OneMore(m: Items, i: nat, other: Items)
    requires i < |m|
    ensures var p := m[i];
      && Missing(m[..i + 1], other) == Missing(m[..i], other)
        + (if Has(other, p.key) then [] else [Item(p.key, p.value.value, p.value.category)])
      && Changed(m[..i + 1], other) == Changed(m[..i], other)
        + (if Has(other, p.key) && Get(other, p.key).value != p.value.value
           then [Change(p.key, Get(other, p.key).value, p.value.value, p.value.category)] else [])
      && Unchanged(m[..i + 1], other) == Unchanged(m[..i], other)
        + (if Has(other, p.key) && Get(other, p.key).value == p.value.value then 1 else 0)
  {
    assert m[..i + 1][..i] == m[..i] && m[..i + 1][i] == m[i];
  }

  // ----- it is a patch -----

  /** The ordered map holds the last value of each key, once. */
  lemma {:induction false} ByKeyValues(items: seq<Item>)
    ensures DistinctKeys(ByKey(items))
    ensures forall key :: Has(ByKey(items), key) <==> key in Values(items)
    ensures forall key <- Values(items) :: Get(ByKey(items), key).value == Values(items)[key]
    ensures |ByKey(items)| == |Values(items)|
  {
    if items != [] {
      var front, last := items[..|items| - 1], items[|items| - 1];
      ByKeyValues(front);
      PutLooksUp(ByKey(front), Pair(last.key, last));
      PutKeepsDistinct(ByKey(front), Pair(last.key, last));
    }
  }

  lemma {:induction false} WithItemsLookup(config: map<string, string>, m: Items, other: Items, key: string)
    requires DistinctKeys(m)
    ensures var after := WithItems(config, Missing(m, other));
      if Has(m, key) && !Has(other, key) then key in after && after[key] == Get(m, key).value
      else (key in after <==> key in config) && (key in config ==> after[key] == config[key])
    ensures key in ItemKeys(Missing(m, other)) <==> Has(m, key) && !Has(other, key)
  {
    if m != [] {
      var front, p := m[..|m| - 1], m[|m| - 1];
      WithItemsLookup(config, front, other, key);
      LookupInFront(m, key);
      if !Has(other, p.key) {
        var item := Item(p.key, p.value.value, p.value.category);
        assert Missing(m, other) == Missing(front, other) + [item];
        assert Missing(m, other)[..|Missing(front, other)|] == Missing(front, other);
      } else {
        assert Missing(m, other) == Missing(front, other);
      }
    }
  }

  lemma LookupInFront(m: Items, key: string)
    requires m != [] && DistinctKeys(m)
    ensures var front, p := m[..|m| - 1], m[|m| - 1];
      && DistinctKeys(front) && (Has(m, key) <==> key == p.key || Has(front, key))
      && (Has(front, key) ==> key != p.key && Get(m, key) == Get(front, key))
      && (key == p.key ==> Get(m, key) == p.value)
  {
  }

  lemma {:induction false} WithChangesLookup(config: map<string, string>, m: Items, baseline: Items, key: string)
    requires DistinctKeys(m)
    ensures var after := WithChanges(config, Changed(m, baseline));
      if Has(m, key) && Has(baseline, key) && Get(baseline, key).value != Get(m, key).value
      then key in after && after[key] == Get(m, key).value
      else (key in after <==> key in config) && (key in config ==> after[key] == config[key])
  {
    if m != [] {
      var front, p := m[..|m| - 1], m[|m| - 1];
      WithChangesLookup(config, front, baseline, key);
      LookupInFront(m, key);
      var changes := Changed(front, baseline);
      if Has(baseline, p.key) && Get(baseline, p.key).value != p.value.value {
        assert Changed(m, baseline)[..|changes|] == changes;
      } else {
        assert Changed(m, baseline) == changes;
      }
    }
  }

  /** Applying the diff to the baseline configuration gives the current one. */
  lemma DiffIsPatch(current: seq<Item>, baseline: seq<Item>)
    ensures Apply(DiffOf(current, baseline), Values(baseline)) == Values(current)
  {
    var curr, base, d := ByKey(current), ByKey(baseline), DiffOf(current, baseline);
    ByKeyValues(current);
    ByKeyValues(baseline);
    var left := Values(baseline) - ItemKeys(d.removed);
    forall key
      ensures key in Apply(d, Values(baseline)) <==> key in Values(current)
      ensures key in Values(current) ==> Apply(d, Values(baseline))[key] == Values(current)[key]
    {
      WithItemsLookup(map[], base, curr, key);
      WithChangesLookup(left, curr, base, key);
      WithItemsLookup(WithChanges(left, d.changed), curr, base, key);
    }
  }

  // ----- counts and symmetry -----

  lemma {:induction false} CountsAddUp(m: Items, other: Items)
    ensures |Missing(m, other)| + |Changed(m, other)| + Unchanged(m, other) == |m|
  {
    if m != [] {
      CountsAddUp(m[..|m| - 1], other);
    }
  }

  /** Added, changed and unchanged keys together are all current keys; removed, changed and
      unchanged ones are all baseline keys. */
  lemma DiffCounts(current: seq<Item>, baseline: seq<Item>)
    ensures var d := DiffOf(current, baseline);
      && |d.added| + |d.changed| + d.equalCount == |Values(current)|
      && |d.removed| + |d.changed| + d.equalCount == |Values(baseline)|
  {
    CountsAddUp(ByKey(current), ByKey(baseline));
    CountsAddUp(ByKey(baseline), ByKey(current));
    ByKeyValues(current);
    ByKeyValues(baseline);
    SwappedCounts(ByKey(current), ByKey(baseline));
  }

  /** The keys that `m` and `other` share with equal, or with different, values. */
  ghost function Shared(m: Items, other: Items, equal: bool): set<string> {
    set p <- m | Has(other, p.key) && (Get(other, p.key).value == p.value.value) == equal :: p.key
  }

  lemma {:induction false} SharedCounts(m: Items, other: Items)
    requires DistinctKeys(m)
    ensures |Changed(m, other)| == |Shared(m, other, false)| && Unchanged(m, other) == |Shared(m, other, true)|
    ensures ChangeKeys(Changed(m, other)) == Shared(m, other, false)
  {
    if m != [] {
      var front, p := m[..|m| - 1], m[|m| - 1];
      SharedCounts(front, other);
      SharedGrows(m, other, true);
      SharedGrows(m, other, false);
      ChangeKeysGrow(Changed(front, other), m, other);
    }
  }

  lemma ChangeKeysGrow(changes: seq<Change>, m: Items, other: Items)
    requires m != [] && changes == Changed(m[..|m| - 1], other)
    ensures var p := m[|m| - 1];
      ChangeKeys(Changed(m, other)) == ChangeKeys(changes) + New(p, other, false)
  {
  }

  /** The key of `p`, if it is one of those. */
  ghost function New(p: Pair<string, Item>, other: Items, equal: bool): set<string> {
    if Has(other, p.key) && (Get(other, p.key).value == p.value.value) == equal then {p.key} else {}
  }

  lemma SharedGrows(m: Items, other: Items, equal: bool)
    requires m != [] && DistinctKeys(m)
    ensures var front, p := m[..|m| - 1], m[|m| - 1];
      && p.key !in Shared(front, other, equal)
      && Shared(m, other, equal) == Shared(front, other, equal) + New(p, other, equal)
  {
  }

  lemma SharedSwaps(m: Items, other: Items, equal: bool)
    requires DistinctKeys(m) && DistinctKeys(other)
    ensures Shared(m, other, equal) == Shared(other, m, equal)
  {
  }

  lemma SwappedCounts(m: Items, other: Items)
    requires DistinctKeys(m) && DistinctKeys(other)
    ensures |Changed(m, other)| == |Changed(other, m)| && Unchanged(m, other) == Unchanged(other, m)
    ensures ChangeKeys(Changed(m, other)) == ChangeKeys(Changed(other, m))
  {
    SharedCounts(m, other);
    SharedCounts(other, m);
    SharedSwaps(m, other, true);
    SharedSwaps(m, other, false);
  }

  /** Swapping the two sides swaps what was added with what was removed, item by item and in
      order, and leaves the unchanged count and the set of changed keys. */
  lemma DiffSwapped(current: seq<Item>, baseline: seq<Item>)
    ensures var d, e := DiffOf(current, baseline), DiffOf(baseline, current);
      && e.added == d.removed && e.removed == d.added && e.equalCount == d.equalCount
      && ChangeKeys(e.changed) == ChangeKeys(d.changed) && |e.changed| == |d.changed|
  {
    ByKeyValues(current);
    ByKeyValues(baseline);
    SwappedCounts(ByKey(current), ByKey(baseline));
  }

  /** What each change reports: the key's value on either side, which differ. */
  lemma ChangesAreTrue(current: seq<Item>, baseline: seq<Item>)
    ensures forall c <- DiffOf(current, baseline).changed ::
      && c.key in Values(baseline) && c.key in Values(current) && c.baseline != c.current
      && c.baseline == Values(baseline)[c.key] && c.current == Values(current)[c.key]
  {
    ByKeyValues(current);
    ByKeyValues(baseline);
    ChangedEntries(ByKey(current), ByKey(baseline));
  }

  lemma {:induction false} ChangedEntries(m: Items, other: Items)
    requires DistinctKeys(m)
    ensures forall c <- Changed(m, other) ::
      && Has(m, c.key) && Has(other, c.key) && c.baseline != c.current
      && c.baseline == Get(other, c.key).value && c.current == Get(m, c.key).value
  {
    if m != [] {
      ChangedEntries(m[..|m| - 1], other);
      forall c <- Changed(m, other) {
        LookupInFront(m, c.key);
      }
      LookupInFront(m, m[|m| - 1].key);
    }
  }

  // ----- which items are listed -----

  /** The last item of the list with its key. */
  ghost predicate LastGiven(items: seq<Item>, x: Item) {
    exists i :: 0 <= i < |items| && items[i] == x && NotAgain(items, i)
  }

  ghost predicate NotAgain(items: seq<Item>, i: nat)
    requires i < |items|
  {
    forall j :: i < j < |items| ==> items[j].key != items[i].key
  }

  /** Every item stands under its own key. */
  ghost predicate Keyed(m: Items) {
    forall i :: 0 <= i < |m| ==> m[i].value.key == m[i].key
  }

  lemma LastOneMore(items: seq<Item>, x: Item, y: Item)
    ensures LastGiven(items + [y], x) <==> if x.key == y.key then x == y else LastGiven(items, x)
  {
    var more := items + [y];
    assert NotAgain(more, |items|);
    if i :| 0 <= i < |more| && more[i] == x && NotAgain(more, i) {
      if i < |items| {
        assert items[i] == x && more[|items|] == y && x.key != y.key;
        assert forall j :: i < j < |items| ==> items[j] == more[j];
        assert NotAgain(items, i);
      }
    }
    if x.key != y.key && LastGiven(items, x) {
      var i :| 0 <= i < |items| && items[i] == x && NotAgain(items, i);
      assert more[i] == x && NotAgain(more, i);
    }
  }

  lemma {:induction false} ByKeyIsKeyed(items: seq<Item>)
    ensures Keyed(ByKey(items))
  {
    if items != [] {
      var y := items[|items| - 1];
      ByKeyIsKeyed(items[..|items| - 1]);
      PutKeepsOthers(ByKey(items[..|items| - 1]), Pair(y.key, y));
    }
  }

  /** The map holds the last item of each key. */
  lemma {:induction false} ByKeyHoldsLast(items: seq<Item>, x: Item)
    ensures LastGiven(items, x) <==> Has(ByKey(items), x.key) && Get(ByKey(items), x.key) == x
  {
    if items != [] {
      var front, y := items[..|items| - 1], items[|items| - 1];
      ByKeyHoldsLast(front, x);
      LastOneMore(front, x, y);
      assert items == front + [y];
      PutLooksAt(ByKey(front), y, x.key, front);
    }
  }

  lemma PutLooksAt(m: Items, y: Item, key: string, items: seq<Item>)
    requires m == ByKey(items)
    ensures var after := Put(m, Pair(y.key, y));
      && (Has(after, key) <==> key == y.key || Has(m, key))
      && (Has(after, key) ==> Get(after, key) == if key == y.key then y else Get(m, key))
  {
    ByKeyValues(items);
    PutLooksUp(m, Pair(y.key, y));
  }

  /** The items that a list of missing items comes from. */
  lemma {:induction false} InMissing(m: Items, other: Items, x: Item)
    requires DistinctKeys(m) && Keyed(m)
    ensures x in Missing(m, other) <==> Has(m, x.key) && Get(m, x.key) == x && !Has(other, x.key)
  {
    if m != [] {
      LookupInFront(m, x.key);
      InMissing(m[..|m| - 1], other, x);
    }
  }

  lemma {:induction false} InChanged(m: Items, other: Items, c: Change)
    requires DistinctKeys(m)
    ensures c in Changed(m, other) <==>
      && Has(m, c.key) && Has(other, c.key) && Get(m, c.key).value != Get(other, c.key).value
      && c == Change(c.key, Get(other, c.key).value, Get(m, c.key).value, Get(m, c.key).category)
  {
    if m != [] {
      LookupInFront(m, c.key);
      InChanged(m[..|m| - 1], other, c);
    }
  }

  /** Added are the last items, as given, of the keys that only the current list has; removed
      likewise those that only the baseline has. */
  lemma AddedAndRemovedAre(current: seq<Item>, baseline: seq<Item>, x: Item)
    ensures var d := DiffOf(current, baseline);
      && (x in d.added <==> LastGiven(current, x) && x.key !in Values(baseline))
      && (x in d.removed <==> LastGiven(baseline, x) && x.key !in Values(current))
  {
    ByKeyValues(current);
    ByKeyValues(baseline);
    ByKeyIsKeyed(current);
    ByKeyIsKeyed(baseline);
    ByKeyHoldsLast(current, x);
    ByKeyHoldsLast(baseline, x);
    InMissing(ByKey(current), ByKey(baseline), x);
    InMissing(ByKey(baseline), ByKey(current), x);
  }

  /** A change is listed if and only if the last items of its key on the two sides have these two
      different values, and the current one this category. */
  lemma ChangedAre(current: seq<Item>, baseline: seq<Item>, c: Change)
    ensures c in DiffOf(current, baseline).changed <==>
      && c.baseline != c.current && LastGiven(current, Item(c.key, c.current, c.category))
      && exists category :: LastGiven(baseline, Item(c.key, c.baseline, category))
  {
    var curr, base := ByKey(current), ByKey(baseline);
    ByKeyValues(current);
    ByKeyValues(baseline);
    ByKeyIsKeyed(current);
    ByKeyIsKeyed(baseline);
    InChanged(curr, base, c);
    ByKeyHoldsLast(current, Item(c.key, c.current, c.category));
    forall category {
      ByKeyHoldsLast(baseline, Item(c.key, c.baseline, category));
    }
    if c in Changed(curr, base) {
      assert Get(base, c.key) == Item(c.key, c.baseline, Get(base, c.key).category);
      assert Get(curr, c.key) == Item(c.key, c.current, c.category);
    }
  }
}
