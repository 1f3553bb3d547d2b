/** The JavaScript Map: keys in the order of their first insertion, each with its last value. */
module OrderedMap {

  datatype Pair<+K, +V> = Pair(key: K, value: V)

  type OMap<+K, +V> = seq<Pair<K, V>>

  function IndexOf<K(==), V>(m: OMap<K, V>, key: K): (i: nat)
    ensures i <= |m| && (i < |m| ==> m[i].key == key)
    ensures forall j :: 0 <= j < i ==> m[j].key != key
  {
    if m == [] || m[0].key == key then 0 else 1 + IndexOf(m[1..], key)
  }

  predicate Has<K(==), V>(m: OMap<K, V>, key: K) {
    IndexOf(m, key) < |m|
  }

  function Get<K(==), V>(m: OMap<K, V>, key: K): V
    requires Has(m, key)
  {
    m[IndexOf(m, key)].value
  }

  /** `Map.set`: overwrite the value where the key stands, or append. */
  function Put<K(==), V>(m: OMap<K, V>, p: Pair<K, V>): OMap<K, V> {
    var i := IndexOf(m, p.key);
    if i < |m| then m[i := p] else m + [p]
  }

  ghost predicate DistinctKeys<K, V>(m: OMap<K, V>) {
    forall i, j :: 0 <= i < j < |m| ==> m[i].key != m[j].key
  }

  lemma IndexOfBound<K, V>(m: OMap<K, V>, j: nat)
    requires j < |m|
    ensures IndexOf(m, m[j].key) <= j
  {
  }

  lemma PutAndFind<K, V>(m: OMap<K, V>, p: Pair<K, V>)
    ensures var after := Put(m, p);
      && Has(after, p.key) && after[IndexOf(after, p.key)] == p
      && forall key :: Has(m, key) ==> Has(after, key)
  {
    var after := Put(m, p);
    forall key | Has(m, key) ensures Has(after, key) {
      IndexOfBound(after, IndexOf(m, key));
    }
    IndexOfBound(after, IndexOf(m, p.key));
  }

  /** An entry other than the one set keeps its place and value. */
  lemma PutKeepsOthers<K, V>(m: OMap<K, V>, p: Pair<K, V>)
    ensures var after := Put(m, p);
      && |m| <= |after| <= |m| + 1
      && (forall i :: 0 <= i < |m| ==> after[i].key == m[i].key && (m[i].key != p.key ==> after[i] == m[i]))
      && (|after| > |m| ==> after[|m|] == p)
      && p in after
  {
  }

  lemma PutAgain<K, V>(m: OMap<K, V>, p: Pair<K, V>)
    requires DistinctKeys(m) && p in m
    ensures Put(m, p) == m
  {
  }

  lemma PutAbsent<K, V>(m: OMap<K, V>, p: Pair<K, V>)
    requires forall j :: 0 <= j < |m| ==> m[j].key != p.key
    ensures Put(m, p) == m + [p]
  {
  }

  lemma PutNewKey<K, V>(m: OMap<K, V>, p: Pair<K, V>)
    requires DistinctKeys(m + [p])
    ensures Put(m, p) == m + [p]
  {
    forall j | 0 <= j < |m| ensures m[j].key != p.key {
      assert (m + [p])[j] == m[j] && (m + [p])[|m|] == p;
    }
  }

  lemma PutKeepsDistinct<K, V>(m: OMap<K, V>, p: Pair<K, V>)
    requires DistinctKeys(m)
    ensures DistinctKeys(Put(m, p))
  {
  }

  /** After `set`, looking up any key gives what a Map gives. */
  lemma PutLooksUp<K(!new), V>(m: OMap<K, V>, p: Pair<K, V>)
    requires DistinctKeys(m)
    ensures var after := Put(m, p);
      && (forall key :: Has(after, key) <==> key == p.key || Has(m, key))
      && (forall key :: Has(after, key) ==> Get(after, key) == if key == p.key then p.value else Get(m, key))
  {
    var after := Put(m, p);
    PutKeepsDistinct(m, p);
    PutAndFind(m, p);
    PutKeepsOthers(m, p);
    forall key | Has(after, key) && key != p.key ensures Has(m, key) && Get(after, key) == Get(m, key) {
      var i := IndexOf(after, key);
      assert i < |m| && m[i].key == key;
      IndexOfBound(m, i);
      var j := IndexOf(m, key);
      assert after[j].key == after[i].key;
    }
  }
}
