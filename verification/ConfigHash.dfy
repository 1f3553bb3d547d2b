/** The configuration hash: 32-bit arithmetic on UTF-16 code units, printed as hex digits. */
module ConfigHash {
  import opened Collections
  import opened Sorting

  type CodeUnit = n: int | 0 <= n < 0x10000

  type Text = seq<CodeUnit>

  // ----- 32-bit arithmetic -----

  /** ToInt32 of section 7.1.6 of ECMA-262. */
  function ToInt32(x: int): int {
    (x + 0x8000_0000) % 0x1_0000_0000 - 0x8000_0000
  }

  ghost predicate Congruent(x: int, y: int) {
    (x - y) % 0x1_0000_0000 == 0
  }

  /** ToInt32 keeps the residue and lands in the signed 32-bit range, where residues differ. */
  lemma ToInt32Range(x: int)
    ensures -0x8000_0000 <= ToInt32(x) < 0x8000_0000
    ensures Congruent(ToInt32(x), x)
  {
  }

  lemma ToInt32Residue(x: int, y: int)
    ensures ToInt32(x) == ToInt32(y) <==> Congruent(x, y)
  {
  }

  /** The base-31 polynomial of the code units, as an unbounded integer. */
  function Poly(s: Text): int {
    if s == [] then 0 else 31 * Poly(s[..|s| - 1]) + s[|s| - 1]
  }

  lemma StepCongruent(shifted: int, hash: int, poly: int, c: int)
    requires Congruent(shifted, hash * 32) && Congruent(hash, poly)
    ensures Congruent(shifted - hash + c, 31 * poly + c)
  {
  }

  /** One step of the loop stays congruent to one step of the polynomial. */
  lemma HashStep(hash: int, poly: int, c: CodeUnit)
    requires hash == ToInt32(poly)
    ensures ToInt32(ToInt32(hash * 32) - hash + c) == ToInt32(31 * poly + c)
  {
    var shifted, next := ToInt32(hash * 32), 31 * poly + c;
    ToInt32Range(poly);
    ToInt32Range(hash * 32);
    StepCongruent(shifted, hash, poly, c);
    ToInt32Residue(shifted - hash + c, next);
  }

  // ----- hex digits -----

  type Digit = n: int | 0 <= n < 16

  /** `n.toString(16)`. */
  function Hex(n: nat): (digits: seq<Digit>)
    ensures |digits| >= 1
  {
    if n < 16 then [n] else Hex(n / 16) + [n % 16]
  }

  function HexValue(digits: seq<Digit>): int {
    if digits == [] then 0 else 16 * HexValue(digits[..|digits| - 1]) + digits[|digits| - 1]
  }

  function PadStart(digits: seq<Digit>, length: nat): seq<Digit>
    decreases length - |digits|
  {
    if |digits| >= length then digits else PadStart([0] + digits, length)
  }

  /** `substring(0, length)`. */
  function Substring(digits: seq<Digit>, length: nat): seq<Digit> {
    if |digits| <= length then digits else digits[..length]
  }

  function Abs(x: int): nat {
    if x < 0 then -x else x
  }

  function Power16(k: nat): nat {
    if k == 0 then 1 else 16 * Power16(k - 1)
  }

  lemma {:induction false} HexLength(n: nat, k: nat)
    requires k > 0 && n < Power16(k)
    ensures |Hex(n)| <= k
  {
    if n >= 16 {
      assert k > 1;
      HexLength(n / 16, k - 1);
    }
  }

  lemma {:induction false} HexRoundTrip(n: nat)
    ensures HexValue(Hex(n)) == n
  {
    if n >= 16 {
      HexRoundTrip(n / 16);
      assert Hex(n)[..|Hex(n)| - 1] == Hex(n / 16);
    } else {
      assert [n][..0] == [];
    }
  }

  lemma {:induction false} LeadingZero(digits: seq<Digit>)
    ensures HexValue([0] + digits) == HexValue(digits)
  {
    if digits != [] {
      LeadingZero(digits[..|digits| - 1]);
      assert ([0] + digits)[..|digits|] == [0] + digits[..|digits| - 1];
    }
  }

  lemma {:induction false} PadValue(digits: seq<Digit>, length: nat)
    ensures HexValue(PadStart(digits, length)) == HexValue(digits)
    ensures |PadStart(digits, length)| == if |digits| < length then length else |digits|
    decreases length - |digits|
  {
    if |digits| < length {
      LeadingZero(digits);
      PadValue([0] + digits, length);
    }
  }

  // ----- simpleHash -----

  method SimpleHash(str: Text) returns (digits: seq<Digit>)
    ensures |digits| == 8
    ensures HexValue(digits) == Abs(ToInt32(Poly(str)))
    ensures digits == Digest(str)
  {
    var hash := 0;
    for i := 0 to |str|
      invariant hash == ToInt32(Poly(str[..i]))
    {
      assert str[..i + 1][..i] == str[..i];
      HashStep(hash, Poly(str[..i]), str[i]);
      hash := ToInt32(hash * 32) - hash + str[i];
      hash := ToInt32(hash);
    }
    assert str[..|str|] == str;
    DigestFits(str);
    digits := Substring(PadStart(Hex(Abs(hash)), 8), 8);
  }

  /** The hash as a function of the string. */
  function Digest(str: Text): seq<Digit> {
    Substring(PadStart(Hex(Abs(ToInt32(Poly(str)))), 8), 8)
  }

  /** The hash always has 8 digits and never loses one to `substring`. */
  lemma DigestFits(str: Text)
    ensures |Digest(str)| == 8 && Digest(str) == PadStart(Hex(Abs(ToInt32(Poly(str)))), 8)
    ensures HexValue(Digest(str)) == Abs(ToInt32(Poly(str)))
  {
    var n := Abs(ToInt32(Poly(str)));
    ToInt32Range(Poly(str));
    assert Power16(8) == 0x1_0000_0000;
    HexLength(n, 8);
    PadValue(Hex(n), 8);
    HexRoundTrip(n);
  }

  lemma {:induction false} SameValueSameDigits(a: seq<Digit>, b: seq<Digit>)
    requires |a| == |b| && HexValue(a) == HexValue(b)
    ensures a == b
  {
    if a != [] {
      SameValueSameDigits(a[..|a| - 1], b[..|b| - 1]);
      assert a == a[..|a| - 1] + [a[|a| - 1]] && b == b[..|b| - 1] + [b[|b| - 1]];
    }
  }

  /** Two strings have one hash exactly when their polynomials are equal or opposite mod 2^32. */
  lemma CollisionsExactly(a: Text, b: Text)
    ensures Digest(a) == Digest(b) <==> Congruent(Poly(a), Poly(b)) || Congruent(Poly(a), -Poly(b))
  {
    var x, y := ToInt32(Poly(a)), ToInt32(Poly(b));
    DigestFits(a);
    DigestFits(b);
    if HexValue(Digest(a)) == HexValue(Digest(b)) {
      SameValueSameDigits(Digest(a), Digest(b));
    }
    assert Digest(a) == Digest(b) <==> x == y || x == -y;
    ToInt32Residue(Poly(a), Poly(b));
    ToInt32Residue(Poly(a), -Poly(b));
    OppositeResidue(Poly(b));
  }

  /** Negation commutes with ToInt32 except at the one value without an opposite. */
  lemma OppositeResidue(p: int)
    ensures ToInt32(-p) == if ToInt32(p) == -0x8000_0000 then -0x8000_0000 else -ToInt32(p)
  {
  }

  // ----- generateConfigHash -----

  /** A flat configuration in insertion order. A value is the JSON text it serializes to,
      or None if JSON.stringify leaves it out (undefined). */
  datatype Entry = Entry(key: Text, value: Option<Text>)

  ghost predicate Flat(config: seq<Entry>) {
    forall i, j :: 0 <= i < j < |config| ==> config[i].key != config[j].key
  }

  const LAST_MODIFIED_AT: Text := [108, 97, 115, 116, 95, 109, 111, 100, 105, 102, 105, 101, 100, 95, 97, 116]
  const CONFIG_HASH: Text := [99, 111, 110, 102, 105, 103, 95, 104, 97, 115, 104]

  predicate Volatile(key: Text) {
    key == LAST_MODIFIED_AT || key == CONFIG_HASH
  }

  /** The rest pattern: all entries but the two volatile ones. */
  function Relevant(config: seq<Entry>): seq<Entry> {
    if config == [] then [] else
    (if Volatile(config[0].key) then [] else [config[0]]) + Relevant(config[1..])
  }

  function Keys(config: seq<Entry>): seq<Text> {
    if config == [] then [] else [config[0].key] + Keys(config[1..])
  }

  function Lookup(config: seq<Entry>, key: Text): Option<Text> {
    if config == [] then None
    else if config[0].key == key then config[0].value
    else Lookup(config[1..], key)
  }

  /** The order of `Array.prototype.sort` on strings: by code units. */
  predicate TextLe(a: Text, b: Text) {
    a == [] || (b != [] && (a[0] < b[0] || (a[0] == b[0] && TextLe(a[1..], b[1..]))))
  }

  /** The members JSON.stringify writes for the keys of its replacer array, in that order. */
  function Serialize(config: seq<Entry>, keys: seq<Text>, quote: Text -> Text): seq<Text> {
    if keys == [] then [] else
    (match Lookup(config, keys[0])
     case None => []
     case Some(v) => [quote(keys[0]) + [58] + v]) + Serialize(config, keys[1..], quote)
  }

  function JoinComma(parts: seq<Text>): Text {
    if parts == [] then [] else
    if |parts| == 1 then parts[0] else parts[0] + [44] + JoinComma(parts[1..])
  }

  function Normalized(config: seq<Entry>, quote: Text -> Text): Text {
    var relevant := Relevant(config);
    [123] + JoinComma(Serialize(relevant, Sort(Keys(relevant), TextLe), quote)) + [125]
  }

  /** What a configuration says, whatever order its keys were inserted in: the defined values of
      all its keys but the volatile ones. */
  ghost function Meaning(config: seq<Entry>): map<Text, Text> {
    map key | key in Keys(config) && !Volatile(key) && Lookup(config, key).Some? :: Lookup(config, key).value
  }

  /** The UTF-16 code units of a string of characters below 0x10000. */
  function CodeUnits(s: string): (t: Text)
    ensures |t| == |s| && forall i :: 0 <= i < |s| && s[i] as int < 0x10000 ==> t[i] == s[i] as int
  {
    if s == "" then [] else CodeUnits(s[..|s| - 1]) + [s[|s| - 1] as int % 0x10000]
  }

  /** The volatile keys are "last_modified_at" and "config_hash". */
  lemma VolatileIff(key: Text)
    ensures Volatile(key) <==> key == CodeUnits("last_modified_at") || key == CodeUnits("config_hash")
  {
    LastModifiedAt();
    assert CodeUnits("config_hash") == CONFIG_HASH;
  }

  lemma LastModifiedAt()
    ensures CodeUnits("last_modified_at") == LAST_MODIFIED_AT
  {
    var s := "last_modified_at";
    assert |s| == 16 && |LAST_MODIFIED_AT| == 16;
  }

  /** Of two strings one comes first if it is a prefix of the other or has the smaller code unit
      where they first differ. */
  ghost predicate ComesFirst(a: Text, b: Text) {
    || (|a| <= |b| && b[..|a|] == a)
    || exists i :: 0 <= i < |a| && i < |b| && a[..i] == b[..i] && a[i] < b[i]
  }

  lemma {:induction false} TextLeIff(a: Text, b: Text)
    ensures TextLe(a, b) <==> ComesFirst(a, b)
  {
    if a != [] && b != [] {
      if a[0] == b[0] {
        TextLeIff(a[1..], b[1..]);
        FirstAgrees(a, b);
      } else {
        FirstDiffers(a, b);
      }
    }
  }

  lemma FirstDiffers(a: Text, b: Text)
    requires a != [] && b != [] && a[0] != b[0]
    ensures ComesFirst(a, b) <==> a[0] < b[0]
  {
    forall i | 0 < i <= |a| && i <= |b| ensures a[..i] != b[..i] {
      assert a[..i][0] == a[0] && b[..i][0] == b[0];
    }
    assert a[..0] == b[..0];
    assert a[..|a|] == a;
  }

  lemma FirstAgrees(a: Text, b: Text)
    requires a != [] && b != [] && a[0] == b[0]
    ensures ComesFirst(a, b) <==> ComesFirst(a[1..], b[1..])
  {
    var c, d := a[1..], b[1..];
    assert a == [a[0]] + c && b == [b[0]] + d;
    forall i | 0 < i <= |a| && i <= |b| ensures a[..i] == b[..i] <==> c[..i - 1] == d[..i - 1] {
      assert a[..i] == [a[0]] + c[..i - 1] && b[..i] == [b[0]] + d[..i - 1];
    }
    if i :| 0 <= i < |a| && i < |b| && a[..i] == b[..i] && a[i] < b[i] {
      assert i > 0 && c[i - 1] < d[i - 1] && c[..i - 1] == d[..i - 1];
    }
    if i :| 0 <= i < |c| && i < |d| && c[..i] == d[..i] && c[i] < d[i] {
      assert a[..i + 1] == b[..i + 1] && a[i + 1] < b[i + 1];
    }
  }

  /** The keys of `meaning`, once each and in order. */
  ghost predicate Lists(keys: seq<Text>, meaning: map<Text, Text>) {
    Sorted(keys, TextLe) && forall k :: multiset(keys)[k] == if k in meaning then 1 else 0
  }

  /** `text` is the JSON object that says `meaning`, its members ordered by key. */
  ghost predicate Canonical(text: Text, meaning: map<Text, Text>, quote: Text -> Text) {
    exists keys: seq<Text> :: Lists(keys, meaning) && Says(text, keys, meaning, quote)
  }

  ghost predicate Says(text: Text, keys: seq<Text>, meaning: map<Text, Text>, quote: Text -> Text) {
    (forall k <- keys :: k in meaning) && text == [123] + JoinComma(Members(meaning, keys, quote)) + [125]
  }

  /** The hash of a flat configuration is that of the one JSON text of what it says. */
  method GenerateConfigHash(config: seq<Entry>, quote: Text -> Text) returns (digits: seq<Digit>)
    ensures digits == Digest(Normalized(config, quote))
    ensures Flat(config) ==> Canonical(Normalized(config, quote), Meaning(config), quote)
  {
    var relevantConfig: seq<Entry> := [];
    for i := 0 to |config|
      invariant relevantConfig == Relevant(config[..i])
    {
      RelevantOneMore(config[..i], config[i]);
      assert config[..i + 1] == config[..i] + [config[i]];
      if !Volatile(config[i].key) {
        relevantConfig := relevantConfig + [config[i]];
      }
    }
    assert config[..|config|] == config;
    var keys := Sort(Keys(relevantConfig), TextLe);
    var members: seq<Text> := [];
    for i := 0 to |keys|
      invariant members == Serialize(relevantConfig, keys[..i], quote)
    {
      SerializeOneMore(relevantConfig, keys[..i], keys[i], quote);
      assert keys[..i + 1] == keys[..i] + [keys[i]];
      var value := Lookup(relevantConfig, keys[i]);
      if value.Some? {
        members := members + [quote(keys[i]) + [58] + value.value];
      }
    }
    assert keys[..|keys|] == keys;
    digits := SimpleHash([123] + JoinComma(members) + [125]);
    if Flat(config) {
      NormalizedIsCanonical(config, quote);
    }
  }

  lemma {:induction false} RelevantOneMore(config: seq<Entry>, e: Entry)
    ensures Relevant(config + [e]) == Relevant(config) + if Volatile(e.key) then [] else [e]
  {
    if config != [] {
      RelevantOneMore(config[1..], e);
      assert (config + [e])[1..] == config[1..] + [e];
    }
  }

  lemma {:induction false} SerializeOneMore(config: seq<Entry>, keys: seq<Text>, key: Text, quote: Text -> Text)
    ensures Serialize(config, keys + [key], quote) == Serialize(config, keys, quote) + Serialize(config, [key], quote)
  {
    if keys != [] {
      SerializeOneMore(config, keys[1..], key, quote);
      assert (keys + [key])[1..] == keys[1..] + [key];
    }
  }

  lemma {:induction false} TextLeTotal(a: Text, b: Text)
    ensures TextLe(a, b) || TextLe(b, a)
    ensures TextLe(a, b) && TextLe(b, a) ==> a == b
  {
    if a != [] && b != [] {
      TextLeTotal(a[1..], b[1..]);
      assert a == [a[0]] + a[1..] && b == [b[0]] + b[1..];
    }
  }

  lemma {:induction false} TextLeTransitive(a: Text, b: Text, c: Text)
    ensures TextLe(a, b) && TextLe(b, c) ==> TextLe(a, c)
  {
    if a != [] && b != [] && c != [] {
      TextLeTransitive(a[1..], b[1..], c[1..]);
    }
  }

  lemma TextLeOrder()
    ensures TotalPreorder(TextLe) && Antisymmetric(TextLe)
  {
    forall a, b {
      TextLeTotal(a, b);
    }
    forall a, b, c ensures TextLe(a, b) && TextLe(b, c) ==> TextLe(a, c) {
      TextLeTransitive(a, b, c);
    }
  }

  // ----- insertion order does not matter -----

  /** The keys that end up in the JSON text. */
  function Defined(config: seq<Entry>, keys: seq<Text>): seq<Text> {
    if keys == [] then [] else
    (if Lookup(config, keys[0]).Some? then [keys[0]] else []) + Defined(config, keys[1..])
  }

  /** The members of a JSON object that says `meaning`, for `keys` in this order. */
  ghost function Members(meaning: map<Text, Text>, keys: seq<Text>, quote: Text -> Text): seq<Text>
    requires forall k <- keys :: k in meaning
  {
    if keys == [] then [] else [quote(keys[0]) + [58] + meaning[keys[0]]] + Members(meaning, keys[1..], quote)
  }

  lemma {:induction false} RelevantLookup(config: seq<Entry>, key: Text)
    ensures Lookup(Relevant(config), key) == if Volatile(key) then None else Lookup(config, key)
    ensures key in Keys(Relevant(config)) <==> key in Keys(config) && !Volatile(key)
    ensures multiset(Keys(Relevant(config)))[key] <= multiset(Keys(config))[key]
    ensures Lookup(config, key).Some? ==> key in Keys(config)
  {
    if config != [] {
      RelevantLookup(config[1..], key);
      var rest := Relevant(config[1..]);
      assert Keys(config) == [config[0].key] + Keys(config[1..]);
      if !Volatile(config[0].key) {
        assert Relevant(config) == [config[0]] + rest && Relevant(config)[1..] == rest;
        assert Keys(Relevant(config)) == [config[0].key] + Keys(rest);
      } else {
        assert Relevant(config) == rest;
      }
    }
  }

  lemma {:induction false} FlatKeysOnce(config: seq<Entry>, key: Text)
    requires Flat(config)
    ensures multiset(Keys(config))[key] <= 1
  {
    if config != [] {
      FlatKeysOnce(config[1..], key);
      assert Keys(config) == [config[0].key] + Keys(config[1..]);
      if key == config[0].key {
        NotAKey(config[1..], key);
      }
    }
  }

  lemma {:induction false} NotAKey(config: seq<Entry>, key: Text)
    requires forall i :: 0 <= i < |config| ==> config[i].key != key
    ensures key !in Keys(config)
  {
    if config != [] {
      NotAKey(config[1..], key);
    }
  }

  lemma {:induction false} DefinedCount(config: seq<Entry>, keys: seq<Text>, key: Text)
    ensures multiset(Defined(config, keys))[key] == if Lookup(config, key).Some? then multiset(keys)[key] else 0
  {
    if keys != [] {
      DefinedCount(config, keys[1..], key);
      assert keys == [keys[0]] + keys[1..];
    }
  }

  lemma {:induction false} DefinedSorted(config: seq<Entry>, keys: seq<Text>)
    requires Sorted(keys, TextLe)
    ensures Sorted(Defined(config, keys), TextLe)
    ensures forall k <- Defined(config, keys) :: k in keys && Lookup(config, k).Some?
  {
    if keys != [] {
      DefinedSorted(config, keys[1..]);
      assert keys == [keys[0]] + keys[1..];
      var rest := Defined(config, keys[1..]);
      forall i | 0 <= i < |rest| ensures TextLe(keys[0], rest[i]) {
        assert rest[i] in rest && rest[i] in keys[1..];
        var j :| 0 <= j < |keys[1..]| && keys[1..][j] == rest[i];
        assert keys[j + 1] == rest[i];
      }
    }
  }

  lemma {:induction false} SerializeMembers(config: seq<Entry>, keys: seq<Text>, meaning: map<Text, Text>, quote: Text -> Text)
    requires forall k <- keys :: Lookup(config, k) == if k in meaning then Some(meaning[k]) else None
    ensures forall k <- Defined(config, keys) :: k in meaning
    ensures Serialize(config, keys, quote) == Members(meaning, Defined(config, keys), quote)
  {
    if keys != [] {
      SerializeMembers(config, keys[1..], meaning, quote);
      var rest := Defined(config, keys[1..]);
      if Lookup(config, keys[0]).Some? {
        assert Defined(config, keys) == [keys[0]] + rest && Defined(config, keys)[1..] == rest;
      } else {
        assert Defined(config, keys) == rest;
      }
    }
  }

  /** The keys written for a flat configuration: those of its meaning, once each, in order. */
  ghost function WrittenKeys(config: seq<Entry>): seq<Text> {
    Defined(Relevant(config), Sort(Keys(Relevant(config)), TextLe))
  }

  lemma WrittenKeysAre(config: seq<Entry>, key: Text)
    requires Flat(config)
    ensures multiset(WrittenKeys(config))[key] == if key in Meaning(config) then 1 else 0
  {
    var relevant := Relevant(config);
    SortKeeps(Keys(relevant), TextLe);
    DefinedCount(relevant, Sort(Keys(relevant), TextLe), key);
    RelevantLookup(config, key);
    FlatKeysOnce(config, key);
    assert key in Keys(relevant) ==> key in multiset(Keys(relevant));
  }

  lemma NormalizedMeaning(config: seq<Entry>, quote: Text -> Text)
    ensures (forall k <- WrittenKeys(config) :: k in Meaning(config))
      && Normalized(config, quote) == [123] + JoinComma(Members(Meaning(config), WrittenKeys(config), quote)) + [125]
    ensures Sorted(WrittenKeys(config), TextLe)
  {
    var relevant := Relevant(config);
    var keys := Sort(Keys(relevant), TextLe);
    TextLeOrder();
    SortSorts(Keys(relevant), TextLe);
    DefinedSorted(relevant, keys);
    SortKeeps(Keys(relevant), TextLe);
    forall k <- keys ensures Lookup(relevant, k) == if k in Meaning(config) then Some(Meaning(config)[k]) else None {
      assert k in multiset(keys);
      RelevantLookup(config, k);
    }
    SerializeMembers(relevant, keys, Meaning(config), quote);
  }

  lemma NormalizedIsCanonical(config: seq<Entry>, quote: Text -> Text)
    requires Flat(config)
    ensures Canonical(Normalized(config, quote), Meaning(config), quote)
  {
    NormalizedMeaning(config, quote);
    forall k {
      WrittenKeysAre(config, k);
    }
    assert Lists(WrittenKeys(config), Meaning(config));
    assert Says(Normalized(config, quote), WrittenKeys(config), Meaning(config), quote);
  }

  /** There is only one such text. */
  lemma CanonicalIsUnique(a: Text, b: Text, meaning: map<Text, Text>, quote: Text -> Text)
    requires Canonical(a, meaning, quote) && Canonical(b, meaning, quote)
    ensures a == b
  {
    var keys: seq<Text> :| Lists(keys, meaning) && Says(a, keys, meaning, quote);
    var others: seq<Text> :| Lists(others, meaning) && Says(b, others, meaning, quote);
    ListsOnce(keys, others, meaning);
  }

  lemma ListsOnce(keys: seq<Text>, others: seq<Text>, meaning: map<Text, Text>)
    requires Lists(keys, meaning) && Lists(others, meaning)
    ensures keys == others
  {
    assert multiset(keys) == multiset(others);
    TextLeOrder();
    SortedUnique(keys, others, TextLe);
  }

  /** Flat configurations that say the same hash the same, whatever the order of their keys,
      whatever volatile fields they carry, and however JSON quotes a key. */
  lemma SameMeaningSameHash(a: seq<Entry>, b: seq<Entry>, quote: Text -> Text)
    requires Flat(a) && Flat(b) && Meaning(a) == Meaning(b)
    ensures Digest(Normalized(a, quote)) == Digest(Normalized(b, quote))
  {
    NormalizedIsCanonical(a, quote);
    NormalizedIsCanonical(b, quote);
    CanonicalIsUnique(Normalized(a, quote), Normalized(b, quote), Meaning(a), quote);
  }
}
