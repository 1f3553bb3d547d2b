/** Thinning the time series that the `get_metric_trends` tool returns. */
module Downsampling {
  import opened Collections
  import opened OrderedMap
  import opened Grouping

  datatype Point = Point(time: string, metricName: Option<string>, value: Option<real>)

  function NameOf(p: Point): string {
    if p.metricName.Some? then p.metricName.value else "unknown"
  }

  function Step(n: nat): (step: nat)
    ensures step > 0
  {
    if n / 50 > 1 then n / 50 else 1
  }

  /** How many of n points are kept. */
  function Kept(n: nat): nat {
    (n + Step(n) - 1) / Step(n)
  }

  /** Where the j-th kept point stands among n points. */
  function Nth(j: nat, n: nat): nat {
    j * Step(n)
  }

  /** `kept` is every `Step(|points|)`-th point, from the first on. */
  ghost predicate EveryStep(kept: seq<Point>, points: seq<Point>) {
    && |kept| == Kept(|points|)
    && (forall j :: 0 <= j < |kept| ==> Nth(j, |points|) < |points| && kept[j] == points[Nth(j, |points|)])
  }

  /** Between 50 and 99 points of a longer series, every point of a series shorter than 100. */
  lemma KeptBounds(n: nat)
    ensures Min(n, 50) <= Kept(n) <= Min(n, 99)
    ensures Kept(n) == n <==> n < 100
  {
    if n >= 100 {
      var step, r := n / 50, n % 50;
      Multiples(50, step);
      QuotientBetween(50 * step + r + step - 1, step, 50, 100);
    }
  }

  function Min(a: int, b: int): int {
    if a < b then a else b
  }

  lemma QuotientUnique(x: int, d: int, q: int, r: int)
    requires d > 0 && x == d * q + r && 0 <= r < d
    ensures x / d == q
  {
    assert d * (x / d - q) == r - x % d;
    Multiples(x / d - q, d);
  }

  lemma QuotientBetween(x: int, d: int, low: int, high: int)
    requires d > 0 && low * d <= x < high * d
    ensures low <= x / d < high
  {
    assert d * (x / d - low) == x - x % d - d * low;
    assert d * (x / d - high) == x - x % d - d * high;
    Multiples(x / d - low, d);
    Multiples(x / d - high, d);
  }

  lemma Multiples(m: int, d: int)
    requires d > 0
    ensures m >= 1 ==> d * m >= d
    ensures m <= -1 ==> d * m <= -d
    ensures m == 0 ==> d * m == 0
  {
  }

  method KeepEvery(points: seq<Point>) returns (kept: seq<Point>)
    ensures EveryStep(kept, points)
  {
    kept := [];
    var step := Step(|points|);
    var i := 0;
    while i < |points|
      invariant i == Nth(|kept|, |points|) < |points| + step
      invariant forall j :: 0 <= j < |kept| ==> Nth(j, |points|) < |points| && kept[j] == points[Nth(j, |points|)]
    {
      NextNth(|kept|, |points|);
      kept := kept + [points[i]];
      i := i + step;
    }
    KeptExactly(|kept|, |points|);
  }

  lemma NextNth(j: nat, n: nat)
    ensures Nth(j + 1, n) == Nth(j, n) + Step(n)
  {
  }

  lemma KeptExactly(count: nat, n: nat)
    requires n <= Nth(count, n) < n + Step(n)
    ensures count == Kept(n)
  {
    QuotientUnique(n + Step(n) - 1, Step(n), count, n + Step(n) - 1 - Nth(count, n));
  }

  /** The answer for a series: unchanged up to 200 points; beyond that, metric by metric in order
      of first appearance, every step-th point of each. */
  method Downsample(data: seq<Point>) returns (out: seq<Point>)
    ensures |data| <= 200 ==> out == data
    ensures |data| > 200 ==>
      && (forall k :: EveryStep(Members(out, NameOf, k), Members(data, NameOf, k)))
      && InFirstOrder(out, data)
      && |out| <= 99 * |KeysOf(data, NameOf)|
  {
    if |data| <= 200 {
      return data;
    }
    var groups := GroupBy(data, NameOf);
    out := [];
    for n := 0 to |groups|
      invariant Sampled(out, data, groups[..n])
      invariant |out| <= 99 * n
    {
      var kept := KeepEvery(groups[n].value);
      KeptBounds(|groups[n].value|);
      AddSample(out, data, groups, n, kept);
      out := out + kept;
    }
    assert groups[..|groups|] == groups;
    GroupCount(groups, data, NameOf);
    AllSampled(out, data, groups);
  }

  ghost predicate InFirstOrder(out: seq<Point>, data: seq<Point>) {
    forall i, j :: 0 <= i < j < |out|
      ==> FirstAt(data, NameOf, NameOf(out[i])) <= FirstAt(data, NameOf, NameOf(out[j]))
  }

  /** The metrics in `done` are sampled into `out`, and no other has a point there. */
  ghost predicate Sampled(out: seq<Point>, data: seq<Point>, done: Groups<Point>) {
    && (forall k :: SampledAt(out, data, done, k))
    && InFirstOrder(out, data)
  }

  ghost predicate SampledAt(out: seq<Point>, data: seq<Point>, done: Groups<Point>, k: string) {
    if Has(done, k) then EveryStep(Members(out, NameOf, k), Members(data, NameOf, k))
    else Members(out, NameOf, k) == []
  }

  lemma AddSample(out: seq<Point>, data: seq<Point>, groups: Groups<Point>, n: nat, kept: seq<Point>)
    requires IsGrouping(groups, data, NameOf) && n < |groups|
    requires Sampled(out, data, groups[..n]) && EveryStep(kept, groups[n].value)
    ensures Sampled(out + kept, data, groups[..n + 1])
  {
    var p := groups[n];
    GroupAt(groups, data, NameOf, n);
    KeptNames(kept, p.value, data, p.key);
    HasOneMore(groups, n);
    SampleMembers(out, kept, p.key);
    var after, done := out + kept, groups[..n + 1];
    forall k ensures SampledAt(after, data, done, k) {
      assert SampledAt(out, data, groups[..n], k);
    }
    SampleOrder(out, data, groups, n, kept);
  }

  lemma SampleMembers(out: seq<Point>, kept: seq<Point>, name: string)
    requires forall x <- kept :: NameOf(x) == name
    ensures forall k :: Members(out + kept, NameOf, k) == Members(out, NameOf, k) + if k == name then kept else []
  {
    MembersOfOneKey(kept, NameOf, name);
    forall k {
      MembersAppend(out, kept, NameOf, k);
    }
  }

  lemma SampleOrder(out: seq<Point>, data: seq<Point>, groups: Groups<Point>, n: nat, kept: seq<Point>)
    requires n < |groups| && InOrder(groups, data, NameOf) && InFirstOrder(out, data)
    requires forall k :: SampledAt(out, data, groups[..n], k)
    requires forall x <- kept :: NameOf(x) == groups[n].key
    ensures InFirstOrder(out + kept, data)
  {
    forall x <- out ensures FirstAt(data, NameOf, NameOf(x)) < FirstAt(data, NameOf, groups[n].key) {
      MembersBelong(out, NameOf, NameOf(x));
      assert SampledAt(out, data, groups[..n], NameOf(x));
      assert groups[IndexOf(groups[..n], NameOf(x))].key == NameOf(x);
    }
  }

  lemma KeptNames(kept: seq<Point>, points: seq<Point>, data: seq<Point>, k: string)
    requires EveryStep(kept, points) && points == Members(data, NameOf, k)
    ensures forall x <- kept :: NameOf(x) == k
  {
    MembersBelong(data, NameOf, k);
    forall x <- kept ensures x in points {
      var j :| 0 <= j < |kept| && kept[j] == x;
      assert x == points[Nth(j, |points|)];
    }
  }

  lemma HasOneMore(groups: Groups<Point>, n: nat)
    requires DistinctKeys(groups) && n < |groups|
    ensures forall k :: Has(groups[..n + 1], k) <==> k == groups[n].key || Has(groups[..n], k)
    ensures !Has(groups[..n], groups[n].key)
  {
    assert groups[..n + 1] == groups[..n] + [groups[n]];
    PutNewKey(groups[..n], groups[n]);
    PutLooksUp(groups[..n], groups[n]);
  }

  lemma AllSampled(out: seq<Point>, data: seq<Point>, groups: Groups<Point>)
    requires IsGrouping(groups, data, NameOf) && Sampled(out, data, groups)
    ensures forall k :: EveryStep(Members(out, NameOf, k), Members(data, NameOf, k))
  {
    forall k ensures EveryStep(Members(out, NameOf, k), Members(data, NameOf, k)) {
      assert SampledAt(out, data, groups, k) && Lookup(groups, k) == Members(data, NameOf, k);
    }
  }

  /** What a sampled series has of each metric: its first point, and few enough or all of its points. */
  lemma SampleKeeps(kept: seq<Point>, points: seq<Point>)
    requires EveryStep(kept, points)
    ensures Min(|points|, 50) <= |kept| <= Min(|points|, 99)
    ensures points != [] ==> kept != [] && kept[0] == points[0]
    ensures kept == points <==> |points| < 100
  {
    KeptBounds(|points|);
    if points != [] {
      assert kept[0] == points[Nth(0, |points|)];
    }
    if |points| < 100 {
      assert Step(|points|) == 1;
      forall j | 0 <= j < |kept| ensures kept[j] == points[j] {
        assert kept[j] == points[Nth(j, |points|)];
      }
    }
  }

  /** Points are of one series exactly if they name the same metric, those without a name counting
      as "unknown". */
  lemma NameOfIs(p: Point, name: string)
    ensures NameOf(p) == name <==> p.metricName == Some(name) || (p.metricName == None && name == "unknown")
  {
  }
}
