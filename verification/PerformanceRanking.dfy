/** The ranking of a run's transactions along one dimension. */
module PerformanceRanking {
  import opened Sorting

  datatype Stats = Stats(
    transaction: string, scenario: string, avgResponseTime: real, p95ResponseTime: real,
    failedCount: nat, totalCount: nat, apdex: real)

  datatype Dimension = Slowest | HighestThroughput | HighestImpact | HighestErrorRate

  /** What the ranking shows of a transaction. */
  datatype Enriched = Enriched(
    transaction: string, scenario: string, avgResponseTime: real, p95ResponseTime: real, totalCount: nat,
    errorRatePct: real, throughput: real, impact: int, apdex: real)

  datatype Ranked = Ranked(rank: nat, item: Enriched)

  // ----- enrichment -----

  /** `Math.round`: halves go up. */
  function Round(x: real): int {
    (x + 0.5).Floor
  }

  /** `Math.round(x * 100) / 100`. */
  function Round2(x: real): real {
    Round(x * 100.0) as real / 100.0
  }

  function Throughput(t: Stats, duration: real): real {
    if duration > 0.0 then t.totalCount as real / duration else 0.0
  }

  function ErrorRate(t: Stats): real {
    if t.totalCount > 0 then (t.failedCount as real / t.totalCount as real) * 100.0 else 0.0
  }

  function Enrich(t: Stats, duration: real): Enriched {
    Enriched(t.transaction, t.scenario, t.avgResponseTime, t.p95ResponseTime, t.totalCount,
             Round2(ErrorRate(t)), Round2(Throughput(t, duration)),
             Round(t.avgResponseTime * t.totalCount as real), t.apdex)
  }

  function Score(e: Enriched, d: Dimension): real {
    match d
    case Slowest => e.avgResponseTime
    case HighestThroughput => e.throughput
    case HighestImpact => e.impact as real
    case HighestErrorRate => e.errorRatePct
  }

  function HigherFirst(d: Dimension): (Enriched, Enriched) -> bool {
    (a: Enriched, b: Enriched) => Score(b, d) <= Score(a, d)
  }

  lemma HigherFirstIsPreorder(d: Dimension)
    ensures TotalPreorder(HigherFirst(d))
  {
  }

  // ----- the ranking -----

  /** How many elements `slice(0, limit)` takes out of n; a negative limit counts from the end. */
  function SliceCount(n: nat, limit: int): (k: nat)
    ensures k <= n
    ensures limit >= 0 ==> k == if limit < n then limit else n
  {
    if limit < 0 then (if n + limit < 0 then 0 else n + limit) else if limit < n then limit else n
  }

  function Items(ranked: seq<Ranked>): seq<Enriched> {
    Map(ranked, (r: Ranked) => r.item)
  }

  function EnrichAll(transactions: seq<Stats>, duration: real): seq<Enriched> {
    Map(transactions, t => Enrich(t, duration))
  }

  method BuildPerformanceRanking(transactions: seq<Stats>, duration: real, d: Dimension, limit: int)
    returns (items: seq<Ranked>, totalTransactions: nat)
    ensures totalTransactions == |transactions|
    ensures limit >= 0 ==> |items| == if limit < |transactions| then limit else |transactions|
    ensures limit < 0 ==> |items| == if |transactions| + limit < 0 then 0 else |transactions| + limit
    ensures forall i :: 0 <= i < |items| ==> items[i].rank == i + 1
    ensures Items(items) == Prefix(Sort(EnrichAll(transactions, duration), HigherFirst(d)), |items|)
    ensures Leads(Items(items), EnrichAll(transactions, duration), HigherFirst(d))
  {
    var le := HigherFirst(d);
    var enriched := EnrichAll(transactions, duration);
    var sorted := Sort(enriched, le);
    var k := SliceCount(|transactions|, limit);
    HigherFirstIsPreorder(d);
    PrefixLeads(enriched, le, k);
    items := seq(k, i requires 0 <= i < k => Ranked(i + 1, sorted[i]));
    totalTransactions := |transactions|;
    assert Items(items) == sorted[..k] == Prefix(sorted, k);
  }

  // ----- ranking by rounded scores -----

  function Exact(t: Stats, d: Dimension, duration: real): real {
    match d
    case Slowest => t.avgResponseTime
    case HighestThroughput => Throughput(t, duration)
    case HighestImpact => t.avgResponseTime * t.totalCount as real
    case HighestErrorRate => ErrorRate(t)
  }

  /** The resolution to which a dimension is rounded before sorting. */
  function Resolution(d: Dimension): real {
    match d
    case Slowest => 0.0
    case HighestImpact => 1.0
    case _ => 0.01
  }

  lemma ScoreIsClose(t: Stats, d: Dimension, duration: real)
    ensures Exact(t, d, duration) - Resolution(d) / 2.0 <= Score(Enrich(t, duration), d)
    ensures Score(Enrich(t, duration), d) <= Exact(t, d, duration) + Resolution(d) / 2.0
    ensures d != Slowest ==> Exact(t, d, duration) - Resolution(d) / 2.0 < Score(Enrich(t, duration), d)
  {
  }

  /** The transactions in the order in which the ranking lists them. */
  function ListedOrder(transactions: seq<Stats>, enrich: Stats -> Enriched, d: Dimension): seq<Stats> {
    Sort(transactions, By(enrich, HigherFirst(d)))
  }

  lemma OrderIsRanking(transactions: seq<Stats>, enrich: Stats -> Enriched, d: Dimension)
    ensures var order := ListedOrder(transactions, enrich, d);
      && multiset(order) == multiset(transactions) && |order| == |transactions|
      && Map(order, enrich) == Sort(Map(transactions, enrich), HigherFirst(d))
  {
    SortKeeps(transactions, By(enrich, HigherFirst(d)));
    SortThenMap(transactions, enrich, HigherFirst(d));
  }

  /** Sorting by rounded scores can put a transaction before one that scores higher, but then by
      less than the rounding resolution; by response time, which is not rounded, never. */
  lemma RankedWithinResolution(transactions: seq<Stats>, duration: real, d: Dimension, i: nat, j: nat)
    requires i < j < |transactions|
    ensures var order := ListedOrder(transactions, t => Enrich(t, duration), d);
      |order| == |transactions| && CloseOrBetter(order[i], order[j], d, duration)
  {
    var enrich := t => Enrich(t, duration);
    var order := ListedOrder(transactions, enrich, d);
    OrderIsRanking(transactions, enrich, d);
    ByScorePreorder(enrich, HigherFirst(d));
    SortSorts(transactions, By(enrich, HigherFirst(d)));
    CloseScores(order[i], order[j], d, duration);
  }

  ghost predicate CloseOrBetter(first: Stats, second: Stats, d: Dimension, duration: real) {
    var gain := Exact(second, d, duration) - Exact(first, d, duration);
    gain <= Resolution(d) && (d != Slowest ==> gain < Resolution(d))
  }

  lemma CloseScores(first: Stats, second: Stats, d: Dimension, duration: real)
    requires HigherFirst(d)(Enrich(first, duration), Enrich(second, duration))
    ensures CloseOrBetter(first, second, d, duration)
  {
    ScoreIsClose(first, d, duration);
    ScoreIsClose(second, d, duration);
  }

  // ----- when the ranking is exact -----

  /** The transactions are listed by what they really score. */
  ghost predicate ExactlyRanked(order: seq<Stats>, d: Dimension, duration: real) {
    forall i, j :: 0 <= i < j < |order| ==> Exact(order[i], d, duration) >= Exact(order[j], d, duration)
  }

  /** Transactions whose rounded scores tie are given highest first. */
  ghost predicate TiesRanked(transactions: seq<Stats>, d: Dimension, duration: real) {
    forall p, q :: 0 <= p < q < |transactions| && SameScore(transactions[p], transactions[q], d, duration)
      ==> Exact(transactions[p], d, duration) >= Exact(transactions[q], d, duration)
  }

  predicate SameScore(a: Stats, b: Stats, d: Dimension, duration: real) {
    Score(Enrich(a, duration), d) == Score(Enrich(b, duration), d)
  }

  lemma RoundMonotone(x: real, y: real)
    requires x <= y
    ensures Round(x) <= Round(y)
  {
  }

  lemma Round2Monotone(x: real, y: real)
    requires x <= y
    ensures Round2(x) <= Round2(y)
  {
    RoundMonotone(x * 100.0, y * 100.0);
    Hundredths(Round(x * 100.0), Round(y * 100.0));
  }

  lemma Hundredths(m: int, n: int)
    requires m <= n
    ensures m as real / 100.0 <= n as real / 100.0
  {
  }

  lemma ScoreMonotone(a: Stats, b: Stats, d: Dimension, duration: real)
    requires Exact(a, d, duration) <= Exact(b, d, duration)
    ensures Score(Enrich(a, duration), d) <= Score(Enrich(b, duration), d)
  {
    ScoreIsRounded(a, d, duration);
    ScoreIsRounded(b, d, duration);
    RoundedMonotone(Exact(a, d, duration), Exact(b, d, duration), d);
  }

  /** What a dimension does to a number before sorting by it. */
  function Rounded(x: real, d: Dimension): real {
    match d
    case Slowest => x
    case HighestImpact => Round(x) as real
    case _ => Round2(x)
  }

  lemma ScoreIsRounded(t: Stats, d: Dimension, duration: real)
    ensures Score(Enrich(t, duration), d) == Rounded(Exact(t, d, duration), d)
  {
  }

  lemma RoundedMonotone(x: real, y: real, d: Dimension)
    requires x <= y
    ensures Rounded(x, d) <= Rounded(y, d)
  {
    match d
    case Slowest =>
    case HighestImpact => RoundMonotone(x, y);
    case _ => Round2Monotone(x, y);
  }

  /** The ranking lists transactions by what they really score if and only if, among any that
      round to the same score, the higher ones were given first. */
  lemma ExactlyRankedIff(transactions: seq<Stats>, duration: real, d: Dimension)
    ensures ExactlyRanked(ListedOrder(transactions, t => Enrich(t, duration), d), d, duration)
      <==> TiesRanked(transactions, d, duration)
  {
    var enrich := t => Enrich(t, duration);
    var order := ListedOrder(transactions, enrich, d);
    HigherFirstIsPreorder(d);
    ByScorePreorder(enrich, HigherFirst(d));
    if TiesRanked(transactions, d, duration) {
      forall i, j | 0 <= i < j < |order| ensures Exact(order[i], d, duration) >= Exact(order[j], d, duration) {
        ListedPair(transactions, enrich, duration, d, i, j);
      }
    }
    if ExactlyRanked(order, d, duration) {
      forall p, q | 0 <= p < q < |transactions| && SameScore(transactions[p], transactions[q], d, duration)
        ensures Exact(transactions[p], d, duration) >= Exact(transactions[q], d, duration)
      {
        BeforeAt(transactions, p, q);
        TiedKeepOrder(transactions, By(enrich, HigherFirst(d)), transactions[p], transactions[q]);
        var i, j := BeforeWhere(order, transactions[p], transactions[q]);
      }
    }
  }

  lemma ListedPair(transactions: seq<Stats>, enrich: Stats -> Enriched, duration: real, d: Dimension, i: nat, j: nat)
    requires enrich == (t => Enrich(t, duration)) && TiesRanked(transactions, d, duration)
    requires TotalPreorder(By(enrich, HigherFirst(d)))
    requires i < j < |ListedOrder(transactions, enrich, d)|
    ensures var order := ListedOrder(transactions, enrich, d);
      Exact(order[i], d, duration) >= Exact(order[j], d, duration)
  {
    var le := By(enrich, HigherFirst(d));
    var order := ListedOrder(transactions, enrich, d);
    var x, y := order[i], order[j];
    SortSorts(transactions, le);
    assert le(x, y);
    if SameScore(x, y, d, duration) {
      BeforeAt(order, i, j);
      TiedKeepOrder(transactions, le, x, y);
      var p, q := BeforeWhere(transactions, x, y);
    } else if Exact(x, d, duration) < Exact(y, d, duration) {
      ScoreMonotone(x, y, d, duration);
    }
  }

  /** So two transactions that round to the same score stay in the wrong order if given in it. */
  lemma RoundedTiesKeepOrder(a: Stats, b: Stats, duration: real, d: Dimension)
    requires SameScore(a, b, d, duration) && Exact(a, d, duration) < Exact(b, d, duration)
    ensures ListedOrder([a, b], t => Enrich(t, duration), d) == [a, b]
    ensures !ExactlyRanked(ListedOrder([a, b], t => Enrich(t, duration), d), d, duration)
  {
    var enrich := t => Enrich(t, duration);
    OrderedPairStays(a, b, By(enrich, HigherFirst(d)));
    assert [a, b][0] == a && [a, b][1] == b;
    ExactlyRankedIff([a, b], duration, d);
  }

  /** Such are 1.001 and 1.004 requests a second. */
  lemma SlowerRankedFirst(a: Stats, b: Stats)
    requires a.totalCount == 1001 && b.totalCount == 1004
    ensures Exact(b, HighestThroughput, 1000.0) > Exact(a, HighestThroughput, 1000.0)
    ensures ListedOrder([a, b], t => Enrich(t, 1000.0), HighestThroughput) == [a, b]
  {
    assert Round2(Throughput(a, 1000.0)) == 1.0;
    assert Round2(Throughput(b, 1000.0)) == 1.0;
    RoundedTiesKeepOrder(a, b, 1000.0, HighestThroughput);
  }

  // ----- what an entry shows, outright -----

  /** The fields of an entry are those of its transaction. Its error rate is 100 times the failed
      part, its throughput the count over the duration, both to half a hundredth, and its impact
      the total response time to a half; without requests or duration the rates are 0. */
  lemma EntryTells(t: Stats, duration: real)
    ensures var e := Enrich(t, duration);
      && e.transaction == t.transaction && e.scenario == t.scenario && e.totalCount == t.totalCount
      && e.avgResponseTime == t.avgResponseTime && e.p95ResponseTime == t.p95ResponseTime && e.apdex == t.apdex
      && (exists rate: real :: IsRate(rate, 100.0 * t.failedCount as real, t.totalCount as real)
            && Near(e.errorRatePct, rate, 0.005))
      && (exists rate: real :: IsRate(rate, t.totalCount as real, duration) && Near(e.throughput, rate, 0.005))
      && Near(e.impact as real, t.avgResponseTime * t.totalCount as real, 0.5)
  {
    ErrorRateIs(t);
    ThroughputIs(t, duration);
    Round2Near(ErrorRate(t));
    Round2Near(Throughput(t, duration));
  }

  /** `rate` is `a` per `b`, or 0 where there is no `b`. */
  predicate IsRate(rate: real, a: real, b: real) {
    if b > 0.0 then rate * b == a else rate == 0.0
  }

  predicate Near(x: real, y: real, d: real) {
    y - d < x <= y + d
  }

  lemma Round2Near(x: real)
    ensures Near(Round2(x), x, 0.005)
  {
  }

  lemma Quotient(a: real, b: real)
    requires b > 0.0
    ensures a / b * b == a
  {
  }

  lemma ErrorRateIs(t: Stats)
    ensures IsRate(ErrorRate(t), 100.0 * t.failedCount as real, t.totalCount as real)
  {
    if t.totalCount > 0 {
      var q := t.failedCount as real / t.totalCount as real;
      Quotient(t.failedCount as real, t.totalCount as real);
      assert ErrorRate(t) == q * 100.0;
      assert q * 100.0 * t.totalCount as real == 100.0 * (q * t.totalCount as real);
    }
  }

  lemma ThroughputIs(t: Stats, duration: real)
    ensures IsRate(Throughput(t, duration), t.totalCount as real, duration)
  {
    if duration > 0.0 {
      Quotient(t.totalCount as real, duration);
    }
  }

  /** The entries come by the figure asked for, the highest first. */
  lemma HighestFirst(items: seq<Ranked>, all: seq<Enriched>, d: Dimension, i: nat, j: nat)
    requires Leads(Items(items), all, HigherFirst(d)) && i < j < |items|
    ensures match d
      case Slowest => items[i].item.avgResponseTime >= items[j].item.avgResponseTime
      case HighestThroughput => items[i].item.throughput >= items[j].item.throughput
      case HighestImpact => items[i].item.impact >= items[j].item.impact
      case HighestErrorRate => items[i].item.errorRatePct >= items[j].item.errorRatePct
  {
    assert HigherFirst(d)(Items(items)[i], Items(items)[j]);
  }
}
