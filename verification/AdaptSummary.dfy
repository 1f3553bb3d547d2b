/** The summary of detected regressions: grouped by dashboard, with causal chains and hypotheses. */
module AdaptSummary {
  import opened Collections
  import opened OrderedMap
  import opened Grouping
  import opened Sorting

  datatype Metric = Metric(name: string, dashboard: string, panel: string, changePct: Option<real>)

  datatype TopMetric = TopMetric(name: string, changePct: Option<real>, panel: string)

  datatype SourceType = PerformanceTest | Infrastructure | JvmMonitoring | ConnectionPool | OtherSource(name: string)

  datatype DashboardGroup =
    DashboardGroup(dashboard: string, sourceType: SourceType, regressionCount: nat, topMetrics: seq<TopMetric>)

  datatype CausalChain = KernelToGc | ContainerSaturation | PoolSaturation | GcPressure

  datatype Summary = Summary(
    totalRegressions: nat, totalImprovements: nat, totalDifferences: nat,
    byDashboard: seq<DashboardGroup>, causalChains: seq<CausalChain>, hypotheses: seq<string>)

  // ----- grouping -----

  /** `r.dashboard || 'Unknown'`. */
  function DashboardOf(m: Metric): string {
    if m.dashboard == "" then "Unknown" else m.dashboard
  }

  function Magnitude(m: Metric): real {
    match m.changePct
    case None => 0.0
    case Some(pct) => if pct < 0.0 then -pct else pct
  }

  function Shown(m: Metric): TopMetric {
    TopMetric(m.name, m.changePct, m.panel)
  }

  function LargestChangeFirst(): (Metric, Metric) -> bool {
    (a: Metric, b: Metric) => Magnitude(b) <= Magnitude(a)
  }

  function MostRegressionsFirst(): (DashboardGroup, DashboardGroup) -> bool {
    (a: DashboardGroup, b: DashboardGroup) => b.regressionCount <= a.regressionCount
  }

  function ToGroup(p: Pair<string, seq<Metric>>, sourceType: string -> SourceType): DashboardGroup {
    DashboardGroup(p.key, sourceType(p.key), |p.value|,
                   Map(Prefix(Sort(p.value, LargestChangeFirst()), 5), Shown))
  }

  function SumOfCounts(groups: seq<DashboardGroup>): nat {
    if groups == [] then 0 else groups[0].regressionCount + SumOfCounts(groups[1..])
  }

  /** What a group reports about the regressions of its dashboard. */
  ghost predicate Reports(g: DashboardGroup, regressions: seq<Metric>) {
    var members := Members(regressions, DashboardOf, g.dashboard);
    && g.regressionCount == |members| > 0
    && exists top ::
         && |top| == (if |members| < 5 then |members| else 5)
         && Leads(top, members, LargestChangeFirst())
         && g.topMetrics == Map(top, Shown)
  }

  /** One group for each dashboard that has regressions, largest first, and nothing lost. */
  ghost predicate GroupsRight(groups: seq<DashboardGroup>, regressions: seq<Metric>) {
    && (forall g <- groups :: Reports(g, regressions))
    && Dashboards(groups) == KeysOf(regressions, DashboardOf) && |groups| == |Dashboards(groups)|
    && Sorted(groups, MostRegressionsFirst())
    && SumOfCounts(groups) == |regressions|
  }

  ghost function Dashboards(groups: seq<DashboardGroup>): set<string> {
    set g <- groups :: g.dashboard
  }

  function GroupsOf(grouped: Groups<Metric>, sourceType: string -> SourceType): seq<DashboardGroup> {
    Sort(Map(grouped, p => ToGroup(p, sourceType)), MostRegressionsFirst())
  }

  lemma GroupsAreRight(grouped: Groups<Metric>, regressions: seq<Metric>, sourceType: string -> SourceType)
    requires IsGrouping(grouped, regressions, DashboardOf) && TotalSize(grouped) == |regressions|
    ensures GroupsRight(GroupsOf(grouped, sourceType), regressions)
  {
    var toGroup := p => ToGroup(p, sourceType);
    var listed := Map(grouped, toGroup);
    var groups := Sort(listed, MostRegressionsFirst());
    SortSorts(listed, MostRegressionsFirst());
    SameElements(listed);
    ListedRight(grouped, listed, regressions, sourceType);
    SumOfSorted(listed);
    SumOfListed(grouped, sourceType);
    assert Dashboards(groups) == Dashboards(listed);
  }

  lemma SameElements(listed: seq<DashboardGroup>)
    ensures var groups := Sort(listed, MostRegressionsFirst());
      |groups| == |listed| && forall g :: g in groups <==> g in listed
  {
    var groups := Sort(listed, MostRegressionsFirst());
    SortKeeps(listed, MostRegressionsFirst());
    forall g ensures g in groups <==> g in listed {
      assert g in multiset(groups) <==> g in multiset(listed);
    }
  }

  lemma ListedRight(grouped: Groups<Metric>, listed: seq<DashboardGroup>, regressions: seq<Metric>,
                    sourceType: string -> SourceType)
    requires IsGrouping(grouped, regressions, DashboardOf)
    requires listed == Map(grouped, p => ToGroup(p, sourceType))
    ensures forall g <- listed :: Reports(g, regressions)
    ensures Dashboards(listed) == KeysOf(regressions, DashboardOf) && |listed| == |Dashboards(listed)|
  {
    forall g <- listed ensures Reports(g, regressions) {
      var i :| 0 <= i < |listed| && listed[i] == g;
      GroupAt(grouped, regressions, DashboardOf, i);
      ToGroupReports(grouped[i], regressions, sourceType);
    }
    ListedDashboards(grouped, sourceType);
    GroupKeys(grouped, regressions, DashboardOf);
    GroupCount(grouped, regressions, DashboardOf);
  }

  lemma ListedDashboards(grouped: Groups<Metric>, sourceType: string -> SourceType)
    ensures Dashboards(Map(grouped, p => ToGroup(p, sourceType))) == set p <- grouped :: p.key
  {
  }

  lemma ToGroupReports(p: Pair<string, seq<Metric>>, regressions: seq<Metric>, sourceType: string -> SourceType)
    requires p.value == Members(regressions, DashboardOf, p.key) != []
    ensures Reports(ToGroup(p, sourceType), regressions)
  {
    PrefixLeads(p.value, LargestChangeFirst(), 5);
    var top := Prefix(Sort(p.value, LargestChangeFirst()), 5);
    assert ToGroup(p, sourceType).topMetrics == Map(top, Shown);
  }

  lemma {:induction false} SumOfInserted(g: DashboardGroup, groups: seq<DashboardGroup>)
    ensures SumOfCounts(Insert(g, groups, MostRegressionsFirst())) == g.regressionCount + SumOfCounts(groups)
  {
    if groups != [] && !MostRegressionsFirst()(g, groups[0]) {
      SumOfInserted(g, groups[1..]);
    }
  }

  lemma {:induction false} SumOfSorted(groups: seq<DashboardGroup>)
    ensures SumOfCounts(Sort(groups, MostRegressionsFirst())) == SumOfCounts(groups)
  {
    if groups != [] {
      SumOfSorted(groups[1..]);
      SumOfInserted(groups[0], Sort(groups[1..], MostRegressionsFirst()));
    }
  }

  lemma {:induction false} SumOfListed(grouped: Groups<Metric>, sourceType: string -> SourceType)
    ensures SumOfCounts(Map(grouped, p => ToGroup(p, sourceType))) == TotalSize(grouped)
  {
    if grouped != [] {
      SumOfListed(grouped[1..], sourceType);
      TotalFromFront(grouped);
    }
  }

  // ----- causal chains -----

  function SourceTypes(groups: seq<DashboardGroup>): set<SourceType> {
    set g <- groups :: g.sourceType
  }

  function Sources(c: CausalChain): set<SourceType> {
    match c
    case KernelToGc => {PerformanceTest, Infrastructure, JvmMonitoring}
    case ContainerSaturation => {PerformanceTest, Infrastructure}
    case PoolSaturation => {PerformanceTest, ConnectionPool}
    case GcPressure => {PerformanceTest, JvmMonitoring}
  }

  function ChainText(c: CausalChain): string {
    match c
    case KernelToGc =>
      "Causal chain: Compute regressions (perf test) -> CPU spike (container) -> GC pressure (JVM) [High confidence]"
    case ContainerSaturation =>
      "Causal chain: Latency regression (perf test) -> container resource saturation [High confidence]"
    case PoolSaturation =>
      "Causal chain: Latency regression (perf test) -> connection pool saturation [High confidence]"
    case GcPressure =>
      "Causal chain: Latency regression (perf test) -> GC pressure (JVM) [Medium confidence]"
  }

  /** Everything on the chain regressed; bare garbage-collection pressure is blamed only when no
      container regressed with it. */
  ghost predicate Explains(c: CausalChain, types: set<SourceType>) {
    Sources(c) <= types && (c == GcPressure ==> Infrastructure !in types)
  }

  /** Where a chain stands in the report. */
  function Rank(c: CausalChain): nat {
    match c
    case KernelToGc => 0
    case ContainerSaturation => 1
    case PoolSaturation => 2
    case GcPressure => 3
  }

  ghost predicate InRankOrder(chains: seq<CausalChain>) {
    forall i, j :: 0 <= i < j < |chains| ==> Rank(chains[i]) < Rank(chains[j])
  }

  method DetectCausalChains(groups: seq<DashboardGroup>) returns (chains: seq<CausalChain>)
    ensures forall c :: c in chains <==> Explains(c, SourceTypes(groups))
    ensures InRankOrder(chains)
  {
    var sourceTypes := SourceTypes(groups);
    chains := [];
    var hasPerfTest, hasInfra := PerformanceTest in sourceTypes, Infrastructure in sourceTypes;
    var hasJvm, hasConnPool := JvmMonitoring in sourceTypes, ConnectionPool in sourceTypes;
    if hasPerfTest && hasInfra && hasJvm {
      chains := chains + [KernelToGc];
    }
    if hasPerfTest && hasInfra {
      chains := chains + [ContainerSaturation];
    }
    if hasPerfTest && hasConnPool {
      chains := chains + [PoolSaturation];
    }
    if hasPerfTest && hasJvm && !hasInfra {
      chains := chains + [GcPressure];
    }
  }

  // ----- hypotheses -----

  ghost predicate Distinct<T>(s: seq<T>) {
    forall i, j :: 0 <= i < j < |s| ==> s[i] != s[j]
  }

  /** `Set.add`, on the elements in insertion order. */
  function Add(s: seq<string>, x: string): seq<string> {
    if x in s then s else s + [x]
  }

  function Itself(x: string): string {
    x
  }

  /** `hypotheses` lists the strings of `all` once each, in the order of first mention. */
  ghost predicate FirstMentions(hypotheses: seq<string>, all: seq<string>) {
    && (forall h :: h in hypotheses <==> h in all)
    && forall i, j :: 0 <= i < j < |hypotheses|
         ==> FirstAt(all, Itself, hypotheses[i]) < FirstAt(all, Itself, hypotheses[j])
  }

  lemma AddMention(hypotheses: seq<string>, all: seq<string>, h: string)
    requires FirstMentions(hypotheses, all)
    ensures FirstMentions(Add(hypotheses, h), all + [h])
  {
    forall x {
      FirstAtStays(all, h, x);
    }
    forall i | 0 <= i < |hypotheses| ensures FirstAt(all, Itself, hypotheses[i]) < |all| {
      FirstAtStays(all, h, hypotheses[i]);
      assert hypotheses[i] in hypotheses;
    }
  }

  lemma FirstAtStays(all: seq<string>, h: string, x: string)
    ensures x in all <==> FirstAt(all, Itself, x) < |all|
    ensures FirstAt(all + [h], Itself, x)
      == if x in all then FirstAt(all, Itself, x) else if x == h then |all| else |all| + 1
  {
    assert (all + [h])[..|all|] == all;
    MembersBelong(all, Itself, x);
  }

  function Collected(all: seq<string>): seq<string> {
    if all == [] then [] else Add(Collected(all[..|all| - 1]), all[|all| - 1])
  }

  lemma CollectedOneMore(all: seq<string>, x: string)
    ensures Collected(all + [x]) == Add(Collected(all), x)
  {
    assert (all + [x])[..|all|] == all;
  }

  lemma {:induction false} CollectedOnce(all: seq<string>)
    ensures FirstMentions(Collected(all), all)
  {
    if all != [] {
      CollectedOnce(all[..|all| - 1]);
      AddMention(Collected(all[..|all| - 1]), all[..|all| - 1], all[|all| - 1]);
      assert all[..|all| - 1] + [all[|all| - 1]] == all;
    }
  }

  /** `for (const x of items) hypothesisSet.add(text(x))`, after `earlier` was collected. */
  method CollectAll<T>(seen: seq<string>, ghost earlier: seq<string>, items: seq<T>, text: T -> string)
    returns (hypotheses: seq<string>)
    requires seen == Collected(earlier)
    ensures hypotheses == Collected(earlier + Map(items, text))
  {
    hypotheses := seen;
    ghost var texts := Map(items, text);
    assert earlier + texts[..0] == earlier;
    for i := 0 to |items|
      invariant hypotheses == Collected(earlier + texts[..i])
    {
      CollectedOneMore(earlier + texts[..i], text(items[i]));
      assert earlier + texts[..i + 1] == earlier + texts[..i] + [text(items[i])];
      hypotheses := Add(hypotheses, text(items[i]));
    }
    assert texts[..|items|] == texts;
  }

  method CollectHypotheses(regressions: seq<Metric>, chains: seq<CausalChain>, hypothesis: Metric -> string)
    returns (hypotheses: seq<string>)
    ensures FirstMentions(hypotheses, Map(regressions, hypothesis) + Map(chains, ChainText))
  {
    hypotheses := CollectAll([], [], regressions, hypothesis);
    assert [] + Map(regressions, hypothesis) == Map(regressions, hypothesis);
    hypotheses := CollectAll(hypotheses, Map(regressions, hypothesis), chains, ChainText);
    CollectedOnce(Map(regressions, hypothesis) + Map(chains, ChainText));
  }

  // ----- the summary -----

  function OrEmpty<T>(list: Option<seq<T>>): seq<T> {
    if list.Some? then list.value else []
  }

  method BuildAdaptSummary(regressions: Option<seq<Metric>>, improvements: Option<seq<Metric>>,
                           differences: Option<seq<Metric>>,
                           sourceType: string -> SourceType, hypothesis: Metric -> string)
    returns (r: Summary)
    ensures r.totalRegressions == |OrEmpty(regressions)| == SumOfCounts(r.byDashboard)
    ensures r.totalImprovements == |OrEmpty(improvements)| && r.totalDifferences == |OrEmpty(differences)|
    ensures r.byDashboard == GroupsOf(Grouped(OrEmpty(regressions), DashboardOf), sourceType)
    ensures GroupsRight(r.byDashboard, OrEmpty(regressions))
    ensures forall g <- r.byDashboard :: g.sourceType == sourceType(g.dashboard)
    ensures forall c :: c in r.causalChains <==> Explains(c, SourceTypes(r.byDashboard))
    ensures InRankOrder(r.causalChains)
    ensures FirstMentions(r.hypotheses, Map(OrEmpty(regressions), hypothesis) + Map(r.causalChains, ChainText))
  {
    var found := OrEmpty(regressions);
    var grouped := GroupBy(found, DashboardOf);
    var byDashboard := GroupsOf(grouped, sourceType);
    GroupsAreRight(grouped, found, sourceType);
    GroupTypes(grouped, sourceType);
    var causalChains := DetectCausalChains(byDashboard);
    var hypotheses := CollectHypotheses(found, causalChains, hypothesis);
    r := Summary(|found|, |OrEmpty(improvements)|, |OrEmpty(differences)|, byDashboard, causalChains, hypotheses);
  }

  lemma GroupTypes(grouped: Groups<Metric>, sourceType: string -> SourceType)
    ensures forall g <- GroupsOf(grouped, sourceType) :: g.sourceType == sourceType(g.dashboard)
  {
    SameElements(Map(grouped, p => ToGroup(p, sourceType)));
  }

  /** No hypothesis is repeated, every regression and every chain has its own, and there is no other. */
  lemma HypothesesCover(hypotheses: seq<string>, regressions: seq<Metric>, chains: seq<CausalChain>,
                        hypothesis: Metric -> string)
    requires FirstMentions(hypotheses, Map(regressions, hypothesis) + Map(chains, ChainText))
    ensures Distinct(hypotheses)
    ensures forall m <- regressions :: hypothesis(m) in hypotheses
    ensures forall c <- chains :: ChainText(c) in hypotheses
    ensures forall h <- hypotheses ::
      (exists m <- regressions :: h == hypothesis(m)) || (exists c <- chains :: h == ChainText(c))
  {
  }

  // ----- what the groups say, outright -----

  /** The regression is reported under this dashboard: its own, or "Unknown" if it names none. */
  predicate Under(m: Metric, dashboard: string) {
    (m.dashboard == dashboard && dashboard != "") || (m.dashboard == "" && dashboard == "Unknown")
  }

  /** The size of a change, none counting as 0. */
  function SizeOf(change: Option<real>): real {
    match change
    case None => 0.0
    case Some(pct) => Larger(pct, 0.0 - pct)
  }

  function Larger(a: real, b: real): real {
    if a >= b then a else b
  }

  /** `top` are the regressions shown, field by field; they come by size of change, and none of
      those left out changed more. */
  ghost predicate ShowsLargest(g: DashboardGroup, top: seq<Metric>, omitted: seq<Metric>) {
    && |g.topMetrics| == |top|
    && (forall i :: 0 <= i < |top| ==> g.topMetrics[i] == TopMetric(top[i].name, top[i].changePct, top[i].panel))
    && (forall i, j :: 0 <= i < j < |top| ==> SizeOf(top[i].changePct) >= SizeOf(top[j].changePct))
    && (forall a <- top, b <- omitted :: SizeOf(a.changePct) >= SizeOf(b.changePct))
  }

  lemma UnderIff(m: Metric, dashboard: string)
    ensures DashboardOf(m) == dashboard <==> Under(m, dashboard)
  {
  }

  lemma MagnitudeIs(m: Metric)
    ensures Magnitude(m) == SizeOf(m.changePct)
  {
  }

  /** A group counts the regressions under its dashboard. */
  lemma GroupCounts(g: DashboardGroup, regressions: seq<Metric>)
    requires Reports(g, regressions)
    ensures g.regressionCount == |set i | 0 <= i < |regressions| && Under(regressions[i], g.dashboard)|
  {
    MembersCount(regressions, DashboardOf, g.dashboard);
    SameIndices(regressions, g.dashboard);
  }

  lemma SameIndices(regressions: seq<Metric>, dashboard: string)
    ensures Where(regressions, DashboardOf, dashboard)
      == set i | 0 <= i < |regressions| && Under(regressions[i], dashboard)
  {
    forall i | 0 <= i < |regressions|
      ensures DashboardOf(regressions[i]) == dashboard <==> Under(regressions[i], dashboard)
    {
      UnderIff(regressions[i], dashboard);
    }
  }

  /** It shows the largest five of them, or all if there are fewer. */
  lemma GroupShows(g: DashboardGroup, regressions: seq<Metric>) returns (top: seq<Metric>, omitted: seq<Metric>)
    requires Reports(g, regressions)
    ensures ShowsLargest(g, top, omitted) && |top| == (if g.regressionCount < 5 then g.regressionCount else 5)
    ensures multiset(top) + multiset(omitted) == multiset(Members(regressions, DashboardOf, g.dashboard))
  {
    var members := Members(regressions, DashboardOf, g.dashboard);
    top :| && |top| == (if |members| < 5 then |members| else 5)
           && Leads(top, members, LargestChangeFirst()) && g.topMetrics == Map(top, Shown);
    omitted :| Dominates(top, omitted, members, LargestChangeFirst());
    LeadingIsLargest(g, top, omitted, members);
  }

  lemma LargerFirst(a: Metric, b: Metric)
    requires LargestChangeFirst()(a, b)
    ensures SizeOf(a.changePct) >= SizeOf(b.changePct)
  {
    MagnitudeIs(a);
    MagnitudeIs(b);
  }

  lemma LeadingIsLargest(g: DashboardGroup, top: seq<Metric>, omitted: seq<Metric>, members: seq<Metric>)
    requires Dominates(top, omitted, members, LargestChangeFirst()) && g.topMetrics == Map(top, Shown)
    ensures ShowsLargest(g, top, omitted)
  {
    forall i, j | 0 <= i < j < |top| ensures SizeOf(top[i].changePct) >= SizeOf(top[j].changePct) {
      LargerFirst(top[i], top[j]);
    }
    forall a <- top, b <- omitted ensures SizeOf(a.changePct) >= SizeOf(b.changePct) {
      LargerFirst(a, b);
    }
  }

  /** The groups come by their counts, the largest first. */
  lemma LargestGroupFirst(groups: seq<DashboardGroup>, regressions: seq<Metric>, i: nat, j: nat)
    requires GroupsRight(groups, regressions) && i < j < |groups|
    ensures groups[i].regressionCount >= groups[j].regressionCount
  {
    assert MostRegressionsFirst()(groups[i], groups[j]);
  }
}
