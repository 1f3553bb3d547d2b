/** The script that merges duplicate dashboards and benchmarks: two tables, two tables of
    references into them, and one run of the script as a change of all four. */
module Dedup {
  import opened Collections
  import opened Duplicates

  datatype Dashboard = Dashboard(sut: Id, environment: string, instance: Option<Id>, uid: Option<string>,
                                 title: string, createdAt: int)

  datatype DashboardKey = DashboardKey(sut: Id, environment: string, instance: Option<Id>, uid: Option<string>,
                                       title: string)

  datatype Benchmark = Benchmark(sut: Id, environment: string, workload: string, dashboard: Option<Id>,
                                 check: Option<Id>, createdAt: int)

  datatype BenchmarkKey = BenchmarkKey(sut: Id, environment: string, workload: string, dashboard: Option<Id>,
                                       check: Option<Id>)

  /** `suts` names the systems under test; `compareConfigs` and `testRuns` hold each row's
      reference to a dashboard and to a benchmark. */
  datatype Db = Db(suts: map<Id, string>, dashboards: map<Id, Dashboard>, benchmarks: map<Id, Benchmark>,
                   compareConfigs: map<Id, Option<Id>>, testRuns: map<Id, Option<Id>>)

  /** INNER JOIN systems_under_test, restricted by --sut unless that is missing or empty. */
  predicate Selected(db: Db, filter: string, sut: Id) {
    sut in db.suts && (filter == "" || db.suts[sut] == filter)
  }

  function KeyOfDashboard(d: Dashboard): DashboardKey {
    DashboardKey(d.sut, d.environment, d.instance, d.uid, d.title)
  }

  function KeyOfBenchmark(b: Benchmark): BenchmarkKey {
    BenchmarkKey(b.sut, b.environment, b.workload, b.dashboard, b.check)
  }

  function DashboardRows(db: Db, filter: string): map<Id, Row<DashboardKey>> {
    map id | id in db.dashboards && Selected(db, filter, db.dashboards[id].sut) ::
      Row(KeyOfDashboard(db.dashboards[id]), db.dashboards[id].createdAt)
  }

  function BenchmarkRows(db: Db, filter: string): map<Id, Row<BenchmarkKey>> {
    map id | id in db.benchmarks && Selected(db, filter, db.benchmarks[id].sut) ::
      Row(KeyOfBenchmark(db.benchmarks[id]), db.benchmarks[id].createdAt)
  }

  // ----- one run of the script -----

  function MergeDashboards(db: Db, groups: seq<seq<Id>>): Db
    requires NonEmpty(groups)
  {
    db.(dashboards := db.dashboards - Deleted(groups),
        benchmarks := map id | id in db.benchmarks ::
          db.benchmarks[id].(dashboard := RedirectOption(groups, db.benchmarks[id].dashboard)),
        compareConfigs := map id | id in db.compareConfigs :: RedirectOption(groups, db.compareConfigs[id]))
  }

  function MergeBenchmarks(db: Db, groups: seq<seq<Id>>): Db
    requires NonEmpty(groups)
  {
    db.(benchmarks := db.benchmarks - Deleted(groups),
        testRuns := map id | id in db.testRuns :: RedirectOption(groups, db.testRuns[id]))
  }

  /** Both listings are taken from the database as the run finds it. */
  ghost predicate Listings(db: Db, filter: string, dg: seq<seq<Id>>, bg: seq<seq<Id>>) {
    Listing(DashboardRows(db, filter), dg) && Listing(BenchmarkRows(db, filter), bg)
  }

  function RunOnce(db: Db, dg: seq<seq<Id>>, bg: seq<seq<Id>>): Db
    requires NonEmpty(dg) && NonEmpty(bg)
  {
    MergeBenchmarks(MergeDashboards(db, dg), bg)
  }

  datatype Totals = Totals(found: int, toDelete: int, toKeep: int)

  function TotalsOf(groups: seq<seq<Id>>): Totals {
    Totals(Surplus(groups) + |groups|, Surplus(groups), |groups|)
  }

  // ----- the script itself -----

  class Database {
    var suts: map<Id, string>
    var dashboards: map<Id, Dashboard>
    var benchmarks: map<Id, Benchmark>
    var compareConfigs: map<Id, Option<Id>>
    var testRuns: map<Id, Option<Id>>

    constructor (db: Db)
      ensures Contents() == db
    {
      suts, dashboards, benchmarks := db.suts, db.dashboards, db.benchmarks;
      compareConfigs, testRuns := db.compareConfigs, db.testRuns;
    }

    function Contents(): Db
      reads this
    {
      Db(suts, dashboards, benchmarks, compareConfigs, testRuns)
    }

    method DeduplicateApplicationDashboards(duplicates: seq<seq<Id>>, dryRun: bool) returns (totals: Totals)
      requires NonEmpty(duplicates)
      modifies this
      ensures Contents() == if dryRun then old(Contents()) else MergeDashboards(old(Contents()), duplicates)
      ensures totals == TotalsOf(duplicates)
    {
      var found, toDelete, toKeep := 0, 0, 0;
      ghost var start := Contents();
      NoGroupsNoChange(start);
      for i := 0 to |duplicates|
        invariant Contents() == if dryRun then start else MergeDashboards(start, duplicates[..i])
        invariant Totals(found, toDelete, toKeep) == TotalsOf(duplicates[..i])
      {
        var ids := duplicates[i];
        assert duplicates[..i + 1][..i] == duplicates[..i];
        found, toKeep, toDelete := found + |ids|, toKeep + 1, toDelete + |ids| - 1;
        if !dryRun {
          MergeOneMoreDashboardGroup(start, duplicates[..i + 1]);
          MergeDashboardGroup(ids[0], ids[1..]);
        }
      }
      assert duplicates[..|duplicates|] == duplicates;
      return Totals(found, toDelete, toKeep);
    }

    /** The statements of one dashboard group: repoint both referencing tables, id by id,
        then delete. */
    method MergeDashboardGroup(keepId: Id, deleteIds: seq<Id>)
      modifies this
      ensures Contents() == old(Contents()).(
        dashboards := old(dashboards) - Elements(deleteIds),
        benchmarks := RepointBenchmarks(old(benchmarks), deleteIds, keepId),
        compareConfigs := RepointAll(old(compareConfigs), deleteIds, keepId))
    {
      UpdateBenchmarkReferences(keepId, deleteIds);
      UpdateCompareConfigReferences(keepId, deleteIds);
      dashboards := dashboards - Elements(deleteIds);
    }

    method UpdateBenchmarkReferences(keepId: Id, deleteIds: seq<Id>)
      modifies this`benchmarks
      ensures benchmarks == RepointBenchmarks(old(benchmarks), deleteIds, keepId)
    {
      RepointOneMore(map[], benchmarks, [], keepId, keepId);
      for j := 0 to |deleteIds|
        invariant benchmarks == RepointBenchmarks(old(benchmarks), deleteIds[..j], keepId)
      {
        assert deleteIds[..j + 1] == deleteIds[..j] + [deleteIds[j]];
        RepointOneMore(map[], old(benchmarks), deleteIds[..j], deleteIds[j], keepId);
        benchmarks := RepointBenchmarks(benchmarks, [deleteIds[j]], keepId);
      }
      assert deleteIds[..|deleteIds|] == deleteIds;
    }

    method UpdateCompareConfigReferences(keepId: Id, deleteIds: seq<Id>)
      modifies this`compareConfigs
      ensures compareConfigs == RepointAll(old(compareConfigs), deleteIds, keepId)
    {
      RepointOneMore(compareConfigs, map[], [], keepId, keepId);
      for j := 0 to |deleteIds|
        invariant compareConfigs == RepointAll(old(compareConfigs), deleteIds[..j], keepId)
      {
        assert deleteIds[..j + 1] == deleteIds[..j] + [deleteIds[j]];
        RepointOneMore(old(compareConfigs), map[], deleteIds[..j], deleteIds[j], keepId);
        compareConfigs := RepointAll(compareConfigs, [deleteIds[j]], keepId);
      }
      assert deleteIds[..|deleteIds|] == deleteIds;
    }

    method DeduplicateBenchmarks(duplicates: seq<seq<Id>>, dryRun: bool) returns (totals: Totals)
      requires NonEmpty(duplicates)
      modifies this
      ensures Contents() == if dryRun then old(Contents()) else MergeBenchmarks(old(Contents()), duplicates)
      ensures totals == TotalsOf(duplicates)
    {
      var found, toDelete, toKeep := 0, 0, 0;
      ghost var start := Contents();
      NoGroupsNoChange(start);
      for i := 0 to |duplicates|
        invariant Contents() == if dryRun then start else MergeBenchmarks(start, duplicates[..i])
        invariant Totals(found, toDelete, toKeep) == TotalsOf(duplicates[..i])
      {
        var ids := duplicates[i];
        assert duplicates[..i + 1][..i] == duplicates[..i];
        found, toKeep, toDelete := found + |ids|, toKeep + 1, toDelete + |ids| - 1;
        if !dryRun {
          MergeOneMoreBenchmarkGroup(start, duplicates[..i + 1]);
          MergeBenchmarkGroup(ids[0], ids[1..]);
        }
      }
      assert duplicates[..|duplicates|] == duplicates;
      return Totals(found, toDelete, toKeep);
    }

    /** The statements of one benchmark group. */
    method MergeBenchmarkGroup(keepId: Id, deleteIds: seq<Id>)
      modifies this
      ensures Contents() == old(Contents()).(
        benchmarks := old(benchmarks) - Elements(deleteIds),
        testRuns := RepointAll(old(testRuns), deleteIds, keepId))
    {
      RepointOneMore(testRuns, benchmarks, [], keepId, keepId);
      for j := 0 to |deleteIds|
        invariant Contents() == old(Contents()).(testRuns := RepointAll(old(testRuns), deleteIds[..j], keepId))
      {
        assert deleteIds[..j + 1] == deleteIds[..j] + [deleteIds[j]];
        RepointOneMore(old(testRuns), map[], deleteIds[..j], deleteIds[j], keepId);
        testRuns := RepointAll(testRuns, [deleteIds[j]], keepId);
      }
      benchmarks := benchmarks - Elements(deleteIds);
    }

    /** `main`, given what the two duplicate queries answered. */
    method Execute(filter: string, dryRun: bool, dg: seq<seq<Id>>, bg: seq<seq<Id>>) returns (d: Totals, b: Totals)
      requires Listings(Contents(), filter, dg, bg)
      modifies this
      ensures NonEmpty(dg) && NonEmpty(bg)
      ensures Contents() == if dryRun then old(Contents()) else RunOnce(old(Contents()), dg, bg)
      ensures d == TotalsOf(dg) && b == TotalsOf(bg)
    {
      d, b := Totals(0, 0, 0), Totals(0, 0, 0);
      ghost var start := Contents();
      NoGroupsNoChange(start);
      if dg == [] && bg == [] {
        return;
      }
      if dg != [] {
        d := DeduplicateApplicationDashboards(dg, dryRun);
      }
      NoGroupsNoChange(Contents());
      if bg != [] {
        b := DeduplicateBenchmarks(bg, dryRun);
      }
    }
  }

  /** UPDATE ... SET reference = to WHERE reference = ANY(from). */
  function Moved(reference: Option<Id>, from: seq<Id>, to: Id): Option<Id> {
    if reference.Some? && reference.value in from then Some(to) else reference
  }

  function RepointAll(table: map<Id, Option<Id>>, from: seq<Id>, to: Id): map<Id, Option<Id>> {
    map id | id in table :: Moved(table[id], from, to)
  }

  function RepointBenchmarks(table: map<Id, Benchmark>, from: seq<Id>, to: Id): map<Id, Benchmark> {
    map id | id in table :: table[id].(dashboard := Moved(table[id].dashboard, from, to))
  }

  /** One UPDATE per id comes to one UPDATE for all of them. */
  lemma RepointOneMore(references: map<Id, Option<Id>>, table: map<Id, Benchmark>, from: seq<Id>, id: Id, to: Id)
    ensures RepointAll(RepointAll(references, from, to), [id], to) == RepointAll(references, from + [id], to)
    ensures RepointBenchmarks(RepointBenchmarks(table, from, to), [id], to) == RepointBenchmarks(table, from + [id], to)
    ensures RepointAll(references, [], to) == references && RepointBenchmarks(table, [], to) == table
  {
    assert RepointAll(references, [], to) == references;
    assert RepointBenchmarks(table, [], to) == table;
    assert RepointAll(RepointAll(references, from, to), [id], to) == RepointAll(references, from + [id], to);
    assert RepointBenchmarks(RepointBenchmarks(table, from, to), [id], to) == RepointBenchmarks(table, from + [id], to);
  }

  lemma NoGroupsNoChange(db: Db)
    ensures MergeDashboards(db, []) == db && MergeBenchmarks(db, []) == db
  {
  }

  lemma RedirectOneMore(groups: seq<seq<Id>>, reference: Option<Id>)
    requires NonEmpty(groups) && groups != []
    ensures NonEmpty(groups[..|groups| - 1])
    ensures var g := groups[|groups| - 1];
      && |g| > 0
      && RedirectOption(groups, reference) == Moved(RedirectOption(groups[..|groups| - 1], reference), g[1..], g[0])
  {
  }

  lemma MergeOneMoreDashboardGroup(db: Db, groups: seq<seq<Id>>)
    requires NonEmpty(groups) && groups != []
    ensures NonEmpty(groups[..|groups| - 1])
    ensures var g, before := groups[|groups| - 1], MergeDashboards(db, groups[..|groups| - 1]);
      && |g| > 0
      && MergeDashboards(db, groups) == before.(
           dashboards := before.dashboards - Elements(g[1..]),
           benchmarks := RepointBenchmarks(before.benchmarks, g[1..], g[0]),
           compareConfigs := RepointAll(before.compareConfigs, g[1..], g[0]))
  {
    forall x: Option<Id> {
      RedirectOneMore(groups, x);
    }
    var g, before := groups[|groups| - 1], MergeDashboards(db, groups[..|groups| - 1]);
    assert MergeDashboards(db, groups).dashboards == before.dashboards - Elements(g[1..]);
    assert MergeDashboards(db, groups).benchmarks == RepointBenchmarks(before.benchmarks, g[1..], g[0]);
    assert MergeDashboards(db, groups).compareConfigs == RepointAll(before.compareConfigs, g[1..], g[0]);
  }

  lemma MergeOneMoreBenchmarkGroup(db: Db, groups: seq<seq<Id>>)
    requires NonEmpty(groups) && groups != []
    ensures NonEmpty(groups[..|groups| - 1])
    ensures var g, before := groups[|groups| - 1], MergeBenchmarks(db, groups[..|groups| - 1]);
      && |g| > 0
      && MergeBenchmarks(db, groups) == before.(
           benchmarks := before.benchmarks - Elements(g[1..]),
           testRuns := RepointAll(before.testRuns, g[1..], g[0]))
  {
  }
}
