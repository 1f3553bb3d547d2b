/** What runs of the deduplication script achieve, whatever the database and however the
    queries break ties. A run is one in which every statement succeeds. */
module DedupTheorems {
  import opened Collections
  import opened Duplicates
  import opened Dedup

  // ----- rows a run leaves -----

  lemma DashboardRowsAfter(db: Db, filter: string, dg: seq<seq<Id>>, bg: seq<seq<Id>>)
    requires NonEmpty(dg) && NonEmpty(bg)
    ensures DashboardRows(RunOnce(db, dg, bg), filter) == DashboardRows(db, filter) - Deleted(dg)
  {
  }

  lemma BenchmarkRowsAfter(db: Db, filter: string, bg: seq<seq<Id>>)
    requires NonEmpty(bg)
    ensures BenchmarkRows(MergeBenchmarks(db, bg), filter) == BenchmarkRows(db, filter) - Deleted(bg)
  {
  }

  /** One executed run leaves no two selected dashboards with one natural key. */
  lemma DashboardsUniqueAfterOneRun(db: Db, filter: string, dg: seq<seq<Id>>, bg: seq<seq<Id>>)
    requires Listings(db, filter, dg, bg)
    ensures NonEmpty(dg) && NonEmpty(bg) && UniqueKeys(DashboardRows(RunOnce(db, dg, bg), filter))
  {
    MergedKeysUnique(DashboardRows(db, filter), dg);
    MergedKeysUnique(BenchmarkRows(db, filter), bg);
    DashboardRowsAfter(db, filter, dg, bg);
  }

  /** From any database, two executed runs whose statements all succeed leave no duplicates at
      all, so that a third one is offered empty listings and changes nothing. */
  lemma TwoRunsReachFixedPoint(db0: Db, filter: string, dg0: seq<seq<Id>>, bg0: seq<seq<Id>>,
                               dg1: seq<seq<Id>>, bg1: seq<seq<Id>>, dg2: seq<seq<Id>>, bg2: seq<seq<Id>>)
    requires Listings(db0, filter, dg0, bg0)
    ensures NonEmpty(dg0) && NonEmpty(bg0)
    ensures var db1 := RunOnce(db0, dg0, bg0);
      Listings(db1, filter, dg1, bg1) ==>
        && NonEmpty(dg1) && NonEmpty(bg1)
        && var db2 := RunOnce(db1, dg1, bg1);
          && UniqueKeys(DashboardRows(db2, filter)) && UniqueKeys(BenchmarkRows(db2, filter))
          && (Listings(db2, filter, dg2, bg2) ==> dg2 == [] && bg2 == [] && RunOnce(db2, dg2, bg2) == db2)
  {
    DashboardsUniqueAfterOneRun(db0, filter, dg0, bg0);
    var db1 := RunOnce(db0, dg0, bg0);
    if Listings(db1, filter, dg1, bg1) {
      NothingListed(DashboardRows(db1, filter), dg1);
      MergedKeysUnique(BenchmarkRows(db1, filter), bg1);
      NoGroupsNoChange(db1);
      BenchmarkRowsAfter(db1, filter, bg1);
      DashboardsUniqueAfterOneRun(db1, filter, dg1, bg1);
      var db2 := RunOnce(db1, dg1, bg1);
      if Listings(db2, filter, dg2, bg2) {
        NothingListed(DashboardRows(db2, filter), dg2);
        NothingListed(BenchmarkRows(db2, filter), bg2);
        NoGroupsNoChange(db2);
      }
    }
  }

  // ----- when one run is not enough -----

  /** Two selected benchmarks that differ only in their dashboards, which are themselves
      duplicates of each other. */
  ghost predicate Colliding(db: Db, filter: string, a: Id, b: Id) {
    var rows, dashboards := BenchmarkRows(db, filter), DashboardRows(db, filter);
    && a in rows && b in rows
    && var x, y := rows[a].key, rows[b].key;
      && x == y.(dashboard := x.dashboard)
      && x.dashboard.Some? && y.dashboard.Some? && x.dashboard != y.dashboard
      && SameKey(dashboards, x.dashboard.value, y.dashboard.value)
  }

  lemma RedirectsMeet<K>(rows: map<Id, Row<K>>, groups: seq<seq<Id>>, a: Id, b: Id)
    requires Listing(rows, groups) && a != b
    ensures NonEmpty(groups)
    ensures Redirect(groups, a) == Redirect(groups, b) <==> SameKey(rows, a, b)
  {
    Merge(rows, groups, a);
    Merge(rows, groups, b);
  }

  /** The key a benchmark has once its dashboard has been merged. */
  function RedirectedKey(key: BenchmarkKey, dg: seq<seq<Id>>): BenchmarkKey
    requires NonEmpty(dg)
  {
    key.(dashboard := RedirectOption(dg, key.dashboard))
  }

  lemma BenchmarkRowsAfterRun(db: Db, filter: string, dg: seq<seq<Id>>, bg: seq<seq<Id>>)
    requires NonEmpty(dg) && NonEmpty(bg)
    ensures var before, after := BenchmarkRows(db, filter), BenchmarkRows(RunOnce(db, dg, bg), filter);
      && after.Keys == before.Keys - Deleted(bg)
      && forall id <- after :: after[id].key == RedirectedKey(before[id].key, dg)
  {
  }

  lemma RedirectedKeysMeet(db: Db, filter: string, dg: seq<seq<Id>>, a: Id, b: Id)
    requires Listing(DashboardRows(db, filter), dg)
    requires a in BenchmarkRows(db, filter) && b in BenchmarkRows(db, filter)
    ensures NonEmpty(dg)
    ensures var rows := BenchmarkRows(db, filter);
      && (RedirectedKey(rows[a].key, dg) == RedirectedKey(rows[b].key, dg)
          <==> (rows[a].key == rows[b].key || Colliding(db, filter, a, b)))
  {
    ListingShape(DashboardRows(db, filter), dg);
    var x, y := BenchmarkRows(db, filter)[a].key.dashboard, BenchmarkRows(db, filter)[b].key.dashboard;
    if x.Some? && y.Some? && x != y {
      RedirectsMeet(DashboardRows(db, filter), dg, x.value, y.value);
    }
  }

  /** One run also leaves the benchmarks without duplicates if and only if no two of them
      differed merely by duplicate dashboards. */
  lemma OneRunSufficesIff(db: Db, filter: string, dg: seq<seq<Id>>, bg: seq<seq<Id>>)
    requires Listings(db, filter, dg, bg)
    ensures NonEmpty(dg) && NonEmpty(bg)
    ensures UniqueKeys(BenchmarkRows(RunOnce(db, dg, bg), filter))
      <==> !exists a, b :: Colliding(db, filter, a, b)
  {
    ListingShape(DashboardRows(db, filter), dg);
    ListingShape(BenchmarkRows(db, filter), bg);
    if a, b :| Colliding(db, filter, a, b) {
      CollisionStays(db, filter, dg, bg, a, b);
    } else {
      NoCollisionNoDuplicate(db, filter, dg, bg);
    }
  }

  /** The survivors of two colliding benchmarks end up with one key. */
  lemma CollisionStays(db: Db, filter: string, dg: seq<seq<Id>>, bg: seq<seq<Id>>, a: Id, b: Id)
    requires Listings(db, filter, dg, bg) && Colliding(db, filter, a, b)
    ensures NonEmpty(dg) && NonEmpty(bg) && !UniqueKeys(BenchmarkRows(RunOnce(db, dg, bg), filter))
  {
    var before := BenchmarkRows(db, filter);
    ListingShape(DashboardRows(db, filter), dg);
    ListingShape(before, bg);
    BenchmarkRowsAfterRun(db, filter, dg, bg);
    Merge(before, bg, a);
    Merge(before, bg, b);
    var after, a', b' := BenchmarkRows(RunOnce(db, dg, bg), filter), Redirect(bg, a), Redirect(bg, b);
    assert Colliding(db, filter, a', b');
    RedirectedKeysMeet(db, filter, dg, a', b');
    assert a' in after && b' in after && after[a'].key == after[b'].key && a' != b';
  }

  lemma NoCollisionNoDuplicate(db: Db, filter: string, dg: seq<seq<Id>>, bg: seq<seq<Id>>)
    requires Listings(db, filter, dg, bg) && forall a, b :: !Colliding(db, filter, a, b)
    ensures NonEmpty(dg) && NonEmpty(bg) && UniqueKeys(BenchmarkRows(RunOnce(db, dg, bg), filter))
  {
    var before := BenchmarkRows(db, filter);
    ListingShape(DashboardRows(db, filter), dg);
    ListingShape(before, bg);
    BenchmarkRowsAfterRun(db, filter, dg, bg);
    MergedKeysUnique(before, bg);
    var after := BenchmarkRows(RunOnce(db, dg, bg), filter);
    forall a <- after, b <- after | after[a].key == after[b].key ensures a == b {
      RedirectedKeysMeet(db, filter, dg, a, b);
      assert a in before - Deleted(bg) && b in before - Deleted(bg);
    }
  }

  /** Two dashboards of one key, and one otherwise equal benchmark on each. */
  const TWO_BY_TWO := Db(
    map["s" := "shop"],
    map["d1" := Dashboard("s", "test", None, None, "cpu", 1), "d2" := Dashboard("s", "test", None, None, "cpu", 2)],
    map["b1" := Benchmark("s", "test", "load", Some("d1"), None, 1),
        "b2" := Benchmark("s", "test", "load", Some("d2"), None, 2)],
    map[], map[])

  lemma TwoByTwoListings()
    ensures Listings(TWO_BY_TWO, "", [["d1", "d2"]], [])
  {
    var g := ["d1", "d2"];
    var groups := [g];
    var rows := DashboardRows(TWO_BY_TWO, "");
    assert rows.Keys == {"d1", "d2"};
    assert g[0] == "d1" && g[1] == "d2" && IsGroup(rows, g);
    forall a, b | a != b && SameKey(rows, a, b) ensures Listed(groups, a) {
      assert a in groups[0];
    }
    assert Listing(rows, groups);
    NoBenchmarkGroups();
  }

  lemma NoBenchmarkGroups()
    ensures Listing(BenchmarkRows(TWO_BY_TWO, ""), [])
  {
  }

  /** On it one run is not enough: the repointing makes a benchmark duplicate that the
      listing, taken before, does not hold. */
  lemma OneRunCanLeaveDuplicates()
    ensures Listings(TWO_BY_TWO, "", [["d1", "d2"]], [])
    ensures !UniqueKeys(BenchmarkRows(RunOnce(TWO_BY_TWO, [["d1", "d2"]], []), ""))
  {
    TwoByTwoListings();
    assert Colliding(TWO_BY_TWO, "", "b1", "b2");
    OneRunSufficesIff(TWO_BY_TWO, "", [["d1", "d2"]], []);
  }

  // ----- references -----

  ghost predicate Resolves(reference: Option<Id>, ids: set<Id>) {
    reference.Some? ==> reference.value in ids
  }

  ghost predicate Intact(db: Db) {
    && (forall id <- db.benchmarks :: Resolves(db.benchmarks[id].dashboard, db.dashboards.Keys))
    && (forall id <- db.compareConfigs :: Resolves(db.compareConfigs[id], db.dashboards.Keys))
    && (forall id <- db.testRuns :: Resolves(db.testRuns[id], db.benchmarks.Keys))
  }

  /** A reference to a dashboard that resolved still does, to a dashboard of the same natural
      key that is no younger than any selected one of that key; and that row is as it was. */
  lemma DashboardReferenceKept(db: Db, filter: string, dg: seq<seq<Id>>, bg: seq<seq<Id>>, target: Id)
    requires Listings(db, filter, dg, bg) && target in db.dashboards
    ensures NonEmpty(dg) && NonEmpty(bg)
    ensures var after, to := RunOnce(db, dg, bg).dashboards, Redirect(dg, target);
      && to in after && to in db.dashboards && after[to] == db.dashboards[to]
      && KeyOfDashboard(after[to]) == KeyOfDashboard(db.dashboards[target])
      && (!Selected(db, filter, db.dashboards[target].sut) ==> to == target)
      && forall other <- db.dashboards ::
           Selected(db, filter, db.dashboards[other].sut)
           && KeyOfDashboard(db.dashboards[other]) == KeyOfDashboard(db.dashboards[target])
           ==> after[to].createdAt <= db.dashboards[other].createdAt
  {
    var rows := DashboardRows(db, filter);
    ListingShape(BenchmarkRows(db, filter), bg);
    Merge(rows, dg, target);
    forall other <- db.dashboards | Selected(db, filter, db.dashboards[other].sut)
        && KeyOfDashboard(db.dashboards[other]) == KeyOfDashboard(db.dashboards[target])
      ensures NoYounger(rows, Redirect(dg, target), other)
    {
      assert SameKey(rows, target, other);
    }
  }

  /** A reference to a benchmark that resolved still does, to a benchmark that had the same
      key before the run, has the same key after it, and is no younger than any of that key. */
  lemma BenchmarkReferenceKept(db: Db, filter: string, dg: seq<seq<Id>>, bg: seq<seq<Id>>, target: Id)
    requires Listings(db, filter, dg, bg) && target in db.benchmarks
    ensures NonEmpty(dg) && NonEmpty(bg)
    ensures var after, to := RunOnce(db, dg, bg).benchmarks, Redirect(bg, target);
      && to in after && to in db.benchmarks
      && KeyOfBenchmark(db.benchmarks[to]) == KeyOfBenchmark(db.benchmarks[target])
      && KeyOfBenchmark(after[to]) == RedirectedKey(KeyOfBenchmark(db.benchmarks[target]), dg)
      && forall other <- db.benchmarks ::
           Selected(db, filter, db.benchmarks[other].sut)
           && KeyOfBenchmark(db.benchmarks[other]) == KeyOfBenchmark(db.benchmarks[target])
           ==> after[to].createdAt <= db.benchmarks[other].createdAt
  {
    var rows := BenchmarkRows(db, filter);
    ListingShape(DashboardRows(db, filter), dg);
    Merge(rows, bg, target);
    forall other <- db.benchmarks | Selected(db, filter, db.benchmarks[other].sut)
        && KeyOfBenchmark(db.benchmarks[other]) == KeyOfBenchmark(db.benchmarks[target])
      ensures NoYounger(rows, Redirect(bg, target), other)
    {
      assert SameKey(rows, target, other);
    }
  }

  /** What became of a stored reference to a dashboard: it is still none, or names a row that
      survived, has the old row's natural key and is no younger than any selected row of it; and
      it is the same unless a selected row shared the key. */
  ghost predicate DashboardFollowed(db: Db, filter: string, after: Db, before: Option<Id>, now: Option<Id>) {
    && (now.None? <==> before.None?)
    && (before.Some? && before.value in db.dashboards ==>
          && now.value in after.dashboards && now.value in db.dashboards
          && KeyOfDashboard(db.dashboards[now.value]) == KeyOfDashboard(db.dashboards[before.value])
          && forall other <- DashboardsLike(db, filter, before.value) ::
               db.dashboards[now.value].createdAt <= db.dashboards[other].createdAt)
    && (before.Some? && (before.value !in db.dashboards || DashboardsLike(db, filter, before.value) <= {before.value}) ==>
          now == before)
  }

  /** The selected dashboards with the natural key of `id`. */
  ghost function DashboardsLike(db: Db, filter: string, id: Id): set<Id>
    requires id in db.dashboards
  {
    set other <- db.dashboards |
      && Selected(db, filter, db.dashboards[other].sut)
      && KeyOfDashboard(db.dashboards[other]) == KeyOfDashboard(db.dashboards[id])
  }

  ghost predicate BenchmarkFollowed(db: Db, filter: string, after: Db, before: Option<Id>, now: Option<Id>) {
    && (now.None? <==> before.None?)
    && (before.Some? && before.value in db.benchmarks ==>
          && now.value in after.benchmarks && now.value in db.benchmarks
          && KeyOfBenchmark(db.benchmarks[now.value]) == KeyOfBenchmark(db.benchmarks[before.value])
          && forall other <- BenchmarksLike(db, filter, before.value) ::
               db.benchmarks[now.value].createdAt <= db.benchmarks[other].createdAt)
    && (before.Some? && (before.value !in db.benchmarks || BenchmarksLike(db, filter, before.value) <= {before.value}) ==>
          now == before)
  }

  ghost function BenchmarksLike(db: Db, filter: string, id: Id): set<Id>
    requires id in db.benchmarks
  {
    set other <- db.benchmarks |
      && Selected(db, filter, db.benchmarks[other].sut)
      && KeyOfBenchmark(db.benchmarks[other]) == KeyOfBenchmark(db.benchmarks[id])
  }

  lemma DashboardRedirected(db: Db, filter: string, dg: seq<seq<Id>>, bg: seq<seq<Id>>, before: Option<Id>)
    requires Listings(db, filter, dg, bg)
    ensures NonEmpty(dg) && NonEmpty(bg)
    ensures DashboardFollowed(db, filter, RunOnce(db, dg, bg), before, RedirectOption(dg, before))
  {
    var rows := DashboardRows(db, filter);
    ListingShape(rows, dg);
    ListingShape(BenchmarkRows(db, filter), bg);
    if before.Some? {
      Merge(rows, dg, before.value);
      if before.value in db.dashboards {
        DashboardReferenceKept(db, filter, dg, bg, before.value);
        assert before.value in rows ==> Redirect(dg, before.value) in DashboardsLike(db, filter, before.value);
      }
    }
  }

  lemma BenchmarkRedirected(db: Db, filter: string, dg: seq<seq<Id>>, bg: seq<seq<Id>>, before: Option<Id>)
    requires Listings(db, filter, dg, bg)
    ensures NonEmpty(dg) && NonEmpty(bg)
    ensures BenchmarkFollowed(db, filter, RunOnce(db, dg, bg), before, RedirectOption(bg, before))
  {
    var rows := BenchmarkRows(db, filter);
    ListingShape(DashboardRows(db, filter), dg);
    ListingShape(rows, bg);
    if before.Some? {
      Merge(rows, bg, before.value);
      if before.value in db.benchmarks {
        BenchmarkReferenceKept(db, filter, dg, bg, before.value);
        assert before.value in rows ==> Redirect(bg, before.value) in BenchmarksLike(db, filter, before.value);
      }
    }
  }

  /** Where every stored reference points after a run: no row of ds_compare_config, test_runs or
      the surviving benchmarks loses its reference, gains one, or is pointed elsewhere than at an
      oldest row of the same natural key. Nothing else of any row changes. */
  lemma StoredReferencesFollow(db: Db, filter: string, dg: seq<seq<Id>>, bg: seq<seq<Id>>)
    requires Listings(db, filter, dg, bg)
    ensures NonEmpty(dg) && NonEmpty(bg)
    ensures var after := RunOnce(db, dg, bg);
      && after.compareConfigs.Keys == db.compareConfigs.Keys && after.testRuns.Keys == db.testRuns.Keys
      && (forall id <- db.compareConfigs ::
            DashboardFollowed(db, filter, after, db.compareConfigs[id], after.compareConfigs[id]))
      && (forall id <- db.testRuns :: BenchmarkFollowed(db, filter, after, db.testRuns[id], after.testRuns[id]))
    ensures var after := RunOnce(db, dg, bg);
      && (forall id <- after.benchmarks ::
            && id in db.benchmarks
            && after.benchmarks[id] == db.benchmarks[id].(dashboard := after.benchmarks[id].dashboard)
            && DashboardFollowed(db, filter, after, db.benchmarks[id].dashboard, after.benchmarks[id].dashboard))
      && (forall id <- after.dashboards :: id in db.dashboards && after.dashboards[id] == db.dashboards[id])
      && after.suts == db.suts
  {
    ListingShape(DashboardRows(db, filter), dg);
    ListingShape(BenchmarkRows(db, filter), bg);
    KeysAfter(db, dg, bg);
    var after := RunOnce(db, dg, bg);
    forall id <- db.compareConfigs
      ensures DashboardFollowed(db, filter, after, db.compareConfigs[id], after.compareConfigs[id])
    {
      DashboardRedirected(db, filter, dg, bg, db.compareConfigs[id]);
    }
    forall id <- db.testRuns ensures BenchmarkFollowed(db, filter, after, db.testRuns[id], after.testRuns[id]) {
      BenchmarkRedirected(db, filter, dg, bg, db.testRuns[id]);
    }
    forall id <- after.benchmarks
      ensures DashboardFollowed(db, filter, after, db.benchmarks[id].dashboard, after.benchmarks[id].dashboard)
    {
      DashboardRedirected(db, filter, dg, bg, db.benchmarks[id].dashboard);
    }
  }

  /** A system under test that a run given this filter leaves alone: one without a row of its own,
      or, if a filter is given, one of another name. */
  predicate LeftAlone(db: Db, filter: string, sut: Id) {
    sut !in db.suts || (filter != "" && db.suts[sut] != filter)
  }

  /** A run deletes no row of such a system. */
  lemma OthersLeftAlone(db: Db, filter: string, dg: seq<seq<Id>>, bg: seq<seq<Id>>)
    requires Listings(db, filter, dg, bg)
    ensures NonEmpty(dg) && NonEmpty(bg)
    ensures var after := RunOnce(db, dg, bg);
      && (forall id <- db.dashboards :: LeftAlone(db, filter, db.dashboards[id].sut) ==> id in after.dashboards)
      && (forall id <- db.benchmarks :: LeftAlone(db, filter, db.benchmarks[id].sut) ==> id in after.benchmarks)
  {
    ListingShape(DashboardRows(db, filter), dg);
    ListingShape(BenchmarkRows(db, filter), bg);
    KeysAfter(db, dg, bg);
    forall id <- db.dashboards | LeftAlone(db, filter, db.dashboards[id].sut) ensures id !in Deleted(dg) {
      Merge(DashboardRows(db, filter), dg, id);
    }
    forall id <- db.benchmarks | LeftAlone(db, filter, db.benchmarks[id].sut) ensures id !in Deleted(bg) {
      Merge(BenchmarkRows(db, filter), bg, id);
    }
  }

  predicate Agree(a: Dashboard, b: Dashboard) {
    a.sut == b.sut && a.environment == b.environment && a.instance == b.instance && a.uid == b.uid && a.title == b.title
  }

  /** Of all others, one run leaves no two dashboards that agree in the five grouped columns. */
  lemma NoTwoAgree(db: Db, filter: string, dg: seq<seq<Id>>, bg: seq<seq<Id>>, a: Id, b: Id)
    requires Listings(db, filter, dg, bg)
    ensures NonEmpty(dg) && NonEmpty(bg)
    ensures var rows := RunOnce(db, dg, bg).dashboards;
      (a in rows && b in rows && !LeftAlone(db, filter, rows[a].sut) && Agree(rows[a], rows[b])) ==> a == b
  {
    DashboardsUniqueAfterOneRun(db, filter, dg, bg);
    var after := RunOnce(db, dg, bg);
    var rows := DashboardRows(after, filter);
    if a in after.dashboards && b in after.dashboards && !LeftAlone(db, filter, after.dashboards[a].sut)
       && Agree(after.dashboards[a], after.dashboards[b]) {
      assert a in rows && b in rows && rows[a].key == rows[b].key;
    }
  }

  /** Two rows have one natural key if and only if the grouped columns agree; NULLs agree. */
  lemma KeysAreColumns(a: Dashboard, b: Dashboard, x: Benchmark, y: Benchmark)
    ensures KeyOfDashboard(a) == KeyOfDashboard(b)
      <==> a.sut == b.sut && a.environment == b.environment && a.instance == b.instance && a.uid == b.uid
           && a.title == b.title
    ensures KeyOfBenchmark(x) == KeyOfBenchmark(y)
      <==> x.sut == y.sut && x.environment == y.environment && x.workload == y.workload
           && x.dashboard == y.dashboard && x.check == y.check
  {
  }

  lemma RedirectedDashboardResolves(db: Db, filter: string, dg: seq<seq<Id>>, reference: Option<Id>)
    requires Listing(DashboardRows(db, filter), dg) && Resolves(reference, db.dashboards.Keys)
    ensures NonEmpty(dg)
    ensures Resolves(RedirectOption(dg, reference), db.dashboards.Keys - Deleted(dg))
  {
    ListingShape(DashboardRows(db, filter), dg);
    if reference.Some? {
      Merge(DashboardRows(db, filter), dg, reference.value);
    }
  }

  lemma RedirectedBenchmarkResolves(db: Db, filter: string, bg: seq<seq<Id>>, reference: Option<Id>)
    requires Listing(BenchmarkRows(db, filter), bg) && Resolves(reference, db.benchmarks.Keys)
    ensures NonEmpty(bg)
    ensures Resolves(RedirectOption(bg, reference), db.benchmarks.Keys - Deleted(bg))
  {
    ListingShape(BenchmarkRows(db, filter), bg);
    if reference.Some? {
      Merge(BenchmarkRows(db, filter), bg, reference.value);
    }
  }

  /** If every reference resolved before a run, every reference resolves after it. */
  lemma RunKeepsReferences(db: Db, filter: string, dg: seq<seq<Id>>, bg: seq<seq<Id>>)
    requires Listings(db, filter, dg, bg) && Intact(db)
    ensures NonEmpty(dg) && NonEmpty(bg) && Intact(RunOnce(db, dg, bg))
  {
    ListingShape(DashboardRows(db, filter), dg);
    ListingShape(BenchmarkRows(db, filter), bg);
    var after := RunOnce(db, dg, bg);
    KeysAfter(db, dg, bg);
    forall id <- after.benchmarks ensures Resolves(after.benchmarks[id].dashboard, after.dashboards.Keys) {
      RedirectedDashboardResolves(db, filter, dg, db.benchmarks[id].dashboard);
    }
    forall id <- after.compareConfigs ensures Resolves(after.compareConfigs[id], after.dashboards.Keys) {
      RedirectedDashboardResolves(db, filter, dg, db.compareConfigs[id]);
    }
    forall id <- after.testRuns ensures Resolves(after.testRuns[id], after.benchmarks.Keys) {
      RedirectedBenchmarkResolves(db, filter, bg, db.testRuns[id]);
    }
  }

  lemma NotYetDeleted<K>(rows: map<Id, Row<K>>, groups: seq<seq<Id>>, i: nat, id: Id)
    requires Listing(rows, groups) && i < |groups| && id in groups[i]
    ensures NonEmpty(groups[..i]) && id !in Deleted(groups[..i])
  {
    ListingShape(rows, groups);
    forall j | 0 <= j < i ensures id !in groups[..i][j] {
      assert Elements(groups[j]) !! Elements(groups[i]) && id in Elements(groups[i]);
    }
    Unlisted(groups[..i], id);
  }

  /** The benchmark groups were listed before any dashboard was merged. When the turn of one
      comes, after the dashboard phase and the groups before it, all its rows are still there
      and still of one key. */
  lemma BenchmarkGroupsStayValid(db: Db, filter: string, dg: seq<seq<Id>>, bg: seq<seq<Id>>, i: nat, a: Id, b: Id)
    requires Listings(db, filter, dg, bg) && i < |bg| && a in bg[i] && b in bg[i]
    ensures NonEmpty(dg) && NonEmpty(bg[..i])
    ensures SameKey(BenchmarkRows(MergeBenchmarks(MergeDashboards(db, dg), bg[..i]), filter), a, b)
  {
    var rows := BenchmarkRows(db, filter);
    ListingShape(DashboardRows(db, filter), dg);
    NotYetDeleted(rows, bg, i, a);
    NotYetDeleted(rows, bg, i, b);
    BenchmarkRowsAfter(MergeDashboards(db, dg), filter, bg[..i]);
    assert IsGroup(rows, bg[i]);
  }

  // ----- conservation -----

  /** A run removes from each table exactly the number of rows it announces, the sum of
      (group size - 1), and no other table loses a row. */
  lemma RowsRemoved(db: Db, filter: string, dg: seq<seq<Id>>, bg: seq<seq<Id>>)
    requires Listings(db, filter, dg, bg)
    ensures NonEmpty(dg) && NonEmpty(bg)
    ensures var after := RunOnce(db, dg, bg);
      && |db.dashboards.Keys| - |after.dashboards.Keys| == TotalsOf(dg).toDelete
      && |db.benchmarks.Keys| - |after.benchmarks.Keys| == TotalsOf(bg).toDelete
      && after.compareConfigs.Keys == db.compareConfigs.Keys && after.testRuns.Keys == db.testRuns.Keys
    ensures TotalsOf(dg).toKeep == |dg| && TotalsOf(dg).found == |dg| + TotalsOf(dg).toDelete
    ensures TotalsOf(bg).toKeep == |bg| && TotalsOf(bg).found == |bg| + TotalsOf(bg).toDelete
  {
    DeletedRowsCount(DashboardRows(db, filter), dg, db.dashboards.Keys);
    DeletedRowsCount(BenchmarkRows(db, filter), bg, db.benchmarks.Keys);
    KeysAfter(db, dg, bg);
  }

  lemma KeysAfter(db: Db, dg: seq<seq<Id>>, bg: seq<seq<Id>>)
    requires NonEmpty(dg) && NonEmpty(bg)
    ensures var after := RunOnce(db, dg, bg);
      && after.dashboards.Keys == db.dashboards.Keys - Deleted(dg)
      && after.benchmarks.Keys == db.benchmarks.Keys - Deleted(bg)
      && after.compareConfigs.Keys == db.compareConfigs.Keys && after.testRuns.Keys == db.testRuns.Keys
  {
  }

  lemma DeletedRowsCount<K>(rows: map<Id, Row<K>>, groups: seq<seq<Id>>, ids: set<Id>)
    requires Listing(rows, groups) && rows.Keys <= ids
    ensures NonEmpty(groups)
    ensures |ids| - |ids - Deleted(groups)| == Surplus(groups)
  {
    ListingShape(rows, groups);
    forall g <- groups ensures forall i, j :: 0 <= i < j < |g| ==> g[i] != g[j] {
      var i :| 0 <= i < |groups| && groups[i] == g;
      assert IsGroup(rows, groups[i]);
    }
    DeletedCount(groups);
    forall id <- Deleted(groups) ensures id in ids {
      Merge(rows, groups, id);
    }
    assert ids == Deleted(groups) + (ids - Deleted(groups));
  }
}
