/** The rollup backfill driver, run against a database and a queue that other processes
    change between any two of its statements. */
module Backfill {
  import opened Collections

  type RunId = string

  /** `missing`: completed test runs without rows in both rollup tables.
      `pending`: runs whose job is waiting, active or delayed.
      `jobs`: runs whose job record the queue still holds, finished or not.
      `lookups` and `added` log what this driver asked of the queue, in order. */
  class World {
    var missing: set<RunId>
    var pending: set<RunId>
    var jobs: set<RunId>
    ghost var lookups: seq<Lookup>
    ghost var added: seq<RunId>
    const soleProducer: bool

    constructor (missing: set<RunId>, pending: set<RunId>, finished: set<RunId>, soleProducer: bool)
      ensures Valid() && this.missing == missing && this.pending == pending && this.soleProducer == soleProducer
    {
      this.missing, this.pending, this.jobs := missing, pending, pending + finished;
      lookups, added := [], [];
      this.soleProducer := soleProducer;
    }

    predicate Valid()
      reads this
    {
      pending <= jobs
    }

    /** Anything the workers may do: roll runs up, finish jobs, and let finished records be
        evicted. No run becomes a candidate; only other producers can add jobs. */
    method Interference()
      modifies this`missing, this`pending, this`jobs
      ensures Valid() && missing <= old(missing)
      ensures soleProducer ==> pending <= old(pending)
    {
      var someRuns: set<RunId> := *;
      var someJobs: set<RunId> := *;
      var records: set<RunId> := *;
      missing := missing * someRuns;
      pending := if soleProducer then pending * someJobs else someJobs;
      jobs := pending + records;
    }

    /** `queue.getJob`. */
    method GetJob(id: RunId) returns (found: bool)
      modifies this`lookups
      ensures found <==> id in jobs
      ensures lookups == old(lookups) + [Lookup(id, found)]
    {
      found := id in jobs;
      lookups := lookups + [Lookup(id, found)];
    }

    /** `queue.add`. */
    method Add(id: RunId)
      requires Valid()
      modifies this`pending, this`jobs, this`added
      ensures Valid() && pending == old(pending) + {id} && added == old(added) + [id]
    {
      pending, jobs := pending + {id}, jobs + {id};
      added := added + [id];
    }

    /** The candidate query: at most `limit` runs not in `seen`, as many as there are. */
    method NextBatch(limit: nat, seen: set<RunId>) returns (batch: seq<RunId>)
      ensures Distinct(batch) && Members(batch) <= missing - seen
      ensures |batch| <= limit && (|batch| < limit ==> Members(batch) == missing - seen)
    {
      batch := [];
      var rest := missing - seen;
      while |batch| < limit && rest != {}
        invariant Distinct(batch) && |batch| <= limit
        invariant rest !! Members(batch) && rest + Members(batch) == missing - seen
        decreases rest
      {
        var id :| id in rest;
        assert Members(batch + [id]) == Members(batch) + {id};
        batch, rest := batch + [id], rest - {id};
      }
    }
  }

  /** One question whether the queue holds the job of `id`, and the answer. */
  datatype Lookup = Lookup(id: RunId, found: bool)

  datatype Config = Config(batchSize: nat, maxInflight: nat, dryRun: bool)

  /** What one invocation did. `backlogs` are the pending jobs counted by the polls that waited,
      `peak` is the highest number of pending jobs right after one of its own statements. */
  datatype Report = Report(batches: seq<seq<RunId>>, seen: set<RunId>, enqueued: nat, skipped: nat,
                           backlogs: seq<nat>, peak: nat, finished: bool)

  ghost predicate Distinct(ids: seq<RunId>) {
    forall i, j :: 0 <= i < j < |ids| ==> ids[i] != ids[j]
  }

  ghost function Members(ids: seq<RunId>): set<RunId> {
    set id <- ids
  }

  function Concat(batches: seq<seq<RunId>>): seq<RunId> {
    if batches == [] then [] else Concat(batches[..|batches| - 1]) + batches[|batches| - 1]
  }

  function CeilDiv(n: nat, d: nat): nat
    requires d > 0
  {
    (n + d - 1) / d
  }

  function Max(a: int, b: int): int {
    if a >= b then a else b
  }

  /** Every batch is non-empty, and every batch but the last one is full. */
  ghost predicate Packed(batches: seq<seq<RunId>>, batchSize: nat) {
    && (forall b <- batches :: 0 < |b| <= batchSize)
    && (forall i :: 0 <= i < |batches| - 1 ==> |batches[i]| == batchSize)
  }

  lemma {:induction false} MembersCount(ids: seq<RunId>)
    requires Distinct(ids)
    ensures |Members(ids)| == |ids|
  {
    if ids != [] {
      MembersCount(ids[1..]);
      assert Members(ids) == {ids[0]} + Members(ids[1..]);
    }
  }

  lemma {:induction false} PackedLength(batches: seq<seq<RunId>>, batchSize: nat)
    requires Packed(batches, batchSize)
    ensures batches != [] ==> |Concat(batches)| > (|batches| - 1) * batchSize
  {
    if |batches| > 1 {
      var shorter := batches[..|batches| - 1];
      assert |shorter[|shorter| - 1]| == batchSize;
      assert Packed(shorter, batchSize);
      FullLength(shorter, batchSize);
    }
  }

  lemma {:induction false} FullLength(batches: seq<seq<RunId>>, batchSize: nat)
    requires forall b <- batches :: |b| == batchSize
    ensures |Concat(batches)| == |batches| * batchSize
  {
    if batches != [] {
      FullLength(batches[..|batches| - 1], batchSize);
      var b := batches[|batches| - 1];
      assert b in batches;
      OneMoreTimes(|batches|, batchSize);
    }
  }

  lemma OneMoreTimes(n: nat, d: nat)
    ensures n * d == (n - 1) * d + d
  {
  }

  /** Served batches over n candidates are at most ceil(n / batchSize). */
  lemma BatchBound(batches: seq<seq<RunId>>, batchSize: nat, seen: set<RunId>, candidates: set<RunId>)
    requires Packed(batches, batchSize)
    requires Distinct(Concat(batches)) && Members(Concat(batches)) == seen <= candidates
    ensures batchSize > 0 ==> |batches| <= CeilDiv(|candidates|, batchSize)
  {
    PackedLength(batches, batchSize);
    MembersCount(Concat(batches));
    SubsetSize(seen, candidates);
    if batchSize > 0 && batches != [] {
      DivBound(|candidates|, batchSize, |batches|);
    }
  }

  lemma DivBound(n: nat, d: nat, k: nat)
    requires d > 0 && k > 0 && n > (k - 1) * d
    ensures k <= CeilDiv(n, d)
  {
    var q := (n + d - 1) / d;
    assert n + d - 1 < q * d + d;
    assert n + d - 1 >= (k - 1) * d + d;
    if q < k {
      MulMonotone(q, k - 1, d);
      assert false;
    }
  }

  lemma MulMonotone(a: nat, b: nat, d: nat)
    requires a <= b
    ensures a * d <= b * d
  {
  }

  /** What every round keeps: the batches served so far partition `seen`, only the last of
      them can be short, and if it is, nothing is left to serve. */
  ghost predicate Served(batches: seq<seq<RunId>>, seen: set<RunId>, batchSize: nat, missing: set<RunId>) {
    && Packed(batches, batchSize)
    && Distinct(Concat(batches)) && Members(Concat(batches)) == seen
    && (batches != [] && |batches[|batches| - 1]| < batchSize ==> missing <= seen)
  }

  /** What was asked of the queue for `ids`: each of them was looked up once, in order, and put
      on the queue if and only if the lookup found no job; nothing else was added. */
  ghost predicate Asked(ids: seq<RunId>, lookups: seq<Lookup>, added: seq<RunId>, enqueued: nat, skipped: nat) {
    && |lookups| == |ids|
    && (forall i :: 0 <= i < |ids| ==> lookups[i].id == ids[i] && (lookups[i].found <==> ids[i] !in added))
    && (forall id <- added :: id in ids) && Distinct(added)
    && enqueued == |added| && enqueued + skipped == |ids|
  }

  /** The same for the part of the logs written since they were `lookups` and `added`. */
  ghost predicate AskedSince(world: World, ids: seq<RunId>, lookups: seq<Lookup>, added: seq<RunId>,
                             enqueued: nat, skipped: nat)
    reads world
  {
    && lookups <= world.lookups && added <= world.added
    && Asked(ids, world.lookups[|lookups|..], world.added[|added|..], enqueued, skipped)
  }

  lemma AskedOneMore(ids: seq<RunId>, lookups: seq<Lookup>, added: seq<RunId>, enqueued: nat, skipped: nat, l: Lookup)
    requires Asked(ids, lookups, added, enqueued, skipped) && l.id !in ids
    ensures l.found ==> Asked(ids + [l.id], lookups + [l], added, enqueued, skipped + 1)
    ensures !l.found ==> Asked(ids + [l.id], lookups + [l], added + [l.id], enqueued + 1, skipped)
  {
    var more := added + [l.id];
    assert l.id !in added;
    forall i, j | 0 <= i < j < |more| ensures more[i] != more[j] {
      assert added[i] in added;
    }
  }

  /** The `for` loop over one batch. Each id is marked as seen before anything else. */
  method ServeBatch(world: World, dryRun: bool, batch: seq<RunId>, seen: set<RunId>, peak: nat, ghost bound: int)
    returns (nowSeen: set<RunId>, enqueued: nat, skipped: nat, nowPeak: nat)
    requires world.Valid() && Distinct(batch)
    requires world.soleProducer ==> |world.pending| <= peak <= bound && |world.pending| + |batch| <= bound
    modifies world
    ensures world.Valid() && world.missing <= old(world.missing)
    ensures nowSeen == seen + Members(batch)
    ensures dryRun ==> enqueued == skipped == 0 && world.lookups == old(world.lookups) && world.added == old(world.added)
    ensures !dryRun ==> AskedSince(world, batch, old(world.lookups), old(world.added), enqueued, skipped)
    ensures world.soleProducer ==> |world.pending| <= nowPeak <= bound
  {
    nowSeen, enqueued, skipped, nowPeak := seen, 0, 0, peak;
    ghost var inflight := |world.pending|;
    for i := 0 to |batch|
      invariant world.Valid() && world.missing <= old(world.missing)
      invariant nowSeen == seen + Members(batch[..i])
      invariant dryRun ==> enqueued == skipped == 0 && world.lookups == old(world.lookups) && world.added == old(world.added)
      invariant !dryRun ==> AskedSince(world, batch[..i], old(world.lookups), old(world.added), enqueued, skipped)
      invariant world.soleProducer ==> |world.pending| <= nowPeak <= bound && |world.pending| <= inflight + i
    {
      assert batch[..i + 1] == batch[..i] + [batch[i]] && batch[i] !in batch[..i];
      nowSeen := nowSeen + {batch[i]};
      if dryRun {
        continue;
      }
      var existing, newPeak := ServeOne(world, batch[i], nowPeak, batch[..i], old(world.lookups), old(world.added),
                                        enqueued, skipped);
      nowPeak := newPeak;
      if existing {
        skipped := skipped + 1;
      } else {
        enqueued := enqueued + 1;
      }
    }
    assert batch[..|batch|] == batch;
  }

  /** One id: look its job up, and add one if there is none. */
  method ServeOne(world: World, id: RunId, peak: nat, ghost ids: seq<RunId>, ghost lookups: seq<Lookup>,
                  ghost added: seq<RunId>, ghost enqueued: nat, ghost skipped: nat)
    returns (existing: bool, nowPeak: nat)
    requires world.Valid() && id !in ids
    requires AskedSince(world, ids, lookups, added, enqueued, skipped)
    requires world.soleProducer ==> |world.pending| <= peak
    modifies world
    ensures world.Valid() && world.missing <= old(world.missing)
    ensures existing ==> AskedSince(world, ids + [id], lookups, added, enqueued, skipped + 1)
    ensures !existing ==> AskedSince(world, ids + [id], lookups, added, enqueued + 1, skipped)
    ensures world.soleProducer ==> |world.pending| <= |old(world.pending)| + 1
    ensures world.soleProducer ==> |world.pending| <= nowPeak && (nowPeak == peak || nowPeak == |world.pending|)
  {
    nowPeak := peak;
    WhileAway(world, nowPeak);
    ghost var asked, put := world.lookups[|lookups|..], world.added[|added|..];
    existing := world.GetJob(id);
    AskedOneMore(ids, asked, put, enqueued, skipped, Lookup(id, existing));
    assert world.lookups[|lookups|..] == asked + [Lookup(id, existing)];
    if existing {
      return;
    }
    WhileAway(world, nowPeak);
    world.Add(id);
    assert world.added[|added|..] == put + [id];
    nowPeak := if |world.pending| > nowPeak then |world.pending| else nowPeak;
  }

  /** Interference, with what it means for the number of pending jobs. */
  method WhileAway(world: World, peak: nat)
    requires world.Valid()
    requires world.soleProducer ==> |world.pending| <= peak
    modifies world`missing, world`pending, world`jobs
    ensures world.Valid() && world.missing <= old(world.missing)
    ensures world.soleProducer ==> |world.pending| <= |old(world.pending)|
  {
    world.Interference();
    if world.soleProducer {
      SubsetSize(world.pending, old(world.pending));
    }
  }

  lemma AppendBatch(batches: seq<seq<RunId>>, batch: seq<RunId>, batchSize: nat, seen: set<RunId>)
    requires Packed(batches, batchSize) && 0 < |batch| <= batchSize
    requires batches != [] ==> |batches[|batches| - 1]| == batchSize
    requires Distinct(Concat(batches)) && Members(Concat(batches)) == seen
    requires Distinct(batch) && Members(batch) !! seen
    ensures Packed(batches + [batch], batchSize)
    ensures Distinct(Concat(batches + [batch])) && Members(Concat(batches + [batch])) == seen + Members(batch)
  {
    assert (batches + [batch])[..|batches|] == batches;
    var all := Concat(batches + [batch]);
    assert all == Concat(batches) + batch;
    forall i, j | 0 <= i < j < |all| ensures all[i] != all[j] {
      if i < |Concat(batches)| <= j {
        assert all[i] in Members(Concat(batches)) && all[j] in Members(batch);
      }
    }
  }

  lemma CountAfterBatch(before: set<RunId>, batch: seq<RunId>)
    requires Distinct(batch)
    ensures Members(batch) !! before ==> |before + Members(batch)| == |before| + |batch|
  {
    MembersCount(batch);
    if Members(batch) !! before {
      assert |before + Members(batch)| == |before| + |Members(batch)|;
    }
  }

  lemma ServeOneMore(batches: seq<seq<RunId>>, batch: seq<RunId>, batchSize: nat, seen: set<RunId>,
                     missing: set<RunId>, later: set<RunId>)
    requires Served(batches, seen, batchSize, missing) && later <= missing
    requires 0 < |batch| <= batchSize && Distinct(batch) && Members(batch) <= missing - seen
    requires |batch| < batchSize ==> Members(batch) == missing - seen
    ensures Served(batches + [batch], seen + Members(batch), batchSize, later)
    ensures |seen + Members(batch)| == |seen| + |batch|
  {
    assert batch[0] in Members(batch);
    AppendBatch(batches, batch, batchSize, seen);
    CountAfterBatch(seen, batch);
  }

  /** What holds of a report at the end of every round, `missing` being the candidates left. */
  ghost predicate Sound(r: Report, config: Config, start: set<RunId>, missing: set<RunId>) {
    && Served(r.batches, r.seen, config.batchSize, missing) && missing <= start && r.seen <= start
    && (config.dryRun ==> |r.batches| <= 1)
    && (forall n <- r.backlogs :: n >= config.maxInflight)
    && (r.finished && config.batchSize > 0 && !(config.dryRun && r.batches != []) ==> missing <= r.seen)
  }

  ghost predicate PeakSound(world: World, peak: nat, bound: int)
    reads world
  {
    world.soleProducer ==> |world.pending| <= peak <= bound
  }

  /** What the driver asked of the queue since its logs were `lookups` and `added`: of every run
      it served, once and in order, whether it has a job, adding one if not; in a dry run, nothing. */
  ghost predicate QueueSound(world: World, r: Report, dryRun: bool, lookups: seq<Lookup>, added: seq<RunId>)
    reads world
  {
    if dryRun then r.enqueued == r.skipped == 0 && world.lookups == lookups && world.added == added
    else AskedSince(world, Concat(r.batches), lookups, added, r.enqueued, r.skipped)
  }

  lemma StillSound(r: Report, config: Config, start: set<RunId>, missing: set<RunId>, batch: seq<RunId>,
                   later: set<RunId>, added: nat, known: nat, peak: nat)
    requires Sound(r, config, start, missing) && later <= missing && (config.dryRun ==> r.batches == [])
    requires 0 < |batch| <= config.batchSize && Distinct(batch) && Members(batch) <= missing - r.seen
    requires |batch| < config.batchSize ==> Members(batch) == missing - r.seen
    ensures Sound(Report(r.batches + [batch], r.seen + Members(batch), r.enqueued + added, r.skipped + known, r.backlogs,
                         peak, config.dryRun),
                  config, start, later)
  {
    ServeOneMore(r.batches, batch, config.batchSize, r.seen, missing, later);
  }

  lemma AskedBoth(ids: seq<RunId>, lookups: seq<Lookup>, added: seq<RunId>, enqueued: nat, skipped: nat,
                  batch: seq<RunId>, more: seq<Lookup>, moreAdded: seq<RunId>, moreEnqueued: nat, moreSkipped: nat)
    requires Asked(ids, lookups, added, enqueued, skipped)
    requires Asked(batch, more, moreAdded, moreEnqueued, moreSkipped)
    requires forall id <- batch :: id !in ids
    ensures Asked(ids + batch, lookups + more, added + moreAdded, enqueued + moreEnqueued, skipped + moreSkipped)
  {
    var all := added + moreAdded;
    forall i, j | 0 <= i < j < |all| ensures all[i] != all[j] {
      if i < |added| <= j {
        assert all[i] in added && all[j] in moreAdded;
      }
    }
  }

  lemma NotServedYet(r: Report, batch: seq<RunId>)
    requires Members(Concat(r.batches)) == r.seen && Members(batch) !! r.seen
    ensures forall id <- batch :: id !in Concat(r.batches)
  {
    forall id <- batch ensures id !in Concat(r.batches) {
      assert id in Members(batch) && id !in Members(Concat(r.batches));
    }
  }

  lemma StillAsked(r: Report, batch: seq<RunId>, lookups: seq<Lookup>, added: seq<RunId>,
                   before: seq<Lookup>, addedBefore: seq<RunId>, now: seq<Lookup>, addedNow: seq<RunId>,
                   more: nat, known: nat)
    requires lookups <= before <= now && added <= addedBefore <= addedNow
    requires Asked(Concat(r.batches), before[|lookups|..], addedBefore[|added|..], r.enqueued, r.skipped)
    requires Asked(batch, now[|before|..], addedNow[|addedBefore|..], more, known)
    requires Members(Concat(r.batches)) == r.seen && Members(batch) !! r.seen
    ensures Asked(Concat(r.batches + [batch]), now[|lookups|..], addedNow[|added|..], r.enqueued + more, r.skipped + known)
  {
    NotServedYet(r, batch);
    AskedBoth(Concat(r.batches), before[|lookups|..], addedBefore[|added|..], r.enqueued, r.skipped,
              batch, now[|before|..], addedNow[|addedBefore|..], more, known);
    assert (r.batches + [batch])[..|r.batches|] == r.batches;
    assert now[|lookups|..] == before[|lookups|..] + now[|before|..];
    assert addedNow[|added|..] == addedBefore[|added|..] + addedNow[|addedBefore|..];
  }

  lemma NothingNew(batch: seq<RunId>, missing: set<RunId>, seen: set<RunId>)
    requires batch == []
    ensures Members(batch) == missing - seen ==> missing <= seen
  {
    forall id <- missing ensures Members(batch) == missing - seen ==> id in seen {
      assert id !in Members(batch);
    }
  }

  /** One round of the `while (true)`. */
  method Round(world: World, config: Config, r: Report, ghost start: set<RunId>, ghost bound: int,
               ghost lookups: seq<Lookup>, ghost added: seq<RunId>) returns (s: Report)
    requires world.Valid() && Sound(r, config, start, world.missing) && !r.finished
    requires config.dryRun ==> r.batches == []
    requires PeakSound(world, r.peak, bound) && config.maxInflight - 1 + config.batchSize <= bound
    requires QueueSound(world, r, config.dryRun, lookups, added)
    modifies world
    ensures world.Valid() && Sound(s, config, start, world.missing) && PeakSound(world, s.peak, bound)
    ensures QueueSound(world, s, config.dryRun, lookups, added)
    ensures !s.finished ==>
      && |s.backlogs| + |s.batches| == |r.backlogs| + |r.batches| + 1
      && (config.dryRun ==> s.batches == [])
  {
    WhileAway(world, r.peak);
    var inflight := |world.pending|;
    if inflight >= config.maxInflight {
      return r.(backlogs := r.backlogs + [inflight]);
    }
    WhileAway(world, r.peak);
    ghost var missing := world.missing;
    var batch := world.NextBatch(config.batchSize, r.seen);
    if |batch| == 0 {
      NothingNew(batch, world.missing, r.seen);
      return r.(finished := true);
    }
    s := ServeNext(world, config, r, batch, start, missing, bound, lookups, added);
  }

  /** A round that found candidates. */
  method ServeNext(world: World, config: Config, r: Report, batch: seq<RunId>, ghost start: set<RunId>,
                   ghost missing: set<RunId>, ghost bound: int, ghost lookups: seq<Lookup>, ghost added: seq<RunId>)
    returns (s: Report)
    requires world.Valid() && Sound(r, config, start, missing) && world.missing == missing
    requires config.dryRun ==> r.batches == []
    requires 0 < |batch| <= config.batchSize && Distinct(batch) && Members(batch) <= missing - r.seen
    requires |batch| < config.batchSize ==> Members(batch) == missing - r.seen
    requires PeakSound(world, r.peak, bound) && (world.soleProducer ==> |world.pending| + |batch| <= bound)
    requires QueueSound(world, r, config.dryRun, lookups, added)
    modifies world
    ensures world.Valid() && Sound(s, config, start, world.missing) && PeakSound(world, s.peak, bound)
    ensures QueueSound(world, s, config.dryRun, lookups, added)
    ensures s.batches == r.batches + [batch] && s.backlogs == r.backlogs && s.finished == config.dryRun
  {
    ghost var oldLookups, oldAdded := world.lookups, world.added;
    var seen, more, known, peak := ServeBatch(world, config.dryRun, batch, r.seen, r.peak, bound);
    StillSound(r, config, start, missing, batch, world.missing, more, known, peak);
    s := Report(r.batches + [batch], seen, r.enqueued + more, r.skipped + known, r.backlogs, peak, config.dryRun);
    if !config.dryRun {
      StillAsked(r, batch, lookups, added, oldLookups, oldAdded, world.lookups, world.added, more, known);
    }
  }

  /** One invocation, observed for `polls` rounds of its `while (true)`. It finishes unless
      every one of these rounds either waited, having counted a full backlog, or served a batch,
      and there are at most ceil(candidates / batchSize) batches to serve. */
  method Run(world: World, config: Config, polls: nat) returns (report: Report)
    requires world.Valid()
    modifies world
    ensures world.Valid()
    ensures Served(report.batches, report.seen, config.batchSize, world.missing)
    ensures report.seen <= old(world.missing)
    ensures config.batchSize > 0 ==> |report.batches| <= CeilDiv(|old(world.missing)|, config.batchSize)
    ensures !report.finished ==> polls == |report.backlogs| + |report.batches|
    ensures forall n <- report.backlogs :: n >= config.maxInflight
    ensures report.finished && config.batchSize > 0 && !(config.dryRun && report.batches != []) ==>
      world.missing <= report.seen
    ensures config.dryRun ==> |report.batches| <= 1
    ensures QueueSound(world, report, config.dryRun, old(world.lookups), old(world.added))
    ensures !config.dryRun ==> report.enqueued + report.skipped == |report.seen|
    ensures world.soleProducer ==>
      |world.pending| <= report.peak <= Max(|old(world.pending)|, config.maxInflight - 1 + config.batchSize)
  {
    report := Report([], {}, 0, 0, [], |world.pending|, world.missing == {});
    ghost var bound := Max(|world.pending|, config.maxInflight - 1 + config.batchSize);
    var poll := 0;
    while poll < polls && !report.finished
      invariant 0 <= poll <= polls && world.Valid()
      invariant Sound(report, config, old(world.missing), world.missing) && PeakSound(world, report.peak, bound)
      invariant QueueSound(world, report, config.dryRun, old(world.lookups), old(world.added))
      invariant !report.finished ==>
        poll == |report.backlogs| + |report.batches| && (config.dryRun ==> report.batches == [])
    {
      report := Round(world, config, report, old(world.missing), bound, old(world.lookups), old(world.added));
      poll := poll + 1;
    }
    BatchBound(report.batches, config.batchSize, report.seen, old(world.missing));
    MembersCount(Concat(report.batches));
  }
}
