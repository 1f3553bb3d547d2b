/** Runs in which every request is answered by the Lua script, possibly after a reload:
    what is admitted is then exact. */
module ScriptPath {
  import opened Collections
  import opened RedisModel
  import opened RateLimiter

  ghost predicate ScriptOnly(es: seq<Event>) {
    forall e <- es :: e.Act? ==> e.action == Eval(Replied) || e.action == Eval(NoScript)
  }

  ghost predicate SameLimit(s: State, key: string, limit: int) {
    forall id <- s.requests :: s.requests[id].key == key ==> s.requests[id].limit == limit
  }

  ghost predicate HasHit(s: State, key: string, since: int, number: nat) {
    exists h <- s.hits :: h.key == key && h.since == since && h.number == number
  }

  /** Counters always expire one TTL after they were created, hits are numbered without
      gaps, and each of them belongs to an answered request. */
  ghost predicate ScriptSane(s: State, key: string, ttl: Seconds) {
    && (key in s.db ==>
          && s.db[key].count >= 1 && s.db[key].expiry == Some(s.db[key].since + ttl * 1000)
          && HasHit(s, key, s.db[key].since, s.db[key].count))
    && (forall h <- s.hits :: h.key == key ==>
      && h.owner in s.requests && s.requests[h.owner].phase.Done? && s.requests[h.owner].phase.hit == h
      && (h.number > 1 ==> HasHit(s, key, h.since, h.number - 1)))
  }

  lemma HitsPersist(s: State, t: State, key: string)
    requires s.hits <= t.hits
    ensures forall since, number :: HasHit(s, key, since, number) ==> HasHit(t, key, since, number)
  {
  }

  lemma AnswerKeepsScriptSane(s: State, id: nat, key: string, ttl: Seconds)
    requires ScriptSane(s, key, ttl) && Uniform(s, key, ttl)
    requires id in s.requests && !s.requests[id].phase.Done?
    ensures ScriptSane(EvalStep(s, id, Replied), key, ttl)
  {
  }

  lemma StepKeepsScriptSane(s: State, e: Event, key: string, ttl: Seconds)
    requires ScriptSane(s, key, ttl) && Uniform(s, key, ttl) && ScriptOnly([e])
    ensures ScriptSane(Step(s, e), key, ttl)
  {
    assert [e][0] == e;
    HitsPersist(s, Step(s, e), key);
    if e.Act? && e.id in s.requests && (s.requests[e.id].phase.Evaluating? || s.requests[e.id].phase.Retrying?)
       && e.action == Eval(Replied) {
      AnswerKeepsScriptSane(s, e.id, key, ttl);
    }
  }

  lemma {:induction false} RunsAreScriptSane(es: seq<Event>, key: string, ttl: Seconds)
    requires ScriptOnly(es) && Uniform(Run(INITIAL, es), key, ttl)
    ensures ScriptSane(Run(INITIAL, es), key, ttl)
  {
    if es != [] {
      var s, e := Run(INITIAL, es[..|es| - 1]), es[|es| - 1];
      StepRemembers(s, e);
      RunsAreScriptSane(es[..|es| - 1], key, ttl);
      StepKeepsScriptSane(s, e, key, ttl);
    }
  }

  // ----- exact admission -----

  /** The answered requests that were counted in the window of `key` starting at `since`. */
  ghost function Counted(s: State, key: string, since: int): set<nat> {
    set id <- s.requests | s.requests[id].key == key && s.requests[id].phase.Done? && SinceOf(s, id) == since
  }

  /** Those of them let through no later than hit number `number`. */
  ghost function AdmittedUpTo(s: State, key: string, since: int, number: int): set<nat> {
    set id <- Counted(s, key, since) | Admitted(s.requests[id]) && NumberOf(s, id) <= number
  }

  lemma NumbersWithoutGaps(s: State, key: string, ttl: Seconds, since: int)
    requires KeySane(s, key, ttl) && Owned(s) && ScriptSane(s, key, ttl)
    ensures var ids, number := Counted(s, key, since), (id: nat) => NumberOf(s, id);
      && (forall a <- ids :: 1 <= number(a) <= |ids|)
      && (forall k :: 1 <= k <= |ids| ==> Takes(ids, number, k))
      && (forall a <- ids, b <- ids :: number(a) == number(b) ==> a == b)
  {
    var ids, number := Counted(s, key, since), (id: nat) => NumberOf(s, id);
    forall a <- ids ensures 1 <= number(a) && (1 < number(a) ==> Takes(ids, number, number(a) - 1)) {
      NumberBefore(s, key, ttl, since, a);
    }
    forall a <- ids, b <- ids | number(a) == number(b) ensures a == b {
      if a != b {
        HitsOfTwoRequests(s, key, ttl, a, b);
      }
    }
    RanksWithoutGaps(ids, number);
  }

  lemma NumberBefore(s: State, key: string, ttl: Seconds, since: int, a: nat)
    requires KeySane(s, key, ttl) && Owned(s) && ScriptSane(s, key, ttl) && a in Counted(s, key, since)
    ensures 1 <= NumberOf(s, a)
    ensures 1 < NumberOf(s, a) ==> exists b <- Counted(s, key, since) :: NumberOf(s, b) == NumberOf(s, a) - 1
  {
    var h := s.requests[a].phase.hit;
    assert HitSane(h, s.db[key], s.now, ttl);
    if 1 < h.number {
      var g :| g in s.hits && g.key == key && g.since == since && g.number == h.number - 1;
      assert OwnsHit(s.requests[g.owner], g.owner, s.hits);
      assert g.owner in Counted(s, key, since) && NumberOf(s, g.owner) == g.number;
    }
  }

  function Min(a: int, b: int): int {
    if a <= b then a else b
  }

  /** With one limit, a window of h hits lets exactly its first min(h, limit) hits through,
      and every response states the limit minus those let through so far. */
  lemma {:induction false} FirstHitsAdmitted(es: seq<Event>, key: string, ttl: Seconds, limit: nat, since: int, id: nat)
    requires ScriptOnly(es)
    requires Uniform(Run(INITIAL, es), key, ttl) && SameLimit(Run(INITIAL, es), key, limit)
    requires id in Counted(Run(INITIAL, es), key, since)
    ensures var s := Run(INITIAL, es);
      var h := |Counted(s, key, since)|;
      && 1 <= NumberOf(s, id) <= h
      && (Admitted(s.requests[id]) <==> NumberOf(s, id) <= Min(h, limit))
      && |AdmittedUpTo(s, key, since, h)| == Min(h, limit)
      && Remaining(limit, s.requests[id].phase.record) == limit - |AdmittedUpTo(s, key, since, NumberOf(s, id))|
  {
    var s := Run(INITIAL, es);
    RunsAreSane(es, key, ttl);
    RunsAreScriptSane(es, key, ttl);
    NumbersWithoutGaps(s, key, ttl, since);
    AdmittedCount(s, key, ttl, limit, since, |Counted(s, key, since)|);
    AdmittedCount(s, key, ttl, limit, since, NumberOf(s, id));
  }

  lemma AdmittedCount(s: State, key: string, ttl: Seconds, limit: nat, since: int, upTo: nat)
    requires KeySane(s, key, ttl) && Owned(s) && ScriptSane(s, key, ttl) && SameLimit(s, key, limit)
    requires upTo <= |Counted(s, key, since)|
    ensures |AdmittedUpTo(s, key, since, upTo)| == Min(upTo, limit)
  {
    var ids, number := Counted(s, key, since), (id: nat) => NumberOf(s, id);
    var through := AdmittedUpTo(s, key, since, upTo);
    NumbersWithoutGaps(s, key, ttl, since);
    forall k | 1 <= k <= Min(upTo, limit) ensures Takes(through, number, k) {
      assert Takes(ids, number, k);
      var id :| id in ids && number(id) == k;
      assert id in through;
    }
    DistinctRanksExact(through, number, Min(upTo, limit));
  }

  // ----- expiry -----

  /** Every live counter expires within a TTL, and no sooner than its window has lasted one. */
  lemma {:induction false} LiveCountersExpire(es: seq<Event>, key: string, ttl: Seconds)
    requires ScriptOnly(es) && Uniform(Run(INITIAL, es), key, ttl)
    ensures var s := Run(INITIAL, es);
      var seen := Peek(s.db, s.now, key);
      seen.Some? ==> seen.value.expiry.Some? && s.now < seen.value.expiry.value <= s.now + ttl * 1000
  {
    RunsAreSane(es, key, ttl);
    RunsAreScriptSane(es, key, ttl);
  }

  // ----- one hit per request -----

  /** Every hit is of the key of its request. */
  ghost predicate HitsKnown(s: State) {
    forall h <- s.hits :: h.owner in s.requests && s.requests[h.owner].key == h.key
  }

  lemma {:induction false} HitsAreKnown(es: seq<Event>)
    ensures HitsKnown(Run(INITIAL, es))
  {
    if es != [] {
      var s, e := Run(INITIAL, es[..|es| - 1]), es[|es| - 1];
      HitsAreKnown(es[..|es| - 1]);
      StepRemembers(s, e);
      StepKeepsKnown(s, e);
    }
  }

  lemma StepKeepsKnown(s: State, e: Event)
    requires HitsKnown(s) && Remembers(s, Step(s, e))
    ensures HitsKnown(Step(s, e))
  {
    if e.Act? && e.id in s.requests {
      ActionEffect(s, e.id, e.action);
    }
  }

  ghost predicate OnlyHitOf(s: State, id: nat, i: nat) {
    i < |s.hits| && forall j :: 0 <= j < |s.hits| ==> (s.hits[j].owner == id <==> j == i)
  }

  /** Whatever ran in between, and however often the script had to be reloaded, an answered
      request is counted exactly once: by the hit it was answered with. */
  lemma {:induction false} CountedOnce(es: seq<Event>, key: string, ttl: Seconds, id: nat)
    requires ScriptOnly(es) && Uniform(Run(INITIAL, es), key, ttl)
    requires id in Run(INITIAL, es).requests && Run(INITIAL, es).requests[id].key == key
    requires Run(INITIAL, es).requests[id].phase.Done?
    ensures var s := Run(INITIAL, es);
      exists i: nat :: OnlyHitOf(s, id, i) && s.hits[i] == s.requests[id].phase.hit
  {
    RunsAreSane(es, key, ttl);
    RunsAreScriptSane(es, key, ttl);
    HitsAreKnown(es);
    OneHit(Run(INITIAL, es), key, ttl, id);
  }

  lemma OneHit(s: State, key: string, ttl: Seconds, id: nat)
    requires KeySane(s, key, ttl) && Owned(s) && ScriptSane(s, key, ttl) && HitsKnown(s)
    requires id in s.requests && s.requests[id].key == key && s.requests[id].phase.Done?
    ensures exists i: nat :: OnlyHitOf(s, id, i) && s.hits[i] == s.requests[id].phase.hit
  {
    var h := s.requests[id].phase.hit;
    assert OwnsHit(s.requests[id], id, s.hits);
    var i: nat :| i < |s.hits| && s.hits[i] == h;
    forall j | 0 <= j < |s.hits| && s.hits[j].owner == id ensures j == i {
      assert s.hits[j] in s.hits && s.hits[j] == h;
    }
    assert OnlyHitOf(s, id, i);
  }
}
