/** When a window is over, told from the EXPIREs that ran on it, and hence when a rejected
    caller that waits Retry-After gets a new window. */
module RetryAfter {
  import opened Collections
  import opened RedisModel
  import opened RateLimiter
  import opened FallbackPath
  import opened ScriptPath

  /** The counter that the window started at `since` counted in is gone or counts another one. */
  ghost predicate WindowOver(s: State, key: string, since: int) {
    var seen := Peek(s.db, s.now, key);
    seen.Some? ==> seen.value.since != since
  }

  predicate OnWindow(a: Armed, key: string, since: int) {
    a.key == key && a.since == since
  }

  ghost predicate EverArmed(s: State, key: string, since: int) {
    exists a <- s.arms :: OnWindow(a, key, since)
  }

  ghost predicate NoneArmedAfter(s: State, key: string, since: int, time: int) {
    forall a <- s.arms :: OnWindow(a, key, since) ==> a.time <= time
  }

  /** Some EXPIRE ran on the window, and none after `time`. */
  ghost predicate ArmedUpTo(s: State, key: string, since: int, time: int) {
    EverArmed(s, key, since) && NoneArmedAfter(s, key, since, time)
  }

  /** The stored expiry is a TTL after the last EXPIRE on its window; there is none exactly if
      no EXPIRE ran on it. */
  ghost predicate ExpirySane(s: State, key: string, ttl: Seconds) {
    key in s.db ==>
      var e := s.db[key];
      match e.expiry
      case None => !EverArmed(s, key, e.since)
      case Some(x) => Armed(key, e.since, x - ttl * 1000) in s.arms && NoneArmedAfter(s, key, e.since, x - ttl * 1000)
  }

  /** Nothing was armed for windows to come, and windows before the stored one ran out. */
  ghost predicate PastSane(s: State, key: string, ttl: Seconds) {
    && (forall a <- s.arms :: a.key == key ==> key in s.db && a.since <= s.db[key].since && a.time <= s.now)
    && (forall h <- s.hits :: h.key == key && key in s.db && h.since < s.db[key].since ==>
          ArmedUpTo(s, key, h.since, s.db[key].since - ttl * 1000))
  }

  ghost predicate ArmsSane(s: State, key: string, ttl: Seconds) {
    ExpirySane(s, key, ttl) && PastSane(s, key, ttl)
  }

  lemma IncrKeepsArms(s: State, t: State, id: nat, key: string, ttl: Seconds)
    requires KeySane(s, key, ttl) && ArmsSane(s, key, ttl)
    requires t.now == s.now && t.db == Incr(s.db, s.now, key) && t.arms == s.arms
    requires t.hits == s.hits + [HitIn(t.db, s.now, id, key)]
    ensures ArmsSane(t, key, ttl)
  {
    forall h <- t.hits | h.key == key && h.since < t.db[key].since
      ensures ArmedUpTo(t, key, h.since, t.db[key].since - ttl * 1000)
    {
      assert h in s.hits;
      assert HitSane(h, s.db[key], s.now, ttl);
      if h.since < s.db[key].since {
        assert ArmedUpTo(s, key, h.since, s.db[key].since - ttl * 1000);
      } else {
        assert OnWindow(Armed(key, h.since, s.db[key].expiry.value - ttl * 1000), key, h.since);
      }
    }
  }

  lemma ExpireKeepsArms(s: State, t: State, key: string, ttl: Seconds)
    requires ArmsSane(s, key, ttl)
    requires t.now == s.now && t.hits == s.hits && t.db == Expire(s.db, s.now, key, ttl)
    requires t.arms == s.arms + ArmsIn(s.db, s.now, key)
    ensures ArmsSane(t, key, ttl)
  {
    if Peek(s.db, s.now, key).Some? {
      var a := Armed(key, s.db[key].since, s.now);
      assert t.arms == s.arms + [a];
      forall h <- t.hits | h.key == key && h.since < t.db[key].since
        ensures ArmedUpTo(t, key, h.since, t.db[key].since - ttl * 1000)
      {
        assert ArmedUpTo(s, key, h.since, s.db[key].since - ttl * 1000);
        var b :| b in s.arms && OnWindow(b, key, h.since);
        assert b in t.arms;
      }
    }
  }

  /** What a command on another key leaves alone. */
  ghost predicate OtherKey(s: State, t: State, key: string) {
    && s.now == t.now && (key in s.db <==> key in t.db) && (key in s.db ==> s.db[key] == t.db[key])
    && (forall h <- t.hits :: h.key == key ==> h in s.hits)
    && (forall a: Armed :: a.key == key ==> (a in s.arms <==> a in t.arms))
  }

  lemma OtherKeyKeepsArms(s: State, t: State, key: string, ttl: Seconds)
    requires ArmsSane(s, key, ttl) && OtherKey(s, t, key)
    ensures ArmsSane(t, key, ttl)
  {
    forall since ensures EverArmed(s, key, since) <==> EverArmed(t, key, since) {
      if a :| a in s.arms && OnWindow(a, key, since) {
        assert a in t.arms;
      }
      if a :| a in t.arms && OnWindow(a, key, since) {
        assert a in s.arms;
      }
    }
    forall h <- t.hits | h.key == key && key in t.db && h.since < t.db[key].since
      ensures ArmedUpTo(t, key, h.since, t.db[key].since - ttl * 1000)
    {
      assert h in s.hits && ArmedUpTo(s, key, h.since, s.db[key].since - ttl * 1000);
    }
  }

  lemma ScriptKeepsArms(s: State, id: nat, key: string, ttl: Seconds)
    requires KeySane(s, key, ttl) && ArmsSane(s, key, ttl) && Uniform(s, key, ttl) && id in s.requests
    ensures ArmsSane(RunScript(s, id), key, ttl)
  {
    var q, t := s.requests[id], RunScript(s, id);
    if q.key == key {
      var db := Incr(s.db, s.now, key);
      var counted := s.(db := db, hits := s.hits + [HitIn(db, s.now, id, key)]);
      IncrKeepsArms(s, counted, id, key, ttl);
      if db[key].count == 1 {
        ExpireKeepsArms(counted, t, key, ttl);
      }
    } else {
      OtherKeyKeepsArms(s, t, key, ttl);
    }
  }

  lemma MultiKeepsArms(s: State, id: nat, key: string, ttl: Seconds)
    requires KeySane(s, key, ttl) && ArmsSane(s, key, ttl) && id in s.requests
    ensures ArmsSane(RunMulti(s, id), key, ttl)
  {
    if s.requests[id].key == key {
      IncrKeepsArms(s, RunMulti(s, id), id, key, ttl);
    } else {
      OtherKeyKeepsArms(s, RunMulti(s, id), key, ttl);
    }
  }

  lemma RunExpireKeepsArms(s: State, id: nat, key: string, ttl: Seconds)
    requires ArmsSane(s, key, ttl) && Uniform(s, key, ttl) && id in s.requests
    ensures ArmsSane(RunExpire(s, id), key, ttl)
  {
    if s.requests[id].key == key {
      ExpireKeepsArms(s, RunExpire(s, id), key, ttl);
    } else {
      OtherKeyKeepsArms(s, RunExpire(s, id), key, ttl);
    }
  }

  lemma SameStoreArms(s: State, t: State, key: string, ttl: Seconds)
    requires ArmsSane(s, key, ttl) && SameStore(s, t)
    ensures ArmsSane(t, key, ttl)
  {
    OtherKeyKeepsArms(s, t, key, ttl);
  }

  lemma StepKeepsArms(s: State, e: Event, key: string, ttl: Seconds)
    requires KeySane(s, key, ttl) && ArmsSane(s, key, ttl) && Uniform(s, key, ttl)
    ensures ArmsSane(Step(s, e), key, ttl)
  {
    var t := Step(s, e);
    if e.Act? && e.id in s.requests {
      ActionEffect(s, e.id, e.action);
      if SameStore(s, t) {
        SameStoreArms(s, t, key, ttl);
      } else if SameStore(RunScript(s, e.id), t) {
        ScriptKeepsArms(s, e.id, key, ttl);
        SameStoreArms(RunScript(s, e.id), t, key, ttl);
      } else if SameStore(RunMulti(s, e.id), t) {
        MultiKeepsArms(s, e.id, key, ttl);
        SameStoreArms(RunMulti(s, e.id), t, key, ttl);
      } else {
        RunExpireKeepsArms(s, e.id, key, ttl);
        SameStoreArms(RunExpire(s, e.id), t, key, ttl);
      }
    } else if e.Tick? {
      LaterKeepsArms(s, e.d, key, ttl);
    }
  }

  lemma LaterKeepsArms(s: State, d: nat, key: string, ttl: Seconds)
    requires ArmsSane(s, key, ttl)
    ensures ArmsSane(s.(now := s.now + d), key, ttl)
  {
    var t := s.(now := s.now + d);
    forall h <- s.hits | h.key == key && key in s.db && h.since < s.db[key].since
      ensures ArmedUpTo(t, key, h.since, s.db[key].since - ttl * 1000)
    {
      assert ArmedUpTo(s, key, h.since, s.db[key].since - ttl * 1000);
    }
  }

  lemma {:induction false} RunsKeepArms(es: seq<Event>, key: string, ttl: Seconds)
    requires Uniform(Run(INITIAL, es), key, ttl)
    ensures ArmsSane(Run(INITIAL, es), key, ttl)
  {
    if es != [] {
      var s, e := Run(INITIAL, es[..|es| - 1]), es[|es| - 1];
      StepRemembers(s, e);
      RunsAreSane(es[..|es| - 1], key, ttl);
      RunsKeepArms(es[..|es| - 1], key, ttl);
      StepKeepsArms(s, e, key, ttl);
    }
  }

  /** In every run a window that was hit is over if and only if some EXPIRE ran on it and none
      within the last TTL. */
  lemma {:induction false} WindowOverIff(es: seq<Event>, key: string, ttl: Seconds, h: Hit)
    requires Uniform(Run(INITIAL, es), key, ttl)
    requires h in Run(INITIAL, es).hits && h.key == key
    ensures var s := Run(INITIAL, es);
      WindowOver(s, key, h.since) <==> ArmedUpTo(s, key, h.since, s.now - ttl * 1000)
  {
    RunsAreSane(es, key, ttl);
    RunsKeepArms(es, key, ttl);
    OverIff(Run(INITIAL, es), key, ttl, h);
  }

  lemma OverIff(s: State, key: string, ttl: Seconds, h: Hit)
    requires KeySane(s, key, ttl) && ArmsSane(s, key, ttl) && h in s.hits && h.key == key
    ensures WindowOver(s, key, h.since) <==> ArmedUpTo(s, key, h.since, s.now - ttl * 1000)
  {
    var e := s.db[key];
    assert HitSane(h, e, s.now, ttl);
    if h.since < e.since {
      assert ArmedUpTo(s, key, h.since, e.since - ttl * 1000);
    } else if e.expiry.Some? {
      assert OnWindow(Armed(key, e.since, e.expiry.value - ttl * 1000), key, h.since);
    }
  }

  /** A request counted at time t, in particular a rejected one, that comes back Retry-After
      later finds its window over if and only if some EXPIRE ran on that window and none ran
      on it after t. */
  lemma {:induction false} RetryAfterIff(es: seq<Event>, key: string, ttl: Seconds, id: nat)
    requires Uniform(Run(INITIAL, es), key, ttl)
    requires id in Run(INITIAL, es).requests && Run(INITIAL, es).requests[id].key == key
    requires Run(INITIAL, es).requests[id].phase.Done?
    requires Run(INITIAL, es).now == Run(INITIAL, es).requests[id].phase.hit.time + ttl * 1000
    ensures var s := Run(INITIAL, es);
      var hit := s.requests[id].phase.hit;
      WindowOver(s, key, hit.since) <==> ArmedUpTo(s, key, hit.since, hit.time)
  {
    RunsAreSane(es, key, ttl);
    WindowOverIff(es, key, ttl, Run(INITIAL, es).requests[id].phase.hit);
  }

  // ----- runs on the script path -----

  /** Every window was armed when it began, and never again. */
  ghost predicate ArmedAtStart(s: State, key: string) {
    && (forall a <- s.arms :: a.key == key ==> a.time == a.since)
    && (forall h <- s.hits :: h.key == key ==> Armed(key, h.since, h.since) in s.arms)
  }

  lemma ScriptStepArmsAtStart(s: State, e: Event, key: string, ttl: Seconds)
    requires ScriptSane(s, key, ttl) && ArmedAtStart(s, key) && ScriptOnly([e])
    ensures ArmedAtStart(Step(s, e), key)
  {
    assert [e][0] == e;
    if e.Act? && e.id in s.requests && s.requests[e.id].key == key && key in s.db {
      var h :| h in s.hits && h.key == key && h.since == s.db[key].since && h.number == s.db[key].count;
    }
  }

  lemma {:induction false} ScriptRunsArmAtStart(es: seq<Event>, key: string, ttl: Seconds)
    requires ScriptOnly(es) && Uniform(Run(INITIAL, es), key, ttl)
    ensures ArmedAtStart(Run(INITIAL, es), key)
  {
    if es != [] {
      var s, e := Run(INITIAL, es[..|es| - 1]), es[|es| - 1];
      StepRemembers(s, e);
      RunsAreScriptSane(es[..|es| - 1], key, ttl);
      ScriptRunsArmAtStart(es[..|es| - 1], key, ttl);
      ScriptStepArmsAtStart(s, e, key, ttl);
    }
  }

  /** So on script-only runs, whoever waits Retry-After or longer never meets the same window
      again: the counter is gone, or counts a window that began after the hit. */
  lemma {:induction false} RetryAfterOutlastsWindow(es: seq<Event>, key: string, ttl: Seconds, id: nat)
    requires ScriptOnly(es) && Uniform(Run(INITIAL, es), key, ttl)
    requires id in Run(INITIAL, es).requests && Run(INITIAL, es).requests[id].key == key
    requires Run(INITIAL, es).requests[id].phase.Done?
    requires Run(INITIAL, es).now >= Run(INITIAL, es).requests[id].phase.hit.time + ttl * 1000
    ensures var s := Run(INITIAL, es);
      var seen := Peek(s.db, s.now, key);
      seen.Some? ==> seen.value.since > s.requests[id].phase.hit.time
  {
    var s := Run(INITIAL, es);
    var hit := s.requests[id].phase.hit;
    RunsAreSane(es, key, ttl);
    ScriptRunsArmAtStart(es, key, ttl);
    assert HitSane(hit, s.db[key], s.now, ttl);
    assert OnWindow(Armed(key, hit.since, hit.since), key, hit.since);
    WindowOverIff(es, key, ttl, hit);
  }

  // ----- runs on which it fails -----

  /** The first request on `key` counts through the fallback and has its EXPIRE still to come. */
  function SlowStart(key: string, ttl: Seconds): seq<Event> {
    [Arrive(0, key, ttl, 1), Act(0, Eval(Refused)), Act(0, Exec(Replied))]
  }

  /** A second request, answered by the script. */
  function NextRequest(key: string, ttl: Seconds): seq<Event> {
    [Arrive(1, key, ttl, 1), Act(1, Eval(Replied))]
  }

  /** The first request's EXPIRE comes a whole TTL after the second one was rejected. */
  function LateExpire(key: string, ttl: Seconds): seq<Event> {
    SlowStart(key, ttl) + NextRequest(key, ttl) + [Tick(ttl * 1000), Act(0, Arm(Replied))]
  }

  /** The first request's EXPIRE is lost before it reaches Redis; then time passes. */
  function LostExpire(key: string, ttl: Seconds, d: nat): seq<Event> {
    SlowStart(key, ttl) + [Act(0, Arm(Refused))] + NextRequest(key, ttl) + [Tick(d)]
  }

  /** One hit, no EXPIRE, and request 0 alone. */
  ghost predicate Unarmed(s: State, key: string, ttl: Seconds) {
    && s.now == 0 && key in s.db && s.db[key] == Entry(1, 0, None)
    && s.hits == [Hit(0, key, 0, 0, 1)] && s.arms == []
    && s.requests.Keys == {0} && s.requests[0].key == key && s.requests[0].ttl == ttl
  }

  /** Request 1 was rejected at time 0, on a window without any EXPIRE. */
  ghost predicate Rejected(s: State, key: string, ttl: Seconds) {
    && key in s.db && s.db[key] == Entry(2, 0, None) && s.arms == []
    && s.requests.Keys == {0, 1} && Uniform(s, key, ttl) && s.requests[1].key == key
    && s.requests[1].phase.Done? && !Admitted(s.requests[1]) && s.requests[1].phase.hit == Hit(1, key, 0, 0, 2)
  }

  lemma SlowStartIsUnarmed(key: string, ttl: Seconds)
    ensures var s := Run(INITIAL, SlowStart(key, ttl));
      Unarmed(s, key, ttl) && s.requests[0].phase.Arming?
  {
    var r := Step(INITIAL, Arrive(0, key, ttl, 1));
    var s := Step(r, Act(0, Eval(Refused)));
    RunThree(INITIAL, Arrive(0, key, ttl, 1), Act(0, Eval(Refused)), Act(0, Exec(Replied)));
    assert r.requests == map[0 := Request(key, ttl, 1, Evaluating)];
    assert s.requests == map[0 := Request(key, ttl, 1, FallingBack)] && s.db == map[];
    assert Step(s, Act(0, Exec(Replied))) == ExecStep(s, 0, Replied);
  }

  lemma NextIsRejected(s: State, key: string, ttl: Seconds)
    requires Unarmed(s, key, ttl)
    ensures var t := Run(s, NextRequest(key, ttl));
      && Rejected(t, key, ttl) && t.now == 0 && t.requests[0] == s.requests[0]
      && t.requests[1].phase.hit in t.hits
  {
    RunTwoFromStart(s, Arrive(1, key, ttl, 1), Act(1, Eval(Replied)));
    var t := Step(s, Arrive(1, key, ttl, 1));
    assert t.requests[1] == Request(key, ttl, 1, Evaluating);
    assert Step(t, Act(1, Eval(Replied))) == EvalStep(t, 1, Replied);
  }

  /** The late EXPIRE finds the window of the rejected request. */
  lemma LateArm(s: State, key: string, ttl: Seconds)
    requires Rejected(s, key, ttl) && s.now == 0 && s.requests[0].key == key && s.requests[0].phase.Arming?
    ensures var t := Run(s, [Tick(ttl * 1000), Act(0, Arm(Replied))]);
      && t.now == ttl * 1000 && t.arms == [Armed(key, 0, ttl * 1000)]
      && Uniform(t, key, ttl) && 1 in t.requests && t.requests[1] == s.requests[1]
  {
    RunTwoFromStart(s, Tick(ttl * 1000), Act(0, Arm(Replied)));
    var t := Step(s, Tick(ttl * 1000));
    assert Step(t, Act(0, Arm(Replied))) == ArmStep(t, 0, Replied);
  }

  /** A late EXPIRE: the caller rejected at time 0 waits its TTL and meets the same window,
      because an EXPIRE ran on it after the rejection. */
  lemma LateExpireFails(key: string, ttl: Seconds)
    ensures var s := Run(INITIAL, LateExpire(key, ttl));
      && Uniform(s, key, ttl) && 1 in s.requests && s.requests[1].phase.Done? && !Admitted(s.requests[1])
      && s.requests[1].phase.hit.time == 0 && s.now == ttl * 1000
      && s.arms == [Armed(key, 0, s.now)] && !WindowOver(s, key, s.requests[1].phase.hit.since)
  {
    var start, next := SlowStart(key, ttl), NextRequest(key, ttl);
    var last := [Tick(ttl * 1000), Act(0, Arm(Replied))];
    SlowStartIsUnarmed(key, ttl);
    NextIsRejected(Run(INITIAL, start), key, ttl);
    RunAppend(INITIAL, start, next);
    RunAppend(INITIAL, start + next, last);
    LateArm(Run(INITIAL, start + next), key, ttl);
    RetryAfterIff(LateExpire(key, ttl), key, ttl, 1);
  }

  lemma StillUnarmed(es: seq<Event>, key: string, ttl: Seconds)
    requires Unarmed(Run(INITIAL, es), key, ttl) && Run(INITIAL, es).requests[0].phase.Arming?
    ensures Unarmed(Run(INITIAL, es + [Act(0, Arm(Refused))]), key, ttl)
  {
    RunAppend(INITIAL, es, [Act(0, Arm(Refused))]);
    RunOne(Run(INITIAL, es), Act(0, Arm(Refused)));
  }

  lemma StillRejected(es: seq<Event>, key: string, ttl: Seconds, d: nat)
    requires Unarmed(Run(INITIAL, es), key, ttl)
    ensures var s := Run(INITIAL, es + NextRequest(key, ttl) + [Tick(d)]);
      Rejected(s, key, ttl) && s.now == d && s.requests[1].phase.hit in s.hits
  {
    NextIsRejected(Run(INITIAL, es), key, ttl);
    RunAppend(INITIAL, es, NextRequest(key, ttl));
    RunAppend(INITIAL, es + NextRequest(key, ttl), [Tick(d)]);
    RunOne(Run(INITIAL, es + NextRequest(key, ttl)), Tick(d));
  }

  lemma LostExpireRun(key: string, ttl: Seconds, d: nat)
    ensures var s := Run(INITIAL, LostExpire(key, ttl, d));
      Rejected(s, key, ttl) && s.now == d && s.requests[1].phase.hit in s.hits
  {
    SlowStartIsUnarmed(key, ttl);
    StillUnarmed(SlowStart(key, ttl), key, ttl);
    StillRejected(SlowStart(key, ttl) + [Act(0, Arm(Refused))], key, ttl, d);
  }

  /** A lost EXPIRE: however long the rejected caller waits, its window is never over, because
      no EXPIRE ever ran on it. */
  lemma LostExpireFails(key: string, ttl: Seconds, d: nat)
    ensures var s := Run(INITIAL, LostExpire(key, ttl, d));
      && Uniform(s, key, ttl) && 1 in s.requests && s.requests[1].phase.Done? && !Admitted(s.requests[1])
      && s.requests[1].phase.hit.time == 0 && s.now == d
      && s.arms == [] && !WindowOver(s, key, s.requests[1].phase.hit.since)
  {
    LostExpireRun(key, ttl, d);
    WindowOverIff(LostExpire(key, ttl, d), key, ttl, Hit(1, key, 0, 0, 2));
  }
}
