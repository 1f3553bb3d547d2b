/** The MULTI fallback and the NOSCRIPT reload, compared with one plain script call. */
module FallbackPath {
  import opened RedisModel
  import opened RateLimiter

  /** A request answered by the script at once. */
  function ByScript(s: State, id: nat): State {
    Run(s, [Act(id, Eval(Replied))])
  }

  /** A request whose script call fails, answered by the fallback with nothing in between. */
  function ByFallback(s: State, id: nat): State {
    Run(s, [Act(id, Eval(Refused)), Act(id, Exec(Replied)), Act(id, Arm(Replied))])
  }

  lemma RunOne(s: State, a: Event)
    ensures Run(s, [a]) == Step(s, a)
  {
  }

  lemma RunTwoFromStart(s: State, a: Event, b: Event)
    ensures Run(s, [a, b]) == Step(Step(s, a), b)
  {
    RunTwo(s, [], a, b);
    assert [] + [a, b] == [a, b];
  }

  lemma RunThree(s: State, a: Event, b: Event, c: Event)
    ensures Run(s, [a, b, c]) == Step(Step(Step(s, a), b), c)
  {
    RunOne(s, a);
    RunTwo(s, [a], b, c);
    assert [a] + [b, c] == [a, b, c];
  }

  lemma ScriptResult(s: State, id: nat)
    requires id in s.requests && s.requests[id].phase.Evaluating?
    ensures ByScript(s, id) == EvalStep(s, id, Replied)
  {
    RunOne(s, Act(id, Eval(Replied)));
  }

  lemma FallbackResult(s: State, id: nat)
    requires id in s.requests && s.requests[id].phase.Evaluating?
    ensures var t := ExecStep(SetPhase(s, id, FallingBack), id, Replied);
      ByFallback(s, id) == if t.requests[id].phase.Arming? then ArmStep(t, id, Replied) else t
  {
    RunThree(s, Act(id, Eval(Refused)), Act(id, Exec(Replied)), Act(id, Arm(Replied)));
  }

  /** Run alone, the fallback leaves the same counter, log and returned record as the
      script exactly when the key has no live counter or Redis reports at least one
      second of remaining TTL for it. */
  lemma FallbackMatchesScript(s: State, id: nat)
    requires id in s.requests && s.requests[id].phase.Evaluating?
    requires var seen := Peek(s.db, s.now, s.requests[id].key); seen.Some? ==> seen.value.count >= 1
    ensures ByFallback(s, id) == ByScript(s, id)
      <==> Peek(s.db, s.now, s.requests[id].key).None? || Ttl(s.db, s.now, s.requests[id].key) >= 1
  {
    if Peek(s.db, s.now, s.requests[id].key).None? {
      MatchWithoutCounter(s, id);
    } else if Ttl(s.db, s.now, s.requests[id].key) >= 1 {
      MatchWithTtl(s, id);
    } else {
      NoMatchOtherwise(s, id);
    }
  }

  lemma MatchWithoutCounter(s: State, id: nat)
    requires id in s.requests && s.requests[id].phase.Evaluating? && Peek(s.db, s.now, s.requests[id].key).None?
    ensures ByFallback(s, id) == ByScript(s, id)
  {
    ScriptResult(s, id);
    FallbackResult(s, id);
    var a, b := ByScript(s, id), ByFallback(s, id);
    assert a.db[s.requests[id].key] == b.db[s.requests[id].key];
    assert a.db == b.db;
    assert a.requests == b.requests;
  }

  lemma MatchWithTtl(s: State, id: nat)
    requires id in s.requests && s.requests[id].phase.Evaluating? && Ttl(s.db, s.now, s.requests[id].key) >= 1
    requires var seen := Peek(s.db, s.now, s.requests[id].key); seen.Some? ==> seen.value.count >= 1
    ensures ByFallback(s, id) == ByScript(s, id)
  {
    ScriptResult(s, id);
    FallbackResult(s, id);
    assert ByScript(s, id).requests == ByFallback(s, id).requests;
  }

  lemma NoMatchOtherwise(s: State, id: nat)
    requires id in s.requests && s.requests[id].phase.Evaluating? && Ttl(s.db, s.now, s.requests[id].key) < 1
    requires var seen := Peek(s.db, s.now, s.requests[id].key); seen.Some? && seen.value.count >= 1
    ensures ByFallback(s, id) != ByScript(s, id)
  {
    ScriptResult(s, id);
    FallbackResult(s, id);
    assert ByScript(s, id).db[s.requests[id].key].expiry != ByFallback(s, id).db[s.requests[id].key].expiry;
  }

  /** A NOSCRIPT answer, a reload and a retry come to the same as one script call:
      the request is counted once. */
  lemma NoScriptRetryCountsOnce(s: State, id: nat)
    requires id in s.requests && s.requests[id].phase.Evaluating?
    ensures Run(s, [Act(id, Eval(NoScript)), Act(id, Eval(Replied))]) == ByScript(s, id)
    ensures |ByScript(s, id).hits| == |s.hits| + 1
  {
    RunTwoFromStart(s, Act(id, Eval(NoScript)), Act(id, Eval(Replied)));
    ScriptResult(s, id);
    assert s.requests[id := s.requests[id].(phase := Retrying)][id := s.requests[id].(phase := ByScript(s, id).requests[id].phase)]
      == s.requests[id := s.requests[id].(phase := ByScript(s, id).requests[id].phase)];
  }

  /** However late the EXPIRE of a fallback comes, it never makes a counter expire earlier. */
  lemma {:induction false} LateExpireNeverShortens(es: seq<Event>, id: nat, key: string, ttl: Seconds, outcome: Outcome)
    requires Uniform(Run(INITIAL, es), key, ttl)
    ensures var s := Run(INITIAL, es);
      var t := Step(s, Act(id, Arm(outcome)));
      match Peek(s.db, s.now, key)
      case None => t.db == s.db || (id in s.requests && s.requests[id].key != key)
      case Some(e) =>
        && key in t.db && t.db[key].count == e.count && t.db[key].since == e.since
        && (e.expiry.Some? ==> t.db[key].expiry.Some? && e.expiry.value <= t.db[key].expiry.value)
  {
    RunsAreSane(es, key, ttl);
  }
}
