/** The storage service and the guard as the program runs them: objects whose fields and
    whose Redis change call by call. */
module ThrottlerStorage {
  import opened Collections
  import opened RedisModel
  import opened RateLimiter

  class RedisServer {
    var now: int
    var db: Db

    constructor ()
      ensures now == 0 && db == map[]
    {
      now, db := 0, map[];
    }
  }

  /** What the network and the server make of each call of one `increment`. */
  datatype Weather = Weather(load: bool, eval: Outcome, reload: bool, retry: Outcome, exec: Outcome, expire: Outcome)

  datatype Result<+T> = Ok(value: T) | Error

  const SHA := "incrWithTtlScript"

  /** The one request that `increment` serves, before it has called Redis. */
  function Alone(now: int, db: Db, key: string, ttl: Seconds, limit: int): State {
    State(now, db, map[0 := Request(key, ttl, limit, Evaluating)], [], [])
  }

  /** EVALSHA is never sent when the script could not be loaded. */
  function Evaluated(loaded: bool, outcome: Outcome): Outcome {
    if loaded then outcome else Refused
  }

  /** The same calls as one request's run of the interleaved model. */
  function Calls(sha: Option<string>, w: Weather): seq<Event> {
    [ Act(0, Eval(Evaluated(sha.Some? || w.load, w.eval))), Act(0, Eval(Evaluated(w.reload, w.retry))),
      Act(0, Exec(w.exec)), Act(0, Arm(w.expire)) ]
  }

  class ThrottlerStorageRedisService {
    var scriptSha: Option<string>
    const redis: RedisServer

    constructor (redis: RedisServer)
      ensures this.redis == redis && scriptSha == None
    {
      this.redis := redis;
      scriptSha := None;
    }

    method LoadScript(answered: bool) returns (loaded: bool)
      modifies this`scriptSha
      ensures loaded == (old(scriptSha).Some? || answered)
      ensures scriptSha == if old(scriptSha).None? && answered then Some(SHA) else old(scriptSha)
    {
      if scriptSha.None? && answered {
        scriptSha := Some(SHA);
      }
      loaded := scriptSha.Some?;
    }

    /** EVALSHA of the script; `hits` and `ttl` are what its reply carries. */
    method EvalSha(key: string, ttl: Seconds, outcome: Outcome) returns (hits: nat, remaining: int)
      modifies redis
      ensures redis.now == old(redis.now)
      ensures redis.db == if outcome.Replied? || outcome.Lost? then IncrWithTtl(old(redis.db), redis.now, key, ttl) else old(redis.db)
      ensures outcome.Replied? ==> hits == redis.db[key].count && remaining == Ttl(redis.db, redis.now, key)
    {
      hits, remaining := 0, 0;
      if outcome.Replied? || outcome.Lost? {
        redis.db := Incr(redis.db, redis.now, key);
        hits := redis.db[key].count;
        if hits == 1 {
          redis.db := Expire(redis.db, redis.now, key, ttl);
        }
        remaining := Ttl(redis.db, redis.now, key);
      }
    }

    /** MULTI, INCR, TTL, EXEC and, for a counter without TTL, EXPIRE; `s` is the run so far. */
    method Fallback(ghost s: State, key: string, ttl: Seconds, limit: int, w: Weather) returns (r: Result<Record>)
      requires s.now == redis.now && s.db == redis.db
      requires 0 in s.requests && s.requests[0] == Request(key, ttl, limit, FallingBack)
      modifies redis
      ensures redis.now == old(redis.now)
      ensures ResultOf(FallbackPart(s, w), redis.db, r)
    {
      if w.exec.Refused? || w.exec.NoScript? {
        return Error;
      }
      redis.db := Incr(redis.db, redis.now, key);
      if w.exec.Lost? {
        return Error;
      }
      var count := redis.db[key].count;
      var ttlSeen := Ttl(redis.db, redis.now, key);
      var currentTtl := if ttlSeen == 0 then -1 else ttlSeen;
      if currentTtl == -1 {
        if w.expire.Replied? || w.expire.Lost? {
          redis.db := Expire(redis.db, redis.now, key, ttl);
        }
        if !w.expire.Replied? {
          return Error;
        }
      }
      return Ok(MakeRecord(count, if currentTtl > 0 then currentTtl else ttl, limit));
    }

    /** The script path with its NOSCRIPT retry; no record means that it failed. */
    method CallScript(ghost s: State, key: string, ttl: Seconds, limit: int, w: Weather) returns (r: Option<Record>)
      requires s.now == redis.now && s.db == redis.db
      requires 0 in s.requests && s.requests[0] == Request(key, ttl, limit, Evaluating)
      modifies this`scriptSha, redis
      ensures redis.now == old(redis.now) && scriptSha == ShaAfter(old(scriptSha), w)
      ensures ScriptResultOf(ScriptPart(s, old(scriptSha), w), redis.now, redis.db, s.requests[0], r)
    {
      var loaded := LoadScript(w.load);
      if loaded {
        var totalHits, remainingTtl := EvalSha(key, ttl, w.eval);
        if w.eval.Replied? {
          return Some(MakeRecord(totalHits, remainingTtl, limit));
        }
        if w.eval.NoScript? {
          scriptSha := None;
          loaded := LoadScript(w.reload);
          if loaded {
            totalHits, remainingTtl := EvalSha(key, ttl, w.retry);
            if w.retry.Replied? {
              return Some(MakeRecord(totalHits, remainingTtl, limit));
            }
          }
        }
      }
      return None;
    }

    /** `increment` does to the counters, and returns, what its one request comes to in
        the interleaved model when no other request runs in between. */
    method Increment(key: string, ttl: Seconds, limit: int, w: Weather) returns (r: Result<Record>)
      modifies this`scriptSha, redis
      ensures redis.now == old(redis.now)
      ensures ResultOf(Run(Alone(redis.now, old(redis.db), key, ttl, limit), Calls(old(scriptSha), w)), redis.db, r)
      ensures scriptSha == ShaAfter(old(scriptSha), w)
    {
      ghost var s := Alone(redis.now, redis.db, key, ttl, limit);
      ghost var sha := scriptSha;
      CallsInOrder(s, sha, w);
      var record := CallScript(s, key, ttl, limit, w);
      if record.Some? {
        return Ok(record.value);
      }
      r := Fallback(ScriptPart(s, sha, w), key, ttl, limit, w);
    }
  }

  /** The run of request 0 up to its last EVALSHA. */
  function ScriptPart(s: State, sha: Option<string>, w: Weather): State
    requires 0 in s.requests
  {
    var outcome := Evaluated(sha.Some? || w.load, w.eval);
    if outcome.NoScript?
    then EvalStep(SetPhase(s, 0, Retrying), 0, Evaluated(w.reload, w.retry))
    else EvalStep(s, 0, outcome)
  }

  /** The run of request 0 from its MULTI on. */
  function FallbackPart(s: State, w: Weather): State
    requires 0 in s.requests
  {
    var t := ExecStep(s, 0, w.exec);
    if t.requests[0].phase.Arming? then ArmStep(t, 0, w.expire) else t
  }

  lemma CallsInOrder(s: State, sha: Option<string>, w: Weather)
    requires 0 in s.requests && s.requests[0].phase.Evaluating?
    ensures var t := ScriptPart(s, sha, w);
      && (t.requests[0].phase.Done? || t.requests[0].phase.FallingBack?)
      && Run(s, Calls(sha, w)) == if t.requests[0].phase.Done? then t else FallbackPart(t, w)
  {
    var calls := Calls(sha, w);
    RunFour(s, calls[0], calls[1], calls[2], calls[3]);
    FirstCalls(s, sha, w);
    LastCalls(ScriptPart(s, sha, w), w);
  }

  lemma FirstCalls(s: State, sha: Option<string>, w: Weather)
    requires 0 in s.requests && s.requests[0].phase.Evaluating?
    ensures var t, calls := ScriptPart(s, sha, w), Calls(sha, w);
      && 0 in t.requests && (t.requests[0].phase.Done? || t.requests[0].phase.FallingBack?)
      && Step(Step(s, calls[0]), calls[1]) == t
  {
  }

  lemma LastCalls(t: State, w: Weather)
    requires 0 in t.requests && (t.requests[0].phase.Done? || t.requests[0].phase.FallingBack?)
    ensures Step(Step(t, Act(0, Exec(w.exec))), Act(0, Arm(w.expire)))
      == if t.requests[0].phase.Done? then t else FallbackPart(t, w)
  {
  }

  /** The cached SHA survives unless a NOSCRIPT answer dropped it and the reload failed. */
  function ShaAfter(sha: Option<string>, w: Weather): Option<string> {
    var loaded := if sha.None? && w.load then Some(SHA) else sha;
    if loaded.Some? && w.eval.NoScript? then (if w.reload then Some(SHA) else None) else loaded
  }

  /** The script calls of request `q` ended with this database, and with this record or none. */
  predicate ScriptResultOf(s: State, now: int, db: Db, q: Request, r: Option<Record>) {
    && s.now == now && s.db == db && 0 in s.requests && s.requests[0] == q.(phase := s.requests[0].phase)
    && match s.requests[0].phase
       case Done(_, record) => r == Some(record)
       case FallingBack => r == None
       case _ => false
  }

  /** The run ended with this database and this answer. */
  predicate ResultOf(s: State, db: Db, r: Result<Record>) {
    && s.db == db && 0 in s.requests
    && match s.requests[0].phase
       case Done(_, record) => r == Ok(record)
       case Failed => r == Error
       case _ => false
  }

  lemma RunFour(s: State, a: Event, b: Event, c: Event, d: Event)
    ensures Run(s, [a, b, c, d]) == Step(Step(Step(Step(s, a), b), c), d)
  {
    RunTwo(s, [], a, b);
    RunTwo(s, [a, b], c, d);
    assert [] + [a, b] == [a, b] && [a, b] + [c, d] == [a, b, c, d];
  }

  lemma CallsKeepRequest(now: int, db: Db, key: string, ttl: Seconds, limit: int, sha: Option<string>, w: Weather)
    ensures var s := Run(Alone(now, db, key, ttl, limit), Calls(sha, w));
      && 0 in s.requests && s.requests[0].limit == limit
  {
    var s0, calls := Alone(now, db, key, ttl, limit), Calls(sha, w);
    RunFour(s0, calls[0], calls[1], calls[2], calls[3]);
    var s1 := Step(s0, calls[0]);
    var s2 := Step(s1, calls[1]);
    var s3 := Step(s2, calls[2]);
    StepRemembers(s0, calls[0]);
    StepRemembers(s1, calls[1]);
    StepRemembers(s2, calls[2]);
    StepRemembers(s3, calls[3]);
  }

  /** The script answered, at once or after the one reload. */
  predicate ScriptAnswers(sha: Option<string>, w: Weather) {
    (sha.Some? || w.load) && (w.eval.Replied? || (w.eval.NoScript? && w.reload && w.retry.Replied?))
  }

  /** A request fails only if neither path answers: never when the script does, always when the
      MULTI after it does not, and never when MULTI and EXPIRE do. */
  lemma WhenItFails(now: int, db: Db, key: string, ttl: Seconds, limit: int, sha: Option<string>, w: Weather)
    ensures var s := Run(Alone(now, db, key, ttl, limit), Calls(sha, w));
      && 0 in s.requests
      && (s.requests[0].phase.Done? || s.requests[0].phase.Failed?)
      && (ScriptAnswers(sha, w) ==> s.requests[0].phase.Done?)
      && (!ScriptAnswers(sha, w) && !w.exec.Replied? ==> s.requests[0].phase.Failed?)
      && (w.exec.Replied? && w.expire.Replied? ==> s.requests[0].phase.Done?)
  {
    var alone := Alone(now, db, key, ttl, limit);
    CallsInOrder(alone, sha, w);
    WhenTheScriptAnswers(alone, sha, w);
    var t := ScriptPart(alone, sha, w);
    if t.requests[0].phase.FallingBack? {
      WhenTheFallbackAnswers(t, w);
    }
  }

  lemma WhenTheScriptAnswers(s: State, sha: Option<string>, w: Weather)
    requires 0 in s.requests && s.requests[0].phase.Evaluating?
    ensures var t := ScriptPart(s, sha, w);
      0 in t.requests && (if ScriptAnswers(sha, w) then t.requests[0].phase.Done? else t.requests[0].phase.FallingBack?)
  {
  }

  lemma WhenTheFallbackAnswers(s: State, w: Weather)
    requires 0 in s.requests
    ensures var t := FallbackPart(s, w);
      && 0 in t.requests && (t.requests[0].phase.Done? || t.requests[0].phase.Failed?)
      && (!w.exec.Replied? ==> t.requests[0].phase.Failed?)
      && (w.exec.Replied? && w.expire.Replied? ==> t.requests[0].phase.Done?)
  {
  }

  /** The number of hits that a counter stands at after one more. */
  function OneHitMore(db: Db, now: int, key: string): nat {
    if Peek(db, now, key).Some? then Peek(db, now, key).value.count + 1 else 1
  }

  /** What a request that the script answers leaves: its counter one higher, with a whole TTL from
      now to live if this was its first hit; and a record of that count, of whether it is above the
      limit, and of the time to live within half a second. */
  lemma AnsweredByScript(now: int, db: Db, key: string, ttl: Seconds, limit: int, sha: Option<string>, w: Weather)
    requires ScriptAnswers(sha, w)
    ensures var s := Run(Alone(now, db, key, ttl, limit), Calls(sha, w));
      && 0 in s.requests && s.requests[0].phase.Done? && key in s.db
      && s.requests[0].phase.record.totalHits == s.db[key].count == OneHitMore(db, now, key)
      && (Peek(db, now, key).None? ==> s.db[key].expiry == Some(now + 1000 * ttl))
    ensures var s := Run(Alone(now, db, key, ttl, limit), Calls(sha, w));
      var record := s.requests[0].phase.record;
      && record.isBlocked == (record.totalHits > limit) && record.timeToBlockExpire == record.timeToExpire
      && (s.db[key].expiry.Some? ==>
            s.db[key].expiry.value - now - 500 < record.timeToExpire <= s.db[key].expiry.value - now + 500)
  {
    var alone := Alone(now, db, key, ttl, limit);
    CallsInOrder(alone, sha, w);
    assert ScriptPart(alone, sha, w).db == IncrWithTtl(db, now, key, ttl);
  }

  // ----- the guard -----

  /** `n` seconds is the least whole number of seconds that is not less than `millis`. */
  predicate SecondsOf(n: int, millis: int) {
    1000 * (n - 1) < millis <= 1000 * n
  }

  class Response {
    var headers: map<string, int>

    constructor ()
      ensures headers == map[]
    {
      headers := map[];
    }
  }

  datatype Verdict = Allowed | TooManyRequests | StorageError

  datatype Config = Config(limit: int, ttlMillis: nat, skip: bool)

  /** `Math.ceil(ttl / 1000)`. */
  function CeilSeconds(millis: int): int {
    (millis + 999) / 1000
  }

  class EnhancedThrottlerGuard {
    const storage: ThrottlerStorageRedisService

    constructor (storage: ThrottlerStorageRedisService)
      ensures this.storage == storage
    {
      this.storage := storage;
    }

    /** A skipped route touches nothing. Otherwise the request is counted, the response
        always states limit, remaining requests and reset time, and a hit above the limit
        is turned away with Retry-After (section 4 of RFC 6585, section 10.2.3 of RFC 9110). */
    method CanActivate(config: Config, key: string, response: Response, w: Weather) returns (v: Verdict)
      requires config.skip || config.ttlMillis > 0
      modifies storage`scriptSha, storage.redis, response
      ensures config.skip ==>
        && v == Allowed && response.headers == old(response.headers)
        && storage.redis.db == old(storage.redis.db) && storage.scriptSha == old(storage.scriptSha)
      ensures !config.skip ==>
        var ttl := CeilSeconds(config.ttlMillis);
        var now := old(storage.redis.now);
        var s := Run(Alone(now, old(storage.redis.db), key, ttl, config.limit), Calls(old(storage.scriptSha), w));
        && storage.redis.db == s.db && 0 in s.requests
        && (v == StorageError <==> s.requests[0].phase.Failed?)
        && (v == Allowed <==> Admitted(s.requests[0]))
        && (v == StorageError ==> response.headers == old(response.headers))
        && (v != StorageError ==>
          && s.requests[0].phase.Done?
          && var common := old(response.headers)["X-RateLimit-Limit" := config.limit]
              ["X-RateLimit-Remaining" := Remaining(config.limit, s.requests[0].phase.record)]
              ["X-RateLimit-Reset" := CeilSeconds(now) + ttl];
            response.headers == if v == Allowed then common else common["Retry-After" := ttl])
      ensures !config.skip && v == TooManyRequests ==>
        "Retry-After" in response.headers && SecondsOf(response.headers["Retry-After"], config.ttlMillis)
      ensures !config.skip && v != StorageError ==>
        && "X-RateLimit-Reset" in response.headers
        && exists n :: SecondsOf(n, config.ttlMillis)
             && SecondsOf(response.headers["X-RateLimit-Reset"] - n, old(storage.redis.now))
      ensures !config.skip && ScriptAnswers(old(storage.scriptSha), w) ==>
        && key in storage.redis.db
        && var count := OneHitMore(old(storage.redis.db), old(storage.redis.now), key);
          && storage.redis.db[key].count == count && v != StorageError && (v == Allowed <==> count <= config.limit)
          && "X-RateLimit-Remaining" in response.headers
          && response.headers["X-RateLimit-Remaining"] == (if count < config.limit then config.limit - count else 0)
          && (Peek(old(storage.redis.db), old(storage.redis.now), key).None? ==>
                exists n :: SecondsOf(n, config.ttlMillis)
                  && storage.redis.db[key].expiry == Some(old(storage.redis.now) + 1000 * n))
    {
      if config.skip {
        return Allowed;
      }
      var ttlSeconds := CeilSeconds(config.ttlMillis);
      assert SecondsOf(ttlSeconds, config.ttlMillis) && SecondsOf(CeilSeconds(storage.redis.now), storage.redis.now);
      if ScriptAnswers(storage.scriptSha, w) {
        AnsweredByScript(storage.redis.now, storage.redis.db, key, ttlSeconds, config.limit, storage.scriptSha, w);
      }
      CallsKeepRequest(storage.redis.now, storage.redis.db, key, ttlSeconds, config.limit, storage.scriptSha, w);
      var stored := storage.Increment(key, ttlSeconds, config.limit, w);
      if stored.Error? {
        return StorageError;
      }
      v := Respond(config, stored.value, ttlSeconds, storage.redis.now, response);
    }

    /** The headers, and the decision on the count. */
    method Respond(config: Config, record: Record, ttlSeconds: int, now: int, response: Response) returns (v: Verdict)
      modifies response
      ensures v == if record.totalHits <= config.limit then Allowed else TooManyRequests
      ensures var common := old(response.headers)["X-RateLimit-Limit" := config.limit]
          ["X-RateLimit-Remaining" := Remaining(config.limit, record)]["X-RateLimit-Reset" := CeilSeconds(now) + ttlSeconds];
        response.headers == if v == Allowed then common else common["Retry-After" := ttlSeconds]
    {
      var remaining := if config.limit - record.totalHits > 0 then config.limit - record.totalHits else 0;
      var resetTime := CeilSeconds(now) + ttlSeconds;
      response.headers := response.headers["X-RateLimit-Limit" := config.limit];
      response.headers := response.headers["X-RateLimit-Remaining" := remaining];
      response.headers := response.headers["X-RateLimit-Reset" := resetTime];
      if record.totalHits > config.limit {
        response.headers := response.headers["Retry-After" := ttlSeconds];
        return TooManyRequests;
      }
      return Allowed;
    }
  }
}
