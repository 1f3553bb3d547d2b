/** Requests of any number of API instances, interleaved command by command over one Redis.
    Every sequence of events is a run: an event that is not enabled changes nothing. */
module RateLimiter {
  import opened Collections
  import opened RedisModel

  /** What became of one call: it answered, it ran but its reply was lost,
      it never ran, or (EVALSHA only) the server did not know the script. */
  datatype Outcome = Replied | Lost | Refused | NoScript

  datatype Action = Eval(outcome: Outcome) | Exec(outcome: Outcome) | Arm(outcome: Outcome)

  datatype Record = Record(totalHits: nat, timeToExpire: int, isBlocked: bool, timeToBlockExpire: int)

  /** One execution of INCR, whether or not its request learnt of it. */
  datatype Hit = Hit(owner: nat, key: string, time: int, since: int, number: nat)

  /** One EXPIRE that ran and set the expiry of a live counter. */
  datatype Armed = Armed(key: string, since: int, time: int)

  datatype Phase =
    | Evaluating                       // about to EVALSHA
    | Retrying                         // script reloaded after NOSCRIPT, about to EVALSHA again
    | FallingBack                      // about to MULTI INCR, TTL
    | Arming(hit: Hit, record: Record) // about to EXPIRE a counter seen without a TTL
    | Done(hit: Hit, record: Record)
    | Failed                           // an error reached the caller

  datatype Request = Request(key: string, ttl: Seconds, limit: int, phase: Phase)

  datatype State = State(now: int, db: Db, requests: map<nat, Request>, hits: seq<Hit>,
                         arms: seq<Armed>)

  datatype Event =
    | Tick(d: nat)
    | Arrive(id: nat, key: string, ttl: Seconds, limit: int)
    | Act(id: nat, action: Action)

  const INITIAL := State(0, map[], map[], [], [])

  /** The record returned for `count` hits and a window that lasts `seconds` more. */
  function MakeRecord(count: nat, seconds: int, limit: int): Record {
    Record(count, seconds * 1000, count > limit, seconds * 1000)
  }

  function HitIn(db: Db, now: int, id: nat, key: string): Hit
    requires key in db
  {
    Hit(id, key, now, db[key].since, db[key].count)
  }

  function SetPhase(s: State, id: nat, phase: Phase): State
    requires id in s.requests
  {
    s.(requests := s.requests[id := s.requests[id].(phase := phase)])
  }

  /** What an EXPIRE adds to the log: nothing when it finds no counter. */
  function ArmsIn(db: Db, now: int, key: string): seq<Armed> {
    match Peek(db, now, key)
    case None => []
    case Some(e) => [Armed(key, e.since, now)]
  }

  /** EVALSHA ran. */
  function RunScript(s: State, id: nat): State
    requires id in s.requests
  {
    var q := s.requests[id];
    var db := IncrWithTtl(s.db, s.now, q.key, q.ttl);
    var counted := Incr(s.db, s.now, q.key);
    s.(db := db, hits := s.hits + [HitIn(db, s.now, id, q.key)],
       arms := s.arms + if counted[q.key].count == 1 then ArmsIn(counted, s.now, q.key) else [])
  }

  /** MULTI ran. */
  function RunMulti(s: State, id: nat): State
    requires id in s.requests
  {
    var q := s.requests[id];
    var db := Incr(s.db, s.now, q.key);
    s.(db := db, hits := s.hits + [HitIn(db, s.now, id, q.key)])
  }

  /** EXPIRE ran. */
  function RunExpire(s: State, id: nat): State
    requires id in s.requests
  {
    var q := s.requests[id];
    s.(db := Expire(s.db, s.now, q.key, q.ttl), arms := s.arms + ArmsIn(s.db, s.now, q.key))
  }

  function EvalStep(s: State, id: nat, outcome: Outcome): State
    requires id in s.requests
  {
    var q := s.requests[id];
    match outcome
    case Replied =>
      var t := RunScript(s, id);
      var hit := t.hits[|t.hits| - 1];
      SetPhase(t, id, Done(hit, MakeRecord(hit.number, Ttl(t.db, t.now, q.key), q.limit)))
    case Lost => SetPhase(RunScript(s, id), id, FallingBack)
    case Refused => SetPhase(s, id, FallingBack)
    case NoScript => SetPhase(s, id, if q.phase.Evaluating? then Retrying else FallingBack)
  }

  /** `results[1][1] || -1`: a TTL that rounds to 0 is treated as no TTL at all. */
  function SeenTtl(ttl: int): int {
    if ttl == 0 then -1 else ttl
  }

  function ExecStep(s: State, id: nat, outcome: Outcome): State
    requires id in s.requests
  {
    var q := s.requests[id];
    match outcome
    case Replied =>
      var t := RunMulti(s, id);
      var hit := t.hits[|t.hits| - 1];
      var current := SeenTtl(Ttl(t.db, t.now, q.key));
      var record := MakeRecord(hit.number, if current > 0 then current else q.ttl, q.limit);
      SetPhase(t, id, if current == -1 then Arming(hit, record) else Done(hit, record))
    case Lost => SetPhase(RunMulti(s, id), id, Failed)
    case _ => SetPhase(s, id, Failed)
  }

  function ArmStep(s: State, id: nat, outcome: Outcome): State
    requires id in s.requests && s.requests[id].phase.Arming?
  {
    var phase := s.requests[id].phase;
    match outcome
    case Replied => SetPhase(RunExpire(s, id), id, Done(phase.hit, phase.record))
    case Lost => SetPhase(RunExpire(s, id), id, Failed)
    case _ => SetPhase(s, id, Failed)
  }

  function Step(s: State, e: Event): State {
    match e
    case Tick(d) => s.(now := s.now + d)
    case Arrive(id, key, ttl, limit) =>
      if id in s.requests then s
      else s.(requests := s.requests[id := Request(key, ttl, limit, Evaluating)])
    case Act(id, action) =>
      if id !in s.requests then s else
      match (s.requests[id].phase, action)
      case (Evaluating, Eval(o)) => EvalStep(s, id, o)
      case (Retrying, Eval(o)) => EvalStep(s, id, o)
      case (FallingBack, Exec(o)) => ExecStep(s, id, o)
      case (Arming(_, _), Arm(o)) => ArmStep(s, id, o)
      case _ => s
  }

  function Run(s: State, es: seq<Event>): State {
    if es == [] then s else Step(Run(s, es[..|es| - 1]), es[|es| - 1])
  }

  // ----- what the guard decides -----

  /** The X-RateLimit-Remaining header. */
  function Remaining(limit: int, record: Record): int {
    if limit - record.totalHits > 0 then limit - record.totalHits else 0
  }

  predicate Admitted(q: Request) {
    q.phase.Done? && q.phase.record.totalHits <= q.limit
  }

  /** All requests on `key` ask for the same window length. */
  ghost predicate Uniform(s: State, key: string, ttl: Seconds) {
    forall id <- s.requests :: s.requests[id].key == key ==> s.requests[id].ttl == ttl
  }

  // ----- the invariant of one key -----

  /** Of two hits of one key in order, either both count in one window, the later one
      with the greater number, or the first one's window is over when the second one's
      starts, at least a TTL after the first one's did. */
  ghost predicate Precedes(g: Hit, h: Hit, ttl: Seconds) {
    || (g.since == h.since && g.number < h.number && g.time <= h.time)
    || (g.since + ttl * 1000 <= h.since && g.time < h.since)
  }

  ghost predicate HitsOrdered(s: State, key: string, ttl: Seconds) {
    forall i, j :: 0 <= i < j < |s.hits| && s.hits[i].key == key == s.hits[j].key
      ==> Precedes(s.hits[i], s.hits[j], ttl)
  }

  ghost predicate EntrySane(e: Entry, now: int, ttl: Seconds) {
    && 1 <= e.count && e.since <= now
    && (e.expiry.Some? ==> e.since + ttl * 1000 <= e.expiry.value <= now + ttl * 1000)
  }

  /** How a logged hit relates to the counter now stored: it belongs to the stored
      window or to an earlier one that is over. */
  ghost predicate HitSane(h: Hit, e: Entry, now: int, ttl: Seconds) {
    && 1 <= h.number && h.since <= h.time <= now && h.since <= e.since
    && (h.number == 1 ==> h.time == h.since)
    && (h.since == e.since ==> h.number <= e.count && (e.expiry.Some? ==> h.time < e.expiry.value))
    && (h.since < e.since ==> h.since + ttl * 1000 <= e.since && h.time < e.since)
  }

  ghost predicate KeySane(s: State, key: string, ttl: Seconds) {
    && (key in s.db ==> EntrySane(s.db[key], s.now, ttl))
    && (forall h <- s.hits :: h.key == key ==> key in s.db && HitSane(h, s.db[key], s.now, ttl))
    && HitsOrdered(s, key, ttl)
  }

  /** A request that got past INCR holds a logged hit of its own. */
  ghost predicate OwnsHit(q: Request, id: nat, hits: seq<Hit>) {
    q.phase.Done? || q.phase.Arming? ==>
      && q.phase.hit in hits && q.phase.hit.owner == id && q.phase.hit.key == q.key
      && q.phase.record.totalHits == q.phase.hit.number
  }

  ghost predicate Owned(s: State) {
    forall id <- s.requests :: OwnsHit(s.requests[id], id, s.hits)
  }

  lemma IncrKeepsKeySane(s: State, t: State, id: nat, key: string, ttl: Seconds)
    requires KeySane(s, key, ttl)
    requires t.now == s.now && t.db == Incr(s.db, s.now, key)
    requires t.hits == s.hits + [HitIn(t.db, s.now, id, key)]
    ensures KeySane(t, key, ttl)
  {
  }

  lemma ExpireKeepsKeySane(s: State, t: State, key: string, ttl: Seconds)
    requires KeySane(s, key, ttl)
    requires t.now == s.now && t.hits == s.hits && t.db == Expire(s.db, s.now, key, ttl)
    ensures KeySane(t, key, ttl)
  {
  }

  /** Requests are never forgotten and keep their key, TTL and limit. */
  ghost predicate Remembers(s: State, t: State) {
    forall id <- s.requests ::
      id in t.requests && t.requests[id] == s.requests[id].(phase := t.requests[id].phase)
  }

  lemma ActionChangesPhaseOnly(s: State, id: nat, action: Action)
    requires id in s.requests
    ensures var t := Step(s, Act(id, action));
      id in t.requests && t.requests == s.requests[id := s.requests[id].(phase := t.requests[id].phase)]
  {
  }

  lemma StepRemembers(s: State, e: Event)
    ensures Remembers(s, Step(s, e))
  {
    if e.Act? && e.id in s.requests {
      ActionChangesPhaseOnly(s, e.id, e.action);
    }
  }

  lemma ScriptKeepsKeySane(s: State, id: nat, key: string, ttl: Seconds)
    requires KeySane(s, key, ttl) && Uniform(s, key, ttl) && id in s.requests
    ensures KeySane(RunScript(s, id), key, ttl)
  {
    var q := s.requests[id];
    if q.key == key {
      var db := Incr(s.db, s.now, key);
      var counted := s.(db := db, hits := s.hits + [HitIn(db, s.now, id, key)]);
      IncrKeepsKeySane(s, counted, id, key, ttl);
      if db[key].count == 1 {
        ExpireKeepsKeySane(counted, RunScript(s, id), key, ttl);
      }
    }
  }

  lemma MultiKeepsKeySane(s: State, id: nat, key: string, ttl: Seconds)
    requires KeySane(s, key, ttl) && id in s.requests
    ensures KeySane(RunMulti(s, id), key, ttl)
  {
    if s.requests[id].key == key {
      IncrKeepsKeySane(s, RunMulti(s, id), id, key, ttl);
    }
  }

  predicate SameStore(s: State, t: State) {
    s.now == t.now && s.db == t.db && s.hits == t.hits && s.arms == t.arms
  }

  /** An action reaches Redis in one of four ways: not at all, or by one command. */
  lemma ActionEffect(s: State, id: nat, action: Action)
    requires id in s.requests
    ensures var t := Step(s, Act(id, action));
      || SameStore(s, t) || SameStore(RunScript(s, id), t)
      || SameStore(RunMulti(s, id), t) || SameStore(RunExpire(s, id), t)
  {
    match action
    case Eval(o) => EvalEffect(s, id, o);
    case Exec(o) => ExecEffect(s, id, o);
    case Arm(o) =>
  }

  lemma EvalEffect(s: State, id: nat, o: Outcome)
    requires id in s.requests
    ensures SameStore(s, EvalStep(s, id, o)) || SameStore(RunScript(s, id), EvalStep(s, id, o))
  {
  }

  lemma ExecEffect(s: State, id: nat, o: Outcome)
    requires id in s.requests
    ensures SameStore(s, ExecStep(s, id, o)) || SameStore(RunMulti(s, id), ExecStep(s, id, o))
  {
  }

  lemma SameStoreKeySane(s: State, t: State, key: string, ttl: Seconds)
    requires KeySane(s, key, ttl) && SameStore(s, t)
    ensures KeySane(t, key, ttl)
  {
  }

  lemma ActionKeepsKeySane(s: State, id: nat, action: Action, key: string, ttl: Seconds)
    requires KeySane(s, key, ttl) && Uniform(s, key, ttl) && id in s.requests
    ensures KeySane(Step(s, Act(id, action)), key, ttl)
  {
    var t := Step(s, Act(id, action));
    ActionEffect(s, id, action);
    if SameStore(s, t) {
      SameStoreKeySane(s, t, key, ttl);
    } else if SameStore(RunScript(s, id), t) {
      ScriptKeepsKeySane(s, id, key, ttl);
      SameStoreKeySane(RunScript(s, id), t, key, ttl);
    } else if SameStore(RunMulti(s, id), t) {
      MultiKeepsKeySane(s, id, key, ttl);
      SameStoreKeySane(RunMulti(s, id), t, key, ttl);
    } else {
      if s.requests[id].key == key {
        ExpireKeepsKeySane(s, RunExpire(s, id), key, ttl);
      }
      SameStoreKeySane(RunExpire(s, id), t, key, ttl);
    }
  }

  lemma StepKeepsKeySane(s: State, e: Event, key: string, ttl: Seconds)
    requires KeySane(s, key, ttl) && Uniform(s, key, ttl)
    ensures KeySane(Step(s, e), key, ttl)
  {
    match e
    case Tick(_) =>
    case Arrive(_, _, _, _) => SameStoreKeySane(s, Step(s, e), key, ttl);
    case Act(id, action) =>
      if id in s.requests {
        ActionKeepsKeySane(s, id, action, key, ttl);
      }
  }

  /** `t` is `s` after a step of request `id`, which owns its hit. */
  ghost predicate StepOwns(s: State, t: State, id: nat) {
    && s.hits <= t.hits && id in s.requests && id in t.requests
    && t.requests == s.requests[id := t.requests[id]] && OwnsHit(t.requests[id], id, t.hits)
  }

  lemma EvalOwns(s: State, id: nat, o: Outcome)
    requires id in s.requests && OwnsHit(s.requests[id], id, s.hits)
    ensures StepOwns(s, EvalStep(s, id, o), id)
  {
    if o.Replied? {
      var t := EvalStep(s, id, o);
      assert t.hits[|s.hits|] in t.hits;
    }
  }

  lemma ExecOwns(s: State, id: nat, o: Outcome)
    requires id in s.requests && OwnsHit(s.requests[id], id, s.hits)
    ensures StepOwns(s, ExecStep(s, id, o), id)
  {
    if o.Replied? {
      var t := ExecStep(s, id, o);
      assert t.hits[|s.hits|] in t.hits;
    }
  }

  /** What an action leaves its own request with. */
  lemma ActionOwns(s: State, id: nat, action: Action)
    requires id in s.requests && OwnsHit(s.requests[id], id, s.hits)
    ensures StepOwns(s, Step(s, Act(id, action)), id)
  {
    match action
    case Eval(o) => EvalOwns(s, id, o);
    case Exec(o) => ExecOwns(s, id, o);
    case Arm(o) =>
  }

  lemma StepKeepsOwned(s: State, e: Event)
    requires Owned(s)
    ensures Owned(Step(s, e))
  {
    if e.Act? && e.id in s.requests {
      ActionOwns(s, e.id, e.action);
    }
  }

  /** Every run keeps what the window bounds rest on. */
  lemma {:induction false} RunsAreSane(es: seq<Event>, key: string, ttl: Seconds)
    requires Uniform(Run(INITIAL, es), key, ttl)
    ensures KeySane(Run(INITIAL, es), key, ttl) && Owned(Run(INITIAL, es))
  {
    if es != [] {
      var s, e := Run(INITIAL, es[..|es| - 1]), es[|es| - 1];
      StepRemembers(s, e);
      RunsAreSane(es[..|es| - 1], key, ttl);
      StepKeepsKeySane(s, e, key, ttl);
      StepKeepsOwned(s, e);
    }
  }

  // ----- the bound -----

  ghost predicate AdmittedWithin(s: State, id: nat, key: string, limit: int) {
    id in s.requests && Admitted(s.requests[id])
    && s.requests[id].key == key && s.requests[id].limit <= limit
  }

  ghost predicate AdmittedIn(s: State, id: nat, key: string, ttl: Seconds, limit: int, start: int) {
    AdmittedWithin(s, id, key, limit) && start <= s.requests[id].phase.hit.time < start + ttl * 1000
  }

  /** The requests on `key` with a limit of at most `limit` that were let through on a
      hit in the `ttl` seconds from `start` on. */
  ghost function AdmittedDuring(s: State, key: string, ttl: Seconds, limit: nat, start: int): set<nat> {
    set id <- s.requests | AdmittedIn(s, id, key, ttl, limit, start)
  }

  /** The number within its window, and the start of that window, of an answered request. */
  function NumberOf(s: State, id: nat): int {
    if id in s.requests && s.requests[id].phase.Done? then s.requests[id].phase.hit.number else 0
  }

  function SinceOf(s: State, id: nat): int {
    if id in s.requests && s.requests[id].phase.Done? then s.requests[id].phase.hit.since else 0
  }

  lemma HitsOfTwoRequests(s: State, key: string, ttl: Seconds, a: nat, b: nat)
    requires KeySane(s, key, ttl) && Owned(s) && a != b
    requires a in s.requests && s.requests[a].key == key && s.requests[a].phase.Done?
    requires b in s.requests && s.requests[b].key == key && s.requests[b].phase.Done?
    ensures var g, h := s.requests[a].phase.hit, s.requests[b].phase.hit;
      Precedes(g, h, ttl) || Precedes(h, g, ttl)
  {
  }

  /** Among requests of one window, those numbered above `skip` and let through with a
      limit of at most `limit` are at most `limit - skip`. */
  lemma OneWindowBound(s: State, key: string, ttl: Seconds, limit: nat, skip: nat, ids: set<nat>)
    requires KeySane(s, key, ttl) && Owned(s)
    requires forall id <- ids :: AdmittedWithin(s, id, key, limit) && skip < NumberOf(s, id)
    requires forall a <- ids, b <- ids :: SinceOf(s, a) == SinceOf(s, b)
    ensures |ids| <= if limit <= skip then 0 else limit - skip
  {
    forall a <- ids, b <- ids | NumberOf(s, a) == NumberOf(s, b) ensures a == b {
      if a != b {
        HitsOfTwoRequests(s, key, ttl, a, b);
      }
    }
    DistinctRanksBound(ids, id => NumberOf(s, id) - skip, if limit <= skip then 0 else limit - skip);
  }

  /** In every run, whatever the interleaving and whatever replies are lost, any `ttl`
      seconds let through fewer than twice `limit` requests of that limit or a lower one:
      the window carried into them cannot contribute its first hit. */
  lemma {:induction false} WindowBound(es: seq<Event>, key: string, ttl: Seconds, limit: nat, start: int)
    requires Uniform(Run(INITIAL, es), key, ttl)
    ensures |AdmittedDuring(Run(INITIAL, es), key, ttl, limit, start)| <= if limit == 0 then 0 else 2 * limit - 1
  {
    RunsAreSane(es, key, ttl);
    var s := Run(INITIAL, es);
    BoundHere(s, key, ttl, limit, start, AdmittedDuring(s, key, ttl, limit, start));
  }

  lemma BoundHere(s: State, key: string, ttl: Seconds, limit: nat, start: int, all: set<nat>)
    requires KeySane(s, key, ttl) && Owned(s)
    requires forall id <- all :: AdmittedIn(s, id, key, ttl, limit, start)
    ensures |all| <= if limit == 0 then 0 else 2 * limit - 1
  {
    var carried := set id <- all | SinceOf(s, id) < start;
    var begun := set id <- all | start <= SinceOf(s, id);
    CarriedBound(s, key, ttl, limit, start, carried);
    BegunBound(s, key, ttl, limit, start, begun);
    SizeOfTwo(all, carried, begun);
  }

  lemma SizeOfTwo(all: set<nat>, a: set<nat>, b: set<nat>)
    requires all <= a + b
    ensures |all| <= |a| + |b|
  {
    SubsetSize(all, a + b);
    assert a + b == a + (b - a);
    SubsetSize(b - a, b);
  }

  /** Requests of the interval that count in a window begun before it. */
  lemma CarriedBound(s: State, key: string, ttl: Seconds, limit: nat, start: int, ids: set<nat>)
    requires KeySane(s, key, ttl) && Owned(s)
    requires forall id <- ids :: AdmittedIn(s, id, key, ttl, limit, start) && SinceOf(s, id) < start
    ensures |ids| <= if limit <= 1 then 0 else limit - 1
  {
    forall a <- ids, b <- ids ensures SinceOf(s, a) == SinceOf(s, b) {
      if a != b {
        HitsOfTwoRequests(s, key, ttl, a, b);
      }
    }
    forall id <- ids ensures 1 < NumberOf(s, id) {
      assert HitSane(s.requests[id].phase.hit, s.db[key], s.now, ttl);
    }
    OneWindowBound(s, key, ttl, limit, 1, ids);
  }

  /** Requests of the interval that count in a window begun within it. */
  lemma BegunBound(s: State, key: string, ttl: Seconds, limit: nat, start: int, ids: set<nat>)
    requires KeySane(s, key, ttl) && Owned(s)
    requires forall id <- ids :: AdmittedIn(s, id, key, ttl, limit, start) && start <= SinceOf(s, id)
    ensures |ids| <= limit
  {
    forall a <- ids, b <- ids ensures SinceOf(s, a) == SinceOf(s, b) {
      if a != b {
        HitsOfTwoRequests(s, key, ttl, a, b);
      }
    }
    forall id <- ids ensures 0 < NumberOf(s, id) {
      assert HitSane(s.requests[id].phase.hit, s.db[key], s.now, ttl);
    }
    OneWindowBound(s, key, ttl, limit, 0, ids);
  }

  /** Hence the limit holds in every interval of every run if and only if it is at most one. */
  lemma LimitHoldsIff(key: string, ttl: Seconds, limit: nat)
    ensures (forall es, start ::
              Uniform(Run(INITIAL, es), key, ttl) ==> |AdmittedDuring(Run(INITIAL, es), key, ttl, limit, start)| <= limit)
      <==> limit <= 1
  {
    if limit <= 1 {
      forall es, start | Uniform(Run(INITIAL, es), key, ttl)
        ensures |AdmittedDuring(Run(INITIAL, es), key, ttl, limit, start)| <= limit
      {
        WindowBound(es, key, ttl, limit, start);
      }
    } else {
      WindowBoundIsReached(key, ttl, limit);
      assert |AdmittedDuring(Run(INITIAL, WorstRun(key, ttl, limit)), key, ttl, limit, 1)| > limit;
    }
  }

  lemma {:induction false} RunAppend(s: State, es: seq<Event>, fs: seq<Event>)
    ensures Run(s, es + fs) == Run(Run(s, es), fs)
  {
    if fs == [] {
      assert es + fs == es;
    } else {
      RunAppend(s, es, fs[..|fs| - 1]);
      assert (es + fs)[..|es + fs| - 1] == es + fs[..|fs| - 1];
    }
  }

  // ----- the bound is the best one -----

  /** `n` requests, one after the other at one instant, all answered by the script. */
  function Burst(first: nat, n: nat, key: string, ttl: Seconds, limit: int): seq<Event> {
    if n == 0 then [] else
    Burst(first, n - 1, key, ttl, limit)
    + [Arrive(first + n - 1, key, ttl, limit), Act(first + n - 1, Eval(Replied))]
  }

  ghost predicate AdmittedAt(s: State, id: nat, key: string, limit: nat, time: int) {
    AdmittedWithin(s, id, key, limit) && s.requests[id].phase.hit.time == time
  }

  ghost predicate AllAdmittedAt(s: State, first: nat, end: nat, key: string, limit: nat, time: int) {
    forall id :: first <= id < end ==> AdmittedAt(s, id, key, limit, time)
  }

  ghost predicate OnlyTtl(s: State, ttl: Seconds) {
    forall id <- s.requests :: s.requests[id].ttl == ttl
  }

  ghost predicate OnlyBelow(s: State, bound: nat) {
    forall id <- s.requests :: id < bound
  }

  ghost predicate Keeps(s: State, t: State) {
    forall id <- s.requests :: id in t.requests && t.requests[id] == s.requests[id]
  }

  /** The counter has seen `count` hits of a window that ends at `end`. */
  ghost predicate WindowAt(s: State, key: string, ttl: Seconds, count: nat, end: int) {
    if count == 0 then Peek(s.db, s.now, key).None? && end == s.now + ttl * 1000
    else s.now < end && key in s.db && s.db[key].count == count && s.db[key].expiry == Some(end)
  }

  /** What `n` answers on top of `s`, numbered from `first`, have led to. */
  ghost predicate Answered(s: State, t: State, first: nat, n: nat, key: string, ttl: Seconds, limit: nat,
                           count: nat, end: int) {
    && t.now == s.now && OnlyBelow(t, first + n) && OnlyTtl(t, ttl) && Keeps(s, t)
    && AllAdmittedAt(t, first, first + n, key, limit, s.now)
    && WindowAt(t, key, ttl, count + n, end)
  }

  lemma OneMore(s: State, t: State, id: nat, key: string, ttl: Seconds, limit: nat, count: nat, end: int)
    requires count < limit && OnlyBelow(s, id) && OnlyTtl(s, ttl) && WindowAt(s, key, ttl, count, end)
    requires t == Step(Step(s, Arrive(id, key, ttl, limit)), Act(id, Eval(Replied)))
    ensures Answered(s, t, id, 1, key, ttl, limit, count, end)
  {
    var v := Step(s, Arrive(id, key, ttl, limit));
    assert v.requests[id] == Request(key, ttl, limit, Evaluating);
    assert t == EvalStep(v, id, Replied);
  }

  lemma AnsweredTwice(s: State, t: State, u: State, first: nat, n: nat, m: nat, key: string, ttl: Seconds,
                      limit: nat, count: nat, end: int)
    requires Answered(s, t, first, n, key, ttl, limit, count, end)
    requires Answered(t, u, first + n, m, key, ttl, limit, count + n, end)
    ensures Answered(s, u, first, n + m, key, ttl, limit, count, end)
  {
    forall id | first <= id < first + n + m ensures AdmittedAt(u, id, key, limit, s.now) {
      assert id < first + n ==> AdmittedAt(t, id, key, limit, s.now);
    }
  }

  lemma {:induction false} RunTwo(s: State, es: seq<Event>, a: Event, b: Event)
    ensures Run(s, es + [a, b]) == Step(Step(Run(s, es), a), b)
  {
    assert es + [a, b] == (es + [a]) + [b];
    assert (es + [a, b])[..|es| + 1] == es + [a] && (es + [a])[..|es|] == es;
  }

  lemma LastOfBurst(s: State, t: State, u: State, first: nat, n: nat, key: string, ttl: Seconds, limit: nat,
                    count: nat, end: int)
    requires n > 0 && t == Run(s, Burst(first, n - 1, key, ttl, limit)) && u == Run(s, Burst(first, n, key, ttl, limit))
    requires count + n <= limit && OnlyBelow(t, first + n - 1) && OnlyTtl(t, ttl)
    requires WindowAt(t, key, ttl, count + n - 1, end)
    ensures Answered(t, u, first + n - 1, 1, key, ttl, limit, count + n - 1, end)
  {
    var id := first + n - 1;
    RunTwo(s, Burst(first, n - 1, key, ttl, limit), Arrive(id, key, ttl, limit), Act(id, Eval(Replied)));
    OneMore(t, u, id, key, ttl, limit, count + n - 1, end);
  }

  lemma {:induction false} BurstEffect(s: State, first: nat, n: nat, key: string, ttl: Seconds, limit: nat,
                                       count: nat, end: int)
    requires count + n <= limit && OnlyBelow(s, first) && OnlyTtl(s, ttl) && WindowAt(s, key, ttl, count, end)
    ensures Answered(s, Run(s, Burst(first, n, key, ttl, limit)), first, n, key, ttl, limit, count, end)
  {
    if n > 0 {
      BurstEffect(s, first, n - 1, key, ttl, limit, count, end);
      var t, u := Run(s, Burst(first, n - 1, key, ttl, limit)), Run(s, Burst(first, n, key, ttl, limit));
      LastOfBurst(s, t, u, first, n, key, ttl, limit, count, end);
      AnsweredTwice(s, t, u, first, n - 1, 1, key, ttl, limit, count, end);
    }
  }

  /** What is known of a run that has only seen answered requests numbered below `next`. */
  ghost predicate Quiet(s: State, now: int, next: nat, key: string, ttl: Seconds, count: nat, end: int) {
    s.now == now && OnlyBelow(s, next) && OnlyTtl(s, ttl) && WindowAt(s, key, ttl, count, end)
  }

  lemma WaitAfter(es: seq<Event>, now: int, next: nat, d: nat, key: string, ttl: Seconds, count: nat, end: int)
    requires Quiet(Run(INITIAL, es), now, next, key, ttl, count, end) && count > 0
    ensures var t := Run(INITIAL, es + [Tick(d)]);
      && Keeps(Run(INITIAL, es), t)
      && Quiet(t, now + d, next, key, ttl, if now + d < end then count else 0,
               if now + d < end then end else now + d + ttl * 1000)
  {
  }

  lemma {:induction false} BurstAfter(es: seq<Event>, now: int, first: nat, next: nat, key: string, ttl: Seconds,
                                      limit: nat, count: nat, total: nat, end: int)
    requires Quiet(Run(INITIAL, es), now, first, key, ttl, count, end)
    requires first <= next && total == count + next - first <= limit
    ensures var t := Run(INITIAL, es + Burst(first, next - first, key, ttl, limit));
      && Keeps(Run(INITIAL, es), t) && AllAdmittedAt(t, first, next, key, limit, now)
      && Quiet(t, now, next, key, ttl, total, end)
  {
    RunAppend(INITIAL, es, Burst(first, next - first, key, ttl, limit));
    BurstEffect(Run(INITIAL, es), first, next - first, key, ttl, limit, count, end);
  }

  lemma TwoBursts(s: State, t: State, key: string, ttl: Seconds, limit: nat)
    requires limit > 0 && Keeps(s, t)
    requires AllAdmittedAt(s, 1, limit, key, limit, ttl * 1000 - 1)
    requires AllAdmittedAt(t, limit, 2 * limit, key, limit, ttl * 1000)
    ensures |AdmittedDuring(t, key, ttl, limit, 1)| >= 2 * limit - 1
  {
    forall id <- UpTo(2 * limit - 1) ensures id in AdmittedDuring(t, key, ttl, limit, 1) {
      assert id < limit ==> AdmittedAt(s, id, key, limit, ttl * 1000 - 1);
      assert id >= limit ==> AdmittedAt(t, id, key, limit, ttl * 1000);
    }
    SubsetSize(UpTo(2 * limit - 1), AdmittedDuring(t, key, ttl, limit, 1));
  }

  /** One hit, and then almost a whole TTL. */
  function FirstHit(key: string, ttl: Seconds, limit: nat): seq<Event>
    requires limit > 0
  {
    Burst(0, 1, key, ttl, limit) + [Tick(ttl * 1000 - 1)]
  }

  /** The rest of that window just before it ends, and a full new one when it has. */
  function TwoWindows(es: seq<Event>, key: string, ttl: Seconds, limit: nat): seq<Event>
    requires limit > 0
  {
    es + Burst(1, limit - 1, key, ttl, limit) + [Tick(1)] + Burst(limit, limit, key, ttl, limit)
  }

  function WorstRun(key: string, ttl: Seconds, limit: nat): seq<Event>
    requires limit > 0
  {
    TwoWindows(FirstHit(key, ttl, limit), key, ttl, limit)
  }

  lemma FirstHitCounts(key: string, ttl: Seconds, limit: nat)
    requires limit > 0
    ensures Quiet(Run(INITIAL, FirstHit(key, ttl, limit)), ttl * 1000 - 1, 1, key, ttl, 1, ttl * 1000)
  {
    var hit := Burst(0, 1, key, ttl, limit);
    assert [] + hit == hit;
    BurstAfter([], 0, 0, 1, key, ttl, limit, 0, 1, ttl * 1000);
    WaitAfter(hit, 0, 1, ttl * 1000 - 1, key, ttl, 1, ttl * 1000);
  }

  lemma TwoWindowsAdmit(es: seq<Event>, key: string, ttl: Seconds, limit: nat)
    requires limit > 0 && Quiet(Run(INITIAL, es), ttl * 1000 - 1, 1, key, ttl, 1, ttl * 1000)
    ensures var s := Run(INITIAL, TwoWindows(es, key, ttl, limit));
      OnlyTtl(s, ttl) && |AdmittedDuring(s, key, ttl, limit, 1)| >= 2 * limit - 1
  {
    BurstAfter(es, ttl * 1000 - 1, 1, limit, key, ttl, limit, 1, limit, ttl * 1000);
    NewWindowAdmits(es + Burst(1, limit - 1, key, ttl, limit), key, ttl, limit);
  }

  lemma NewWindowAdmits(es: seq<Event>, key: string, ttl: Seconds, limit: nat)
    requires limit > 0 && Quiet(Run(INITIAL, es), ttl * 1000 - 1, limit, key, ttl, limit, ttl * 1000)
    requires AllAdmittedAt(Run(INITIAL, es), 1, limit, key, limit, ttl * 1000 - 1)
    ensures var s := Run(INITIAL, es + [Tick(1)] + Burst(limit, limit, key, ttl, limit));
      OnlyTtl(s, ttl) && |AdmittedDuring(s, key, ttl, limit, 1)| >= 2 * limit - 1
  {
    WaitAfter(es, ttl * 1000 - 1, limit, 1, key, ttl, limit, ttl * 1000);
    NewBurst(es + [Tick(1)], key, ttl, limit);
    TwoBursts(Run(INITIAL, es), Run(INITIAL, es + [Tick(1)] + Burst(limit, limit, key, ttl, limit)), key, ttl, limit);
  }

  lemma NewBurst(es: seq<Event>, key: string, ttl: Seconds, limit: nat)
    requires limit > 0 && Quiet(Run(INITIAL, es), ttl * 1000, limit, key, ttl, 0, 2 * ttl * 1000)
    ensures var s := Run(INITIAL, es + Burst(limit, limit, key, ttl, limit));
      && Keeps(Run(INITIAL, es), s) && AllAdmittedAt(s, limit, 2 * limit, key, limit, ttl * 1000) && OnlyTtl(s, ttl)
  {
    BurstAfter(es, ttl * 1000, limit, 2 * limit, key, ttl, limit, 0, limit, 2 * ttl * 1000);
    assert 2 * limit - limit == limit;
  }

  /** The bound is the best one: for every limit and TTL, `WorstRun` lets `2 * limit - 1`
      requests through in one TTL. */
  lemma WindowBoundIsReached(key: string, ttl: Seconds, limit: nat)
    requires limit > 0
    ensures var s := Run(INITIAL, WorstRun(key, ttl, limit));
      Uniform(s, key, ttl) && |AdmittedDuring(s, key, ttl, limit, 1)| == 2 * limit - 1
  {
    FirstHitCounts(key, ttl, limit);
    TwoWindowsAdmit(FirstHit(key, ttl, limit), key, ttl, limit);
    WindowBound(WorstRun(key, ttl, limit), key, ttl, limit, 1);
  }
}
