/** What the realtime hook accepts, and what its debounced callbacks deliver, in every run. */
module RealtimeTheorems {
  import opened RealtimeMachine

  // ----- what makes two events the same -----

  lemma PrefixesDiffer(a: Kind, b: Kind)
    ensures |Prefix(a)| == 8 && (Prefix(a)[0] == Prefix(b)[0] <==> a == b)
  {
  }

  lemma PrefixCancels(a: Kind, x: string, b: Kind, y: string)
    ensures Prefix(a) + x == Prefix(b) + y <==> a == b && x == y
  {
    PrefixesDiffer(a, b);
    PrefixesDiffer(b, a);
    var s, t := Prefix(a) + x, Prefix(b) + y;
    assert s[0] == Prefix(a)[0] && t[0] == Prefix(b)[0];
    assert s[8..] == x && t[8..] == y;
  }

  /** Debounce keys are equal exactly for one kind and one test run. */
  lemma KeysEqualIff(a: Kind, id: string, b: Kind, other: string)
    ensures KeyOf(a, id) == KeyOf(b, other) <==> a == b && id == other
  {
    PrefixCancels(a, id, b, other);
  }

  /** Event ids are equal exactly for one kind and one text of test run and timestamp; so events
      of different kinds never share one. */
  lemma EventIdsEqualIff(a: Kind, id: string, timestamp: string, b: Kind, other: string, time: string)
    ensures EventIdOf(a, id, timestamp) == EventIdOf(b, other, time)
      <==> a == b && id + "-" + timestamp == other + "-" + time
  {
    assert EventIdOf(a, id, timestamp) == Prefix(a) + (id + "-" + timestamp);
    assert EventIdOf(b, other, time) == Prefix(b) + (other + "-" + time);
    PrefixCancels(a, id + "-" + timestamp, b, other + "-" + time);
  }

  /** For one test run that is: exactly if the timestamps are equal. */
  lemma OneRunTimestamps(id: string, a: string, b: string)
    ensures id + "-" + a == id + "-" + b <==> a == b
  {
    var n := |id| + 1;
    assert (id + "-" + a)[n..] == a && (id + "-" + b)[n..] == b;
  }

  // ----- duplicate memory -----

  function AcceptedIds(log: seq<LogEntry>): seq<string> {
    if log == [] then [] else
    var last := log[|log| - 1];
    AcceptedIds(log[..|log| - 1]) + (if last.Accepted? then [EventIdOf(last.kind, last.id, last.timestamp)] else [])
  }

  ghost predicate Remembers(s: State) {
    s.processedEvents == Last(AcceptedIds(s.log), CAPACITY)
  }

  lemma AcceptedIdsOneMore(log: seq<LogEntry>, e: LogEntry)
    ensures AcceptedIds(log + [e])
      == AcceptedIds(log) + (if e.Accepted? then [EventIdOf(e.kind, e.id, e.timestamp)] else [])
  {
    assert (log + [e])[..|log|] == log;
  }

  lemma LastOneMore(ids: seq<string>, id: string)
    ensures Last(Last(ids, CAPACITY) + [id], CAPACITY) == Last(ids + [id], CAPACITY)
  {
  }

  lemma AcceptKeepsMemory(s: State, kind: Kind, id: string, timestamp: string, payload: string)
    requires Remembers(s)
    ensures Remembers(Handle(s, kind, id, timestamp, payload))
  {
    AcceptedIdsOneMore(s.log, Accepted(KeyOf(kind, id), kind, id, timestamp, payload, s.now));
    LastOneMore(AcceptedIds(s.log), EventIdOf(kind, id, timestamp));
  }

  lemma OtherEntryKeepsMemory(s: State, t: State, e: LogEntry)
    requires Remembers(s) && t.processedEvents == s.processedEvents && t.log == s.log + [e] && !e.Accepted?
    ensures Remembers(t)
  {
    AcceptedIdsOneMore(s.log, e);
  }

  lemma StepKeepsMemory(s: State, a: Action)
    requires Remembers(s)
    ensures Remembers(Step(s, a))
  {
    var t := Step(s, a);
    match a
    case Event(kind, id, timestamp, payload) => AcceptKeepsMemory(s, kind, id, timestamp, payload);
    case Malformed =>
    case Tick(_) =>
    case Fire(_) =>
      if t.log != s.log {
        OtherEntryKeepsMemory(s, t, t.log[|s.log|]);
      }
    case Cleanup => OtherEntryKeepsMemory(s, t, TornDown(s.now));
  }

  lemma {:induction false} RunsRemember(actions: seq<Action>)
    ensures Remembers(Run(actions))
  {
    if actions != [] {
      RunsRemember(actions[..|actions| - 1]);
      StepKeepsMemory(Run(actions[..|actions| - 1]), actions[|actions| - 1]);
    }
  }

  /** The memory holds exactly the last 100 accepted event ids, or all of them if there were
      fewer, in the order of acceptance, over created, updated and deleted events together. */
  lemma {:induction false} MemoryIsLastAccepted(actions: seq<Action>)
    ensures var s := Run(actions);
      var ids := AcceptedIds(s.log);
      s.processedEvents == if |ids| <= 100 then ids else ids[|ids| - 100..]
  {
    RunsRemember(actions);
  }

  function AcceptedEntries(log: seq<LogEntry>): seq<LogEntry> {
    if log == [] then [] else
    var last := log[|log| - 1];
    AcceptedEntries(log[..|log| - 1]) + (if last.Accepted? then [last] else [])
  }

  lemma {:induction false} IdsOfEntries(log: seq<LogEntry>, i: nat)
    requires i < |AcceptedEntries(log)|
    ensures |AcceptedIds(log)| == |AcceptedEntries(log)|
    ensures var e := AcceptedEntries(log)[i];
      e.Accepted? && AcceptedIds(log)[i] == EventIdOf(e.kind, e.id, e.timestamp)
  {
    var front := log[..|log| - 1];
    if i < |AcceptedEntries(front)| {
      IdsOfEntries(front, i);
    } else {
      SameLength(front);
    }
    SameLength(log);
  }

  lemma {:induction false} SameLength(log: seq<LogEntry>)
    ensures |AcceptedIds(log)| == |AcceptedEntries(log)|
  {
    if log != [] {
      SameLength(log[..|log| - 1]);
    }
  }

  predicate SameEvent(e: LogEntry, kind: Kind, id: string, timestamp: string) {
    e.Accepted? && e.kind == kind && e.id + "-" + e.timestamp == id + "-" + timestamp
  }

  /** One of the last 100 accepted events was this one. */
  ghost predicate Seen(log: seq<LogEntry>, kind: Kind, id: string, timestamp: string) {
    var entries := AcceptedEntries(log);
    exists i :: 0 <= i < |entries| && |entries| - 100 <= i && SameEvent(entries[i], kind, id, timestamp)
  }

  lemma EntryIdIff(log: seq<LogEntry>, i: nat, kind: Kind, id: string, timestamp: string)
    requires i < |AcceptedEntries(log)|
    ensures |AcceptedIds(log)| == |AcceptedEntries(log)|
    ensures AcceptedIds(log)[i] == EventIdOf(kind, id, timestamp)
      <==> SameEvent(AcceptedEntries(log)[i], kind, id, timestamp)
  {
    IdsOfEntries(log, i);
    var e := AcceptedEntries(log)[i];
    EventIdsEqualIff(e.kind, e.id, e.timestamp, kind, id, timestamp);
  }

  lemma InLast(ids: seq<string>, x: string)
    ensures x in Last(ids, CAPACITY) <==> exists i :: 0 <= i < |ids| && |ids| - 100 <= i && ids[i] == x
  {
    if i :| 0 <= i < |ids| && |ids| - 100 <= i && ids[i] == x {
      var last := Last(ids, CAPACITY);
      assert last[i - (|ids| - |last|)] == x;
    }
  }

  lemma RememberedIff(s: State, kind: Kind, id: string, timestamp: string)
    requires Remembers(s)
    ensures EventIdOf(kind, id, timestamp) in s.processedEvents <==> Seen(s.log, kind, id, timestamp)
  {
    var ids, entries := AcceptedIds(s.log), AcceptedEntries(s.log);
    var x := EventIdOf(kind, id, timestamp);
    SameLength(s.log);
    InLast(ids, x);
    forall i | 0 <= i < |ids| ensures ids[i] == x <==> SameEvent(entries[i], kind, id, timestamp) {
      EntryIdIff(s.log, i, kind, id, timestamp);
    }
  }

  /** Hence, in every run, an event changes nothing if and only if one of the last 100 accepted
      events was of its kind and had the same text of test run and timestamp. Every other event
      is accepted with its payload, now. */
  lemma {:induction false} AcceptedIff(actions: seq<Action>, kind: Kind, id: string, timestamp: string, payload: string)
    ensures var s, t := Run(actions), Run(actions + [Event(kind, id, timestamp, payload)]);
      if Seen(s.log, kind, id, timestamp) then t == s
      else t.log == s.log + [Accepted(KeyOf(kind, id), kind, id, timestamp, payload, s.now)]
  {
    assert (actions + [Event(kind, id, timestamp, payload)])[..|actions|] == actions;
    RunsRemember(actions);
    RememberedIff(Run(actions), kind, id, timestamp);
  }

  /** For one kind and test run that is the timestamp: where test run ids cannot be confused, here
      because all accepted events of the kind are of one run, an event is new exactly if none of
      the last 100 accepted ones of its kind has its timestamp. */
  lemma NewTimestampIsNew(log: seq<LogEntry>, kind: Kind, id: string, timestamp: string)
    requires forall e <- AcceptedEntries(log) :: e.Accepted? && e.kind == kind ==> e.id == id
    ensures Seen(log, kind, id, timestamp) <==> TimestampSeen(AcceptedEntries(log), kind, timestamp)
  {
    var entries := AcceptedEntries(log);
    forall i | 0 <= i < |entries|
      ensures SameEvent(entries[i], kind, id, timestamp) <==> WithTimestamp(entries[i], kind, timestamp)
    {
      var e := entries[i];
      if e.Accepted? {
        OneRunTimestamps(id, e.timestamp, timestamp);
      }
    }
  }

  predicate WithTimestamp(e: LogEntry, kind: Kind, timestamp: string) {
    e.Accepted? && e.kind == kind && e.timestamp == timestamp
  }

  ghost predicate TimestampSeen(entries: seq<LogEntry>, kind: Kind, timestamp: string) {
    exists i :: 0 <= i < |entries| && |entries| - 100 <= i && WithTimestamp(entries[i], kind, timestamp)
  }

  /** The key of an accepted event is that of its kind and test run. */
  ghost predicate Keyed(log: seq<LogEntry>) {
    forall e <- log :: e.Accepted? ==> e.key == KeyOf(e.kind, e.id)
  }

  lemma {:induction false} RunsAreKeyed(actions: seq<Action>)
    ensures Keyed(Run(actions).log)
  {
    if actions != [] {
      RunsAreKeyed(actions[..|actions| - 1]);
    }
  }

  // ----- debouncing -----

  /** `later` takes the place of the callback that `entry` asked for. */
  predicate Cancels(entry: LogEntry, later: LogEntry) {
    entry.Accepted? && (later.TornDown? || (later.Accepted? && later.key == entry.key))
  }

  predicate Delivers(later: LogEntry, i: nat) {
    later.Delivered? && later.source == i
  }

  /** Entry `i` was delivered by entry `j`: its payload, 300 ms later, nothing having
      cancelled it before, and never again. */
  ghost predicate DeliveredAt(log: seq<LogEntry>, i: nat, j: nat) {
    && i < j < |log| && log[i].Accepted?
    && log[j] == Delivered(i, log[i].payload, log[i].time + 300)
    && (forall k :: i < k < j ==> !Cancels(log[i], log[k]))
    && (forall k :: 0 <= k < |log| && Delivers(log[k], i) ==> k == j)
  }

  /** Entry `i` was cancelled by entry `k`, no later than it was due, and is never delivered. */
  ghost predicate CancelledAt(log: seq<LogEntry>, i: nat, k: nat) {
    && i < k < |log| && Cancels(log[i], log[k]) && TimeOf(log[k]) <= TimeOf(log[i]) + 300
    && (forall j :: 0 <= j < |log| ==> !Delivers(log[j], i))
  }

  /** Entry `i` is still waiting: nothing delivered or cancelled it, and it is not overdue. */
  ghost predicate Waiting(log: seq<LogEntry>, now: int, i: nat) {
    && i < |log| && now <= TimeOf(log[i]) + 300
    && (forall k :: i < k < |log| ==> !Cancels(log[i], log[k]))
    && (forall j :: 0 <= j < |log| ==> !Delivers(log[j], i))
  }

  function TimeOf(e: LogEntry): int {
    e.time
  }

  ghost predicate Settled(log: seq<LogEntry>, i: nat) {
    (exists j: nat :: DeliveredAt(log, i, j)) || (exists k: nat :: CancelledAt(log, i, k))
  }

  /** The pending timeouts are those of `debounceTimers`, one per key. */
  ghost predicate Paired(timers: map<string, TimerId>, pending: map<TimerId, Timer>, next: TimerId) {
    && (forall key <- timers :: timers[key] in pending && pending[timers[key]].key == key)
    && (forall id <- pending :: id < next && pending[id].key in timers && timers[pending[id].key] == id)
  }

  /** A pending timeout belongs to a waiting entry of its key. */
  ghost predicate TimerSane(t: Timer, log: seq<LogEntry>, now: int) {
    && t.source < |log| && log[t.source].Accepted? && log[t.source].key == t.key
    && t.due == log[t.source].time + DELAY && Waiting(log, now, t.source)
  }

  ghost predicate TimersSane(pending: map<TimerId, Timer>, log: seq<LogEntry>, now: int) {
    forall id <- pending :: TimerSane(pending[id], log, now)
  }

  /** Some pending timeout will deliver entry `i`. */
  ghost predicate Held(pending: map<TimerId, Timer>, i: nat) {
    exists id <- pending :: pending[id].source == i
  }

  ghost predicate Fated(pending: map<TimerId, Timer>, log: seq<LogEntry>) {
    forall i :: 0 <= i < |log| && log[i].Accepted? ==> Held(pending, i) || Settled(log, i)
  }

  ghost predicate Past(log: seq<LogEntry>, now: int) {
    && (forall i :: 0 <= i < |log| ==> TimeOf(log[i]) <= now)
    && (forall j :: 0 <= j < |log| && log[j].Delivered? ==> log[j].source < |log|)
  }

  ghost predicate Sane(s: State) {
    && Paired(s.debounceTimers, s.pending, s.nextTimer)
    && TimersSane(s.pending, s.log, s.now) && Fated(s.pending, s.log) && Past(s.log, s.now)
  }

  lemma SettledStays(log: seq<LogEntry>, e: LogEntry, i: nat)
    requires Settled(log, i) && !Delivers(e, i)
    ensures Settled(log + [e], i)
  {
    if j: nat :| DeliveredAt(log, i, j) {
      assert DeliveredAt(log + [e], i, j);
    } else {
      var k: nat :| CancelledAt(log, i, k);
      assert CancelledAt(log + [e], i, k);
    }
  }

  /** A waiting entry goes on waiting after an entry that does not concern it, is cancelled
      by one that cancels it, and is delivered by its own delivery. */
  lemma WaitingOneMore(log: seq<LogEntry>, e: LogEntry, now: int, i: nat)
    requires Waiting(log, now, i) && log[i].Accepted? && TimeOf(e) == now
    ensures !Cancels(log[i], e) && !Delivers(e, i) ==> Waiting(log + [e], now, i)
    ensures Cancels(log[i], e) ==> Settled(log + [e], i)
    ensures e == Delivered(i, log[i].payload, log[i].time + DELAY) ==> Settled(log + [e], i)
  {
    if Cancels(log[i], e) {
      assert CancelledAt(log + [e], i, |log|);
    }
    if e == Delivered(i, log[i].payload, log[i].time + DELAY) {
      assert DeliveredAt(log + [e], i, |log|);
    }
  }

  /** The entry cancels what the timer waits for, or delivers it. */
  ghost predicate Concerns(e: LogEntry, log: seq<LogEntry>, t: Timer) {
    t.source < |log| && log[t.source].Accepted? && (Cancels(log[t.source], e) || Delivers(e, t.source))
  }

  /** A delivery comes on time and carries the payload of its entry. */
  ghost predicate Genuine(e: LogEntry, log: seq<LogEntry>) {
    e.Delivered? ==>
      && e.source < |log| && log[e.source].Accepted?
      && e == Delivered(e.source, log[e.source].payload, log[e.source].time + DELAY)
  }

  lemma AppendToTimer(t: Timer, log: seq<LogEntry>, e: LogEntry, now: int)
    requires TimerSane(t, log, now) && TimeOf(e) == now && Genuine(e, log)
    ensures if Concerns(e, log, t) then Settled(log + [e], t.source) else TimerSane(t, log + [e], now)
  {
    WaitingOneMore(log, e, now, t.source);
  }

  /** An entry appended to the log leaves the timers it does not concern sane, and settles
      whatever it takes away. */
  lemma Append(pending: map<TimerId, Timer>, kept: map<TimerId, Timer>, log: seq<LogEntry>, e: LogEntry, now: int)
    requires TimersSane(pending, log, now) && Fated(pending, log) && TimeOf(e) == now && Genuine(e, log)
    requires e.Delivered? ==> Held(pending, e.source)
    requires forall id :: id in kept <==> id in pending && !Concerns(e, log, pending[id])
    requires forall id <- kept :: kept[id] == pending[id]
    ensures TimersSane(kept, log + [e], now)
    ensures FatedBefore(kept, log + [e], |log|)
  {
    forall id <- kept ensures TimerSane(kept[id], log + [e], now) {
      AppendToTimer(pending[id], log, e, now);
    }
    forall i | 0 <= i < |log| && log[i].Accepted? ensures Held(kept, i) || Settled(log + [e], i) {
      FateAfterAppend(pending, kept, log, e, now, i);
    }
  }

  lemma FateAfterAppend(pending: map<TimerId, Timer>, kept: map<TimerId, Timer>, log: seq<LogEntry>, e: LogEntry,
                        now: int, i: nat)
    requires TimersSane(pending, log, now) && TimeOf(e) == now && Genuine(e, log)
    requires Held(pending, i) || (Settled(log, i) && (e.Delivered? ==> Held(pending, e.source)))
    requires forall id :: id in kept <==> id in pending && !Concerns(e, log, pending[id])
    requires forall id <- kept :: kept[id] == pending[id]
    ensures Held(kept, i) || Settled(log + [e], i)
  {
    if id :| id in pending && pending[id].source == i {
      AppendToTimer(pending[id], log, e, now);
      assert id in kept ==> kept[id].source == i;
    } else {
      SettledStays(log, e, i);
    }
  }

  lemma AcceptKeepsPaired(s: State, key: string, source: nat)
    requires Paired(s.debounceTimers, s.pending, s.nextTimer)
    ensures var t := Debounce(s, key, source);
      Paired(t.debounceTimers, t.pending, t.nextTimer)
  {
  }

  /** The timers that a new event of `key` leaves alone are those of other keys. */
  lemma KeptTimers(s: State, key: string, id: TimerId, e: LogEntry)
    requires Paired(s.debounceTimers, s.pending, s.nextTimer) && TimersSane(s.pending, s.log, s.now)
    requires e.Accepted? && e.key == key
    ensures id in KeptBy(s, key) <==> id in s.pending && !Concerns(e, s.log, s.pending[id])
  {
    if id in s.pending {
      assert TimerSane(s.pending[id], s.log, s.now);
    }
  }

  function KeptBy(s: State, key: string): map<TimerId, Timer> {
    if key in s.debounceTimers then s.pending - {s.debounceTimers[key]} else s.pending
  }

  /** The accepted entries before the `n`-th have a timer or a fate. */
  ghost predicate FatedBefore(pending: map<TimerId, Timer>, log: seq<LogEntry>, n: nat) {
    forall i :: 0 <= i < n <= |log| && log[i].Accepted? ==> Held(pending, i) || Settled(log, i)
  }

  lemma AcceptKeepsTimers(s: State, e: LogEntry, kept: map<TimerId, Timer>)
    requires Sane(s) && e.Accepted? && e.time == s.now && kept == KeptBy(s, e.key)
    ensures TimersSane(kept, s.log + [e], s.now) && s.nextTimer !in kept
    ensures FatedBefore(kept, s.log + [e], |s.log|)
  {
    forall other {
      KeptTimers(s, e.key, other, e);
    }
    Append(s.pending, kept, s.log, e, s.now);
  }

  /** `t` is `s` after accepting `e`. */
  ghost predicate AfterAccept(s: State, t: State, e: LogEntry) {
    && e.Accepted? && e.time == s.now && t.now == s.now && t.log == s.log + [e]
    && t.pending == KeptBy(s, e.key)[s.nextTimer := Timer(e.key, s.now + DELAY, |s.log|)]
    && t.debounceTimers == s.debounceTimers[e.key := s.nextTimer] && t.nextTimer == s.nextTimer + 1
  }

  lemma AcceptedIsPaired(s: State, t: State, e: LogEntry)
    requires Paired(s.debounceTimers, s.pending, s.nextTimer) && AfterAccept(s, t, e)
    ensures Paired(t.debounceTimers, t.pending, t.nextTimer)
  {
    AcceptKeepsPaired(s, e.key, |s.log|);
  }

  lemma AcceptedTimers(s: State, t: State, e: LogEntry, kept: map<TimerId, Timer>)
    requires AfterAccept(s, t, e) && kept == KeptBy(s, e.key) && Past(s.log, s.now)
    requires TimersSane(kept, s.log + [e], s.now) && s.nextTimer !in kept && FatedBefore(kept, s.log + [e], |s.log|)
    ensures TimersSane(t.pending, t.log, t.now) && Fated(t.pending, t.log) && Past(t.log, t.now)
  {
    WithNewTimer(kept, t.pending, s.nextTimer, s.log, e, t.log, s.now);
  }

  lemma AcceptedIsSane(s: State, t: State, e: LogEntry)
    requires Sane(s) && AfterAccept(s, t, e)
    ensures Sane(t)
  {
    var kept := KeptBy(s, e.key);
    AcceptedIsPaired(s, t, e);
    AcceptKeepsTimers(s, e, kept);
    AcceptedTimers(s, t, e, kept);
  }

  lemma AcceptKeepsSane(s: State, kind: Kind, id: string, timestamp: string, payload: string)
    requires Sane(s) && EventIdOf(kind, id, timestamp) !in s.processedEvents
    ensures Sane(Handle(s, kind, id, timestamp, payload))
  {
    AcceptedIsSane(s, Handle(s, kind, id, timestamp, payload),
                   Accepted(KeyOf(kind, id), kind, id, timestamp, payload, s.now));
  }

  lemma WithNewTimer(kept: map<TimerId, Timer>, pending: map<TimerId, Timer>, id: TimerId, log: seq<LogEntry>,
                     e: LogEntry, more: seq<LogEntry>, now: int)
    requires id !in kept && e.Accepted? && e.time == now && Past(log, now) && more == log + [e]
    requires pending == kept[id := Timer(e.key, now + DELAY, |log|)]
    requires TimersSane(kept, more, now) && FatedBefore(kept, more, |log|)
    ensures TimersSane(pending, more, now) && Fated(pending, more) && Past(more, now)
  {
    NewEntryWaits(log, e, now);
    NewTimerFated(kept, pending, id, more, |log|);
  }

  lemma NewEntryWaits(log: seq<LogEntry>, e: LogEntry, now: int)
    requires Past(log, now) && e.Accepted? && e.time == now
    ensures TimerSane(Timer(e.key, now + DELAY, |log|), log + [e], now)
    ensures Past(log + [e], now)
  {
  }

  lemma NewTimerFated(kept: map<TimerId, Timer>, pending: map<TimerId, Timer>, id: TimerId, log: seq<LogEntry>, last: nat)
    requires id !in kept && id in pending && pending == kept[id := pending[id]] && pending[id].source == last
    requires |log| == last + 1 && FatedBefore(kept, log, last)
    ensures Fated(pending, log)
  {
    forall i | 0 <= i < |log| && log[i].Accepted? ensures Held(pending, i) || Settled(log, i) {
      if i < last && Held(kept, i) {
        var other :| other in kept && kept[other].source == i;
        assert pending[other].source == i;
      }
    }
  }

  /** An entry that accepts nothing has no fate of its own. */
  lemma NothingAccepted(pending: map<TimerId, Timer>, log: seq<LogEntry>, e: LogEntry, now: int)
    requires !e.Accepted? && TimeOf(e) <= now && (e.Delivered? ==> e.source < |log|) && Past(log, now)
    requires FatedBefore(pending, log + [e], |log|)
    ensures Fated(pending, log + [e]) && Past(log + [e], now)
  {
  }

  lemma FireLeaves(s: State, kept: map<TimerId, Timer>, id: TimerId, e: LogEntry)
    requires Sane(s) && id in s.pending && kept == s.pending - {id}
    requires e.Delivered? && e.source == s.pending[id].source
    ensures forall other :: other in kept <==> other in s.pending && !Concerns(e, s.log, s.pending[other])
  {
    forall other ensures other in kept <==> other in s.pending && !Concerns(e, s.log, s.pending[other]) {
      if other in s.pending {
        FireConcerns(s, id, e, other);
      }
    }
  }

  lemma FireKeepsTimers(s: State, id: TimerId, e: LogEntry)
    requires Sane(s) && id in s.pending && s.pending[id].due <= s.now
    requires e == Delivered(s.pending[id].source, s.log[s.pending[id].source].payload, s.now)
    ensures TimersSane(s.pending - {id}, s.log + [e], s.now) && Fated(s.pending - {id}, s.log + [e])
    ensures Past(s.log + [e], s.now)
  {
    var kept := s.pending - {id};
    assert TimerSane(s.pending[id], s.log, s.now);
    FireLeaves(s, kept, id, e);
    assert Held(s.pending, e.source) && Genuine(e, s.log);
    Append(s.pending, kept, s.log, e, s.now);
    NothingAccepted(kept, s.log, e, s.now);
  }

  /** The only timer a delivery concerns is the one that fired. */
  lemma FireConcerns(s: State, id: TimerId, e: LogEntry, other: TimerId)
    requires Sane(s) && id in s.pending && other in s.pending
    requires e.Delivered? && e.source == s.pending[id].source
    ensures Concerns(e, s.log, s.pending[other]) <==> other == id
  {
  }

  lemma FireKeepsSane(s: State, id: TimerId)
    requires Sane(s) && id in s.pending && s.pending[id].due <= s.now
    ensures Sane(Step(s, Fire(id)))
  {
    var timer := s.pending[id];
    assert TimerSane(timer, s.log, s.now);
    FireKeepsTimers(s, id, Delivered(timer.source, s.log[timer.source].payload, s.now));
    FireKeepsPaired(s.debounceTimers, s.pending, s.nextTimer, id);
  }

  lemma FireKeepsPaired(timers: map<string, TimerId>, pending: map<TimerId, Timer>, next: TimerId, id: TimerId)
    requires Paired(timers, pending, next) && id in pending
    ensures Paired(timers - {pending[id].key}, pending - {id}, next)
  {
  }

  lemma CleanupLeavesNone(s: State, e: LogEntry)
    requires Sane(s) && e == TornDown(s.now)
    ensures forall id <- s.pending :: Concerns(e, s.log, s.pending[id])
    ensures Uncleared(s) == map[]
  {
    forall id <- s.pending ensures Concerns(e, s.log, s.pending[id]) {
      assert TimerSane(s.pending[id], s.log, s.now);
    }
  }

  lemma CleanupKeepsSane(s: State)
    requires Sane(s)
    ensures Sane(Step(s, Cleanup))
  {
    var none: map<TimerId, Timer>, e := map[], TornDown(s.now);
    CleanupLeavesNone(s, e);
    Append(s.pending, none, s.log, e, s.now);
    NothingAccepted(none, s.log, e, s.now);
  }

  lemma LaterTimer(t: Timer, log: seq<LogEntry>, now: int, later: int)
    requires TimerSane(t, log, now) && now <= later <= t.due
    ensures TimerSane(t, log, later)
  {
  }

  lemma TickKeepsSane(s: State, d: nat)
    requires Sane(s)
    ensures Sane(Step(s, Tick(d)))
  {
    var t := Step(s, Tick(d));
    if t != s {
      forall id <- s.pending ensures TimerSane(s.pending[id], s.log, s.now + d) {
        LaterTimer(s.pending[id], s.log, s.now, s.now + d);
      }
    }
  }

  lemma StepKeepsSane(s: State, a: Action)
    requires Sane(s)
    ensures Sane(Step(s, a))
  {
    match a
    case Event(kind, id, timestamp, payload) =>
      if EventIdOf(kind, id, timestamp) !in s.processedEvents {
        AcceptKeepsSane(s, kind, id, timestamp, payload);
      }
    case Malformed =>
    case Tick(d) => TickKeepsSane(s, d);
    case Fire(id) =>
      if id in s.pending && s.pending[id].due <= s.now {
        FireKeepsSane(s, id);
      }
    case Cleanup => CleanupKeepsSane(s);
  }

  lemma {:induction false} RunsAreSane(actions: seq<Action>)
    ensures Sane(Run(actions))
  {
    if actions != [] {
      RunsAreSane(actions[..|actions| - 1]);
      StepKeepsSane(Run(actions[..|actions| - 1]), actions[|actions| - 1]);
    }
  }

  /** What every step keeps: the timers are sane and the memory is exact. */
  ghost predicate Invariant(s: State) {
    Sane(s) && Remembers(s)
  }

  lemma StepKeepsValid(s: State, a: Action)
    requires Invariant(s)
    ensures Invariant(Step(s, a))
  {
    StepKeepsSane(s, a);
    StepKeepsMemory(s, a);
  }

  /** The map of timers names every pending one. */
  lemma NothingUncleared(s: State)
    requires Invariant(s)
    ensures Uncleared(s) == map[]
  {
  }

  /** In every run it is the later events of one kind and test run, and teardowns, that cancel. */
  lemma {:induction false} CancelsIff(actions: seq<Action>, i: nat, k: nat)
    requires i < |Run(actions).log| && k < |Run(actions).log|
    ensures var entry, later := Run(actions).log[i], Run(actions).log[k];
      Cancels(entry, later) <==>
        (entry.Accepted? && (later.TornDown? || (later.Accepted? && later.kind == entry.kind && later.id == entry.id)))
  {
    RunsAreKeyed(actions);
    var entry, later := Run(actions).log[i], Run(actions).log[k];
    if entry.Accepted? && later.Accepted? {
      KeysEqualIff(later.kind, later.id, entry.kind, entry.id);
    }
  }

  /** In every run each key has at most one pending timeout. */
  lemma {:induction false} OneTimerPerKey(actions: seq<Action>, a: TimerId, b: TimerId)
    ensures var s := Run(actions);
      a in s.pending && b in s.pending && s.pending[a].key == s.pending[b].key ==> a == b
  {
    RunsAreSane(actions);
  }

  /** In every run each accepted event has exactly one fate. It is delivered once, 300 ms
      after its acceptance, with its own payload and nothing having cancelled it before; or a
      later event of its key or a teardown cancels it by then and it is never delivered; or
      it is still waiting, neither cancelled nor overdue. */
  lemma {:induction false} EveryEventHasOneFate(actions: seq<Action>, i: nat)
    requires i < |Run(actions).log| && Run(actions).log[i].Accepted?
    ensures var s := Run(actions);
      var delivered, cancelled := exists j: nat :: DeliveredAt(s.log, i, j), exists k: nat :: CancelledAt(s.log, i, k);
      && (delivered || cancelled || Waiting(s.log, s.now, i))
      && !(delivered && cancelled) && !(delivered && Waiting(s.log, s.now, i)) && !(cancelled && Waiting(s.log, s.now, i))
  {
    RunsAreSane(actions);
    var s := Run(actions);
    if id :| id in s.pending && s.pending[id].source == i {
      assert TimerSane(s.pending[id], s.log, s.now);
    }
  }

  /** Once its 300 ms are over, an accepted event has reached its callback if and only if
      nothing cancelled it before it did: of a burst only the last event is delivered. */
  lemma {:induction false} DeliveredIffNotCancelled(actions: seq<Action>, i: nat)
    requires i < |Run(actions).log| && Run(actions).log[i].Accepted?
    requires Run(actions).now > Run(actions).log[i].time + 300
    ensures var s := Run(actions);
      (exists j: nat :: DeliveredAt(s.log, i, j))
        <==> (forall k :: i < k < |s.log| && Cancels(s.log[i], s.log[k]) ==>
               exists j :: i < j < k && Delivers(s.log[j], i))
  {
    EveryEventHasOneFate(actions, i);
    var s := Run(actions);
    if j: nat :| DeliveredAt(s.log, i, j) {
      forall k | i < k < |s.log| && Cancels(s.log[i], s.log[k]) ensures exists j :: i < j < k && Delivers(s.log[j], i) {
        assert i < j < k && Delivers(s.log[j], i);
      }
    } else {
      var k: nat :| CancelledAt(s.log, i, k);
    }
  }
}
