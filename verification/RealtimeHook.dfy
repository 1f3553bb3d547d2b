/** The realtime hook as an object: the refs its handlers and timeouts change. */
module RealtimeHook {
  import opened RealtimeMachine
  import opened RealtimeTheorems

  class Hook {
    var processedEvents: seq<string>   // a Set, in insertion order
    var debounceTimers: map<string, TimerId>
    var now: int
    var pending: map<TimerId, Timer>
    var nextTimer: TimerId
    var log: seq<LogEntry>

    constructor ()
      ensures Valid() && View() == INITIAL
    {
      processedEvents, debounceTimers, now, pending, nextTimer, log := [], map[], 0, map[], 0, [];
    }

    function View(): State
      reads this
    {
      State(processedEvents, debounceTimers, now, pending, nextTimer, log)
    }

    /** The invariants of all runs. */
    ghost predicate Valid()
      reads this
    {
      Invariant(View())
    }

    method DebounceCallback(key: string, source: nat)
      modifies this`debounceTimers, this`pending, this`nextTimer
      ensures View() == Debounce(old(View()), key, source)
    {
      if key in debounceTimers {
        pending := pending - {debounceTimers[key]};
      }
      pending := pending[nextTimer := Timer(key, now + DELAY, source)];
      debounceTimers := debounceTimers[key := nextTimer];
      nextTimer := nextTimer + 1;
    }

    /** An event that is not remembered is remembered, trimming the memory, and debounced. */
    method Process(kind: Kind, id: string, timestamp: string, payload: string)
      modifies this
      ensures View() == Handle(old(View()), kind, id, timestamp, payload)
    {
      var eventId := EventIdOf(kind, id, timestamp);
      if eventId in processedEvents {
        return;
      }
      processedEvents := processedEvents + [eventId];
      log := log + [Accepted(KeyOf(kind, id), kind, id, timestamp, payload, now)];
      DebounceCallback(KeyOf(kind, id), |log| - 1);
      if |processedEvents| > CAPACITY {
        processedEvents := processedEvents[|processedEvents| - CAPACITY..];
      }
    }

    /** The three handlers, which differ in the prefix of their ids only. */
    method HandleEvent(kind: Kind, id: string, timestamp: string, payload: string)
      requires Valid()
      modifies this
      ensures View() == Step(old(View()), Event(kind, id, timestamp, payload))
      ensures Valid()
    {
      StepKeepsValid(View(), Event(kind, id, timestamp, payload));
      Process(kind, id, timestamp, payload);
    }

    method TimeoutFires(id: TimerId)
      requires Valid() && id in pending && pending[id].due <= now
      modifies this
      ensures View() == Step(old(View()), Fire(id))
      ensures Valid()
    {
      StepKeepsValid(View(), Fire(id));
      assert TimerSane(pending[id], log, now);
      RunCallback(id);
    }

    method RunCallback(id: TimerId)
      requires id in pending && pending[id].source < |log| && log[pending[id].source].Accepted?
      modifies this
      ensures var timer := old(pending)[id];
        View() == old(View()).(pending := old(pending) - {id}, debounceTimers := old(debounceTimers) - {timer.key},
                               log := old(log) + [Delivered(timer.source, old(log)[timer.source].payload, now)])
    {
      var timer := pending[id];
      pending := pending - {id};
      log := log + [Delivered(timer.source, log[timer.source].payload, now)];
      debounceTimers := debounceTimers - {timer.key};
    }

    /** `debounceTimers.forEach((timer) => clearTimeout(timer))`. */
    method ClearTimers()
      modifies this`pending
      ensures pending == Uncleared(old(View()))
    {
      ghost var before := pending;
      var keys := debounceTimers.Keys;
      ghost var cleared: set<TimerId> := {};
      while keys != {}
        invariant keys <= debounceTimers.Keys && pending == before - cleared
        invariant forall id :: id in cleared <==>
          exists key :: key in debounceTimers && key !in keys && debounceTimers[key] == id
      {
        var key :| key in keys;
        pending := pending - {debounceTimers[key]};
        cleared := cleared + {debounceTimers[key]};
        keys := keys - {key};
      }
    }

    /** No timeout is left. */
    method TearDown()
      requires Valid()
      modifies this
      ensures View() == Step(old(View()), Cleanup)
      ensures Valid() && pending == map[] && debounceTimers == map[]
    {
      StepKeepsValid(View(), Cleanup);
      NothingUncleared(View());
      ClearTimers();
      debounceTimers := map[];
      log := log + [TornDown(now)];
    }
  }
}
