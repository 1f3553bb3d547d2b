/** The realtime hook: a bounded memory of accepted events and one debounce timer per key.
    Every sequence of actions is a run; an action that is not possible changes nothing. */
module RealtimeMachine {

  const CAPACITY := 100
  const DELAY := 300

  type TimerId = nat

  datatype Kind = Created | Updated | Deleted

  /** A pending timeout: its debounce key, when it is due, and the log entry it will deliver. */
  datatype Timer = Timer(key: string, due: int, source: nat)

  datatype LogEntry =
    | Accepted(key: string, kind: Kind, id: string, timestamp: string, payload: string, time: int)
    | Delivered(source: nat, payload: string, time: int)
    | TornDown(time: int)

  /** The two refs, what the runtime keeps for the hook, and the log of what happened. */
  datatype State = State(processedEvents: seq<string>, debounceTimers: map<string, TimerId>,
                         now: int, pending: map<TimerId, Timer>, nextTimer: TimerId, log: seq<LogEntry>)

  const INITIAL := State([], map[], 0, map[], 0, [])

  datatype Action =
    | Event(kind: Kind, id: string, timestamp: string, payload: string)
    | Malformed                 // a payload without test run or id
    | Tick(d: nat)              // time passes, but not past a timeout that is due
    | Fire(timer: TimerId)      // a due timeout runs its callback
    | Cleanup                   // the effect is torn down, on unmount or when its inputs change

  function Prefix(kind: Kind): string {
    match kind
    case Created => "created-"
    case Updated => "updated-"
    case Deleted => "deleted-"
  }

  function KeyOf(kind: Kind, id: string): string {
    Prefix(kind) + id
  }

  function EventIdOf(kind: Kind, id: string, timestamp: string): string {
    KeyOf(kind, id) + "-" + timestamp
  }

  function Last(ids: seq<string>, n: nat): seq<string> {
    if |ids| <= n then ids else ids[|ids| - n..]
  }

  function Debounce(s: State, key: string, source: nat): State {
    var kept := if key in s.debounceTimers then s.pending - {s.debounceTimers[key]} else s.pending;
    s.(pending := kept[s.nextTimer := Timer(key, s.now + DELAY, source)],
       debounceTimers := s.debounceTimers[key := s.nextTimer], nextTimer := s.nextTimer + 1)
  }

  /** What the handler of this kind does with an event. */
  function Handle(s: State, kind: Kind, id: string, timestamp: string, payload: string): State {
    var eventId := EventIdOf(kind, id, timestamp);
    if eventId in s.processedEvents then s else
    Debounce(s.(log := s.log + [Accepted(KeyOf(kind, id), kind, id, timestamp, payload, s.now)]), KeyOf(kind, id), |s.log|)
      .(processedEvents := Last(s.processedEvents + [eventId], CAPACITY))
  }

  function Uncleared(s: State): map<TimerId, Timer> {
    map id | id in s.pending && id !in s.debounceTimers.Values :: s.pending[id]
  }

  function Step(s: State, a: Action): State {
    match a
    case Event(kind, id, timestamp, payload) => Handle(s, kind, id, timestamp, payload)
    case Malformed => s
    case Tick(d) => if exists id <- s.pending :: s.pending[id].due < s.now + d then s else s.(now := s.now + d)
    case Fire(id) =>
      if id !in s.pending || s.pending[id].due > s.now || s.pending[id].source >= |s.log|
         || !s.log[s.pending[id].source].Accepted? then s else
      s.(pending := s.pending - {id}, debounceTimers := s.debounceTimers - {s.pending[id].key},
         log := s.log + [Delivered(s.pending[id].source, s.log[s.pending[id].source].payload, s.now)])
    case Cleanup => s.(pending := Uncleared(s), debounceTimers := map[], log := s.log + [TornDown(s.now)])
  }

  function Run(actions: seq<Action>): State {
    if actions == [] then INITIAL else Step(Run(actions[..|actions| - 1]), actions[|actions| - 1])
  }
}
