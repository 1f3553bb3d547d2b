/** The reconnecting socket manager: its listener registry, its backoff and its one timer. */
module SocketManager {
  import opened Collections

  type Listener = nat
  type TimerId = nat

  datatype ConnectionState = Disconnected | Connecting | Connected | Errored

  /** A Socket.IO client socket: the user listeners attached to it, with multiplicity, and
      whether its transport is up. */
  datatype Socket = Socket(connected: bool, attached: map<string, multiset<Listener>>)

  /** What matters of the past: reconnect timers armed, their connects, and connects that
      succeeded. */
  datatype Happening = Armed(delay: nat) | AutoConnect | Success

  /** The manager's fields, followed by what the runtime keeps for it: the timers that have
      not fired, and the number of `connect` calls still waiting for their socket. */
  datatype State = State(
    socket: Option<Socket>, connectionState: ConnectionState, reconnectAttempts: nat,
    reconnectTimer: Option<TimerId>, persistedListeners: map<string, set<Listener>>,
    timers: set<TimerId>, nextTimer: TimerId, waiting: nat, log: seq<Happening>)

  const MAX_ATTEMPTS := 10
  const BASE_DELAY := 1000
  const MAX_DELAY := 30000

  const INITIAL := State(None, Disconnected, 0, None, map[], {}, 0, 0, [])

  datatype Action =
    | Connect(enabled: bool, token: bool)         // connect(), with Keycloak on or off, with a token or not
    | Opened                                      // a waiting connect() resolves
    | Refused                                     // a waiting connect() rejects
    | TransportChange(up: bool)
    | ConnectError                                // the handlers of setupSocketListeners
    | Closed(byClient: bool)
    | TimerFires(id: TimerId, enabled: bool, token: bool)
    | On(event: string, listener: Listener)
    | Off(event: string, listener: Listener)      // the function `on` returned
    | Disconnect

  // ----- the fields as functions of an action -----

  function Persisted(s: State, event: string): set<Listener> {
    if event in s.persistedListeners then s.persistedListeners[event] else {}
  }

  function Attached(socket: Socket, event: string): multiset<Listener> {
    if event in socket.attached then socket.attached[event] else multiset{}
  }

  function Power2(k: nat): nat {
    if k == 0 then 1 else 2 * Power2(k - 1)
  }

  function Backoff(attempts: nat): nat {
    if BASE_DELAY * Power2(attempts) <= MAX_DELAY then BASE_DELAY * Power2(attempts) else MAX_DELAY
  }

  function Cleared(s: State): set<TimerId> {
    if s.reconnectTimer.Some? then s.timers - {s.reconnectTimer.value} else s.timers
  }

  function ScheduleReconnect(s: State): State {
    var t := s.(timers := Cleared(s));
    if s.reconnectAttempts >= MAX_ATTEMPTS then t else
    t.(timers := t.timers + {t.nextTimer}, reconnectTimer := Some(t.nextTimer), nextTimer := t.nextTimer + 1,
       log := t.log + [Armed(Backoff(t.reconnectAttempts))])
  }

  /** A new socket with every persisted listener attached once. */
  function FreshSocket(persisted: map<string, set<Listener>>): Socket {
    Socket(false, map event | event in persisted && persisted[event] != {} :: multiset(persisted[event]))
  }

  /** `on` for each of `listeners`, on an event without listeners. */
  function AttachEach(socket: Socket, event: string, listeners: set<Listener>): Socket {
    if listeners == {} then socket else socket.(attached := socket.attached[event := multiset(listeners)])
  }

  lemma AttachOneMore(socket: Socket, event: string, done: set<Listener>, listener: Listener)
    requires event !in socket.attached && listener !in done
    ensures var t := AttachEach(socket, event, done);
      t.(attached := t.attached[event := Attached(t, event) + multiset{listener}])
        == AttachEach(socket, event, done + {listener})
  {
    var t := AttachEach(socket, event, done);
    assert Attached(t, event) == multiset(done);
    assert multiset(done + {listener}) == multiset(done) + multiset{listener};
    assert t.attached[event := multiset(done + {listener})] == socket.attached[event := multiset(done + {listener})];
  }

  lemma FreshSocketOneMore(persisted: map<string, set<Listener>>, events: set<string>, event: string)
    requires event in events && event in persisted
    ensures event !in FreshSocket(persisted - events).attached
    ensures FreshSocket(persisted - (events - {event}))
      == AttachEach(FreshSocket(persisted - events), event, persisted[event])
  {
    assert FreshSocket(persisted - (events - {event})).attached
      == AttachEach(FreshSocket(persisted - events), event, persisted[event]).attached;
  }

  function StartConnect(s: State, enabled: bool, token: bool): State {
    if !enabled then s.(connectionState := Disconnected)
    else if s.socket.Some? && s.socket.value.connected then s
    else if s.connectionState == Connecting then s
    else if !token then ScheduleReconnect(s.(connectionState := Errored))
    else s.(connectionState := Connecting, socket := Some(FreshSocket(s.persistedListeners)), waiting := s.waiting + 1)
  }

  /** One copy of the listener taken off. */
  function Without(socket: Socket, event: string, listener: Listener): Socket {
    socket.(attached := socket.attached[event := Attached(socket, event) - multiset{listener}])
  }

  /** Timer `id` is gone, and counted as an attempt. */
  function Attempted(s: State, id: TimerId): State {
    s.(timers := s.timers - {id}, reconnectAttempts := s.reconnectAttempts + 1, log := s.log + [AutoConnect])
  }

  function Step(s: State, a: Action): State {
    match a
    case Connect(enabled, token) => StartConnect(s, enabled, token)
    case Opened =>
      if s.waiting == 0 then s else
      s.(connectionState := Connected, reconnectAttempts := 0, waiting := s.waiting - 1, log := s.log + [Success])
    case Refused =>
      if s.waiting == 0 then s else
      ScheduleReconnect(s.(connectionState := Errored, waiting := s.waiting - 1))
    case TransportChange(up) =>
      if s.socket.None? then s else s.(socket := Some(s.socket.value.(connected := up)))
    case ConnectError => ScheduleReconnect(s.(connectionState := Errored))
    case Closed(byClient) =>
      var t := s.(connectionState := Disconnected);
      if byClient then t else ScheduleReconnect(t)
    case TimerFires(id, enabled, token) =>
      if id !in s.timers then s else
      StartConnect(Attempted(s, id), enabled, token)
    case On(event, listener) =>
      var t := s.(persistedListeners := s.persistedListeners[event := Persisted(s, event) + {listener}]);
      if s.socket.None? then t else
      t.(socket := Some(s.socket.value.(attached :=
        s.socket.value.attached[event := Attached(s.socket.value, event) + multiset{listener}])))
    case Off(event, listener) =>
      var t := if event !in s.persistedListeners then s else
        s.(persistedListeners := s.persistedListeners[event := Persisted(s, event) - {listener}]);
      if s.socket.None? then t else t.(socket := Some(Without(s.socket.value, event, listener)))
    case Disconnect =>
      s.(timers := Cleared(s), reconnectTimer := None, socket := None, persistedListeners := map[],
         connectionState := Disconnected)
  }

  function Run(actions: seq<Action>): State {
    if actions == [] then INITIAL else Step(Run(actions[..|actions| - 1]), actions[|actions| - 1])
  }

  // ----- the manager as an object -----

  class Manager {
    var socket: Option<Socket>
    var connectionState: ConnectionState
    var reconnectAttempts: nat
    var reconnectTimer: Option<TimerId>
    var persistedListeners: map<string, set<Listener>>
    var timers: set<TimerId>
    var nextTimer: TimerId
    var waiting: nat
    var log: seq<Happening>

    constructor ()
      ensures Valid() && View() == INITIAL
    {
      socket, connectionState, reconnectAttempts, reconnectTimer := None, Disconnected, 0, None;
      persistedListeners, timers, nextTimer, waiting, log := map[], {}, 0, 0, [];
    }

    function View(): State
      reads this
    {
      State(socket, connectionState, reconnectAttempts, reconnectTimer, persistedListeners, timers, nextTimer, waiting, log)
    }

    /** The invariants of all runs. */
    ghost predicate Valid()
      reads this
    {
      TimerSane(View()) && StreakSane(View())
    }

    method SetConnectionState(state: ConnectionState)
      modifies this`connectionState
      ensures connectionState == state
    {
      if connectionState == state {
        return;
      }
      connectionState := state;
    }

    method Reconnect()
      modifies this`timers, this`reconnectTimer, this`nextTimer, this`log
      ensures View() == ScheduleReconnect(old(View()))
    {
      if reconnectTimer.Some? {
        timers := timers - {reconnectTimer.value};
      }
      if reconnectAttempts >= MAX_ATTEMPTS {
        return;
      }
      var delay := Backoff(reconnectAttempts);
      timers, reconnectTimer, nextTimer := timers + {nextTimer}, Some(nextTimer), nextTimer + 1;
      log := log + [Armed(delay)];
    }

    /** Attaches every persisted listener to a socket that has none yet. */
    method ReapplyPersistedListeners()
      requires socket.Some? && socket.value == Socket(false, map[])
      modifies this`socket
      ensures socket == Some(FreshSocket(persistedListeners))
    {
      var events := persistedListeners.Keys;
      while events != {}
        invariant events <= persistedListeners.Keys
        invariant socket == Some(FreshSocket(persistedListeners - events))
      {
        var event :| event in events;
        FreshSocketOneMore(persistedListeners, events, event);
        AttachAll(event, persistedListeners[event]);
        events := events - {event};
      }
      assert persistedListeners - {} == persistedListeners;
    }

    /** The inner loop: all listeners of one event that has none attached. */
    method AttachAll(event: string, listeners: set<Listener>)
      requires socket.Some? && event !in socket.value.attached
      modifies this`socket
      ensures socket == Some(AttachEach(old(socket.value), event, listeners))
    {
      var rest := listeners;
      ghost var done := {};
      while rest != {}
        invariant rest !! done && rest + done == listeners
        invariant socket == Some(AttachEach(old(socket.value), event, done))
      {
        var listener :| listener in rest;
        AttachOneMore(old(socket.value), event, done, listener);
        socket := Some(socket.value.(attached :=
          socket.value.attached[event := Attached(socket.value, event) + multiset{listener}]));
        rest, done := rest - {listener}, done + {listener};
      }
    }

    /** The part of `connect` that runs before its first await, or all of it if it gives up. */
    method StartConnecting(enabled: bool, token: bool)
      modifies this
      ensures View() == StartConnect(old(View()), enabled, token)
    {
      if !enabled {
        SetConnectionState(Disconnected);
        return;
      }
      if socket.Some? && socket.value.connected {
        return;
      }
      if connectionState == Connecting {
        return;
      }
      SetConnectionState(Connecting);
      if !token {
        SetConnectionState(Errored);
        Reconnect();
        return;
      }
      socket := Some(Socket(false, map[]));
      ReapplyPersistedListeners();
      waiting := waiting + 1;
    }

    method Connect(enabled: bool, token: bool)
      requires Valid()
      modifies this
      ensures View() == Step(old(View()), Action.Connect(enabled, token))
      ensures Valid()
    {
      StepKeepsValid(View(), Action.Connect(enabled, token));
      StartConnecting(enabled, token);
    }

    method ConnectionOpened()
      requires Valid() && waiting > 0
      modifies this
      ensures View() == Step(old(View()), Opened)
      ensures Valid()
    {
      StepKeepsValid(View(), Opened);
      waiting := waiting - 1;
      SetConnectionState(Connected);
      reconnectAttempts := 0;
      log := log + [Success];
    }

    method ConnectionRefused()
      requires Valid() && waiting > 0
      modifies this
      ensures View() == Step(old(View()), Refused)
      ensures Valid()
    {
      ghost var before, after := View(), Step(View(), Refused);
      StepKeepsValid(before, Refused);
      waiting := waiting - 1;
      SetConnectionState(Errored);
      assert View() == before.(connectionState := Errored, waiting := before.waiting - 1);
      Reconnect();
      assert View() == after;
    }

    method OnConnectError()
      requires Valid()
      modifies this
      ensures View() == Step(old(View()), ConnectError)
      ensures Valid()
    {
      StepKeepsValid(View(), ConnectError);
      SetConnectionState(Errored);
      Reconnect();
    }

    method OnDisconnect(byClient: bool)
      requires Valid()
      modifies this
      ensures View() == Step(old(View()), Closed(byClient))
      ensures Valid()
      ensures if byClient then timers == old(timers) && log == old(log)
              else ReconnectArmed(old(View()), View(), old(reconnectAttempts))
    {
      StepKeepsValid(View(), Closed(byClient));
      if !byClient {
        NeededIsArmed(View(), Closed(byClient));
      }
      SetConnectionState(Disconnected);
      if !byClient {
        Reconnect();
      }
    }

    method ReconnectTimerFires(id: TimerId, enabled: bool, token: bool)
      requires Valid() && id in timers
      modifies this
      ensures View() == Step(old(View()), TimerFires(id, enabled, token))
      ensures Valid()
    {
      StepKeepsValid(View(), TimerFires(id, enabled, token));
      CountAttempt(id);
      StartConnecting(enabled, token);
    }

    method CountAttempt(id: TimerId)
      modifies this`timers, this`reconnectAttempts, this`log
      ensures View() == Attempted(old(View()), id)
    {
      timers := timers - {id};
      reconnectAttempts := reconnectAttempts + 1;
      log := log + [AutoConnect];
    }

    method AddListener(event: string, listener: Listener)
      requires Valid()
      modifies this
      ensures View() == Step(old(View()), On(event, listener))
      ensures Valid()
    {
      ghost var before := View();
      if event !in persistedListeners {
        persistedListeners := persistedListeners[event := {}];
      }
      persistedListeners := persistedListeners[event := persistedListeners[event] + {listener}];
      assert persistedListeners == before.persistedListeners[event := Persisted(before, event) + {listener}];
      if socket.Some? {
        socket := Some(socket.value.(attached :=
          socket.value.attached[event := Attached(socket.value, event) + multiset{listener}]));
      }
    }

    /** What the function returned by `on` does. */
    method RemoveListener(event: string, listener: Listener)
      requires Valid()
      modifies this
      ensures View() == Step(old(View()), Off(event, listener))
      ensures Valid()
    {
      if event in persistedListeners {
        persistedListeners := persistedListeners[event := persistedListeners[event] - {listener}];
      }
      Detach(event, listener);
    }

    /** `socket.off`, if there is a socket. */
    method Detach(event: string, listener: Listener)
      modifies this`socket
      ensures socket == if old(socket).None? then None else Some(Without(old(socket).value, event, listener))
    {
      if socket.Some? {
        socket := Some(Without(socket.value, event, listener));
      }
    }

    method TearDown()
      requires Valid()
      modifies this
      ensures View() == Step(old(View()), Disconnect)
      ensures Valid()
      ensures timers == {} && socket == None && persistedListeners == map[]
    {
      StepKeepsValid(View(), Disconnect);
      if reconnectTimer.Some? {
        timers := timers - {reconnectTimer.value};
        reconnectTimer := None;
      }
      socket := None;
      persistedListeners := map[];
      SetConnectionState(Disconnected);
    }
  }

  // ----- listeners -----

  /** Every event of a live socket has exactly the persisted listeners attached, each once. */
  ghost predicate Matches(s: State) {
    s.socket.Some? ==> forall event :: Attached(s.socket.value, event) == multiset(Persisted(s, event))
  }

  lemma SameListenersMatch(s: State, t: State)
    requires Matches(s) && s.persistedListeners == t.persistedListeners
    requires t.socket.Some? ==> s.socket.Some? && t.socket.value.attached == s.socket.value.attached
    ensures Matches(t)
  {
    if t.socket.Some? {
      forall event ensures Attached(t.socket.value, event) == multiset(Persisted(t, event)) {
        assert Attached(s.socket.value, event) == multiset(Persisted(s, event));
      }
    }
  }

  lemma OtherActionsKeepListeners(s: State, a: Action)
    requires a.Opened? || a.Refused? || a.TransportChange? || a.ConnectError? || a.Closed?
    ensures var t := Step(s, a);
      && t.persistedListeners == s.persistedListeners
      && (t.socket.Some? ==> s.socket.Some? && t.socket.value.attached == s.socket.value.attached)
  {
  }

  lemma StartConnectKeepsMatch(s: State, enabled: bool, token: bool)
    requires Matches(s)
    ensures Matches(StartConnect(s, enabled, token))
  {
  }

  lemma OffKeepsMatch(s: State, event: string, listener: Listener)
    requires Matches(s)
    ensures Matches(Step(s, Off(event, listener)))
  {
    var t := Step(s, Off(event, listener));
    if s.socket.Some? {
      forall other ensures Attached(t.socket.value, other) == multiset(Persisted(t, other)) {
        assert Attached(s.socket.value, other) == multiset(Persisted(s, other));
        assert multiset(Persisted(s, other) - {listener}) == multiset(Persisted(s, other)) - multiset{listener};
      }
    }
  }

  lemma StepKeepsMatch(s: State, a: Action)
    requires Matches(s) && !a.On?
    ensures Matches(Step(s, a))
  {
    match a
    case Connect(enabled, token) => StartConnectKeepsMatch(s, enabled, token);
    case TimerFires(id, enabled, token) =>
      if id in s.timers {
        var t := Attempted(s, id);
        SameListenersMatch(s, t);
        StartConnectKeepsMatch(t, enabled, token);
      }
    case Off(event, listener) => OffKeepsMatch(s, event, listener);
    case Disconnect =>
    case _ =>
      OtherActionsKeepListeners(s, a);
      SameListenersMatch(s, Step(s, a));
  }

  /** `on` keeps the match exactly when it does not register a listener a second time on a
      live socket. */
  lemma OnKeepsMatchIff(s: State, event: string, listener: Listener)
    requires Matches(s)
    ensures Matches(Step(s, On(event, listener))) <==> s.socket.None? || listener !in Persisted(s, event)
  {
    var t := Step(s, On(event, listener));
    if s.socket.Some? {
      assert Attached(s.socket.value, event) == multiset(Persisted(s, event));
      assert Attached(t.socket.value, event)[listener] == Attached(s.socket.value, event)[listener] + 1;
      if listener !in Persisted(s, event) {
        assert multiset(Persisted(s, event) + {listener}) == multiset(Persisted(s, event)) + multiset{listener};
        forall other ensures Attached(t.socket.value, other) == multiset(Persisted(t, other)) {
          assert Attached(s.socket.value, other) == multiset(Persisted(s, other));
        }
      } else {
        assert multiset(Persisted(t, event))[listener] == 1;
      }
    }
  }

  /** The registration meets no socket, or the listener is new to its event. */
  ghost predicate Fresh(s: State, a: Action) {
    a.On? ==> s.socket.None? || a.listener !in Persisted(s, a.event)
  }

  ghost predicate AllFresh(actions: seq<Action>) {
    forall i :: 0 <= i < |actions| ==> Fresh(Run(actions[..i]), actions[i])
  }

  ghost predicate AlwaysMatches(actions: seq<Action>) {
    forall n :: 0 <= n <= |actions| ==> Matches(Run(actions[..n]))
  }

  lemma StepKeepsMatchIff(s: State, a: Action)
    requires Matches(s)
    ensures Matches(Step(s, a)) <==> Fresh(s, a)
  {
    if a.On? {
      OnKeepsMatchIff(s, a.event, a.listener);
    } else {
      StepKeepsMatch(s, a);
    }
  }

  lemma RunFront(actions: seq<Action>, n: nat)
    requires 0 < n <= |actions|
    ensures Run(actions[..n]) == Step(Run(actions[..n - 1]), actions[n - 1])
  {
    assert actions[..n][..n - 1] == actions[..n - 1];
  }

  lemma {:induction false} MatchesUpTo(actions: seq<Action>, n: nat)
    requires AllFresh(actions) && n <= |actions|
    ensures Matches(Run(actions[..n]))
  {
    if n > 0 {
      MatchesUpTo(actions, n - 1);
      RunFront(actions, n);
      StepKeepsMatchIff(Run(actions[..n - 1]), actions[n - 1]);
    }
  }

  /** All along a run, across any number of reconnects, unsubscriptions and teardowns, a live
      socket has exactly the registry attached, if and only if no listener is ever registered
      again for its event on a live socket. */
  lemma {:induction false} ListenersMatchRegistry(actions: seq<Action>)
    ensures AlwaysMatches(actions) <==> AllFresh(actions)
  {
    if AlwaysMatches(actions) {
      forall i | 0 <= i < |actions| ensures Fresh(Run(actions[..i]), actions[i]) {
        RunFront(actions, i + 1);
        assert Matches(Run(actions[..i + 1])) && Matches(Run(actions[..i]));
        StepKeepsMatchIff(Run(actions[..i]), actions[i]);
      }
    }
    if AllFresh(actions) {
      forall n | 0 <= n <= |actions| ensures Matches(Run(actions[..n])) {
        MatchesUpTo(actions, n);
      }
    }
  }

  /** Connecting and registering one listener twice. */
  function Twice(event: string, listener: Listener): seq<Action> {
    [Connect(true, true), On(event, listener), On(event, listener)]
  }

  lemma OnTwice(s: State, event: string, listener: Listener)
    requires s.socket == Some(Socket(false, map[])) && s.persistedListeners == map[]
    ensures var t := Step(s, On(event, listener));
      && !Fresh(t, On(event, listener))
      && var u := Step(t, On(event, listener));
        && u.socket.Some? && Attached(u.socket.value, event) == multiset{listener, listener}
        && Persisted(u, event) == {listener}
  {
    var t := Step(s, On(event, listener));
    assert Persisted(t, event) == {listener} && Attached(t.socket.value, event) == multiset{listener};
  }

  /** It ends with the listener attached twice and registered once. */
  lemma {:induction false} RegisteredTwice(event: string, listener: Listener)
    ensures var s := Run(Twice(event, listener));
      && s.socket.Some? && Attached(s.socket.value, event) == multiset{listener, listener}
      && Persisted(s, event) == {listener}
    ensures !AlwaysMatches(Twice(event, listener))
  {
    var es := Twice(event, listener);
    RunFront(es, 1);
    RunFront(es, 2);
    RunFront(es, 3);
    assert es[..3] == es && es[..0] == [];
    OnTwice(Step(INITIAL, Connect(true, true)), event, listener);
    assert !Fresh(Run(es[..2]), es[2]);
    ListenersMatchRegistry(es);
  }

  // ----- timer and backoff -----

  /** At most one timer is pending, it is the one the manager remembers, and there are
      attempts left for it. */
  ghost predicate TimerSane(s: State) {
    && s.reconnectAttempts <= MAX_ATTEMPTS
    && (forall id <- s.timers :: s.reconnectTimer == Some(id) && id < s.nextTimer)
    && (s.timers != {} ==> s.reconnectAttempts < MAX_ATTEMPTS)
  }

  lemma StepKeepsTimerSane(s: State, a: Action)
    requires TimerSane(s)
    ensures TimerSane(Step(s, a))
  {
  }

  /** The happenings since the last successful connect. */
  function Streak(log: seq<Happening>): seq<Happening> {
    if log == [] || log[|log| - 1].Success? then [] else Streak(log[..|log| - 1]) + [log[|log| - 1]]
  }

  function AutoConnects(log: seq<Happening>): nat {
    if log == [] then 0 else AutoConnects(log[..|log| - 1]) + if log[|log| - 1].AutoConnect? then 1 else 0
  }

  /** Every timer of a streak was armed with the delay of the automatic connects before it. */
  ghost predicate OnSchedule(streak: seq<Happening>) {
    forall i :: 0 <= i < |streak| && streak[i].Armed? ==> streak[i].delay == Backoff(AutoConnects(streak[..i]))
  }

  ghost predicate StreakSane(s: State) {
    AutoConnects(Streak(s.log)) == s.reconnectAttempts && OnSchedule(Streak(s.log))
  }

  lemma StreakOneMore(log: seq<Happening>, h: Happening)
    ensures Streak(log + [h]) == if h.Success? then [] else Streak(log) + [h]
  {
    assert (log + [h])[..|log|] == log;
  }

  lemma ConnectsOneMore(streak: seq<Happening>, h: Happening)
    ensures AutoConnects(streak + [h]) == AutoConnects(streak) + if h.AutoConnect? then 1 else 0
  {
    assert (streak + [h])[..|streak|] == streak;
  }

  lemma ScheduleOneMore(streak: seq<Happening>, h: Happening)
    requires OnSchedule(streak) && (h.Armed? ==> h.delay == Backoff(AutoConnects(streak)))
    ensures OnSchedule(streak + [h])
  {
    var more := streak + [h];
    forall i | 0 <= i < |more| && more[i].Armed? ensures more[i].delay == Backoff(AutoConnects(more[..i])) {
      if i < |streak| {
        assert more[i] == streak[i] && more[..i] == streak[..i];
      } else {
        assert more[..i] == streak;
      }
    }
  }

  lemma LogOneMore(log: seq<Happening>, h: Happening)
    requires OnSchedule(Streak(log))
    requires h.Armed? ==> h.delay == Backoff(AutoConnects(Streak(log)))
    ensures OnSchedule(Streak(log + [h]))
    ensures AutoConnects(Streak(log + [h]))
      == if h.Success? then 0 else AutoConnects(Streak(log)) + if h.AutoConnect? then 1 else 0
  {
    StreakOneMore(log, h);
    if !h.Success? {
      ConnectsOneMore(Streak(log), h);
      ScheduleOneMore(Streak(log), h);
    }
  }

  lemma ScheduleKeepsStreak(s: State)
    requires StreakSane(s)
    ensures StreakSane(ScheduleReconnect(s))
  {
    LogOneMore(s.log, Armed(Backoff(s.reconnectAttempts)));
  }

  lemma StartConnectKeepsStreak(s: State, enabled: bool, token: bool)
    requires StreakSane(s)
    ensures StreakSane(StartConnect(s, enabled, token))
  {
    ScheduleKeepsStreak(s.(connectionState := Errored));
  }

  lemma OpenedKeepsStreak(s: State)
    requires StreakSane(s)
    ensures StreakSane(Step(s, Opened))
  {
    LogOneMore(s.log, Success);
  }

  lemma RefusedKeepsStreak(s: State)
    requires StreakSane(s)
    ensures StreakSane(Step(s, Refused))
  {
    if s.waiting > 0 {
      ScheduleKeepsStreak(s.(connectionState := Errored, waiting := s.waiting - 1));
    }
  }

  lemma ClosedKeepsStreak(s: State, byClient: bool)
    requires StreakSane(s)
    ensures StreakSane(Step(s, Closed(byClient)))
  {
    ScheduleKeepsStreak(s.(connectionState := Disconnected));
  }

  lemma SameStreak(s: State, t: State)
    requires StreakSane(s) && t.log == s.log && t.reconnectAttempts == s.reconnectAttempts
    ensures StreakSane(t)
  {
  }

  lemma StepKeepsStreak(s: State, a: Action)
    requires StreakSane(s)
    ensures StreakSane(Step(s, a))
  {
    match a
    case Connect(enabled, token) => StartConnectKeepsStreak(s, enabled, token);
    case Opened => OpenedKeepsStreak(s);
    case Refused => RefusedKeepsStreak(s);
    case ConnectError => ScheduleKeepsStreak(s.(connectionState := Errored));
    case Closed(byClient) => ClosedKeepsStreak(s, byClient);
    case TimerFires(id, enabled, token) => TimerKeepsStreak(s, id, enabled, token);
    case _ => SameStreak(s, Step(s, a));
  }

  lemma TimerKeepsStreak(s: State, id: TimerId, enabled: bool, token: bool)
    requires StreakSane(s)
    ensures StreakSane(Step(s, TimerFires(id, enabled, token)))
  {
    if id in s.timers {
      var t := Attempted(s, id);
      LogOneMore(s.log, AutoConnect);
      StartConnectKeepsStreak(t, enabled, token);
    }
  }

  lemma BackoffMonotone(a: nat, b: nat)
    requires a <= b
    ensures Backoff(a) <= Backoff(b) <= MAX_DELAY
  {
    Power2Monotone(a, b);
  }

  lemma {:induction false} Power2Monotone(a: nat, b: nat)
    requires a <= b
    ensures Power2(a) <= Power2(b)
  {
    if a < b {
      Power2Monotone(a, b - 1);
    }
  }

  lemma {:induction false} AutoConnectsMonotone(log: seq<Happening>, i: nat, j: nat)
    requires i <= j <= |log|
    ensures AutoConnects(log[..i]) <= AutoConnects(log[..j])
  {
    if i < j {
      AutoConnectsMonotone(log, i, j - 1);
      assert log[..j][..j - 1] == log[..j - 1];
    }
  }

  lemma StepKeepsValid(s: State, a: Action)
    requires TimerSane(s) && StreakSane(s)
    ensures TimerSane(Step(s, a)) && StreakSane(Step(s, a))
  {
    StepKeepsTimerSane(s, a);
    StepKeepsStreak(s, a);
  }

  lemma {:induction false} RunsAreSane(actions: seq<Action>)
    ensures TimerSane(Run(actions)) && StreakSane(Run(actions))
  {
    if actions != [] {
      RunsAreSane(actions[..|actions| - 1]);
      StepKeepsTimerSane(Run(actions[..|actions| - 1]), actions[|actions| - 1]);
      StepKeepsStreak(Run(actions[..|actions| - 1]), actions[|actions| - 1]);
    }
  }

  /** In every run at most one reconnect timer is pending, attempts never exceed the maximum,
      at most that many automatic connects follow the last success, and the delays armed
      since then follow the doubling schedule: they never decrease and never exceed the cap. */
  lemma {:induction false} ReconnectsAreBounded(actions: seq<Action>, i: nat, j: nat)
    ensures var s := Run(actions);
      && |s.timers| <= 1 && s.reconnectAttempts <= 10
      && AutoConnects(Streak(s.log)) <= 10 && OnSchedule(Streak(s.log))
      && (i < j < |Streak(s.log)| && Streak(s.log)[i].Armed? && Streak(s.log)[j].Armed? ==>
            Streak(s.log)[i].delay <= Streak(s.log)[j].delay <= 30000)
  {
    RunsAreSane(actions);
    var s := Run(actions);
    AtMostOne(s.timers);
    var streak := Streak(s.log);
    if i < j < |streak| {
      AutoConnectsMonotone(streak, i, j);
      BackoffMonotone(AutoConnects(streak[..i]), AutoConnects(streak[..j]));
    }
  }

  // ----- when a reconnect is scheduled -----

  /** A transport loss the client did not ask for, a connect error, a refused connect, or a connect
      that finds Keycloak on, no live socket, no connect under way and no token. */
  ghost predicate NeedsReconnect(s: State, a: Action) {
    || a == Closed(false)
    || a == ConnectError
    || (a == Refused && s.waiting > 0)
    || (a == Connect(true, false) && (s.socket.Some? ==> !s.socket.value.connected) && s.connectionState != Connecting)
  }

  /** After `attempts` automatic connects since the last success, one new timer is pending, with
      1000 ms doubled for each of them and at most 30000 ms; after ten, none is. */
  ghost predicate ReconnectArmed(s: State, t: State, attempts: nat) {
    if attempts < 10 then
      && (exists id :: t.timers == {id} && id !in s.timers && t.reconnectTimer == Some(id))
      && t.log == s.log + [Armed([1000, 2000, 4000, 8000, 16000, 30000, 30000, 30000, 30000, 30000][attempts])]
    else t.timers == {} && t.log == s.log
  }

  lemma BackoffTable(attempts: nat)
    requires attempts < 10
    ensures Backoff(attempts) == [1000, 2000, 4000, 8000, 16000, 30000, 30000, 30000, 30000, 30000][attempts]
  {
    assert Power2(1) == 2 && Power2(2) == 4 && Power2(3) == 8 && Power2(4) == 16 && Power2(5) == 32;
    if attempts >= 5 {
      Power2Monotone(5, attempts);
    }
  }

  lemma ScheduleArms(s: State, t: State)
    requires TimerSane(t) && t.timers == s.timers && t.log == s.log
    ensures ReconnectArmed(s, ScheduleReconnect(t), t.reconnectAttempts)
  {
    assert Cleared(t) == {};
    if t.reconnectAttempts < 10 {
      BackoffTable(t.reconnectAttempts);
      var u := ScheduleReconnect(t);
      assert u.timers == {t.nextTimer} && t.nextTimer !in s.timers && u.reconnectTimer == Some(t.nextTimer);
    }
  }

  lemma NeededIsArmed(s: State, a: Action)
    requires TimerSane(s) && NeedsReconnect(s, a)
    ensures ReconnectArmed(s, Step(s, a), s.reconnectAttempts)
  {
    match a
    case Closed(_) => ScheduleArms(s, s.(connectionState := Disconnected));
    case ConnectError => ScheduleArms(s, s.(connectionState := Errored));
    case Refused => ScheduleArms(s, s.(connectionState := Errored, waiting := s.waiting - 1));
    case Connect(_, _) => ScheduleArms(s, s.(connectionState := Errored));
  }

  /** Nothing is armed: the timers stay, or are gone after a teardown, and the log gains at most
      the success of an opened connection. */
  ghost predicate NothingArmed(s: State, t: State, a: Action) {
    && t.timers == (if a == Disconnect then {} else s.timers)
    && t.log == s.log + if a == Opened && s.waiting > 0 then [Success] else []
  }

  lemma OthersArmNothing(s: State, a: Action)
    requires TimerSane(s) && !NeedsReconnect(s, a) && !a.TimerFires?
    ensures NothingArmed(s, Step(s, a), a)
  {
  }

  /** In every run a reconnect is scheduled whenever one is needed, unless ten attempts were made
      since the last success; and nothing but that and a fired timer ever arms one. */
  lemma {:induction false} ReconnectIffNeeded(actions: seq<Action>, a: Action)
    ensures NeedsReconnect(Run(actions), a) ==>
      ReconnectArmed(Run(actions), Step(Run(actions), a), AutoConnects(Streak(Run(actions).log)))
    ensures !NeedsReconnect(Run(actions), a) && !a.TimerFires? ==>
      NothingArmed(Run(actions), Step(Run(actions), a), a)
  {
    RunsAreSane(actions);
    if NeedsReconnect(Run(actions), a) {
      NeededIsArmed(Run(actions), a);
    } else if !a.TimerFires? {
      OthersArmNothing(Run(actions), a);
    }
  }

  /** The timer is gone and counts as an automatic connect; if that finds no token it arms the
      next one, with the delay for one attempt more. */
  ghost predicate Fired(s: State, t: State, id: TimerId, enabled: bool, token: bool) {
    var counted := Attempted(s, id);
    && counted.timers == {} && counted.reconnectAttempts == s.reconnectAttempts + 1
    && counted.log == s.log + [AutoConnect]
    && if NeedsReconnect(counted, Connect(enabled, token)) then ReconnectArmed(counted, t, s.reconnectAttempts + 1)
       else t.timers == {} && t.log == counted.log
  }

  lemma FiredFrom(s: State, id: TimerId, enabled: bool, token: bool)
    requires TimerSane(s) && id in s.timers
    ensures Fired(s, Step(s, TimerFires(id, enabled, token)), id, enabled, token)
  {
    var counted := Attempted(s, id);
    if NeedsReconnect(counted, Connect(enabled, token)) {
      NeededIsArmed(counted, Connect(enabled, token));
    } else {
      OthersArmNothing(counted, Connect(enabled, token));
    }
  }

  lemma {:induction false} FiredTimer(actions: seq<Action>, id: TimerId, enabled: bool, token: bool)
    requires id in Run(actions).timers
    ensures Fired(Run(actions), Step(Run(actions), TimerFires(id, enabled, token)), id, enabled, token)
  {
    RunsAreSane(actions);
    FiredFrom(Run(actions), id, enabled, token);
  }

  /** A connect opens a new socket, with the whole registry attached, exactly if Keycloak is on,
      no socket is live, no connect is under way and there is a token. */
  lemma ConnectOpens(s: State, enabled: bool, token: bool)
    requires Matches(s)
    ensures var t := Step(s, Connect(enabled, token));
      var opens := enabled && token && (s.socket.Some? ==> !s.socket.value.connected) && s.connectionState != Connecting;
      && Matches(t) && t.persistedListeners == s.persistedListeners
      && t.waiting == s.waiting + (if opens then 1 else 0)
      && if opens then t.connectionState == Connecting && t.socket.Some? && !t.socket.value.connected
         else t.socket == s.socket
  {
    StartConnectKeepsMatch(s, enabled, token);
  }

  /** A listener is registered if and only if its last registration came after every removal of
      it and every teardown. */
  lemma {:induction false} RegistryIsLastWord(actions: seq<Action>, event: string, listener: Listener)
    ensures listener in Persisted(Run(actions), event) <==> LastWordIsOn(actions, event, listener)
  {
    if actions != [] {
      var front, a := actions[..|actions| - 1], actions[|actions| - 1];
      RegistryIsLastWord(front, event, listener);
      LastWordOneMore(front, a, event, listener);
      assert actions == front + [a];
      StepOnRegistry(Run(front), a, event, listener);
    }
  }

  ghost predicate LastWordIsOn(actions: seq<Action>, event: string, listener: Listener) {
    exists i :: 0 <= i < |actions| && actions[i] == On(event, listener) && NeverDropped(actions, i, event, listener)
  }

  ghost predicate NeverDropped(actions: seq<Action>, i: nat, event: string, listener: Listener) {
    forall k :: i < k < |actions| ==> actions[k] != Off(event, listener) && actions[k] != Disconnect
  }

  lemma LastWordOneMore(actions: seq<Action>, a: Action, event: string, listener: Listener)
    ensures LastWordIsOn(actions + [a], event, listener)
      <==> a == On(event, listener)
           || (a != Off(event, listener) && a != Disconnect && LastWordIsOn(actions, event, listener))
  {
    var more := actions + [a];
    if a == On(event, listener) {
      assert more[|actions|] == On(event, listener) && NeverDropped(more, |actions|, event, listener);
    } else {
      if i :| 0 <= i < |more| && more[i] == On(event, listener) && NeverDropped(more, i, event, listener) {
        assert actions[i] == more[i] && more[|actions|] == a;
        assert forall k :: i < k < |actions| ==> actions[k] == more[k];
        assert NeverDropped(actions, i, event, listener);
      }
      if a != Off(event, listener) && a != Disconnect && LastWordIsOn(actions, event, listener) {
        var i :| 0 <= i < |actions| && actions[i] == On(event, listener) && NeverDropped(actions, i, event, listener);
        assert more[i] == actions[i] && NeverDropped(more, i, event, listener);
      }
    }
  }

  lemma StepOnRegistry(s: State, a: Action, event: string, listener: Listener)
    ensures listener in Persisted(Step(s, a), event)
      <==> a == On(event, listener) || (a != Off(event, listener) && a != Disconnect && listener in Persisted(s, event))
  {
  }

  /** The connection state that each event leaves. */
  lemma StateAfter(s: State, a: Action)
    ensures var state := Step(s, a).connectionState;
      && (a == Opened && s.waiting > 0 ==> state == Connected)
      && ((a == Refused && s.waiting > 0) || a == ConnectError ==> state == Errored)
      && (a.Closed? || a == Disconnect ==> state == Disconnected)
      && (a.On? || a.Off? || a.TransportChange? ==> state == s.connectionState)
  {
  }
}
