/** Connection attempts and automatic reconnection of the session runtime
    (useSessionRuntime.ts).

    Every `await` is a yield point and the code between two awaits is one step, so a run
    is an interleaving of the steps below: the continuations of connection attempts, the
    user's actions, lost connections, elapsed countdowns, a reset and the unmounting of
    the component. */
module SessionRuntime {
  import opened Options

  const AUTO_RECONNECT_MAX_ATTEMPTS := 5

  type Session = string
  type Connection = nat

  // ---------------------------------------------------------- one connection attempt

  /** The await at which `connectSession` is suspended. */
  datatype Phase =
    | Connecting               // remoteApi.connect
    | VerifiedConnect          // disconnectIfCancelled found nothing, after the connection
    | OpeningTerminal          // openTerminalSafely
    | VerifiedTerminal(terminal: bool) // disconnectIfCancelled found nothing, after the terminal
    | ClosingUnmounted         // closing the terminal of an unmounted component
    | StartingTerminal         // remoteApi.startTerminal
    | ClosingTerminal          // closing a terminal that failed to start
    | Leaving                  // a disconnect before returning false
    | Done(connected: bool)    // returned

  /** A `ConnectionAttempt`, the continuation that owns it, and what was done with the
      connection id it received: how often it was disconnected, and how often it was
      reported connected, its services started. */
  datatype Attempt = Attempt(
    session: Session,
    auto: nat,                 // the number of an automatic attempt, 0 for the user's
    cancelled: bool,
    connectionId: Option<Connection>,
    phase: Phase,
    received: Option<Connection>,
    disconnects: nat,
    reports: nat,
    cancelledAt: Option<Phase>, // where a cancellation found it
    late: bool,                // disconnected once more because the component was unmounted
    continued: bool)           // the reconnect code after it has run

  function NewAttempt(session: Session, auto: nat): Attempt {
    Attempt(session, auto, false, None, Connecting, None, 0, 0, None, false, false)
  }

  /** Take the connection id, if it is still there, and disconnect it. */
  function Taken(a: Attempt): Attempt {
    if a.connectionId.Some? then a.(connectionId := None, disconnects := a.disconnects + 1) else a
  }

  /** The branches for an unmounted component disconnect whatever the id field says. */
  function DisconnectedAnyway(a: Attempt): Attempt {
    a.(connectionId := None, disconnects := a.disconnects + 1, late := a.late || a.connectionId.None?)
  }

  /** The `catch` block. */
  function RolledBack(a: Attempt): Attempt {
    if a.connectionId.Some? then Taken(a).(phase := Leaving) else a.(phase := Done(false))
  }

  /** The success path clears the field, starts the services and returns true, whatever the
      field says. */
  function Succeeded(a: Attempt): Attempt {
    a.(connectionId := None, reports := a.reports + 1, phase := Done(true))
  }

  /** The continuation of `connectSession` from its await to the next one: `ok` and
      `connection` are what the awaited call gave. */
  function Advanced(a: Attempt, mounted: bool, ok: bool, connection: Connection): Attempt {
    match a.phase
    case Connecting =>
      if !ok then a.(phase := Done(false))
      else
        var b := a.(received := Some(connection), connectionId := Some(connection));
        if !mounted then DisconnectedAnyway(b).(phase := Leaving)
        else if b.cancelled then Taken(b).(phase := Leaving)
        else b.(phase := VerifiedConnect)
    case VerifiedConnect => a.(phase := OpeningTerminal)
    case OpeningTerminal =>
      if !mounted then DisconnectedAnyway(a).(phase := Leaving)
      else if a.cancelled then Taken(a).(phase := Leaving)
      else a.(phase := VerifiedTerminal(ok))
    case VerifiedTerminal(terminal) =>
      if !terminal then RolledBack(a)
      else if !mounted then a.(phase := ClosingUnmounted)
      else a.(phase := StartingTerminal)
    case ClosingUnmounted => DisconnectedAnyway(a).(phase := Leaving)
    case StartingTerminal => if ok then Succeeded(a) else a.(phase := ClosingTerminal)
    case ClosingTerminal => RolledBack(a)
    case Leaving => a.(phase := Done(false))
    case Done(_) => a
  }

  /** Cancelling: the flag, and the id if it is there. */
  function CancelledAttempt(a: Attempt): Attempt {
    Taken(a.(cancelled := true, cancelledAt := Some(a.phase)))
  }

  // ------------------------------------------------------------------ the runtime

  datatype Countdown = Countdown(session: Session, attempt: nat, live: bool)

  datatype State = State(
    mounted: bool,
    attempts: seq<Attempt>,          // every attempt ever begun
    current: map<Session, nat>,      // connectionAttemptsRef: indices into `attempts`
    connecting: set<Session>,        // connectingSessionIdsRef
    manual: set<Session>,            // manualDisconnectSessionIdsRef
    tries: map<Session, nat>,        // reconnectAttemptsRef
    countdowns: seq<Countdown>,      // every countdown ever created
    timers: map<Session, nat>)       // reconnectTimersRef: indices into `countdowns`

  const INIT := State(true, [], map[], {}, {}, map[], [], map[])

  predicate IsCurrent(s: State, i: nat) {
    i < |s.attempts| && s.attempts[i].session in s.current && s.current[s.attempts[i].session] == i
  }

  /** `cancelReconnect`. */
  function StopTimer(s: State, session: Session): State {
    if session in s.timers && s.timers[session] < |s.countdowns| then
      s.(countdowns := s.countdowns[s.timers[session] := s.countdowns[s.timers[session]].(live := false)],
         timers := s.timers - {session})
    else s
  }

  /** The start of `connectSession` up to its first await. */
  function Begun(s: State, session: Session, auto: nat): State {
    if !s.mounted || session in s.connecting then s
    else
      StopTimer(s, session).(
        attempts := s.attempts + [NewAttempt(session, auto)],
        current := s.current[session := |s.attempts|],
        connecting := s.connecting + {session},
        manual := s.manual - {session})
  }

  /** `finishConnectionAttempt`. */
  function Finished(s: State, i: nat): State {
    if IsCurrent(s, i) then
      s.(current := s.current - {s.attempts[i].session}, connecting := s.connecting - {s.attempts[i].session})
    else s
  }

  /** One continuation of attempt `i`; on return its `finally` block runs. */
  function Resumed(s: State, i: nat, ok: bool, connection: Connection): State
    requires i < |s.attempts|
  {
    var a := Advanced(s.attempts[i], s.mounted, ok, connection);
    var t := s.(attempts := s.attempts[i := a]);
    if a.phase.Done? && !s.attempts[i].phase.Done? then
      Finished(if a.phase.connected then t.(tries := t.tries - {a.session}) else t, i)
    else t
  }

  /** `scheduleReconnect`. */
  function Scheduled(s: State, session: Session): State {
    var previous := if session in s.tries then s.tries[session] else 0;
    if session in s.manual || session in s.timers || previous >= AUTO_RECONNECT_MAX_ATTEMPTS then s
    else
      s.(tries := s.tries[session := previous + 1],
         countdowns := s.countdowns + [Countdown(session, previous + 1, true)],
         timers := s.timers[session := |s.countdowns|])
  }

  /** How the runtime's session list shows a session. */
  datatype SessionView = Missing | Connected | NotConnected

  /** `runReconnectAttempt` up to its first await. */
  function Reconnected(s: State, session: Session, attempt: nat, view: SessionView): State {
    if !s.mounted || session in s.manual || view == Missing then s
    else if view == Connected then s.(tries := s.tries - {session})
    else if session in s.connecting then
      Scheduled(s.(tries := s.tries[session := if attempt > 0 then attempt - 1 else 0]), session)
    else Begun(s, session, attempt)
  }

  /** `onElapsed` of countdown `k`, after the countdown has stopped itself. */
  function Elapsed(s: State, k: nat, view: SessionView): State
    requires k < |s.countdowns|
  {
    var c := s.countdowns[k];
    var t := s.(countdowns := s.countdowns[k := c.(live := false)]);
    if c.session in s.timers && s.timers[c.session] == k then
      Reconnected(t.(timers := t.timers - {c.session}), c.session, c.attempt, view)
    else t
  }

  /** The code of `runReconnectAttempt` after an automatic attempt has returned. */
  function Continued(s: State, i: nat, awaitingHostKey: bool): State
    requires i < |s.attempts|
  {
    var a := s.attempts[i];
    var t := s.(attempts := s.attempts[i := a.(continued := true)]);
    if a.phase == Done(false) && a.session !in s.manual && a.session !in s.connecting && !awaitingHostKey
    then Scheduled(t, a.session) else t
  }

  datatype Tab = Tab(id: Session, config: Session)

  /** `connectingSessionIdsFor`. */
  function ConnectingSessionIdsFor(requested: Session, tabs: seq<Tab>, connecting: set<Session>): (ids: seq<Session>)
    ensures forall id :: id in ids ==> id in connecting
  {
    if requested in connecting then [requested] else MatchingTabs(requested, tabs, connecting)
  }

  function MatchingTabs(requested: Session, tabs: seq<Tab>, connecting: set<Session>): (ids: seq<Session>)
    ensures forall id :: id in ids ==> id in connecting
  {
    if tabs == [] then []
    else
      var rest := MatchingTabs(requested, tabs[1..], connecting);
      if tabs[0].id in connecting && tabs[0].config == requested then [tabs[0].id] + rest else rest
  }

  /** One round of the loop of `cancelConnectingSession`. */
  function CancelledOne(s: State, target: Session): State {
    var t := StopTimer(s, target).(manual := s.manual + {target});
    if target in s.current && s.current[target] < |s.attempts| then
      var i := s.current[target];
      t.(attempts := s.attempts[i := CancelledAttempt(s.attempts[i])], current := s.current - {target})
    else t
  }

  function CancelledEach(s: State, targets: seq<Session>): State
    decreases targets
  {
    if targets == [] then s else CancelledEach(CancelledOne(s, targets[0]), targets[1..])
  }

  /** `cancelConnectingSession`. */
  function Cancelled(s: State, targets: seq<Session>): State {
    CancelledEach(s, targets).(connecting := s.connecting - (set t | t in targets))
  }

  /** Closing, disconnecting or deleting a session: no reconnection of it is wanted. */
  function Disconnected(s: State, session: Session): State {
    StopTimer(s, session).(manual := s.manual + {session})
  }

  function CancelCurrent(s: State, i: nat): Attempt
    requires i < |s.attempts|
  {
    if IsCurrent(s, i) then CancelledAttempt(s.attempts[i]) else s.attempts[i]
  }

  function Silenced(countdowns: seq<Countdown>): (r: seq<Countdown>)
    ensures |r| == |countdowns|
    ensures forall k :: 0 <= k < |r| ==> r[k] == countdowns[k].(live := false)
  {
    seq(|countdowns|, k requires 0 <= k < |countdowns| => countdowns[k].(live := false))
  }

  /** `resetSessionRuntime`. */
  function ResetAll(s: State): State {
    State(s.mounted,
          seq(|s.attempts|, i requires 0 <= i < |s.attempts| => CancelCurrent(s, i)),
          map[], {}, {}, map[], Silenced(s.countdowns), map[])
  }

  /** Unmounting cancels the countdowns. */
  function UnmountedState(s: State): State {
    s.(mounted := false, countdowns := Silenced(s.countdowns), timers := map[])
  }

  // ----------------------------------------------------------------------- runs

  datatype Event =
    | Connect(session: Session)
    | Resume(i: nat, ok: bool, connection: Connection)
    | Continue(i: nat, awaitingHostKey: bool)
    | Cancel(requested: Session, tabs: seq<Tab>)
    | Disconnect(session: Session)
    | ConnectionLost(session: Session)
    | Elapse(k: nat, view: SessionView)
    | Reset
    | Unmount

  predicate Enabled(s: State, e: Event) {
    match e
    case Resume(i, _, _) => i < |s.attempts| && !s.attempts[i].phase.Done?
    case Continue(i, _) =>
      i < |s.attempts| && s.attempts[i].auto > 0 && s.attempts[i].phase.Done? && !s.attempts[i].continued
    case ConnectionLost(session) => s.mounted && session !in s.manual
    case Elapse(k, _) => k < |s.countdowns| && s.countdowns[k].live
    case _ => true
  }

  function Next(s: State, e: Event): State
    requires Enabled(s, e)
  {
    match e
    case Connect(session) => Begun(s, session, 0)
    case Resume(i, ok, connection) => Resumed(s, i, ok, connection)
    case Continue(i, awaitingHostKey) => Continued(s, i, awaitingHostKey)
    case Cancel(requested, tabs) => Cancelled(s, ConnectingSessionIdsFor(requested, tabs, s.connecting))
    case Disconnect(session) => Disconnected(s, session)
    case ConnectionLost(session) => Scheduled(s, session)
    case Elapse(k, view) => Elapsed(s, k, view)
    case Reset => ResetAll(s)
    case Unmount => UnmountedState(s)
  }

  datatype Outcome = Stuck | At(state: State)

  function Exec(s: State, events: seq<Event>): Outcome
    decreases events
  {
    if events == [] then At(s)
    else if Enabled(s, events[0]) then Exec(Next(s, events[0]), events[1..])
    else Stuck
  }
}
