/** What every run of the session runtime keeps. */
module SessionLaws {
  import opened Options
  import opened SessionRuntime

  // ------------------------------------------------------- one attempt and its id

  /** Phases between receiving a connection id and giving it up. */
  predicate Midway(phase: Phase) {
    phase.VerifiedConnect? || phase.OpeningTerminal? || phase.VerifiedTerminal? || phase.ClosingUnmounted?
    || phase.StartingTerminal? || phase.ClosingTerminal?
  }

  /** How often the attempt code used the id: each disconnect and each report. */
  function Uses(a: Attempt): nat {
    a.disconnects + a.reports
  }

  /** After the last test for a cancellation, before the terminal has started. */
  predicate PastLastTest(phase: Phase) {
    phase == VerifiedTerminal(true) || phase.StartingTerminal?
  }

  /** The attempt was cancelled too late to stop it, and its terminal started. */
  predicate ReportedThoughCancelled(a: Attempt) {
    a.phase == Done(true) && a.cancelledAt.Some? && PastLastTest(a.cancelledAt.value)
  }

  predicate CancellationSound(a: Attempt) {
    && (a.cancelled <==> a.cancelledAt.Some?)
    && (a.cancelled && a.phase.VerifiedTerminal? ==> a.cancelledAt.value == a.phase)
    && (a.cancelled && (a.phase.StartingTerminal? || a.phase == Done(true)) ==> PastLastTest(a.cancelledAt.value))
  }

  /** The accounts of one attempt: an id is disconnected when the field gives it up before a
      success, and once more only by an unmounted component after a cancellation; it is
      reported exactly by a success. */
  predicate AttemptSound(mounted: bool, a: Attempt) {
    && (a.connectionId.Some? ==> a.connectionId == a.received)
    && a.disconnects == (if a.received.Some? && a.connectionId.None? && (a.phase != Done(true) || a.cancelled) then 1 else 0)
                        + (if a.late then 1 else 0)
    && a.reports == (if a.phase == Done(true) then 1 else 0)
    && CancellationSound(a)
    && (a.late ==> !mounted && a.cancelled && (a.phase.Leaving? || a.phase == Done(false)))
    && (a.phase.Connecting? ==> a.received.None?)
    && (Midway(a.phase) || a.phase == Done(true) ==> a.received.Some?)
    && (Midway(a.phase) ==> (a.connectionId.Some? <==> !a.cancelled))
    && (a.phase.ClosingUnmounted? ==> !mounted)
    && (a.phase.Leaving? || a.phase.Done? ==> a.connectionId.None?)
    && a.auto <= AUTO_RECONNECT_MAX_ATTEMPTS
  }

  lemma AdvanceSound(a: Attempt, mounted: bool, ok: bool, connection: Connection)
    requires AttemptSound(mounted, a)
    ensures AttemptSound(mounted, Advanced(a, mounted, ok, connection))
  {
  }

  lemma CancelSound(a: Attempt, mounted: bool)
    requires AttemptSound(mounted, a) && !a.phase.Done?
    ensures AttemptSound(mounted, CancelledAttempt(a))
    ensures !CancelledAttempt(a).phase.Done?
  {
  }

  // ---------------------------------------------------------------- the invariant

  ghost predicate AttemptsSound(s: State) {
    forall i :: 0 <= i < |s.attempts| ==> AttemptSound(s.mounted, s.attempts[i])
  }

  /** The attempts map points to unfinished attempts of its own sessions. */
  ghost predicate CurrentSound(s: State) {
    forall session :: session in s.current ==>
      s.current[session] < |s.attempts|
      && s.attempts[s.current[session]].session == session
      && !s.attempts[s.current[session]].phase.Done?
  }

  ghost predicate TimersSound(s: State) {
    && (forall session :: session in s.timers ==>
          s.timers[session] < |s.countdowns|
          && s.countdowns[s.timers[session]].session == session
          && s.countdowns[s.timers[session]].live)
    && (forall k :: 0 <= k < |s.countdowns| && s.countdowns[k].live ==>
          s.countdowns[k].session in s.timers && s.timers[s.countdowns[k].session] == k)
  }

  ghost predicate NumbersSound(s: State) {
    && (forall session :: session in s.tries ==> s.tries[session] <= AUTO_RECONNECT_MAX_ATTEMPTS)
    && (forall k :: 0 <= k < |s.countdowns| ==> 1 <= s.countdowns[k].attempt <= AUTO_RECONNECT_MAX_ATTEMPTS)
  }

  ghost predicate ReconnectSound(s: State) {
    TimersSound(s) && NumbersSound(s) && s.manual !! s.timers.Keys
  }

  ghost predicate Inv(s: State) {
    && AttemptsSound(s)
    && CurrentSound(s)
    && s.connecting == s.current.Keys
    && ReconnectSound(s)
  }

  // --------------------------------------------------------------- the reconnect half

  lemma StopTimerSound(s: State, session: Session)
    requires TimersSound(s) && NumbersSound(s)
    ensures TimersSound(StopTimer(s, session)) && NumbersSound(StopTimer(s, session))
    ensures StopTimer(s, session).timers.Keys == s.timers.Keys - {session}
  {
    var t := StopTimer(s, session);
    if session in s.timers {
      assert t.timers.Keys == s.timers.Keys - {session};
    }
  }

  lemma ScheduleSound(s: State, session: Session)
    requires ReconnectSound(s)
    ensures ReconnectSound(Scheduled(s, session))
  {
    var t := Scheduled(s, session);
    if t != s {
      assert t.timers.Keys == s.timers.Keys + {session};
    }
  }

  lemma SilencedSound(s: State, t: State)
    requires ReconnectSound(s) && t.countdowns == Silenced(s.countdowns) && t.timers == map[]
    requires t.tries == map[] || t.tries == s.tries
    ensures ReconnectSound(t)
  {
  }

  /** The countdown stops itself and leaves the map. */
  lemma ElapseStops(s: State, k: nat)
    requires ReconnectSound(s) && k < |s.countdowns| && s.countdowns[k].live
    ensures var session := s.countdowns[k].session;
            var t := s.(countdowns := s.countdowns[k := s.countdowns[k].(live := false)],
                        timers := s.timers - {session});
            && session in s.timers && s.timers[session] == k
            && session !in s.manual
            && ReconnectSound(t)
            && session !in t.timers
  {
  }

  // ------------------------------------------------------------------ single steps

  lemma BeginSound(s: State, session: Session, auto: nat)
    requires Inv(s) && auto <= AUTO_RECONNECT_MAX_ATTEMPTS
    ensures Inv(Begun(s, session, auto))
  {
    StopTimerSound(s, session);
    var t := Begun(s, session, auto);
    if t != s {
      assert t.current.Keys == s.current.Keys + {session};
      BeginCurrent(s, session, auto);
    }
  }

  lemma BeginCurrent(s: State, session: Session, auto: nat)
    requires Inv(s) && auto <= AUTO_RECONNECT_MAX_ATTEMPTS
    ensures CurrentSound(Begun(s, session, auto)) && AttemptsSound(Begun(s, session, auto))
  {
  }

  lemma UpdateSound(s: State, i: nat, a: Attempt)
    requires Inv(s) && i < |s.attempts| && AttemptSound(s.mounted, a)
    requires a.session == s.attempts[i].session
    requires a.phase.Done? ==> s.attempts[i].phase.Done? || !IsCurrent(s, i)
    ensures Inv(s.(attempts := s.attempts[i := a]))
  {
  }

  lemma FinishSound(s: State, i: nat, a: Attempt)
    requires Inv(s) && i < |s.attempts| && AttemptSound(s.mounted, a) && a.phase.Done?
    requires a.session == s.attempts[i].session
    ensures Inv(Finished(s.(attempts := s.attempts[i := a]), i))
  {
    var t := s.(attempts := s.attempts[i := a]);
    if IsCurrent(t, i) {
      assert Finished(t, i).current.Keys == s.current.Keys - {a.session};
    }
  }

  lemma ResumeSound(s: State, i: nat, ok: bool, connection: Connection)
    requires Inv(s) && i < |s.attempts| && !s.attempts[i].phase.Done?
    ensures Inv(Resumed(s, i, ok, connection))
  {
    var a := Advanced(s.attempts[i], s.mounted, ok, connection);
    AdvanceSound(s.attempts[i], s.mounted, ok, connection);
    if a.phase.Done? {
      ForgetTries(s, a.session);
      FinishSound(if a.phase.connected then s.(tries := s.tries - {a.session}) else s, i, a);
      ResumedWhenDone(s, i, ok, connection, a);
    } else {
      UpdateSound(s, i, a);
    }
  }

  lemma ResumedWhenDone(s: State, i: nat, ok: bool, connection: Connection, a: Attempt)
    requires i < |s.attempts| && !s.attempts[i].phase.Done? && a.phase.Done?
    requires a == Advanced(s.attempts[i], s.mounted, ok, connection)
    ensures var u := if a.phase.connected then s.(tries := s.tries - {a.session}) else s;
            Resumed(s, i, ok, connection) == Finished(u.(attempts := u.attempts[i := a]), i)
  {
  }

  lemma ForgetTries(s: State, session: Session)
    requires Inv(s)
    ensures Inv(s.(tries := s.tries - {session}))
  {
  }

  lemma ContinueSound(s: State, i: nat, awaitingHostKey: bool)
    requires Inv(s) && Enabled(s, Continue(i, awaitingHostKey))
    ensures Inv(Continued(s, i, awaitingHostKey))
  {
    var a := s.attempts[i].(continued := true);
    UpdateSound(s, i, a);
    ScheduleSound(s.(attempts := s.attempts[i := a]), a.session);
  }

  lemma ElapseSound(s: State, k: nat, view: SessionView)
    requires Inv(s) && Enabled(s, Elapse(k, view))
    ensures Inv(Elapsed(s, k, view))
  {
    var c := s.countdowns[k];
    ElapseStops(s, k);
    var t := s.(countdowns := s.countdowns[k := c.(live := false)], timers := s.timers - {c.session});
    assert Inv(t);
    ReconnectedSound(t, c.session, c.attempt, view);
  }

  lemma ReconnectedSound(s: State, session: Session, attempt: nat, view: SessionView)
    requires Inv(s) && 1 <= attempt <= AUTO_RECONNECT_MAX_ATTEMPTS
    ensures Inv(Reconnected(s, session, attempt, view))
  {
    if session in s.connecting {
      var t := s.(tries := s.tries[session := attempt - 1]);
      assert ReconnectSound(t);
      ScheduleSound(t, session);
    } else {
      BeginSound(s, session, attempt);
    }
  }

  /** The loop of a cancellation: the connecting set still holds the targets. */
  ghost predicate LoopInv(s: State) {
    AttemptsSound(s) && CurrentSound(s) && ReconnectSound(s)
  }

  lemma CancelOneSound(s: State, target: Session)
    requires LoopInv(s)
    ensures LoopInv(CancelledOne(s, target))
    ensures CancelledOne(s, target).current.Keys == s.current.Keys - {target}
    ensures CancelledOne(s, target).connecting == s.connecting
  {
    CancelOneReconnect(s, target);
    CancelOneAttempt(s, target);
  }

  lemma CancelOneReconnect(s: State, target: Session)
    requires LoopInv(s)
    ensures ReconnectSound(CancelledOne(s, target))
  {
    StopTimerSound(s, target);
  }

  lemma CancelOneAttempt(s: State, target: Session)
    requires AttemptsSound(s) && CurrentSound(s)
    ensures AttemptsSound(CancelledOne(s, target)) && CurrentSound(CancelledOne(s, target))
    ensures CancelledOne(s, target).current.Keys == s.current.Keys - {target}
  {
    if target in s.current {
      CancelSound(s.attempts[s.current[target]], s.mounted);
    }
  }

  lemma {:induction false} CancelEachSound(s: State, targets: seq<Session>)
    requires LoopInv(s)
    ensures LoopInv(CancelledEach(s, targets))
    ensures CancelledEach(s, targets).current.Keys == s.current.Keys - (set t | t in targets)
    ensures CancelledEach(s, targets).connecting == s.connecting
    decreases targets
  {
    if targets != [] {
      CancelOneSound(s, targets[0]);
      CancelEachSound(CancelledOne(s, targets[0]), targets[1..]);
      assert forall t :: t in targets <==> t == targets[0] || t in targets[1..];
    }
  }

  lemma ResetSound(s: State)
    requires Inv(s)
    ensures Inv(ResetAll(s))
  {
    var t := ResetAll(s);
    SilencedSound(s, t);
    forall i | 0 <= i < |t.attempts|
      ensures AttemptSound(t.mounted, t.attempts[i])
    {
      if IsCurrent(s, i) {
        CancelSound(s.attempts[i], s.mounted);
      }
    }
  }

  lemma UnmountSound(s: State)
    requires Inv(s)
    ensures Inv(UnmountedState(s))
  {
    SilencedSound(s, UnmountedState(s));
  }

  lemma InvStep(s: State, e: Event)
    requires Inv(s) && Enabled(s, e)
    ensures Inv(Next(s, e))
  {
    match e
    case Connect(session) => BeginSound(s, session, 0);
    case Resume(i, ok, connection) => ResumeSound(s, i, ok, connection);
    case Continue(i, awaitingHostKey) => ContinueSound(s, i, awaitingHostKey);
    case Cancel(requested, tabs) => CancelEachSound(s, ConnectingSessionIdsFor(requested, tabs, s.connecting));
    case Disconnect(session) => StopTimerSound(s, session);
    case ConnectionLost(session) => ScheduleSound(s, session);
    case Elapse(k, view) => ElapseSound(s, k, view);
    case Reset => ResetSound(s);
    case Unmount => UnmountSound(s);
  }

  lemma {:induction false} RunsKeepInv(s: State, events: seq<Event>)
    requires Inv(s) && Exec(s, events).At?
    ensures Inv(Exec(s, events).state)
    decreases events
  {
    if events != [] {
      InvStep(s, events[0]);
      RunsKeepInv(Next(s, events[0]), events[1..]);
    }
  }

  // -------------------------------------------------------------------- the laws

  /** While the component stays mounted, in every run: an attempt that has returned has used
      the connection id it received exactly once, disconnecting it or reporting it
      connected, if and only if it was not cancelled between its last test for a
      cancellation and the start of its terminal; then it has done both.  Before it returns,
      the id is used exactly when the attempt no longer holds it. */
  lemma ConnectionUsedExactlyOnce(events: seq<Event>, i: nat)
    requires Exec(INIT, events).At? && i < |Exec(INIT, events).state.attempts|
    requires Exec(INIT, events).state.mounted || !Exec(INIT, events).state.attempts[i].cancelled
    ensures var a := Exec(INIT, events).state.attempts[i];
            && (a.phase.Done? && a.received.Some? ==> (Uses(a) == 1 <==> !ReportedThoughCancelled(a)))
            && (a.phase.Done? && a.received.Some? ==> (Uses(a) != 1 ==> a.disconnects == 1 && a.reports == 1))
            && (a.phase.Done? && a.received.None? ==> Uses(a) == 0)
            && (a.phase.Done? ==> (a.phase.connected <==> a.reports == 1))
            && (!a.phase.Done? ==> Uses(a) == (if a.received.Some? && a.connectionId.None? then 1 else 0))
  {
    RunsKeepInv(INIT, events);
  }

  /** In every run, mounted or not: a returned attempt has both disconnected and reported its
      id if and only if it was cancelled too late and its terminal started. */
  lemma DisconnectedAndReportedExactly(events: seq<Event>, i: nat)
    requires Exec(INIT, events).At? && i < |Exec(INIT, events).state.attempts|
    ensures var a := Exec(INIT, events).state.attempts[i];
            a.disconnects > 0 && a.reports > 0 <==> ReportedThoughCancelled(a)
  {
    RunsKeepInv(INIT, events);
  }

  /** At every yield point the connecting set is the key set of the attempts map. */
  lemma ConnectingIsAttempts(events: seq<Event>)
    requires Exec(INIT, events).At?
    ensures Exec(INIT, events).state.connecting == Exec(INIT, events).state.current.Keys
  {
    RunsKeepInv(INIT, events);
  }

  /** The state with the one attempt of a session, not returned. */
  function OneAttempt(a: Attempt): State {
    State(true, [a], map["s" := 0], {"s"}, {}, map[], [], map[])
  }

  lemma ConnectOne()
    ensures Enabled(INIT, Connect("s")) && Next(INIT, Connect("s")) == OneAttempt(NewAttempt("s", 0))
  {
  }

  lemma ResumeOne(a: Attempt, connection: Connection)
    requires !a.phase.Done? && !Advanced(a, true, true, connection).phase.Done?
    ensures Enabled(OneAttempt(a), Resume(0, true, connection))
    ensures Next(OneAttempt(a), Resume(0, true, connection)) == OneAttempt(Advanced(a, true, true, connection))
  {
  }

  lemma CancelOne(a: Attempt)
    ensures var t := Next(OneAttempt(a), Cancel("s", []));
            t.mounted && t.attempts == [CancelledAttempt(a)] && t.current == map[]
  {
    CancelSingle(OneAttempt(a), "s");
  }

  /** The last continuation of an attempt that is no longer current. */
  lemma ResumeLast(s: State, a: Attempt)
    requires s.attempts == [a] && !a.phase.Done?
    ensures Enabled(s, Resume(0, true, 0))
    ensures Next(s, Resume(0, true, 0)).attempts == [Advanced(a, s.mounted, true, 0)]
    ensures Next(s, Resume(0, true, 0)).mounted == s.mounted
  {
  }

  /** A run in which an unmounted component disconnects a connection twice: the attempt is
      cancelled while the terminal opens, and the component is unmounted before it has. */
  lemma UnmountAfterCancelUsesTwice()
    ensures var events := [Connect("s"), Resume(0, true, 7), Resume(0, true, 0), Cancel("s", []), Unmount,
                           Resume(0, true, 0)];
            && Exec(INIT, events).At?
            && |Exec(INIT, events).state.attempts| == 1
            && Exec(INIT, events).state.attempts[0].disconnects == 2
  {
    var a3 := Opening();
    FirstThree();
    CancelOne(a3);
    var s4 := Next(OneAttempt(a3), Cancel("s", []));
    var s5 := Next(s4, Unmount);
    ResumeLast(s5, CancelledAttempt(a3));
    ExecPath([OneAttempt(a3), s4, s5, Next(s5, Resume(0, true, 0))], [Cancel("s", []), Unmount, Resume(0, true, 0)]);
    ExecAppend(INIT, FIRST_THREE, [Cancel("s", []), Unmount, Resume(0, true, 0)]);
    assert FIRST_THREE + [Cancel("s", []), Unmount, Resume(0, true, 0)]
        == [Connect("s"), Resume(0, true, 7), Resume(0, true, 0), Cancel("s", []), Unmount, Resume(0, true, 0)];
  }

  const FIRST_THREE := [Connect("s"), Resume(0, true, 7), Resume(0, true, 0)]

  /** The attempt while its terminal opens, and while it starts. */
  function Opening(): Attempt {
    NewAttempt("s", 0).(received := Some(7), connectionId := Some(7), phase := OpeningTerminal)
  }

  function Starting(): Attempt {
    Opening().(phase := StartingTerminal)
  }

  lemma FirstThree()
    ensures Exec(INIT, FIRST_THREE) == At(OneAttempt(Opening()))
  {
    var a1 := NewAttempt("s", 0);
    var a2 := Advanced(a1, true, true, 7);
    ConnectOne();
    ResumeOne(a1, 7);
    ResumeOne(a2, 0);
    ExecPath([INIT, OneAttempt(a1), OneAttempt(a2), OneAttempt(Opening())], FIRST_THREE);
  }

  lemma {:induction false} ExecAppend(s: State, first: seq<Event>, second: seq<Event>)
    requires Exec(s, first).At?
    ensures Exec(s, first + second) == Exec(Exec(s, first).state, second)
    decreases first
  {
    if first == [] {
      assert first + second == second;
    } else {
      assert (first + second)[1..] == first[1..] + second;
      ExecAppend(Next(s, first[0]), first[1..], second);
    }
  }

  /** A run of a mounted component in which the user's cancellation disconnects the id and the
      attempt reports it connected all the same: it is cancelled while its terminal starts. */
  lemma CancelDuringStartReportsDisconnected()
    ensures var events := [Connect("s"), Resume(0, true, 7), Resume(0, true, 0), Resume(0, true, 0), Resume(0, true, 0),
                           Cancel("s", []), Resume(0, true, 0)];
            && Exec(INIT, events).At?
            && Exec(INIT, events).state.mounted
            && |Exec(INIT, events).state.attempts| == 1
            && (var a := Exec(INIT, events).state.attempts[0];
                a.phase == Done(true) && a.received == Some(7) && a.disconnects == 1 && a.reports == 1)
  {
    FirstThree();
    LastFour();
    ExecAppend(INIT, FIRST_THREE, LAST_FOUR);
    assert FIRST_THREE + LAST_FOUR == [Connect("s"), Resume(0, true, 7), Resume(0, true, 0), Resume(0, true, 0),
                                       Resume(0, true, 0), Cancel("s", []), Resume(0, true, 0)];
  }

  const LAST_FOUR := [Resume(0, true, 0), Resume(0, true, 0), Cancel("s", []), Resume(0, true, 0)]

  lemma LastFour()
    ensures var end := Exec(OneAttempt(Opening()), LAST_FOUR);
            end.At? && end.state.mounted && end.state.attempts == [Succeeded(CancelledAttempt(Starting()))]
  {
    var a4 := Opening().(phase := VerifiedTerminal(true));
    ResumeOne(Opening(), 0);
    ResumeOne(a4, 0);
    CancelOne(Starting());
    var s6 := Next(OneAttempt(Starting()), Cancel("s", []));
    ResumeLast(s6, CancelledAttempt(Starting()));
    ExecPath([OneAttempt(Opening()), OneAttempt(a4), OneAttempt(Starting()), s6, Next(s6, Resume(0, true, 0))], LAST_FOUR);
  }

  /** The steps by which an id is used a second time, in any run: a cancelled attempt that
      received the id resumes in an unmounted component, from opening its terminal or
      from closing it, or its terminal has started. */
  predicate UsesAgain(a: Attempt, mounted: bool, ok: bool) {
    a.cancelled && ((!mounted && (a.phase.OpeningTerminal? || a.phase.ClosingUnmounted?)) || (a.phase.StartingTerminal? && ok))
  }

  lemma SecondUseExactly(events: seq<Event>, i: nat, ok: bool, connection: Connection)
    requires Exec(INIT, events).At? && Enabled(Exec(INIT, events).state, Resume(i, ok, connection))
    ensures var s := Exec(INIT, events).state;
            var a := s.attempts[i];
            && |Resumed(s, i, ok, connection).attempts| == |s.attempts|
            && Uses(a) <= 2
            && (Uses(a) < 2 && Uses(Resumed(s, i, ok, connection).attempts[i]) == 2 <==> UsesAgain(a, s.mounted, ok))
  {
    RunsKeepInv(INIT, events);
    var s := Exec(INIT, events).state;
    assert AttemptSound(s.mounted, s.attempts[i]);
    SecondUse(s.attempts[i], s.mounted, ok, connection);
    assert Resumed(s, i, ok, connection).attempts == s.attempts[i := Advanced(s.attempts[i], s.mounted, ok, connection)];
  }

  lemma SecondUse(a: Attempt, mounted: bool, ok: bool, connection: Connection)
    requires AttemptSound(mounted, a) && !a.phase.Done?
    ensures Uses(a) <= 2
    ensures Uses(a) < 2 && Uses(Advanced(a, mounted, ok, connection)) == 2 <==> UsesAgain(a, mounted, ok)
  {
  }

  lemma CancelSingle(s: State, session: Session)
    ensures CancelledEach(s, [session]) == CancelledOne(s, session)
  {
    assert [session][1..] == [];
    assert CancelledEach(CancelledOne(s, session), []) == CancelledOne(s, session);
  }

  lemma {:induction false} ExecPath(states: seq<State>, events: seq<Event>)
    requires |states| == |events| + 1
    requires forall i :: 0 <= i < |events| ==> Enabled(states[i], events[i]) && states[i + 1] == Next(states[i], events[i])
    ensures Exec(states[0], events) == At(states[|events|])
    decreases events
  {
    if events != [] {
      ExecPath(states[1..], events[1..]);
    }
  }

  /** In every run a session has at most one live countdown, and every automatic attempt,
      pending or begun, is numbered from 1 to the maximum. */
  lemma AtMostOneCountdown(events: seq<Event>)
    requires Exec(INIT, events).At?
    ensures var s := Exec(INIT, events).state;
            && (forall j, k :: 0 <= j < |s.countdowns| && 0 <= k < |s.countdowns|
                  && s.countdowns[j].live && s.countdowns[k].live && s.countdowns[j].session == s.countdowns[k].session
                  ==> j == k)
            && (forall k :: 0 <= k < |s.countdowns| ==> 1 <= s.countdowns[k].attempt <= AUTO_RECONNECT_MAX_ATTEMPTS)
            && (forall i :: 0 <= i < |s.attempts| ==> s.attempts[i].auto <= AUTO_RECONNECT_MAX_ATTEMPTS)
  {
    RunsKeepInv(INIT, events);
  }

  /** No manually disconnected session has a live countdown, and no countdown that elapses
      belongs to one: an elapsed countdown never begins an attempt for it. */
  lemma ManualDisconnectIsRespected(events: seq<Event>, k: nat, view: SessionView)
    requires Exec(INIT, events).At?
    ensures var s := Exec(INIT, events).state;
            && (forall j :: 0 <= j < |s.countdowns| && s.countdowns[j].live ==> s.countdowns[j].session !in s.manual)
            && (Enabled(s, Elapse(k, view)) && |Next(s, Elapse(k, view)).attempts| > |s.attempts| ==>
                  s.countdowns[k].session !in s.manual)
  {
    RunsKeepInv(INIT, events);
  }
}
