/** The refs of `useSessionRuntime` as one object, and its synchronous functions as
    methods on it, each proved against the step it is in the runs. */
module SessionObject {
  import opened Options
  import opened SessionRuntime

  /** The code between two awaits of `connectSession`, as it changes its attempt. */
  method AfterAwait(a: Attempt, mounted: bool, ok: bool, connection: Connection) returns (b: Attempt)
    ensures b == Advanced(a, mounted, ok, connection)
  {
    b := a;
    match a.phase
    case Connecting =>
      if !ok {
        return b.(phase := Done(false));
      }
      b := b.(received := Some(connection), connectionId := Some(connection));
      if !mounted {
        return b.(connectionId := None, disconnects := b.disconnects + 1, phase := Leaving);
      }
      b := TestCancelled(b, VerifiedConnect);
    case VerifiedConnect =>
      b := b.(phase := OpeningTerminal);
    case OpeningTerminal =>
      if !mounted {
        return DisconnectedAnyway(b).(phase := Leaving);
      }
      b := TestCancelled(b, VerifiedTerminal(ok));
    case VerifiedTerminal(terminal) =>
      if !terminal {
        b := Rollback(b);
      } else {
        b := b.(phase := if mounted then StartingTerminal else ClosingUnmounted);
      }
    case ClosingUnmounted =>
      b := DisconnectedAnyway(b).(phase := Leaving);
    case StartingTerminal =>
      if ok {
        b := b.(connectionId := None, reports := b.reports + 1, phase := Done(true));
      } else {
        b := b.(phase := ClosingTerminal);
      }
    case ClosingTerminal =>
      b := Rollback(b);
    case Leaving =>
      b := b.(phase := Done(false));
    case Done(_) =>
  }

  /** `disconnectIfCancelled`. */
  method TestCancelled(a: Attempt, passed: Phase) returns (b: Attempt)
    ensures b == if a.cancelled then Taken(a).(phase := Leaving) else a.(phase := passed)
  {
    if !a.cancelled {
      return a.(phase := passed);
    }
    b := a.(phase := Leaving);
    if b.connectionId.Some? {
      b := b.(connectionId := None, disconnects := b.disconnects + 1);
    }
  }

  /** The `catch` block. */
  method Rollback(a: Attempt) returns (b: Attempt)
    ensures b == RolledBack(a)
  {
    if a.connectionId.None? {
      return a.(phase := Done(false));
    }
    b := a.(connectionId := None, disconnects := a.disconnects + 1, phase := Leaving);
  }

  class SessionRefs {
    var mounted: bool
    var attempts: seq<Attempt>
    var current: map<Session, nat>
    var connecting: set<Session>
    var manual: set<Session>
    var tries: map<Session, nat>
    var countdowns: seq<Countdown>
    var timers: map<Session, nat>

    function View(): State
      reads this
    {
      State(mounted, attempts, current, connecting, manual, tries, countdowns, timers)
    }

    constructor ()
      ensures View() == INIT
    {
      mounted, attempts, current, connecting := true, [], map[], {};
      manual, tries, countdowns, timers := {}, map[], [], map[];
    }

    /** `cancelReconnect`. */
    method CancelReconnect(session: Session)
      modifies this
      ensures View() == StopTimer(old(View()), session)
    {
      if session in timers && timers[session] < |countdowns| {
        var k := timers[session];
        countdowns := countdowns[k := countdowns[k].(live := false)];
        timers := timers - {session};
      }
    }

    /** `beginConnectionAttempt` and the rest of `connectSession` before its first await. */
    method BeginConnect(session: Session, auto: nat) returns (begun: bool)
      modifies this
      ensures View() == Begun(old(View()), session, auto)
      ensures begun == (old(mounted) && session !in old(connecting))
    {
      if !mounted || session in connecting {
        return false;
      }
      current := current[session := |attempts|];
      attempts := attempts + [NewAttempt(session, auto)];
      connecting := connecting + {session};
      manual := manual - {session};
      CancelReconnect(session);
      return true;
    }

    /** `finishConnectionAttempt`. */
    method FinishConnectionAttempt(i: nat)
      requires i < |attempts|
      modifies this
      ensures View() == Finished(old(View()), i)
    {
      var session := attempts[i].session;
      if session !in current || current[session] != i {
        return;
      }
      current := current - {session};
      connecting := connecting - {session};
    }

    /** `scheduleReconnect`. */
    method ScheduleReconnect(session: Session)
      modifies this
      ensures View() == Scheduled(old(View()), session)
    {
      if session in manual || session in timers {
        return;
      }
      var previous := if session in tries then tries[session] else 0;
      if previous >= AUTO_RECONNECT_MAX_ATTEMPTS {
        return;
      }
      tries := tries[session := previous + 1];
      timers := timers[session := |countdowns|];
      countdowns := countdowns + [Countdown(session, previous + 1, true)];
    }

    /** `cancelConnectingSession`, up to the awaited disconnects. */
    method CancelConnectingSession(requested: Session, tabs: seq<Tab>)
      modifies this
      ensures View() == Cancelled(old(View()), ConnectingSessionIdsFor(requested, tabs, old(connecting)))
    {
      var targets := ConnectingSessionIdsFor(requested, tabs, connecting);
      assert targets[0..] == targets;
      for j := 0 to |targets|
        invariant connecting == old(connecting)
        invariant CancelledEach(View(), targets[j..]) == CancelledEach(old(View()), targets)
      {
        var target := targets[j];
        assert targets[j..][0] == target && targets[j..][1..] == targets[j + 1..];
        CancelTarget(target);
      }
      EachKeepsConnecting(old(View()), targets);
      connecting := connecting - (set t | t in targets);
    }

    /** The loop body of `cancelConnectingSession`. */
    method CancelTarget(target: Session)
      modifies this
      ensures View() == CancelledOne(old(View()), target)
      ensures connecting == old(connecting)
    {
      manual := manual + {target};
      CancelReconnect(target);
      if target in current && current[target] < |attempts| {
        var i := current[target];
        var attempt := attempts[i].(cancelled := true, cancelledAt := Some(attempts[i].phase));
        current := current - {target};
        if attempt.connectionId.Some? {
          attempt := attempt.(connectionId := None, disconnects := attempt.disconnects + 1);
        }
        attempts := attempts[i := attempt];
      }
    }

    /** `connectSession` from one await to the next: `ok` and `connection` are what the
        awaited call gave; a return runs the `finally` block. */
    method ResumeAttempt(i: nat, ok: bool, connection: Connection)
      requires i < |attempts| && !attempts[i].phase.Done?
      modifies this
      ensures View() == Resumed(old(View()), i, ok, connection)
    {
      var attempt := AfterAwait(attempts[i], mounted, ok, connection);
      attempts := attempts[i := attempt];
      if attempt.phase.Done? {
        if attempt.phase.connected {
          tries := tries - {attempt.session};
        }
        FinishConnectionAttempt(i);
      }
    }

    /** `runReconnectAttempt` up to its first await. */
    method RunReconnectAttempt(session: Session, attempt: nat, view: SessionView)
      modifies this
      ensures View() == Reconnected(old(View()), session, attempt, view)
    {
      if !mounted || session in manual || view == Missing {
        return;
      }
      if view == Connected {
        tries := tries - {session};
        return;
      }
      if session in connecting {
        tries := tries[session := if attempt > 0 then attempt - 1 else 0];
        ScheduleReconnect(session);
        return;
      }
      var _ := BeginConnect(session, attempt);
    }

    /** `onElapsed` of countdown `k`. */
    method CountdownElapsed(k: nat, view: SessionView)
      requires k < |countdowns|
      modifies this
      ensures View() == Elapsed(old(View()), k, view)
    {
      var c := countdowns[k];
      countdowns := countdowns[k := c.(live := false)];
      if c.session !in timers || timers[c.session] != k {
        return;
      }
      timers := timers - {c.session};
      RunReconnectAttempt(c.session, c.attempt, view);
    }

    /** `runReconnectAttempt` after its attempt has returned. */
    method ContinueReconnect(i: nat, awaitingHostKey: bool)
      requires i < |attempts|
      modifies this
      ensures View() == Continued(old(View()), i, awaitingHostKey)
    {
      var a := attempts[i];
      attempts := attempts[i := a.(continued := true)];
      if a.phase != Done(false) || a.session in manual || a.session in connecting || awaitingHostKey {
        return;
      }
      ScheduleReconnect(a.session);
    }

    /** What closing, disconnecting and deleting a session do to the refs. */
    method DisconnectManually(session: Session)
      modifies this
      ensures View() == Disconnected(old(View()), session)
    {
      manual := manual + {session};
      CancelReconnect(session);
    }

    /** The clean-up of the effect. */
    method Unmount()
      modifies this
      ensures View() == UnmountedState(old(View()))
    {
      mounted := false;
      countdowns := Silenced(countdowns);
      timers := map[];
    }

    /** Every event of a run is a call of one method. */
    method Perform(e: Event)
      requires Enabled(View(), e)
      modifies this
      ensures View() == Next(old(View()), e)
    {
      match e
      case Connect(session) => var _ := BeginConnect(session, 0);
      case Resume(i, ok, connection) => ResumeAttempt(i, ok, connection);
      case Continue(i, awaitingHostKey) => ContinueReconnect(i, awaitingHostKey);
      case Cancel(requested, tabs) => CancelConnectingSession(requested, tabs);
      case Disconnect(session) => DisconnectManually(session);
      case ConnectionLost(session) => ScheduleReconnect(session);
      case Elapse(k, view) => CountdownElapsed(k, view);
      case Reset => ResetSessionRuntime();
      case Unmount => Unmount();
    }

    /** `resetSessionRuntime`. */
    method ResetSessionRuntime()
      modifies this
      ensures View() == ResetAll(old(View()))
    {
      for i := 0 to |attempts|
        invariant |attempts| == |old(attempts)| && current == old(current) && countdowns == old(countdowns)
        invariant mounted == old(mounted)
        invariant forall j :: 0 <= j < i ==> attempts[j] == CancelCurrent(old(View()), j)
        invariant forall j :: i <= j < |attempts| ==> attempts[j] == old(attempts)[j]
      {
        var attempt := attempts[i];
        if attempt.session in current && current[attempt.session] == i {
          attempt := attempt.(cancelled := true, cancelledAt := Some(attempt.phase));
          if attempt.connectionId.Some? {
            attempt := attempt.(connectionId := None, disconnects := attempt.disconnects + 1);
          }
          attempts := attempts[i := attempt];
        }
      }
      current, manual, tries := map[], {}, map[];
      countdowns := Silenced(countdowns);
      timers := map[];
      connecting := {};
    }
  }

  lemma {:induction false} EachKeepsConnecting(s: State, targets: seq<Session>)
    ensures CancelledEach(s, targets).connecting == s.connecting
    decreases targets
  {
    if targets != [] {
      EachKeepsConnecting(CancelledOne(s, targets[0]), targets[1..]);
    }
  }
}
