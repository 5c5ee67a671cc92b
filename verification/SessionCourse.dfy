/** Which runs of the session runtime report a connection, and which numbers its countdowns
    have, read off the events alone. */
module SessionCourse {
  import opened Options
  import opened SessionRuntime
  import opened SessionLaws

  // ---------------------------------------------- what an attempt has been told

  /** One continuation of an attempt: the answer of the awaited call, and what it finds. */
  datatype Seen = Seen(ok: bool, connection: Connection, mounted: bool, cancelled: bool)

  /** The continuations of attempt `i` in a run from `s`. */
  function Continuations(s: State, events: seq<Event>, i: nat): seq<Seen>
    requires Exec(s, events).At?
    decreases events
  {
    if events == [] then []
    else
      var e, rest := events[0], Continuations(Next(s, events[0]), events[1..], i);
      if e.Resume? && e.i == i then [Seen(e.ok, e.connection, s.mounted, s.attempts[i].cancelled)] + rest else rest
  }

  /** The awaited call succeeded, and the tests after it found the component mounted and the
      attempt not cancelled. */
  predicate Passed(seen: Seen) {
    seen.ok && seen.mounted && !seen.cancelled
  }

  /** The course of a success: the connection, its test, the terminal, its test, the start. */
  predicate Succeeds(seen: seq<Seen>) {
    |seen| == 5 && Passed(seen[0]) && Passed(seen[2]) && seen[3].mounted && seen[4].ok
  }

  /** Some continuation has decided that the attempt fails. */
  predicate Stopped(seen: seq<Seen>) {
    || (|seen| >= 1 && !Passed(seen[0]))
    || (|seen| >= 3 && !Passed(seen[2]))
    || (|seen| >= 4 && !seen[3].mounted)
    || (|seen| >= 5 && !seen[4].ok)
  }

  /** How the phase of an attempt, and the id it received, follow from its continuations. */
  predicate Fits(seen: seq<Seen>, phase: Phase, received: Option<Connection>) {
    && received == (if seen != [] && seen[0].ok then Some(seen[0].connection) else None)
    && match phase
       case Connecting => seen == []
       case VerifiedConnect => |seen| == 1 && Passed(seen[0])
       case OpeningTerminal => |seen| == 2 && Passed(seen[0])
       case VerifiedTerminal(terminal) =>
         |seen| == 3 && Passed(seen[0]) && seen[2].mounted && !seen[2].cancelled && terminal == seen[2].ok
       case ClosingUnmounted => |seen| == 4 && Passed(seen[0]) && Passed(seen[2]) && !seen[3].mounted
       case StartingTerminal => |seen| == 4 && Passed(seen[0]) && Passed(seen[2]) && seen[3].mounted
       case ClosingTerminal => |seen| == 5 && Passed(seen[0]) && Passed(seen[2]) && seen[3].mounted && !seen[4].ok
       case Leaving => 1 <= |seen| <= 6 && Stopped(seen) && seen[0].ok
       case Done(connected) => if connected then Succeeds(seen) else 1 <= |seen| <= 7 && Stopped(seen)
  }

  lemma AdvanceFits(seen: seq<Seen>, a: Attempt, mounted: bool, ok: bool, connection: Connection)
    requires Fits(seen, a.phase, a.received) && !a.phase.Done?
    ensures var b := Advanced(a, mounted, ok, connection);
            Fits(seen + [Seen(ok, connection, mounted, a.cancelled)], b.phase, b.received)
  {
    var all := seen + [Seen(ok, connection, mounted, a.cancelled)];
    assert forall k :: 0 <= k < |seen| ==> all[k] == seen[k];
  }

  // --------------------------------------------------------- what other events keep

  lemma CancelledOneKeeps(s: State, target: Session, i: nat)
    requires i < |s.attempts|
    ensures |CancelledOne(s, target).attempts| == |s.attempts|
    ensures CancelledOne(s, target).attempts[i].phase == s.attempts[i].phase
    ensures CancelledOne(s, target).attempts[i].received == s.attempts[i].received
  {
  }

  lemma {:induction false} CancelledEachKeeps(s: State, targets: seq<Session>, i: nat)
    requires i < |s.attempts|
    ensures |CancelledEach(s, targets).attempts| == |s.attempts|
    ensures CancelledEach(s, targets).attempts[i].phase == s.attempts[i].phase
    ensures CancelledEach(s, targets).attempts[i].received == s.attempts[i].received
    decreases targets
  {
    if targets != [] {
      CancelledOneKeeps(s, targets[0], i);
      CancelledEachKeeps(CancelledOne(s, targets[0]), targets[1..], i);
    }
  }

  /** Only its own continuations move an attempt. */
  lemma OthersKeep(s: State, e: Event, i: nat)
    requires Enabled(s, e) && i < |s.attempts| && !(e.Resume? && e.i == i)
    ensures i < |Next(s, e).attempts|
    ensures Next(s, e).attempts[i].phase == s.attempts[i].phase
    ensures Next(s, e).attempts[i].received == s.attempts[i].received
  {
    match e
    case Cancel(requested, tabs) =>
      CancelledEachKeeps(s, ConnectingSessionIdsFor(requested, tabs, s.connecting), i);
    case _ =>
  }

  /** A new attempt has been told nothing. */
  lemma NewIsConnecting(s: State, e: Event, i: nat)
    requires Enabled(s, e) && |s.attempts| <= i < |Next(s, e).attempts|
    ensures Next(s, e).attempts[i].phase == Connecting && Next(s, e).attempts[i].received == None
  {
    match e
    case Cancel(requested, tabs) => CancelledEachCount(s, ConnectingSessionIdsFor(requested, tabs, s.connecting));
    case _ =>
  }

  lemma {:induction false} CancelledEachCount(s: State, targets: seq<Session>)
    ensures |CancelledEach(s, targets).attempts| == |s.attempts|
    decreases targets
  {
    if targets != [] {
      CancelledEachCount(CancelledOne(s, targets[0]), targets[1..]);
    }
  }

  predicate FitsIn(s: State, seen: seq<Seen>, i: nat) {
    if i < |s.attempts| then Fits(seen, s.attempts[i].phase, s.attempts[i].received) else seen == []
  }

  lemma StepFits(s: State, e: Event, seen: seq<Seen>, i: nat)
    requires Enabled(s, e) && FitsIn(s, seen, i)
    ensures var mine := e.Resume? && e.i == i;
            FitsIn(Next(s, e), if mine then seen + [Seen(e.ok, e.connection, s.mounted, s.attempts[i].cancelled)] else seen, i)
  {
    if e.Resume? && e.i == i {
      AdvanceFits(seen, s.attempts[i], s.mounted, e.ok, e.connection);
    } else if i < |s.attempts| {
      OthersKeep(s, e, i);
    } else if i < |Next(s, e).attempts| {
      NewIsConnecting(s, e, i);
    }
  }

  lemma {:induction false} RunFits(s: State, events: seq<Event>, seen: seq<Seen>, i: nat)
    requires Exec(s, events).At? && FitsIn(s, seen, i)
    ensures FitsIn(Exec(s, events).state, seen + Continuations(s, events, i), i)
    decreases events
  {
    if events == [] {
      assert seen + [] == seen;
    } else {
      var e := events[0];
      var rest := Continuations(Next(s, e), events[1..], i);
      StepFits(s, e, seen, i);
      if e.Resume? && e.i == i {
        var now := [Seen(e.ok, e.connection, s.mounted, s.attempts[i].cancelled)];
        RunFits(Next(s, e), events[1..], seen + now, i);
        assert (seen + now) + rest == seen + (now + rest);
      } else {
        RunFits(Next(s, e), events[1..], seen, i);
      }
    }
  }

  // ------------------------------------------------------------------- the laws

  /** In every run an attempt reports its connection if and only if it has had five
      continuations of which the connection, the terminal and its start succeeded, the
      component was mounted at the first, third and fourth and no cancellation came before
      the first or the third.  It received the id the first one brought. */
  lemma ReportedExactly(events: seq<Event>, i: nat)
    requires Exec(INIT, events).At? && i < |Exec(INIT, events).state.attempts|
    ensures var a, seen := Exec(INIT, events).state.attempts[i], Continuations(INIT, events, i);
            && (a.phase == Done(true) <==> Succeeds(seen))
            && (a.reports == 1 <==> Succeeds(seen)) && a.reports <= 1
            && a.received == (if seen != [] && seen[0].ok then Some(seen[0].connection) else None)
  {
    RunFits(INIT, events, [], i);
    RunsKeepInv(INIT, events);
    var a, seen := Exec(INIT, events).state.attempts[i], Continuations(INIT, events, i);
    assert [] + seen == seen && AttemptSound(Exec(INIT, events).state.mounted, a);
  }

  /** An attempt fails exactly by a failed or refused continuation; it then returns false, at
      the latest with its seventh, and the id it received has been disconnected. */
  lemma FailedExactly(events: seq<Event>, i: nat)
    requires Exec(INIT, events).At? && i < |Exec(INIT, events).state.attempts|
    ensures var a, seen := Exec(INIT, events).state.attempts[i], Continuations(INIT, events, i);
            && |seen| <= 7 && (|seen| == 7 ==> a.phase.Done?)
            && (a.phase.Done? ==> (a.phase == Done(false) <==> Stopped(seen)))
            && (a.phase == Done(false) && a.received.Some? ==> a.disconnects >= 1 && a.reports == 0)
            && (Stopped(seen) ==> a.reports == 0)
  {
    RunFits(INIT, events, [], i);
    RunsKeepInv(INIT, events);
    var a, seen := Exec(INIT, events).state.attempts[i], Continuations(INIT, events, i);
    assert [] + seen == seen && AttemptSound(Exec(INIT, events).state.mounted, a);
  }

  // -------------------------------------------------------- numbers of countdowns

  function Tries(s: State, x: Session): nat {
    if x in s.tries then s.tries[x] else 0
  }

  /** The event clears the count of `x` or sets it back: a reset, a success, or a countdown that
      elapses while the session is connected or connecting. */
  predicate ClearsCount(s: State, e: Event, x: Session) {
    match e
    case Reset => true
    case Resume(i, ok, _) => i < |s.attempts| && s.attempts[i].session == x && s.attempts[i].phase.StartingTerminal? && ok
    case Elapse(k, view) =>
      k < |s.countdowns| && s.countdowns[k].session == x && s.mounted && x !in s.manual
      && (view == Connected || (view == NotConnected && x in s.connecting))
    case _ => false
  }

  /** The numbers of the countdowns of `x` from index `from` on. */
  function Numbers(countdowns: seq<Countdown>, x: Session, from: nat): seq<nat>
    decreases |countdowns| - from
  {
    if from >= |countdowns| then []
    else
      var rest := Numbers(countdowns, x, from + 1);
      if countdowns[from].session == x then [countdowns[from].attempt] + rest else rest
  }

  /** low + 1, ..., high. */
  function Counting(low: nat, high: nat): seq<nat>
    requires low <= high
    decreases high
  {
    if low == high then [] else Counting(low, high - 1) + [high]
  }

  /** Sessions and numbers of countdowns never change. */
  predicate SameNumbers(before: seq<Countdown>, after: seq<Countdown>) {
    |before| <= |after|
    && forall k :: 0 <= k < |before| ==> after[k].session == before[k].session && after[k].attempt == before[k].attempt
  }

  lemma {:induction false} NumbersKept(before: seq<Countdown>, after: seq<Countdown>, x: Session, from: nat)
    requires SameNumbers(before, after) && |before| == |after|
    ensures Numbers(after, x, from) == Numbers(before, x, from)
    decreases |before| - from
  {
    if from < |before| {
      NumbersKept(before, after, x, from + 1);
    }
  }

  lemma {:induction false} NumbersSnoc(countdowns: seq<Countdown>, c: Countdown, x: Session, from: nat)
    requires from <= |countdowns|
    ensures Numbers(countdowns + [c], x, from)
         == if c.session == x then Numbers(countdowns, x, from) + [c.attempt] else Numbers(countdowns, x, from)
    decreases |countdowns| - from
  {
    if from < |countdowns| {
      NumbersSnoc(countdowns, c, x, from + 1);
    } else {
      assert Numbers(countdowns + [c], x, from + 1) == [];
    }
  }

  /** What one event does to the countdowns of `x`: nothing, or one more, numbered next. */
  predicate CountsOn(s: State, t: State, x: Session) {
    || (Tries(t, x) == Tries(s, x) && |t.countdowns| == |s.countdowns| && SameNumbers(s.countdowns, t.countdowns))
    || (|t.countdowns| == |s.countdowns| + 1 && SameNumbers(s.countdowns, t.countdowns)
        && (var c := t.countdowns[|s.countdowns|];
            if c.session == x then
              c.attempt == Tries(s, x) + 1 == Tries(t, x) <= AUTO_RECONNECT_MAX_ATTEMPTS
            else Tries(t, x) == Tries(s, x)))
  }

  lemma ScheduledCounts(s: State, session: Session, x: Session)
    ensures CountsOn(s, Scheduled(s, session), x)
  {
  }

  lemma StoppedCounts(s: State, session: Session, x: Session)
    ensures CountsOn(s, StopTimer(s, session), x)
  {
  }

  lemma {:induction false} CancelledEachCounts(s: State, targets: seq<Session>, x: Session)
    ensures CancelledEach(s, targets).tries == s.tries
    ensures |CancelledEach(s, targets).countdowns| == |s.countdowns|
    ensures SameNumbers(s.countdowns, CancelledEach(s, targets).countdowns)
    decreases targets
  {
    if targets != [] {
      var t := CancelledOne(s, targets[0]);
      assert SameNumbers(s.countdowns, t.countdowns) && |t.countdowns| == |s.countdowns|;
      CancelledEachCounts(t, targets[1..], x);
    }
  }

  lemma StepCounts(s: State, e: Event, x: Session)
    requires Enabled(s, e) && !ClearsCount(s, e, x)
    ensures CountsOn(s, Next(s, e), x)
  {
    match e
    case Cancel(requested, tabs) =>
      CancelledEachCounts(s, ConnectingSessionIdsFor(requested, tabs, s.connecting), x);
    case Elapse(k, view) => ElapseCounts(s, k, view, x);
    case Resume(i, ok, connection) => ResumeCounts(s, i, ok, connection, x);
    case Continue(i, awaitingHostKey) =>
      ScheduledCounts(s.(attempts := s.attempts[i := s.attempts[i].(continued := true)]), s.attempts[i].session, x);
    case _ =>
  }

  lemma ResumeCounts(s: State, i: nat, ok: bool, connection: Connection, x: Session)
    requires Enabled(s, Resume(i, ok, connection)) && !ClearsCount(s, Resume(i, ok, connection), x)
    ensures CountsOn(s, Resumed(s, i, ok, connection), x)
  {
    SuccessIsAStart(s.attempts[i], s.mounted, ok, connection);
    var t := Resumed(s, i, ok, connection);
    assert t.countdowns == s.countdowns && Tries(t, x) == Tries(s, x);
  }

  lemma SuccessIsAStart(a: Attempt, mounted: bool, ok: bool, connection: Connection)
    requires !a.phase.Done?
    ensures var b := Advanced(a, mounted, ok, connection);
            b.session == a.session && (b.phase == Done(true) ==> a.phase.StartingTerminal? && ok)
  {
  }

  lemma ElapseCounts(s: State, k: nat, view: SessionView, x: Session)
    requires Enabled(s, Elapse(k, view)) && !ClearsCount(s, Elapse(k, view), x)
    ensures CountsOn(s, Elapsed(s, k, view), x)
  {
    var c := s.countdowns[k];
    var t := s.(countdowns := s.countdowns[k := c.(live := false)], timers := s.timers - {c.session});
    assert SameNumbers(s.countdowns, t.countdowns);
    if c.session != x {
      ReconnectedCountsOthers(t, c.session, c.attempt, view, x);
    }
  }

  lemma ReconnectedCountsOthers(s: State, session: Session, attempt: nat, view: SessionView, x: Session)
    requires session != x
    ensures CountsOn(s, Reconnected(s, session, attempt, view), x)
  {
  }

  /** While the count of a session is neither cleared nor set back, its countdowns are numbered
      one after the other from where the count stood, and none beyond the maximum is created. */
  lemma {:induction false} CountdownsAreNumbered(s: State, events: seq<Event>, x: Session)
    requires Exec(s, events).At? && NeverClears(s, events, x) && Tries(s, x) <= AUTO_RECONNECT_MAX_ATTEMPTS
    ensures var t := Exec(s, events).state;
            && Tries(s, x) <= Tries(t, x) <= AUTO_RECONNECT_MAX_ATTEMPTS
            && SameNumbers(s.countdowns, t.countdowns)
            && Numbers(t.countdowns, x, |s.countdowns|) == Counting(Tries(s, x), Tries(t, x))
    decreases |events|
  {
    if events != [] {
      var init, e := events[..|events| - 1], events[|events| - 1];
      assert init + [e] == events;
      ExecInit(s, init, e, x);
      CountdownsAreNumbered(s, init, x);
      OneMoreNumbered(s, Exec(s, init).state, e, x);
    }
  }

  ghost predicate NeverClears(s: State, events: seq<Event>, x: Session)
    requires Exec(s, events).At?
    decreases events
  {
    events == [] || (!ClearsCount(s, events[0], x) && NeverClears(Next(s, events[0]), events[1..], x))
  }

  lemma {:induction false} ExecInit(s: State, init: seq<Event>, e: Event, x: Session)
    requires Exec(s, init + [e]).At? && NeverClears(s, init + [e], x)
    ensures Exec(s, init).At? && NeverClears(s, init, x)
    ensures var m := Exec(s, init).state;
            Enabled(m, e) && !ClearsCount(m, e, x) && Exec(s, init + [e]) == At(Next(m, e))
    decreases init
  {
    if init == [] {
      assert ([e])[1..] == [] && [] + [e] == [e];
    } else {
      assert (init + [e])[1..] == init[1..] + [e];
      ExecInit(Next(s, init[0]), init[1..], e, x);
    }
  }

  lemma OneMoreNumbered(s: State, m: State, e: Event, x: Session)
    requires Enabled(m, e) && !ClearsCount(m, e, x) && SameNumbers(s.countdowns, m.countdowns)
    requires Tries(s, x) <= Tries(m, x) <= AUTO_RECONNECT_MAX_ATTEMPTS
    requires Numbers(m.countdowns, x, |s.countdowns|) == Counting(Tries(s, x), Tries(m, x))
    ensures var t := Next(m, e);
            && Tries(s, x) <= Tries(t, x) <= AUTO_RECONNECT_MAX_ATTEMPTS && SameNumbers(s.countdowns, t.countdowns)
            && Numbers(t.countdowns, x, |s.countdowns|) == Counting(Tries(s, x), Tries(t, x))
  {
    var t, n := Next(m, e), |m.countdowns|;
    StepCounts(m, e, x);
    if |t.countdowns| == n {
      NumbersKept(m.countdowns, t.countdowns, x, |s.countdowns|);
    } else {
      NumbersKept(m.countdowns, t.countdowns[..n], x, |s.countdowns|);
      assert t.countdowns == t.countdowns[..n] + [t.countdowns[n]];
      NumbersSnoc(t.countdowns[..n], t.countdowns[n], x, |s.countdowns|);
    }
  }

  // ----------------------------------------------------------- what events bring

  /** A lost connection brings a countdown, with the next number, exactly if the session was not
      disconnected by hand, has none running and has tries left. */
  lemma LostConnectionSchedules(events: seq<Event>, x: Session)
    requires Exec(INIT, events).At? && Enabled(Exec(INIT, events).state, ConnectionLost(x))
    ensures var s := Exec(INIT, events).state;
            var t := Next(s, ConnectionLost(x));
            var idle := forall k :: 0 <= k < |s.countdowns| && s.countdowns[k].session == x ==> !s.countdowns[k].live;
            && (|t.countdowns| == |s.countdowns| + 1 <==> idle && Tries(s, x) < 5)
            && (|t.countdowns| == |s.countdowns| + 1 ==>
                  t.countdowns == s.countdowns + [Countdown(x, Tries(s, x) + 1, true)])
            && (|t.countdowns| != |s.countdowns| + 1 ==> t == s)
  {
    RunsKeepInv(INIT, events);
    var s := Exec(INIT, events).state;
    if x in s.timers {
      assert s.countdowns[s.timers[x]].live;
    }
  }

  /** A countdown that elapses for a session that is neither connected nor connecting begins the
      attempt with its number. */
  lemma ElapsedCountdownConnects(events: seq<Event>, k: nat)
    requires Exec(INIT, events).At? && Enabled(Exec(INIT, events).state, Elapse(k, NotConnected))
    requires var s := Exec(INIT, events).state; s.mounted && s.countdowns[k].session !in s.connecting
    ensures var s := Exec(INIT, events).state;
            var c, t := s.countdowns[k], Next(s, Elapse(k, NotConnected));
            && t.attempts == s.attempts + [NewAttempt(c.session, c.attempt)]
            && c.session in t.connecting && !t.countdowns[k].live
  {
    RunsKeepInv(INIT, events);
  }

  /** A failed automatic attempt schedules the next one exactly if nothing speaks against it. */
  lemma FailedAttemptSchedules(events: seq<Event>, i: nat, awaitingHostKey: bool)
    requires Exec(INIT, events).At? && Enabled(Exec(INIT, events).state, Continue(i, awaitingHostKey))
    ensures var s := Exec(INIT, events).state;
            var x, t := s.attempts[i].session, Next(s, Continue(i, awaitingHostKey));
            |t.countdowns| == |s.countdowns| + 1 <==>
              && s.attempts[i].phase == Done(false) && !awaitingHostKey
              && x !in s.manual && x !in s.connecting && x !in s.timers && Tries(s, x) < 5
  {
  }

  /** A cancellation reaches every target: it is marked as disconnected by hand, is not connecting
      and has no countdown, and its attempt is cancelled and holds no connection. */
  lemma CancelReachesTargets(events: seq<Event>, requested: Session, tabs: seq<Tab>, x: Session)
    requires Exec(INIT, events).At?
    requires var s := Exec(INIT, events).state;
             (x == requested && x in s.connecting)
             || (requested !in s.connecting && x in s.connecting && Tab(x, requested) in tabs)
    ensures var s := Exec(INIT, events).state;
            var t := Next(s, Cancel(requested, tabs));
            && x in s.current && s.current[x] < |t.attempts|
            && x in t.manual && x !in t.connecting && x !in t.timers && x !in t.current
            && t.attempts[s.current[x]].cancelled && t.attempts[s.current[x]].connectionId == None
  {
    RunsKeepInv(INIT, events);
    var s := Exec(INIT, events).state;
    var targets := ConnectingSessionIdsFor(requested, tabs, s.connecting);
    if requested !in s.connecting {
      TabsMatch(requested, tabs, s.connecting, x);
    }
    assert x in targets;
    EachReaches(s, targets, x);
    EachKeepsOthers(s, targets, x);
  }

  lemma {:induction false} TabsMatch(requested: Session, tabs: seq<Tab>, connecting: set<Session>, x: Session)
    ensures x in MatchingTabs(requested, tabs, connecting) <==> x in connecting && Tab(x, requested) in tabs
  {
    if tabs != [] {
      TabsMatch(requested, tabs[1..], connecting, x);
      assert forall t :: t in tabs <==> t == tabs[0] || t in tabs[1..];
    }
  }

  /** `x` has been cancelled, by its index `i` in the attempts. */
  predicate Reached(s: State, x: Session, i: nat) {
    && i < |s.attempts| && s.attempts[i].cancelled && s.attempts[i].connectionId == None
    && x in s.manual && x !in s.timers && x !in s.current
  }

  lemma {:induction false} EachReaches(s: State, targets: seq<Session>, x: Session)
    requires LoopInv(s) && x in targets && x in s.current
    ensures Reached(CancelledEach(s, targets), x, s.current[x])
    decreases targets
  {
    CancelOneSound(s, targets[0]);
    var t := CancelledOne(s, targets[0]);
    StopTimerSound(s, targets[0]);
    if targets[0] == x {
      EachKeepsReached(t, targets[1..], x, s.current[x]);
    } else {
      assert x in t.current && t.current[x] == s.current[x];
      EachReaches(t, targets[1..], x);
    }
  }

  lemma {:induction false} EachKeepsReached(s: State, targets: seq<Session>, x: Session, i: nat)
    requires LoopInv(s) && Reached(s, x, i)
    ensures Reached(CancelledEach(s, targets), x, i)
    decreases targets
  {
    if targets != [] {
      CancelOneSound(s, targets[0]);
      EachKeepsReached(CancelledOne(s, targets[0]), targets[1..], x, i);
    }
  }

  lemma {:induction false} EachKeepsOthers(s: State, targets: seq<Session>, x: Session)
    ensures CancelledEach(s, targets).connecting == s.connecting
    decreases targets
  {
    if targets != [] {
      EachKeepsOthers(CancelledOne(s, targets[0]), targets[1..], x);
    }
  }

  /** A reset cancels every attempt in progress and leaves nothing connecting or counting down; an
      unmounted component has no live countdown. */
  lemma ResetAndUnmountSilence(events: seq<Event>)
    requires Exec(INIT, events).At?
    ensures var s := Exec(INIT, events).state;
            var t, u := Next(s, Reset), Next(s, Unmount);
            && t.connecting == {} && t.manual == {} && t.tries == map[]
            && (forall k :: 0 <= k < |t.countdowns| ==> !t.countdowns[k].live)
            && (forall x :: x in s.current ==>
                  s.current[x] < |t.attempts| && t.attempts[s.current[x]].cancelled && t.attempts[s.current[x]].connectionId == None)
            && !u.mounted && (forall k :: 0 <= k < |u.countdowns| ==> !u.countdowns[k].live)
  {
    RunsKeepInv(INIT, events);
  }

  /** Connecting begins one attempt exactly if the component is mounted and the session is not
      connecting; it takes back a manual disconnection and a running countdown, and touches no
      other session.  Otherwise it does nothing. */
  lemma ConnectBegins(events: seq<Event>, x: Session)
    requires Exec(INIT, events).At?
    ensures var s := Exec(INIT, events).state;
            var t := Next(s, Connect(x));
            if s.mounted && x !in s.connecting then
              && t.attempts == s.attempts + [NewAttempt(x, 0)]
              && t.connecting == s.connecting + {x} && t.manual == s.manual - {x} && t.tries == s.tries
              && |t.countdowns| == |s.countdowns|
              && (forall k :: 0 <= k < |s.countdowns| ==>
                    t.countdowns[k].live == (s.countdowns[k].live && s.countdowns[k].session != x))
            else t == s
  {
    RunsKeepInv(INIT, events);
  }

  /** Closing, disconnecting or deleting marks the session and stops its countdown, and touches
      nothing else. */
  lemma DisconnectStops(events: seq<Event>, x: Session)
    requires Exec(INIT, events).At?
    ensures var s := Exec(INIT, events).state;
            var t := Next(s, Disconnect(x));
            && t.manual == s.manual + {x} && t.attempts == s.attempts && t.connecting == s.connecting && t.tries == s.tries
            && |t.countdowns| == |s.countdowns|
            && (forall k :: 0 <= k < |s.countdowns| ==>
                  t.countdowns[k].live == (s.countdowns[k].live && s.countdowns[k].session != x))
  {
    RunsKeepInv(INIT, events);
  }

  /** A success clears the count of its session, and of no other; a failure clears none.  An
      attempt that returns is no longer connecting, unless a newer one has taken its place. */
  lemma ReturnClears(events: seq<Event>, i: nat, ok: bool, connection: Connection)
    requires Exec(INIT, events).At? && Enabled(Exec(INIT, events).state, Resume(i, ok, connection))
    ensures var s := Exec(INIT, events).state;
            ClearedBy(s, Next(s, Resume(i, ok, connection)), i)
  {
    var s := Exec(INIT, events).state;
    RunsKeepInv(INIT, events);
    ResumedClears(s, i, ok, connection);
  }

  ghost predicate ClearedBy(s: State, t: State, i: nat) {
    && i < |t.attempts|
    && (var a := t.attempts[i];
        && (forall x :: Tries(t, x) == if a.phase == Done(true) && x == a.session then 0 else Tries(s, x))
        && (a.phase.Done? && IsCurrent(s, i) ==> a.session !in t.connecting)
        && (forall x :: x != a.session ==> (x in t.connecting <==> x in s.connecting)))
  }

  lemma ResumedClears(s: State, i: nat, ok: bool, connection: Connection)
    requires i < |s.attempts| && !s.attempts[i].phase.Done?
    ensures ClearedBy(s, Resumed(s, i, ok, connection), i)
  {
    SuccessIsAStart(s.attempts[i], s.mounted, ok, connection);
  }
}
