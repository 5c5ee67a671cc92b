/** The reconnect countdown (`ReconnectCountdown` in sessionConnectionState.ts).
    Times are whole milliseconds of one clock that never steps back; the deadline is the
    clock at construction plus the delay. */
module Countdown {
  import opened Options

  function Max(a: int, b: int): int {
    if a < b then b else a
  }

  /** Division by 1000, rounded up. */
  function CeilSeconds(ms: int): (s: int)
    ensures (s - 1) * 1000 < ms <= s * 1000
  {
    (ms + 999) / 1000
  }

  /** The object's fields, its log and the last clock reading. */
  datatype View = View(
    deadlineMs: int,
    timer: Option<int>,                 // when the pending timer is due
    lastRemainingSeconds: Option<int>,
    started: bool,
    stopped: bool,
    clock: int,
    ticks: seq<int>,                    // every value passed to `onTick`
    elapsedAt: seq<int>,                // the clock at every call of `onElapsed`
    refreshes: nat)

  datatype Event = Start(now: int) | Fire(now: int) | Cancel

  function Constructed(now: int, delayMs: int): View {
    View(now + Max(0, delayMs), None, None, false, false, now, [], [], 0)
  }

  /** The clock does not step back and only a pending timer fires. */
  predicate Enabled(v: View, e: Event) {
    match e
    case Start(now) => now >= v.clock
    case Fire(now) => now >= v.clock && v.timer.Some?
    case Cancel => true
  }

  /** `refresh` of an object that is not stopped. */
  function Refresh(v: View, now: int): View {
    var remaining := v.deadlineMs - now;
    var counted := v.(clock := now, refreshes := v.refreshes + 1);
    if remaining <= 0 then
      counted.(stopped := true, timer := None, elapsedAt := v.elapsedAt + [now])
    else
      var seconds := Max(1, CeilSeconds(remaining));
      var untilNextSecond := remaining - (seconds - 1) * 1000;
      counted.(
        ticks := if v.lastRemainingSeconds == Some(seconds) then v.ticks else v.ticks + [seconds],
        lastRemainingSeconds := Some(seconds),
        timer := Some(now + Max(1, untilNextSecond)))
  }

  function Next(v: View, e: Event): View {
    match e
    case Start(now) =>
      if v.started || v.stopped then v.(clock := now) else Refresh(v.(started := true), now)
    case Fire(now) =>
      if v.stopped then v.(timer := None, clock := now) else Refresh(v.(timer := None), now)
    case Cancel => if v.stopped then v else v.(stopped := true, timer := None)
  }

  // ------------------------------------------------------------------ the object

  class ReconnectCountdown {
    const deadlineMs: int
    var timer: Option<int>
    var lastRemainingSeconds: Option<int>
    var started: bool
    var stopped: bool
    ghost var clock: int
    ghost var ticks: seq<int>
    ghost var elapsedAt: seq<int>
    ghost var refreshes: nat

    ghost function Abstract(): View
      reads this
    {
      View(deadlineMs, timer, lastRemainingSeconds, started, stopped, clock, ticks, elapsedAt, refreshes)
    }

    constructor (now: int, delayMs: int)
      ensures Abstract() == Constructed(now, delayMs)
    {
      deadlineMs := now + Max(0, delayMs);
      timer, lastRemainingSeconds, started, stopped := None, None, false, false;
      clock, ticks, elapsedAt, refreshes := now, [], [], 0;
    }

    method StartCountdown(now: int)
      requires Enabled(Abstract(), Start(now))
      modifies this
      ensures Abstract() == Next(old(Abstract()), Start(now))
    {
      if started || stopped {
        clock := now;
        return;
      }
      started := true;
      DoRefresh(now);
    }

    method CancelCountdown()
      modifies this
      ensures Abstract() == Next(old(Abstract()), Cancel)
    {
      if stopped {
        return;
      }
      stopped := true;
      if timer.Some? {
        timer := None;
      }
    }

    /** The callback of the pending timer. */
    method TimerFires(now: int)
      requires Enabled(Abstract(), Fire(now))
      modifies this
      ensures Abstract() == Next(old(Abstract()), Fire(now))
    {
      timer := None;
      if stopped {
        clock := now;
        return;
      }
      DoRefresh(now);
    }

    method DoRefresh(now: int)
      requires !stopped
      modifies this
      ensures Abstract() == Refresh(old(Abstract()), now)
    {
      clock, refreshes := now, refreshes + 1;
      var remainingMs := deadlineMs - now;
      if remainingMs <= 0 {
        stopped := true;
        timer := None;
        elapsedAt := elapsedAt + [now];
        return;
      }
      var remainingSeconds := Max(1, CeilSeconds(remainingMs));
      if lastRemainingSeconds != Some(remainingSeconds) {
        lastRemainingSeconds := Some(remainingSeconds);
        ticks := ticks + [remainingSeconds];
      }
      var untilNextSecond := remainingMs - (remainingSeconds - 1) * 1000;
      timer := Some(now + Max(1, untilNextSecond));
    }
  }

  // ----------------------------------------------------------------------- runs

  datatype Outcome = Stuck | At(view: View)

  function Exec(v: View, events: seq<Event>): Outcome
    decreases events
  {
    if events == [] then At(v)
    else if Enabled(v, events[0]) then Exec(Next(v, events[0]), events[1..])
    else Stuck
  }

  ghost predicate StrictlyDecreasing(s: seq<int>) {
    forall i, j :: 0 <= i < j < |s| ==> s[i] > s[j]
  }

  ghost predicate Inv(v: View) {
    && (forall i :: 0 <= i < |v.ticks| ==> v.ticks[i] > 0)
    && StrictlyDecreasing(v.ticks)
    && (v.ticks == [] <==> v.lastRemainingSeconds == None)
    && (v.ticks != [] ==> v.lastRemainingSeconds == Some(v.ticks[|v.ticks| - 1])
                          && CeilSeconds(v.deadlineMs - v.clock) <= v.ticks[|v.ticks| - 1])
    && (v.timer.Some? ==> v.ticks != [] && !v.stopped
                          && v.timer.value == v.deadlineMs - (v.ticks[|v.ticks| - 1] - 1) * 1000)
    && (v.elapsedAt == [] || (v.stopped && |v.elapsedAt| == 1 && v.elapsedAt[0] >= v.deadlineMs))
    && (v.refreshes == 0 <==> !v.started)
    && (v.refreshes == 0 ==> v.ticks == [])
    && (v.refreshes > 0 ==> v.ticks != [] || v.stopped)
  }

  lemma RefreshKeepsInv(v: View, started: bool, timer: Option<int>, now: int)
    requires Inv(v) && !v.stopped && now >= v.clock && started
    ensures Inv(Refresh(v.(started := started, timer := timer), now))
  {
  }

  lemma InvStep(v: View, e: Event)
    requires Inv(v) && Enabled(v, e)
    ensures Inv(Next(v, e))
  {
    match e
    case Start(now) =>
      if !v.started && !v.stopped {
        RefreshKeepsInv(v, true, v.timer, now);
      }
    case Fire(now) =>
      if !v.stopped {
        RefreshKeepsInv(v, v.started, None, now);
      }
    case Cancel =>
  }

  lemma {:induction false} RunsKeepInv(v: View, events: seq<Event>)
    requires Inv(v) && Exec(v, events).At?
    ensures Inv(Exec(v, events).view)
    decreases events
  {
    if events != [] {
      InvStep(v, events[0]);
      RunsKeepInv(Next(v, events[0]), events[1..]);
    }
  }

  /** For every delay and every run: the ticks are positive and strictly decreasing, and
      the countdown elapses at most once and not before its deadline. */
  lemma TicksDecreaseAndElapseOnce(now: int, delayMs: int, events: seq<Event>)
    requires Exec(Constructed(now, delayMs), events).At?
    ensures var v := Exec(Constructed(now, delayMs), events).view;
            && StrictlyDecreasing(v.ticks)
            && (forall i :: 0 <= i < |v.ticks| ==> v.ticks[i] > 0)
            && |v.elapsedAt| <= 1
            && (forall t :: t in v.elapsedAt ==> t >= now + Max(0, delayMs))
  {
    RunsKeepInv(Constructed(now, delayMs), events);
    DeadlineFixed(Constructed(now, delayMs), events);
  }

  lemma {:induction false} DeadlineFixed(v: View, events: seq<Event>)
    requires Exec(v, events).At?
    ensures Exec(v, events).view.deadlineMs == v.deadlineMs
    decreases events
  {
    if events != [] {
      DeadlineFixed(Next(v, events[0]), events[1..]);
    }
  }

  /** After a cancellation (or an elapse) nothing more is ticked or elapsed, whatever
      happens next. */
  lemma {:induction false} StoppedIsSilent(v: View, events: seq<Event>)
    requires v.stopped && Exec(v, events).At?
    ensures var after := Exec(v, events).view;
            after.stopped && after.ticks == v.ticks && after.elapsedAt == v.elapsedAt && after.refreshes == v.refreshes
    decreases events
  {
    if events != [] {
      StoppedIsSilent(Next(v, events[0]), events[1..]);
    }
  }

  /** No timer fires before it is due. */
  predicate Punctual(v: View, events: seq<Event>)
    requires Exec(v, events).At?
    decreases events
  {
    events == [] ||
    ((events[0].Fire? ==> events[0].now >= v.timer.value) && Punctual(Next(v, events[0]), events[1..]))
  }

  /** What is still to come: one refresh for each remaining second and one to elapse. */
  ghost predicate Bounded(v: View, bound: int) {
    && v.refreshes <= bound
    && (v.refreshes == 0 ==> CeilSeconds(v.deadlineMs - v.clock) < bound && bound >= 1)
    && (v.refreshes > 0 && !v.stopped ==> v.ticks != [] && v.refreshes + v.ticks[|v.ticks| - 1] <= bound)
  }

  lemma BoundStep(v: View, e: Event, bound: int)
    requires Inv(v) && Enabled(v, e) && Bounded(v, bound)
    requires e.Fire? ==> e.now >= v.timer.value
    ensures Bounded(Next(v, e), bound)
  {
  }

  lemma {:induction false} BoundRun(v: View, events: seq<Event>, bound: int)
    requires Inv(v) && Bounded(v, bound) && Exec(v, events).At? && Punctual(v, events)
    ensures Bounded(Exec(v, events).view, bound)
    decreases events
  {
    if events != [] {
      InvStep(v, events[0]);
      BoundStep(v, events[0], bound);
      BoundRun(Next(v, events[0]), events[1..], bound);
    }
  }

  /** If timers never fire early, a countdown refreshes at most once for each second of
      its delay, rounded up, and once more. */
  lemma RefreshesAreFew(now: int, delayMs: int, events: seq<Event>)
    requires Exec(Constructed(now, delayMs), events).At?
    requires Punctual(Constructed(now, delayMs), events)
    ensures Exec(Constructed(now, delayMs), events).view.refreshes <= CeilSeconds(Max(0, delayMs)) + 1
  {
    BoundRun(Constructed(now, delayMs), events, CeilSeconds(Max(0, delayMs)) + 1);
  }

  // ------------------------------------------------------- what a refresh brings

  /** `seconds` is the number of seconds left, rounded up. */
  predicate RoundsUp(remainingMs: int, seconds: int) {
    (seconds - 1) * 1000 < remainingMs <= seconds * 1000
  }

  /** A countdown with time left starts with one tick, its seconds rounded up, and a timer; one
      without elapses at once. */
  lemma StartBrings(now: int, delayMs: int)
    ensures var v := Next(Constructed(now, delayMs), Start(now));
            if delayMs > 0 then
              |v.ticks| == 1 && RoundsUp(delayMs, v.ticks[0]) && v.timer.Some? && !v.stopped && v.elapsedAt == []
            else
              v.ticks == [] && v.timer.None? && v.stopped && v.elapsedAt == [now]
  {
  }

  /** In every run a timer that fires before the deadline shows the seconds left, rounded up, and
      sets the next timer within a second; one that fires later elapses, once and for all. */
  lemma FireBrings(now: int, delayMs: int, events: seq<Event>, at: int)
    requires Exec(Constructed(now, delayMs), events).At?
    requires Enabled(Exec(Constructed(now, delayMs), events).view, Fire(at))
    ensures var v := Exec(Constructed(now, delayMs), events).view;
            var w := Next(v, Fire(at));
            && v.elapsedAt == []
            && (at < v.deadlineMs ==>
                  && w.ticks != [] && RoundsUp(v.deadlineMs - at, w.ticks[|w.ticks| - 1])
                  && w.timer.Some? && at < w.timer.value <= at + 1000 && w.elapsedAt == [] && !w.stopped)
            && (at >= v.deadlineMs ==> w.elapsedAt == [at] && w.ticks == v.ticks && w.timer.None? && w.stopped)
  {
    RunsKeepInv(Constructed(now, delayMs), events);
  }

  /** Cancelling stops a countdown and its timer, without a tick and without elapsing. */
  lemma CancelBrings(v: View)
    requires Inv(v)
    ensures var w := Next(v, Cancel);
            w.stopped && w.timer.None? && w.ticks == v.ticks && w.elapsedAt == v.elapsedAt
  {
  }
}
