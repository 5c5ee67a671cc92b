/** Upload registration against closing on one SFTP record (`SftpRecord` and
    `ActiveApiUploadGuard` in remote.rs).

    Any number of uploads and closers share the flag `closed`, the counter
    `active_api_uploads` and a `Notify`.  One step is one atomic operation; the steps
    interleave in any order.  A `Notified` future is woken by every `notify_waiters`
    after its creation, so the `Notify` is the number of such calls so far and a future
    is the number it was created at. */
module UploadClose {

  datatype Upload =
    | Start          // has not read `closed`
    | Checked        // read it clear, has not counted itself
    | Added          // counted, has not read `closed` again
    | Refused        // read it set, must uncount itself
    | Live           // owns a guard
    | Notifying      // uncounted, has not called `notify_waiters`
    | Gone

  datatype Closer =
    | Open           // has not called `begin_close`
    | Flagged        // `closed` is set, waiters not yet notified
    | Looping        // at the top of the waiting loop
    | Listening(created: nat)   // holds a future, has not read the counter
    | Waiting(created: nat)     // read a non-zero counter, awaits the future
    | Clean          // read zero
    | TimedOut

  datatype State = State(closed: bool, active: nat, notified: nat, uploads: seq<Upload>, closers: seq<Closer>)

  datatype Event =
    | NewUpload
    | NewCloser
    | UploadStep(i: nat)
    | CloserStep(j: nat)
    | Timeout(j: nat)

  const INIT := State(false, 0, 0, [], [])

  predicate Enabled(s: State, e: Event) {
    match e
    case NewUpload => true
    case NewCloser => true
    case UploadStep(i) => i < |s.uploads| && !s.uploads[i].Gone? && (Counted(s.uploads[i]) ==> s.active > 0)
    case CloserStep(j) =>
      j < |s.closers| && !s.closers[j].Clean? && !s.closers[j].TimedOut?
      && (s.closers[j].Waiting? ==> s.notified > s.closers[j].created)
    case Timeout(j) => j < |s.closers| && (s.closers[j].Looping? || s.closers[j].Listening? || s.closers[j].Waiting?)
  }

  /** Uploads included in `active_api_uploads`. */
  predicate Counted(u: Upload) {
    u.Added? || u.Refused? || u.Live?
  }

  /** The next phase of an upload: `register_api_upload`, then dropping the guard. */
  function UploadNext(s: State, u: Upload): Upload {
    match u
    case Start => if s.closed then Gone else Checked
    case Checked => Added
    case Added => if s.closed then Refused else Live
    case Refused => Notifying
    case Live => Notifying
    case Notifying => Gone
    case Gone => Gone
  }

  /** The next phase of a closer: `begin_close`, then the loop of
      `wait_for_api_upload_cleanup`. */
  function CloserNext(s: State, c: Closer): Closer {
    match c
    case Open => Flagged
    case Flagged => Looping
    case Looping => Listening(s.notified)
    case Listening(created) => if s.active == 0 then Clean else Waiting(created)
    case Waiting(_) => Looping
    case _ => c
  }

  function Next(s: State, e: Event): State
    requires Enabled(s, e)
  {
    match e
    case NewUpload => s.(uploads := s.uploads + [Start])
    case NewCloser => s.(closers := s.closers + [Open])
    case UploadStep(i) =>
      var u := s.uploads[i];
      s.(active := if u.Checked? then s.active + 1 else if u.Refused? || u.Live? then s.active - 1 else s.active,
         notified := if u.Notifying? then s.notified + 1 else s.notified,
         uploads := s.uploads[i := UploadNext(s, u)])
    case CloserStep(j) =>
      var c := s.closers[j];
      s.(closed := s.closed || c.Open?,
         notified := if c.Flagged? then s.notified + 1 else s.notified,
         closers := s.closers[j := CloserNext(s, c)])
    case Timeout(j) => s.(closers := s.closers[j := TimedOut])
  }

  // ------------------------------------------------------------------ the object

  /** The record and the tasks that use it, one atomic operation a method call. */
  class SftpRecord {
    var closed: bool
    var activeApiUploads: nat
    var apiUploadNotified: nat
    var uploads: seq<Upload>
    var closers: seq<Closer>

    function View(): State
      reads this
    {
      State(closed, activeApiUploads, apiUploadNotified, uploads, closers)
    }

    constructor ()
      ensures View() == INIT
    {
      closed, activeApiUploads, apiUploadNotified, uploads, closers := false, 0, 0, [], [];
    }

    /** One operation of an upload task. */
    method StepUpload(i: nat)
      requires Enabled(View(), UploadStep(i))
      modifies this
      ensures View() == Next(old(View()), UploadStep(i))
    {
      match uploads[i]
      case Start =>
        uploads := uploads[i := if closed then Gone else Checked];
      case Checked =>
        activeApiUploads := activeApiUploads + 1;
        uploads := uploads[i := Added];
      case Added =>
        uploads := uploads[i := if closed then Refused else Live];
      case Refused =>
        activeApiUploads := activeApiUploads - 1;
        uploads := uploads[i := Notifying];
      case Live =>
        activeApiUploads := activeApiUploads - 1;
        uploads := uploads[i := Notifying];
      case Notifying =>
        apiUploadNotified := apiUploadNotified + 1;
        uploads := uploads[i := Gone];
    }

    /** One operation of a closing task. */
    method StepCloser(j: nat)
      requires Enabled(View(), CloserStep(j))
      modifies this
      ensures View() == Next(old(View()), CloserStep(j))
    {
      match closers[j]
      case Open =>
        closed := true;
        closers := closers[j := Flagged];
      case Flagged =>
        apiUploadNotified := apiUploadNotified + 1;
        closers := closers[j := Looping];
      case Looping =>
        closers := closers[j := Listening(apiUploadNotified)];
      case Listening(created) =>
        closers := closers[j := if activeApiUploads == 0 then Clean else Waiting(created)];
      case Waiting(_) =>
        closers := closers[j := Looping];
    }
  }

  // ----------------------------------------------------------------------- runs

  datatype Outcome = Stuck | At(state: State)

  function Exec(s: State, events: seq<Event>): Outcome
    decreases events
  {
    if events == [] then At(s)
    else if Enabled(s, events[0]) then Exec(Next(s, events[0]), events[1..])
    else Stuck
  }

  // -------------------------------------------------------------- the invariant

  function CountedIn(uploads: seq<Upload>): nat {
    if uploads == [] then 0
    else CountedIn(uploads[..|uploads| - 1]) + if Counted(uploads[|uploads| - 1]) then 1 else 0
  }

  lemma {:induction false} CountUpdate(uploads: seq<Upload>, i: nat, u: Upload)
    requires i < |uploads|
    ensures CountedIn(uploads[i := u])
         == CountedIn(uploads) - (if Counted(uploads[i]) then 1 else 0) + (if Counted(u) then 1 else 0)
  {
    var n := |uploads| - 1;
    if i < n {
      assert uploads[i := u][..n] == uploads[..n][i := u];
      CountUpdate(uploads[..n], i, u);
    } else {
      assert uploads[i := u][..n] == uploads[..n];
    }
  }

  lemma {:induction false} CountPositive(uploads: seq<Upload>, i: nat)
    requires i < |uploads| && Counted(uploads[i])
    ensures CountedIn(uploads) > 0
  {
    var n := |uploads| - 1;
    if i < n {
      CountPositive(uploads[..n], i);
    }
  }

  /** A closer that would sleep: no notification since it created its future. */
  predicate Asleep(s: State, c: Closer) {
    c.Waiting? && c.created >= s.notified
  }

  ghost predicate Inv(s: State) {
    && s.active == CountedIn(s.uploads)
    && (forall j :: 0 <= j < |s.closers| && !s.closers[j].Open? ==> s.closed)
    && (Clean in s.closers ==> Live !in s.uploads)
    && (forall j :: 0 <= j < |s.closers| && Asleep(s, s.closers[j]) ==> s.active > 0 || Notifying in s.uploads)
    && (forall j :: 0 <= j < |s.closers| && (s.closers[j].Listening? || s.closers[j].Waiting?) ==>
          s.closers[j].created <= s.notified)
  }

  lemma CountStep(s: State, e: Event)
    requires Inv(s) && Enabled(s, e)
    ensures Next(s, e).active == CountedIn(Next(s, e).uploads)
  {
    match e
    case NewUpload => assert (s.uploads + [Start])[..|s.uploads|] == s.uploads;
    case UploadStep(i) => CountUpdate(s.uploads, i, UploadNext(s, s.uploads[i]));
    case _ =>
  }

  lemma CleanStep(s: State, e: Event)
    requires Inv(s) && Enabled(s, e)
    ensures var s' := Next(s, e);
            && (forall j :: 0 <= j < |s'.closers| && !s'.closers[j].Open? ==> s'.closed)
            && (Clean in s'.closers ==> Live !in s'.uploads)
  {
    var s' := Next(s, e);
    if Clean in s'.closers && Clean !in s.closers && Live in s.uploads {
      var i :| 0 <= i < |s.uploads| && s.uploads[i] == Live;
      CountPositive(s.uploads, i);
    }
  }

  lemma SleepStep(s: State, e: Event, j: nat)
    requires Inv(s) && Enabled(s, e)
    requires j < |Next(s, e).closers| && Asleep(Next(s, e), Next(s, e).closers[j])
    ensures Next(s, e).active > 0 || Notifying in Next(s, e).uploads
  {
    var s' := Next(s, e);
    match e
    case UploadStep(i) =>
      if s.uploads[i].Refused? || s.uploads[i].Live? {
        assert s'.uploads[i] == Notifying;
      } else if Notifying in s.uploads {
        var k :| 0 <= k < |s.uploads| && s.uploads[k] == Notifying;
        assert s'.uploads[k] == s.uploads[k];
      }
    case NewUpload =>
      if Notifying in s.uploads {
        var k :| 0 <= k < |s.uploads| && s.uploads[k] == Notifying;
        assert s'.uploads[k] == s.uploads[k];
      }
    case _ =>
  }

  lemma FutureStep(s: State, e: Event, j: nat)
    requires Inv(s) && Enabled(s, e)
    requires j < |Next(s, e).closers| && (Next(s, e).closers[j].Listening? || Next(s, e).closers[j].Waiting?)
    ensures Next(s, e).closers[j].created <= Next(s, e).notified
  {
  }

  lemma InvStep(s: State, e: Event)
    requires Inv(s) && Enabled(s, e)
    ensures Inv(Next(s, e))
  {
    var s' := Next(s, e);
    CountStep(s, e);
    CleanStep(s, e);
    forall j | 0 <= j < |s'.closers| && Asleep(s', s'.closers[j])
      ensures s'.active > 0 || Notifying in s'.uploads
    {
      SleepStep(s, e, j);
    }
    forall j | 0 <= j < |s'.closers| && (s'.closers[j].Listening? || s'.closers[j].Waiting?)
      ensures s'.closers[j].created <= s'.notified
    {
      FutureStep(s, e, j);
    }
  }

  lemma {:induction false} RunsKeepInv(s: State, events: seq<Event>)
    requires Inv(s) && Exec(s, events).At?
    ensures Inv(Exec(s, events).state)
    decreases events
  {
    if events != [] {
      InvStep(s, events[0]);
      RunsKeepInv(Next(s, events[0]), events[1..]);
    }
  }

  // -------------------------------------------------------------------- the laws

  lemma {:induction false} CleanIsFinal(s: State, events: seq<Event>, j: nat)
    requires Exec(s, events).At? && j < |s.closers| && s.closers[j] == Clean
    ensures j < |Exec(s, events).state.closers| && Exec(s, events).state.closers[j] == Clean
    decreases events
  {
    if events != [] {
      CleanIsFinal(Next(s, events[0]), events[1..], j);
    }
  }

  /** Once a closer has read zero after setting `closed`, no upload owns a guard, then
      or after any further steps; the counter never goes below zero on the way. */
  lemma CleanMeansNoGuardEver(events: seq<Event>, more: seq<Event>, j: nat)
    requires Exec(INIT, events).At? && j < |Exec(INIT, events).state.closers|
    requires Exec(INIT, events).state.closers[j] == Clean
    requires Exec(Exec(INIT, events).state, more).At?
    ensures Live !in Exec(Exec(INIT, events).state, more).state.uploads
  {
    var s := Exec(INIT, events).state;
    RunsKeepInv(INIT, events);
    RunsKeepInv(s, more);
    CleanIsFinal(s, more, j);
  }

  /** The counter is the number of counted uploads, so an upload that has to uncount
      itself always finds it positive. */
  lemma CounterNeverUnderflows(events: seq<Event>, i: nat)
    requires Exec(INIT, events).At?
    ensures var s := Exec(INIT, events).state;
            s.active == CountedIn(s.uploads)
            && (i < |s.uploads| && !s.uploads[i].Gone? ==> Enabled(s, UploadStep(i)))
  {
    RunsKeepInv(INIT, events);
    var s := Exec(INIT, events).state;
    if i < |s.uploads| && Counted(s.uploads[i]) {
      CountPositive(s.uploads, i);
    }
  }

  /** One step of upload `i` and three of closer `j` leave the closer clean. */
  ghost predicate FinishesClean(s: State, i: nat, j: nat) {
    var woken := Exec(s, [UploadStep(i), CloserStep(j), CloserStep(j), CloserStep(j)]);
    woken.At? && j < |woken.state.closers| && woken.state.closers[j] == Clean
  }

  /** No wake-up is lost: when nothing is counted and a closer sleeps, some upload has
      still to notify, and that notification lets the closer finish clean. */
  lemma SleepingCloserIsWoken(events: seq<Event>, j: nat)
    requires Exec(INIT, events).At?
    requires var s := Exec(INIT, events).state; s.active == 0 && j < |s.closers| && Asleep(s, s.closers[j])
    ensures var s := Exec(INIT, events).state;
            exists i :: 0 <= i < |s.uploads| && s.uploads[i] == Notifying && FinishesClean(s, i, j)
  {
    RunsKeepInv(INIT, events);
    var s := Exec(INIT, events).state;
    var i :| 0 <= i < |s.uploads| && s.uploads[i] == Notifying;
    NotificationFinishes(s, i, j);
  }

  lemma NotificationFinishes(s: State, i: nat, j: nat)
    requires s.active == 0 && i < |s.uploads| && s.uploads[i] == Notifying
    requires j < |s.closers| && s.closers[j].Waiting? && s.closers[j].created <= s.notified
    ensures FinishesClean(s, i, j)
  {
    var s1 := Next(s, UploadStep(i));
    var s2 := Next(s1, CloserStep(j));
    var s3 := Next(s2, CloserStep(j));
    var s4 := Next(s3, CloserStep(j));
    var c := CloserStep(j);
    assert [UploadStep(i), c, c, c][1..] == [c, c, c] && [c, c, c][1..] == [c, c];
    assert [c, c][1..] == [c] && [c][1..] == [];
    assert Exec(s3, [c]) == Exec(s4, []);
    assert Exec(s2, [c, c]) == Exec(s3, [c]);
    assert Exec(s1, [c, c, c]) == Exec(s2, [c, c]);
  }

  // --------------------------------------------------- what a registration gets

  lemma ExecThree(s: State, e: Event, s1: State, s2: State)
    requires Enabled(s, e) && s1 == Next(s, e) && Enabled(s1, e) && s2 == Next(s1, e) && Enabled(s2, e)
    ensures Exec(s, [e, e, e]) == At(Next(s2, e))
  {
    assert [e, e, e][1..] == [e, e] && [e, e][1..] == [e] && [e][1..] == [];
    assert Exec(s2, [e]) == Exec(Next(s2, e), []);
    assert Exec(s1, [e, e]) == Exec(s2, [e]);
  }

  /** In every run that has not closed the record, an upload that registers gets its guard: in
      three operations it is counted and live, and nothing else has changed. */
  lemma OpenRecordGrants(events: seq<Event>, i: nat)
    requires Exec(INIT, events).At?
    requires var s := Exec(INIT, events).state; !s.closed && i < |s.uploads| && s.uploads[i] == Start
    ensures var s := Exec(INIT, events).state;
            Exec(s, [UploadStep(i), UploadStep(i), UploadStep(i)])
            == At(State(false, s.active + 1, s.notified, s.uploads[i := Live], s.closers))
  {
    var s := Exec(INIT, events).state;
    var s1 := s.(uploads := s.uploads[i := Checked]);
    var s2 := s.(active := s.active + 1, uploads := s.uploads[i := Added]);
    assert s1.uploads[i := Added] == s2.uploads && s2.uploads[i := Live] == s.uploads[i := Live];
    ExecThree(s, UploadStep(i), s1, s2);
  }

  /** Dropping a guard uncounts the upload and notifies once. */
  lemma DroppedGuardNotifies(events: seq<Event>, i: nat)
    requires Exec(INIT, events).At?
    requires var s := Exec(INIT, events).state; i < |s.uploads| && s.uploads[i] == Live
    ensures var s := Exec(INIT, events).state;
            s.active > 0
            && Exec(s, [UploadStep(i), UploadStep(i)])
               == At(State(s.closed, s.active - 1, s.notified + 1, s.uploads[i := Gone], s.closers))
  {
    var s := Exec(INIT, events).state;
    CounterNeverUnderflows(events, i);
    var s1 := s.(active := s.active - 1, uploads := s.uploads[i := Notifying]);
    assert [UploadStep(i), UploadStep(i)][1..] == [UploadStep(i)] && [UploadStep(i)][1..] == [];
    assert s1.uploads[i := Gone] == s.uploads[i := Gone];
    assert Exec(s1, [UploadStep(i)]) == Exec(Next(s1, UploadStep(i)), []);
  }

  lemma ClosedStep(s: State, e: Event)
    requires Enabled(s, e) && s.closed
    ensures Next(s, e).closed
    ensures forall i :: 0 <= i < |s.uploads| ==>
              i < |Next(s, e).uploads| && (Next(s, e).uploads[i] == Live ==> s.uploads[i] == Live)
    ensures forall i :: |s.uploads| <= i < |Next(s, e).uploads| ==> Next(s, e).uploads[i] != Live
  {
  }

  /** Once the record is closed no guard is granted any more, whatever an upload had read
      before: one that is not live then never becomes live, and new ones neither. */
  lemma {:induction false} ClosedRecordGrantsNothing(s: State, more: seq<Event>, i: nat)
    requires Exec(s, more).At? && s.closed && (i < |s.uploads| ==> s.uploads[i] != Live)
    ensures Exec(s, more).state.closed
    ensures i < |Exec(s, more).state.uploads| ==> Exec(s, more).state.uploads[i] != Live
    decreases more
  {
    if more != [] {
      ClosedStep(s, more[0]);
      ClosedRecordGrantsNothing(Next(s, more[0]), more[1..], i);
    }
  }

  /** Upload `i` owns a guard somewhere in the run. */
  ghost predicate EverLive(s: State, events: seq<Event>, i: nat)
    requires Exec(s, events).At?
    decreases events
  {
    || (i < |s.uploads| && s.uploads[i] == Live)
    || (events != [] && EverLive(Next(s, events[0]), events[1..], i))
  }

  /** Turned away: refused, or gone on without a guard. */
  predicate PastRegistration(u: Upload) {
    u.Refused? || u.Notifying? || u.Gone?
  }

  lemma {:induction false} TurnedAwayFrom(s: State, events: seq<Event>, i: nat)
    requires Exec(s, events).At? && !EverLive(s, events, i)
    requires i < |s.uploads| && PastRegistration(s.uploads[i]) ==> s.closed
    ensures var t := Exec(s, events).state;
            i < |t.uploads| && PastRegistration(t.uploads[i]) ==> t.closed
    decreases events
  {
    if events != [] {
      TurnedAwayFrom(Next(s, events[0]), events[1..], i);
    }
  }

  /** In every run an upload is turned away only if a closer had set `closed`: one that never
      had a guard and is refused or gone finds the record closed, and some closer has begun. */
  lemma TurnedAwayOnlyByClosing(events: seq<Event>, i: nat)
    requires Exec(INIT, events).At? && !EverLive(INIT, events, i)
    requires i < |Exec(INIT, events).state.uploads| && PastRegistration(Exec(INIT, events).state.uploads[i])
    ensures var s := Exec(INIT, events).state;
            s.closed && exists j :: 0 <= j < |s.closers| && !s.closers[j].Open?
  {
    TurnedAwayFrom(INIT, events, i);
    ClosedByACloser(INIT, events);
  }

  lemma {:induction false} ClosedByACloser(s: State, events: seq<Event>)
    requires Exec(s, events).At?
    requires s.closed ==> exists j :: 0 <= j < |s.closers| && !s.closers[j].Open?
    ensures var t := Exec(s, events).state;
            t.closed ==> exists j :: 0 <= j < |t.closers| && !t.closers[j].Open?
    decreases events
  {
    if events != [] {
      var e, t := events[0], Next(s, events[0]);
      if s.closed {
        var j :| 0 <= j < |s.closers| && !s.closers[j].Open?;
        assert !t.closers[j].Open?;
      } else if t.closed {
        assert !t.closers[e.j].Open?;
      }
      ClosedByACloser(t, events[1..]);
    }
  }

  /** A closer of a record without counted uploads closes it, notifies once and finishes clean in
      four operations. */
  lemma IdleRecordClosesAtOnce(s: State, j: nat)
    requires j < |s.closers| && s.closers[j] == Open && s.active == 0
    ensures var c := CloserStep(j);
            Exec(s, [c, c, c, c]) == At(State(true, 0, s.notified + 1, s.uploads, s.closers[j := Clean]))
  {
    var c := CloserStep(j);
    var s1 := s.(closed := true, closers := s.closers[j := Flagged]);
    var s2 := s1.(notified := s.notified + 1, closers := s.closers[j := Looping]);
    var s3 := s2.(closers := s.closers[j := Listening(s.notified + 1)]);
    assert s1.closers[j := Looping] == s2.closers && s2.closers[j := Listening(s.notified + 1)] == s3.closers;
    assert s3.closers[j := Clean] == s.closers[j := Clean];
    ExecThree(s1, c, s2, s3);
    assert [c, c, c, c][1..] == [c, c, c];
  }
}
