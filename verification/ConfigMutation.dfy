/** The coordinator that serialises vault mutations and invalidates those accepted
    before a whole-configuration replacement (config_mutation.rs).

    The state machine is every interleaving of any number of clients: one event is one
    atomic operation on the epoch or on the gate.  The methods of the object are proved to
    be these events.  A client is a task with the ticket it has; tickets can be copied from
    client to client and presented again. */
module ConfigMutation {

  const EPOCH_LIMIT := 0x1_0000_0000_0000_0000

  /** `fetch_add(1)` on an `AtomicU64`. */
  function Bumped(epoch: nat): nat {
    (epoch + 1) % EPOCH_LIMIT
  }

  /** The test of `lock`. */
  predicate Accepts(epoch: nat, ticket: nat) {
    epoch == ticket && epoch % 2 == 0
  }

  // ------------------------------------------------------------ the state machine

  type Client = nat

  /** A ticket and, for the statements, how many events had happened when it was taken. */
  datatype Ticket = Ticket(value: nat, takenAt: nat)

  datatype Phase =
    | Idle
    | Ticketed(ticket: Ticket)
    | Checking(ticket: Ticket)  // holds the gate, has not read the epoch
    | Granted(ticket: Ticket)   // `lock` returned the guard
    | Rejected(ticket: Ticket)  // `lock` is about to drop the guard
    | Preparing                 // holds the gate, has not begun the replacement
    | Replacing                 // owns a `ConfigReplacementGuard`
    | Ending                    // bumped the epoch in `drop`, still holds the gate

  datatype Event =
    | TakeTicket(client: Client)
    | CopyTicket(client: Client, source: Client)
    | AcquireToMutate(client: Client)
    | Check(client: Client)
    | AcquireToReplace(client: Client)
    | Begin(client: Client)
    | End(client: Client)
    | Release(client: Client)

  datatype State = State(epoch: nat, free: bool, phases: map<Client, Phase>, history: seq<Event>) {
    function PhaseOf(c: Client): Phase {
      if c in phases then phases[c] else Idle
    }
  }

  const INIT := State(0, true, map[], [])

  predicate Holds(phase: Phase) {
    !phase.Idle? && !phase.Ticketed?
  }

  predicate HasTicket(phase: Phase) {
    phase.Ticketed? || phase.Checking? || phase.Granted? || phase.Rejected?
  }

  predicate Enabled(s: State, e: Event) {
    var phase := s.PhaseOf(e.client);
    match e
    case TakeTicket(_) => !Holds(phase)
    case CopyTicket(_, source) => !Holds(phase) && HasTicket(s.PhaseOf(source))
    case AcquireToMutate(_) => phase.Ticketed? && s.free
    case Check(_) => phase.Checking?
    case AcquireToReplace(_) => !Holds(phase) && s.free
    case Begin(_) => phase.Preparing?
    case End(_) => phase.Replacing?
    case Release(_) => phase.Granted? || phase.Rejected? || phase.Ending?
  }

  function NextPhase(s: State, e: Event): Phase
    requires Enabled(s, e)
  {
    match e
    case TakeTicket(_) => Ticketed(Ticket(s.epoch, |s.history|))
    case CopyTicket(_, source) => Ticketed(s.PhaseOf(source).ticket)
    case AcquireToMutate(c) => Checking(s.PhaseOf(c).ticket)
    case Check(c) =>
      if Accepts(s.epoch, s.PhaseOf(c).ticket.value) then Granted(s.PhaseOf(c).ticket) else Rejected(s.PhaseOf(c).ticket)
    case AcquireToReplace(_) => Preparing
    case Begin(_) => Replacing
    case End(_) => Ending
    case Release(c) => if HasTicket(s.PhaseOf(c)) then Ticketed(s.PhaseOf(c).ticket) else Idle
  }

  /** The two events that change the epoch. */
  predicate Bumps(e: Event) {
    e.Begin? || e.End?
  }

  function Next(s: State, e: Event): State
    requires Enabled(s, e)
  {
    State(
      if Bumps(e) then Bumped(s.epoch) else s.epoch,
      if e.AcquireToMutate? || e.AcquireToReplace? then false else if e.Release? then true else s.free,
      s.phases[e.client := NextPhase(s, e)],
      s.history + [e])
  }

  datatype Outcome = Stuck | At(state: State)

  /** Where a sequence of events leads, if each is enabled when it happens. */
  function Exec(events: seq<Event>): Outcome {
    if events == [] then At(INIT)
    else
      var before, e := Exec(events[..|events| - 1]), events[|events| - 1];
      if before.At? && Enabled(before.state, e) then At(Next(before.state, e)) else Stuck
  }

  predicate IsRun(events: seq<Event>) {
    Exec(events).At?
  }

  function After(events: seq<Event>): State
    requires IsRun(events)
  {
    Exec(events).state
  }

  function BumpCount(events: seq<Event>): nat {
    if events == [] then 0
    else BumpCount(events[..|events| - 1]) + if Bumps(events[|events| - 1]) then 1 else 0
  }

  // ----------------------------------------------------------------- the object

  /** What `lock` does: the gate, the test and, if it fails, the gate again. */
  function Locked(s: State, c: Client): State
    requires Enabled(s, AcquireToMutate(c))
  {
    var checked := Next(Next(s, AcquireToMutate(c)), Check(c));
    if checked.PhaseOf(c).Granted? then checked else Next(checked, Release(c))
  }

  /** The object.  Each atomic operation of it is one event of the machine, made by the client
      that calls; `run` follows the machine.  The functions of the source are calls of these
      operations, and other clients' operations may come between any two of them. */
  class ConfigMutationCoordinator {
    var epoch: nat
    /** Whether the gate's mutex is held. */
    var held: bool
    ghost var run: State

    ghost predicate Valid()
      reads this
    {
      run.epoch == epoch && run.free == !held
    }

    constructor ()
      ensures Valid() && run == INIT
    {
      epoch, held, run := 0, false, INIT;
    }

    /** `ticket`. */
    method TakeTicket(ghost c: Client) returns (ticket: nat)
      requires Valid() && Enabled(run, Event.TakeTicket(c))
      modifies this
      ensures Valid() && run == Next(old(run), Event.TakeTicket(c)) && ticket == run.PhaseOf(c).ticket.value
    {
      ticket := epoch;
      run := Next(run, Event.TakeTicket(c));
    }

    /** The awaited gate is handed to a mutator, or to a replacement. */
    method Acquire(ghost c: Client, ghost replacing: bool)
      requires Valid() && Enabled(run, if replacing then AcquireToReplace(c) else AcquireToMutate(c))
      modifies this
      ensures Valid() && run == Next(old(run), if replacing then AcquireToReplace(c) else AcquireToMutate(c))
    {
      held := true;
      run := Next(run, if replacing then AcquireToReplace(c) else AcquireToMutate(c));
    }

    /** The load of the epoch in `lock`, and its test. */
    method CheckEpoch(ghost c: Client, ticket: nat) returns (granted: bool)
      requires Valid() && Enabled(run, Check(c)) && ticket == run.PhaseOf(c).ticket.value
      modifies this
      ensures Valid() && run == Next(old(run), Check(c)) && granted == run.PhaseOf(c).Granted?
    {
      granted := !(epoch != ticket || epoch % 2 != 0);
      run := Next(run, Check(c));
    }

    /** The `fetch_add` of a replacement that begins or ends. */
    method Bump(ghost c: Client, ghost ending: bool)
      requires Valid() && Enabled(run, if ending then End(c) else Begin(c))
      modifies this
      ensures Valid() && run == Next(old(run), if ending then End(c) else Begin(c))
    {
      epoch := (epoch + 1) % EPOCH_LIMIT;
      run := Next(run, if ending then End(c) else Begin(c));
    }

    /** A guard of the gate is dropped. */
    method ReleaseGate(ghost c: Client)
      requires Valid() && Enabled(run, Release(c))
      modifies this
      ensures Valid() && run == Next(old(run), Release(c))
    {
      held := false;
      run := Next(run, Release(c));
    }

    /** `lock`, from the moment its await ends, when no other client comes between. */
    method Lock(ghost c: Client, ticket: nat) returns (granted: bool)
      requires Valid() && Enabled(run, AcquireToMutate(c)) && ticket == run.PhaseOf(c).ticket.value
      modifies this
      ensures Valid() && run == Locked(old(run), c)
      ensures granted == Accepts(old(epoch), ticket) && held == granted && epoch == old(epoch)
    {
      Acquire(c, false);
      granted := CheckEpoch(c, ticket);
      if !granted {
        ReleaseGate(c);
      }
    }

    /** `begin_replacement`, from the moment its await ends. */
    method BeginReplacement(ghost c: Client)
      requires Valid() && Enabled(run, AcquireToReplace(c))
      modifies this
      ensures Valid() && run == Next(Next(old(run), AcquireToReplace(c)), Begin(c))
      ensures held && epoch == Bumped(old(epoch))
    {
      Acquire(c, true);
      Bump(c, false);
    }

    /** Dropping the replacement guard: the epoch first, then the gate. */
    method EndReplacement(ghost c: Client)
      requires Valid() && Enabled(run, End(c))
      modifies this
      ensures Valid() && run == Next(Next(old(run), End(c)), Release(c))
      ensures !held && epoch == Bumped(old(epoch))
    {
      Bump(c, true);
      ReleaseGate(c);
    }
  }

  // ---------------------------------------------------------------- the invariant

  /** The ticket holds the epoch of the moment it was taken. */
  ghost predicate TicketSound(s: State, t: Ticket) {
    && t.takenAt < |s.history|
    && s.history[t.takenAt].TakeTicket?
    && t.value == BumpCount(s.history[..t.takenAt]) % EPOCH_LIMIT
  }

  ghost predicate PhaseSound(s: State, phase: Phase) {
    && (HasTicket(phase) ==> TicketSound(s, phase.ticket))
    && (phase.Granted? ==> phase.ticket.value == s.epoch)
  }

  ghost predicate TicketsSound(s: State) {
    forall c :: c in s.phases ==> PhaseSound(s, s.phases[c])
  }

  /** The gate is held by exactly the client whose phase says so. */
  ghost predicate GateSound(s: State) {
    && (forall c, d :: c in s.phases && d in s.phases && Holds(s.phases[c]) && Holds(s.phases[d]) ==> c == d)
    && (s.free ==> forall c :: c in s.phases ==> !Holds(s.phases[c]))
  }

  /** The epoch is odd exactly while some client owns a replacement guard. */
  ghost predicate ParitySound(s: State) {
    && (forall c :: c in s.phases && Holds(s.phases[c]) ==> (s.epoch % 2 == 1 <==> s.phases[c].Replacing?))
    && (s.epoch % 2 == 1 ==> exists c :: c in s.phases && s.phases[c].Replacing?)
  }

  ghost predicate Inv(s: State) {
    && s.epoch == BumpCount(s.history) % EPOCH_LIMIT
    && TicketsSound(s)
    && GateSound(s)
    && ParitySound(s)
  }

  lemma BumpStep(events: seq<Event>, e: Event)
    ensures BumpCount(events + [e]) == BumpCount(events) + if Bumps(e) then 1 else 0
  {
    assert (events + [e])[..|events|] == events;
  }

  lemma EpochStep(s: State, e: Event)
    requires Inv(s) && Enabled(s, e)
    ensures Next(s, e).epoch == BumpCount(Next(s, e).history) % EPOCH_LIMIT
  {
    BumpStep(s.history, e);
  }

  lemma TicketKept(s: State, e: Event, t: Ticket)
    requires Enabled(s, e) && TicketSound(s, t)
    ensures TicketSound(Next(s, e), t)
  {
    assert (s.history + [e])[..t.takenAt] == s.history[..t.takenAt];
  }

  lemma TicketsStep(s: State, e: Event)
    requires Inv(s) && Enabled(s, e)
    ensures TicketsSound(Next(s, e))
  {
    var s' := Next(s, e);
    assert s'.history[..|s.history|] == s.history;
    forall c | c in s'.phases
      ensures PhaseSound(s', s'.phases[c])
    {
      var phase := s'.phases[c];
      if HasTicket(phase) && (c != e.client || !e.TakeTicket?) {
        TicketKept(s, e, phase.ticket);
      }
    }
  }

  lemma GateStep(s: State, e: Event)
    requires Inv(s) && Enabled(s, e)
    ensures GateSound(Next(s, e))
  {
  }

  lemma ParityStep(s: State, e: Event)
    requires Inv(s) && Enabled(s, e)
    ensures ParitySound(Next(s, e))
  {
    var s' := Next(s, e);
    var c := e.client;
    if s'.epoch % 2 == 1 {
      if e.Begin? {
        assert s'.phases[c].Replacing?;
      } else {
        var d :| d in s.phases && s.phases[d].Replacing?;
        assert d in s'.phases && s'.phases[d].Replacing?;
      }
    }
  }

  lemma {:induction false} RunsKeepInv(events: seq<Event>)
    requires IsRun(events)
    ensures Inv(After(events)) && After(events).history == events
  {
    if events != [] {
      var before, e := events[..|events| - 1], events[|events| - 1];
      RunsKeepInv(before);
      var s := After(before);
      EpochStep(s, e);
      TicketsStep(s, e);
      GateStep(s, e);
      ParityStep(s, e);
      assert before + [e] == events;
    }
  }

  // -------------------------------------------------------------------- the laws

  lemma {:induction false} BumpSplit(events: seq<Event>, k: nat)
    requires k <= |events|
    ensures BumpCount(events) == BumpCount(events[..k]) + BumpCount(events[k..])
  {
    if k == |events| {
      assert events[..k] == events && events[k..] == [];
    } else {
      var init := events[..|events| - 1];
      BumpSplit(init, k);
      assert init[..k] == events[..k];
      assert events[k..][..|events| - k - 1] == init[k..];
    }
  }

  lemma {:induction false} NoBump(events: seq<Event>)
    ensures BumpCount(events) == 0 <==> forall e :: e in events ==> !Bumps(e)
  {
    if events != [] {
      var init, last := events[..|events| - 1], events[|events| - 1];
      NoBump(init);
      assert forall e :: e in events <==> e in init || e == last;
    }
  }

  /** The bumps since a ticket was taken. */
  function Since(events: seq<Event>, ticket: Ticket): nat
    requires ticket.takenAt <= |events|
  {
    BumpCount(events[ticket.takenAt..])
  }

  lemma SameEpoch(a: nat, b: nat)
    ensures a % EPOCH_LIMIT == (a + b) % EPOCH_LIMIT <==> b % EPOCH_LIMIT == 0
  {
    var k := b / EPOCH_LIMIT;
    assert b == EPOCH_LIMIT * k + b % EPOCH_LIMIT;
  }

  lemma SmallMultiple(b: nat)
    requires b < EPOCH_LIMIT
    ensures b % EPOCH_LIMIT == b
  {
  }

  lemma {:induction false} BumpBound(events: seq<Event>)
    ensures BumpCount(events) <= |events|
  {
    if events != [] {
      BumpBound(events[..|events| - 1]);
    }
  }

  lemma EpochMoved(events: seq<Event>, ticket: Ticket)
    requires ticket.takenAt <= |events|
    requires ticket.value == BumpCount(events[..ticket.takenAt]) % EPOCH_LIMIT
    ensures ticket.value == BumpCount(events) % EPOCH_LIMIT <==> Since(events, ticket) % EPOCH_LIMIT == 0
  {
    BumpSplit(events, ticket.takenAt);
    SameEpoch(BumpCount(events[..ticket.takenAt]), Since(events, ticket));
  }

  lemma FewBumps(events: seq<Event>)
    requires |events| < EPOCH_LIMIT
    ensures BumpCount(events) % EPOCH_LIMIT == 0 <==> forall e :: e in events ==> !Bumps(e)
  {
    BumpBound(events);
    SmallMultiple(BumpCount(events));
    NoBump(events);
  }

  /** A ticket equals the epoch if and only if the epoch has moved a multiple of 2^64
      times since; for fewer events than that, if and only if nothing moved it. */
  lemma EpochUnmoved(events: seq<Event>, ticket: Ticket)
    requires ticket.takenAt <= |events|
    requires ticket.value == BumpCount(events[..ticket.takenAt]) % EPOCH_LIMIT
    ensures ticket.value == BumpCount(events) % EPOCH_LIMIT <==> Since(events, ticket) % EPOCH_LIMIT == 0
    ensures |events| < EPOCH_LIMIT ==>
              (Since(events, ticket) % EPOCH_LIMIT == 0 <==> forall e :: e in events[ticket.takenAt..] ==> !Bumps(e))
  {
    EpochMoved(events, ticket);
    if |events| < EPOCH_LIMIT {
      FewBumps(events[ticket.takenAt..]);
    }
  }

  /** Whether the check of client `c` after these events grants the lock. */
  predicate CheckGrants(events: seq<Event>, c: Client)
    requires IsRun(events) && Enabled(After(events), Check(c))
  {
    Next(After(events), Check(c)).phases[c].Granted?
  }

  /** A check succeeds if and only if the epoch has moved a multiple of 2^64 times since
      the ticket was taken: for fewer events than that, if and only if no replacement
      has begun or ended. */
  lemma CheckGrantsExactly(events: seq<Event>, c: Client)
    requires IsRun(events) && Enabled(After(events), Check(c))
    ensures var ticket := After(events).PhaseOf(c).ticket;
            && ticket.takenAt < |events| && events[ticket.takenAt].TakeTicket?
            && (CheckGrants(events, c) <==> Since(events, ticket) % EPOCH_LIMIT == 0)
            && (|events| < EPOCH_LIMIT ==>
                 (CheckGrants(events, c) <==> forall e :: e in events[ticket.takenAt..] ==> !Bumps(e)))
  {
    RunsKeepInv(events);
    var s := After(events);
    EpochUnmoved(events, s.PhaseOf(c).ticket);
    assert Holds(s.phases[c]);
  }

  /** As long as a mutation lock is held, no replacement has begun or ended since its
      ticket was taken. */
  lemma GrantedIsUndisturbed(events: seq<Event>, c: Client)
    requires IsRun(events) && |events| < EPOCH_LIMIT && After(events).PhaseOf(c).Granted?
    ensures var taken := After(events).PhaseOf(c).ticket.takenAt;
            && taken < |events| && events[taken].TakeTicket?
            && forall e :: e in events[taken..] ==> !Bumps(e)
  {
    RunsKeepInv(events);
    EpochUnmoved(events, After(events).PhaseOf(c).ticket);
  }

  /** At an odd epoch the gate is neither free nor with a mutator; two clients never
      hold it at once. */
  lemma OddEpochBelongsToReplacement(events: seq<Event>)
    requires IsRun(events)
    ensures var s := After(events);
            s.epoch % 2 == 1 ==> !s.free && forall c :: !s.PhaseOf(c).Granted?
    ensures var s := After(events);
            forall c, d :: Holds(s.PhaseOf(c)) && Holds(s.PhaseOf(d)) ==> c == d
  {
    RunsKeepInv(events);
  }

  /** What the holder of the gate does next. */
  function NextOf(s: State, c: Client): Event {
    match s.PhaseOf(c)
    case Checking(_) => Check(c)
    case Preparing => Begin(c)
    case Replacing => End(c)
    case _ => Release(c)
  }

  lemma {:induction false} HeldByAClient(events: seq<Event>)
    requires IsRun(events)
    ensures var s := After(events); !s.free ==> exists c :: c in s.phases && Holds(s.phases[c])
  {
    if events != [] {
      var init, e := events[..|events| - 1], events[|events| - 1];
      HeldByAClient(init);
      var s, t := After(init), After(events);
      if !t.free && !s.free {
        var c :| c in s.phases && Holds(s.phases[c]);
        assert c in t.phases && Holds(t.phases[c]);
      } else if !t.free {
        assert e.client in t.phases && Holds(t.phases[e.client]);
      }
    }
  }

  /** The gate is never stuck: it is free, or its holder can go on, and after at most four of its
      own events it has released the gate. */
  lemma GateIsNeverStuck(events: seq<Event>)
    requires IsRun(events)
    ensures var s := After(events);
            s.free || exists c :: Holds(s.PhaseOf(c)) && Enabled(s, NextOf(s, c)) && ReleasesWithin(s, c, 4)
  {
    HeldByAClient(events);
    var s := After(events);
    if !s.free {
      var c :| c in s.phases && Holds(s.phases[c]);
      HolderReleases(s, c);
      assert Holds(s.PhaseOf(c)) && Enabled(s, NextOf(s, c));
    }
  }

  predicate ReleasesWithin(s: State, c: Client, n: nat)
    decreases n
  {
    s.free || (n > 0 && Enabled(s, NextOf(s, c)) && ReleasesWithin(Next(s, NextOf(s, c)), c, n - 1))
  }

  lemma HolderReleases(s: State, c: Client)
    requires Holds(s.PhaseOf(c))
    ensures ReleasesWithin(s, c, 4)
  {
    var phase := s.PhaseOf(c);
    if phase.Granted? || phase.Rejected? || phase.Ending? {
      assert ReleasesWithin(Next(s, Release(c)), c, 3);
    } else {
      var t := Next(s, NextOf(s, c));
      if t.PhaseOf(c).Replacing? {
        var u := Next(t, End(c));
        assert ReleasesWithin(Next(u, Release(c)), c, 1);
        assert ReleasesWithin(u, c, 2);
        assert ReleasesWithin(t, c, 3);
      } else {
        assert ReleasesWithin(Next(t, Release(c)), c, 2);
        assert ReleasesWithin(t, c, 3);
      }
    }
  }
}
