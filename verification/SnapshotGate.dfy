/** The snapshots that one run of the store issues, and the front end's gate that takes them
    in whatever order they arrive (configSnapshot.ts, App.tsx). */
module SnapshotGate {
  import opened Options
  import opened FileSystem
  import opened VaultDocument
  import opened VaultStore
  import opened PlainVault
  import opened VaultRefinement

  // -------------------------------------------------------------------- the gate

  datatype ConfigSnapshot = ConfigSnapshot(data: VaultData, revision: nat)

  /** `isConfigSnapshotCurrent`. */
  predicate IsCurrent(current: Option<ConfigSnapshot>, candidate: ConfigSnapshot) {
    current.None? || candidate.revision >= current.value.revision
  }

  function Taken(current: Option<ConfigSnapshot>, candidate: ConfigSnapshot): Option<ConfigSnapshot> {
    if IsCurrent(current, candidate) then Some(candidate) else current
  }

  class ConfigView {
    var current: Option<ConfigSnapshot>

    constructor ()
      ensures current == None
    {
      current := None;
    }

    /** `commitConfigSnapshot`. */
    method CommitSnapshot(snapshot: ConfigSnapshot) returns (accepted: bool)
      modifies this
      ensures current == Taken(old(current), snapshot)
      ensures accepted == (old(current).None? || snapshot.revision >= old(current).value.revision)
    {
      if !IsCurrent(current, snapshot) {
        return false;
      }
      current := Some(snapshot);
      accepted := true;
    }
  }

  /** What the front end shows after the deliveries, in this order. */
  function Delivered(current: Option<ConfigSnapshot>, deliveries: seq<ConfigSnapshot>): Option<ConfigSnapshot>
    decreases deliveries
  {
    if deliveries == [] then current else Delivered(Taken(current, deliveries[0]), deliveries[1..])
  }

  /** The view never goes back to a lower revision. */
  lemma {:induction false} NeverStepsBack(current: Option<ConfigSnapshot>, deliveries: seq<ConfigSnapshot>)
    requires current.Some?
    ensures Delivered(current, deliveries).Some?
    ensures Delivered(current, deliveries).value.revision >= current.value.revision
    decreases deliveries
  {
    if deliveries != [] {
      NeverStepsBack(Taken(current, deliveries[0]), deliveries[1..]);
    }
  }

  /** The view ends on a delivered snapshot that no other delivered one exceeds. */
  lemma {:induction false} EndsOnHighest(current: Option<ConfigSnapshot>, deliveries: seq<ConfigSnapshot>)
    requires deliveries != []
    ensures var last := Delivered(current, deliveries);
            && last.Some?
            && (last == current || last.value in deliveries)
            && (forall i :: 0 <= i < |deliveries| ==> deliveries[i].revision <= last.value.revision)
            && (current.Some? ==> current.value.revision <= last.value.revision)
    decreases deliveries
  {
    var next := Taken(current, deliveries[0]);
    NeverStepsBack(next, deliveries[1..]);
    if deliveries[1..] != [] {
      EndsOnHighest(next, deliveries[1..]);
    }
    var last := Delivered(next, deliveries[1..]);
    forall i | 0 <= i < |deliveries|
      ensures deliveries[i].revision <= last.value.revision
    {
      if i > 0 {
        assert deliveries[i] == deliveries[1..][i - 1];
      }
    }
  }

  // --------------------------------------------------------- what a run issues

  /** One run of the process: no crash. */
  ghost predicate Steady(events: seq<Event>) {
    forall i :: 0 <= i < |events| ==> events[i].Done?
  }

  /** The snapshots handed out, in the order of issue. */
  ghost function Issued(s: Store, events: seq<Event>): seq<ConfigSnapshot>
    requires CanRun(s, events)
    decreases events
  {
    if events == [] then []
    else
      var reply := Step(s, events[0].op).reply;
      var rest := Issued(Next(s, events[0]), events[1..]);
      if events[0].Done? && reply.Snapshot? then [ConfigSnapshot(reply.data, reply.revision)] + rest else rest
  }

  ghost predicate OpenIsSettled(p: Plain) {
    p.unlocked ==> p.vault.Some? && Settled(p.vault.value.data)
  }

  lemma MigratedIsSettled(data: VaultData, now: int)
    ensures Settled(Migrate(data, now))
  {
    var once := MigratedData(data);
    assert MigratedData(once) == once;
    assert MigratedData(once.(updatedAt := now)) == once.(updatedAt := now);
  }

  lemma EditKeepsSettled(data: VaultData, edit: Edit, now: int)
    requires Settled(data) && Apply(data, edit).Ok?
    ensures Settled(Apply(data, edit).data.(updatedAt := now))
  {
    var settings := data.settings;
    assert settings.aiSessionId == FirstOf(settings.aiSessionIds) && data.version >= VAULT_DATA_VERSION;
    assert settings.aiAutoStart ==> settings.aiSessionIds != [];
    var next := Apply(data, edit).data;
    EditKeepsMirror(data, edit);
    assert MigratedData(next.(updatedAt := now)).settings == next.settings;
  }

  lemma EditKeepsMirror(data: VaultData, edit: Edit)
    requires Apply(data, edit).Ok? && data.settings.aiSessionId == FirstOf(data.settings.aiSessionIds)
    requires data.settings.aiAutoStart ==> data.settings.aiSessionIds != []
    ensures var next := Apply(data, edit).data;
            && next.version == data.version
            && next.settings.aiSessionId == FirstOf(next.settings.aiSessionIds)
            && (next.settings.aiAutoStart ==> next.settings.aiSessionIds != [])
  {
  }

  /** What an operation does to the revision: an open store stays open and settled, its
      document changes only together with the revision, and a snapshot shows both. */
  lemma RevisionLaw(p: Plain, op: Op, chance: Chance)
    requires OpenIsSettled(p) && p.revision <= U64_MAX
    ensures var o := PlainStep(p, op, chance);
            && OpenIsSettled(o.plain) && p.revision <= o.plain.revision <= U64_MAX
            && (p.unlocked ==> o.plain.unlocked)
            && (p.unlocked && o.plain.revision == p.revision < U64_MAX ==>
                  o.plain.vault.value.data == p.vault.value.data)
  {
    match op
    case Mutate(edit, now, _) =>
      if p.unlocked && Apply(p.vault.value.data, edit).Ok? {
        EditKeepsSettled(p.vault.value.data, edit, now);
      }
    case ImportBytes(_, now, _) =>
      if chance.source.Backup? {
        MigratedIsSettled(chance.source.data, now);
      }
    case Create(_, groupId, now, _, _) =>
    case AutoOpen(_, _, _, _, _) => OpeningLaw(p, op, chance);
    case Unlock(_, _, _) => OpeningLaw(p, op, chance);
    case MigratePassword(_, _, _, _, _) => OpeningLaw(p, op, chance);
    case TakeSnapshot =>
  }

  lemma OpeningLaw(p: Plain, op: Op, chance: Chance)
    requires OpenIsSettled(p) && (op.AutoOpen? || op.Unlock? || op.MigratePassword?)
    ensures var q := PlainStep(p, op, chance).plain;
            && OpenIsSettled(q) && q.revision == p.revision && (p.unlocked ==> q.unlocked)
            && (p.unlocked ==> q.vault.value.data == p.vault.value.data)
  {
    if p.vault.Some? {
      MigratedIsSettled(p.vault.value.data, op.now);
    }
  }

  ghost predicate Tracks(s: Store, p: Plain) {
    Shows(s, p) && OpenIsSettled(p) && p.revision <= U64_MAX
  }

  /** One operation of a tracked store. */
  lemma StepTracks(s: Store, p: Plain, op: Op) returns (q: Plain)
    requires Tracks(s, p) && FreshOp(s, op)
    ensures Tracks(Step(s, op).store, q) && p.revision <= q.revision
    ensures p.unlocked ==> q.unlocked && p.vault.Some? && q.vault.Some?
    ensures p.unlocked && q.revision == p.revision < U64_MAX ==> q.vault.value.data == p.vault.value.data
    ensures Step(s, op).reply.Snapshot? ==>
              q.unlocked && q.vault.Some? && Step(s, op).reply == Snapshot(q.vault.value.data, q.revision)
  {
    StepRefines(s, p, op);
    RevisionLaw(p, op, ChanceOf(s, op));
    AcknowledgedIsStored(p, op, ChanceOf(s, op));
    q := PlainStep(p, op, ChanceOf(s, op)).plain;
  }

  lemma IssuedStep(s: Store, events: seq<Event>)
    requires events != [] && CanRun(s, events) && Steady(events)
    ensures Next(s, events[0]) == Step(s, events[0].op).store && FreshOp(s, events[0].op)
    ensures CanRun(Step(s, events[0].op).store, events[1..]) && Steady(events[1..])
    ensures var reply, rest := Step(s, events[0].op).reply, Issued(Step(s, events[0].op).store, events[1..]);
            Issued(s, events)
            == if reply.Snapshot? then [ConfigSnapshot(reply.data, reply.revision)] + rest else rest
  {
  }

  /** Shown from `p` on: no lower revision, and with the same revision the same document. */
  ghost predicate ShownFrom(p: Plain, snap: ConfigSnapshot) {
    && p.revision <= snap.revision
    && (p.unlocked && p.vault.Some? && snap.revision == p.revision < U64_MAX ==> snap.data == p.vault.value.data)
  }

  lemma ShownFromEarlier(s: Store, p: Plain, op: Op, snap: ConfigSnapshot) returns (q: Plain)
    requires Tracks(s, p) && FreshOp(s, op)
    ensures Tracks(Step(s, op).store, q)
    ensures ShownFrom(q, snap) ==> ShownFrom(p, snap)
    ensures Step(s, op).reply == Snapshot(snap.data, snap.revision) ==> ShownFrom(p, snap)
  {
    q := StepTracks(s, p, op);
  }

  /** From any state on: revisions only grow, and while the revision stays, so does the document. */
  lemma {:induction false} IssuedFrom(s: Store, p: Plain, events: seq<Event>, k: nat)
    requires Tracks(s, p) && CanRun(s, events) && Steady(events) && k < |Issued(s, events)|
    ensures ShownFrom(p, Issued(s, events)[k])
    decreases events
  {
    IssuedStep(s, events);
    var op, rest, snap := events[0].op, events[1..], Issued(s, events)[k];
    var q := ShownFromEarlier(s, p, op, snap);
    if !Step(s, op).reply.Snapshot? {
      IssuedFrom(Step(s, op).store, q, rest, k);
    } else if k > 0 {
      IssuedFrom(Step(s, op).store, q, rest, k - 1);
    }
  }

  /** The store shows some plain store, as it does from its start on. */
  ghost predicate Tracked(s: Store) {
    exists p :: Tracks(s, p)
  }

  lemma StaysTracked(s: Store, op: Op)
    requires Tracked(s) && FreshOp(s, op)
    ensures Tracked(Step(s, op).store)
  {
    var p :| Tracks(s, p);
    var q := StepTracks(s, p, op);
  }

  /** A store that has just started, on whatever vault, is tracked. */
  lemma StartIsTracked(disk: Disk, log: Log, vault: Option<Locker>)
    requires Consistent(World(disk, log), vault)
    ensures Tracked(Restarted(disk, log))
  {
    assert Tracks(Restarted(disk, log), Plain(vault, false, 0));
  }

  /** `a` was issued no later than `b` as far as their revisions tell. */
  predicate Precedes(a: ConfigSnapshot, b: ConfigSnapshot) {
    a.revision <= b.revision && (a.revision == b.revision < U64_MAX ==> a == b)
  }

  ghost predicate InOrder(snaps: seq<ConfigSnapshot>) {
    forall j, k :: 0 <= j <= k < |snaps| ==> Precedes(snaps[j], snaps[k])
  }

  lemma InOrderCons(first: ConfigSnapshot, rest: seq<ConfigSnapshot>)
    requires InOrder(rest) && forall k :: 0 <= k < |rest| ==> Precedes(first, rest[k])
    ensures InOrder([first] + rest)
  {
  }

  /** What follows a snapshot that an operation issues. */
  lemma FirstIssued(s: Store, events: seq<Event>)
    requires Tracked(s) && events != [] && CanRun(s, events) && Steady(events)
    requires Step(s, events[0].op).reply.Snapshot? && CanRun(Step(s, events[0].op).store, events[1..])
    ensures var reply := Step(s, events[0].op).reply;
            var rest := Issued(Step(s, events[0].op).store, events[1..]);
            forall k :: 0 <= k < |rest| ==> Precedes(ConfigSnapshot(reply.data, reply.revision), rest[k])
  {
    IssuedStep(s, events);
    var p :| Tracks(s, p);
    var q := StepTracks(s, p, events[0].op);
    var next := Step(s, events[0].op).store;
    forall k | 0 <= k < |Issued(next, events[1..])|
      ensures ShownFrom(q, Issued(next, events[1..])[k])
    {
      IssuedFrom(next, q, events[1..], k);
    }
  }

  /** Of the snapshots of one run, a later one has no lower revision, and below the greatest
      revision the revision determines the document. */
  lemma {:induction false} RevisionDeterminesDocument(s: Store, events: seq<Event>)
    requires Tracked(s) && CanRun(s, events) && Steady(events)
    ensures InOrder(Issued(s, events))
    decreases events
  {
    if events != [] {
      IssuedStep(s, events);
      StaysTracked(s, events[0].op);
      var next, reply := Step(s, events[0].op).store, Step(s, events[0].op).reply;
      RevisionDeterminesDocument(next, events[1..]);
      if reply.Snapshot? {
        FirstIssued(s, events);
        InOrderCons(ConfigSnapshot(reply.data, reply.revision), Issued(next, events[1..]));
      }
    }
  }

  /** However the snapshots of one run are delayed, reordered or repeated, the view ends on
      the one issued last among those delivered. */
  lemma GateEndsOnNewest(s: Store, events: seq<Event>, deliveries: seq<ConfigSnapshot>, newest: nat)
    requires Tracked(s) && CanRun(s, events) && Steady(events)
    requires forall i :: 0 <= i < |deliveries| ==> deliveries[i] in Issued(s, events) && deliveries[i].revision < U64_MAX
    requires newest < |Issued(s, events)| && Issued(s, events)[newest] in deliveries
    requires forall j :: newest < j < |Issued(s, events)| ==> Issued(s, events)[j] !in deliveries
    ensures Delivered(None, deliveries) == Some(Issued(s, events)[newest])
  {
    var issued := Issued(s, events);
    EndsOnHighest(None, deliveries);
    var last := Delivered(None, deliveries).value;
    var i :| 0 <= i < |deliveries| && deliveries[i] == last;
    assert last in issued;
    var m :| 0 <= m < |issued| && issued[m] == last;
    assert m <= newest;
    RevisionDeterminesDocument(s, events);
    assert Precedes(issued[m], issued[newest]);
  }

  /** The same from the start of a process, on whatever vault it finds. */
  lemma GateOfOneRun(disk: Disk, log: Log, vault: Option<Locker>, events: seq<Event>,
                     deliveries: seq<ConfigSnapshot>, newest: nat)
    requires Consistent(World(disk, log), vault) && CanRun(Restarted(disk, log), events) && Steady(events)
    requires var issued := Issued(Restarted(disk, log), events);
             && (forall i :: 0 <= i < |deliveries| ==> deliveries[i] in issued && deliveries[i].revision < U64_MAX)
             && newest < |issued| && issued[newest] in deliveries
             && (forall j :: newest < j < |issued| ==> issued[j] !in deliveries)
    ensures Delivered(None, deliveries) == Some(Issued(Restarted(disk, log), events)[newest])
  {
    StartIsTracked(disk, log, vault);
    GateEndsOnNewest(Restarted(disk, log), events, deliveries, newest);
  }

  /** At the greatest revision the law fails: the revision stays while the document changes. */
  lemma RevisionSaturates(s: Store, now: int, first: Draw, second: Draw)
    requires s.unlocked.Some? && s.revision == U64_MAX && Saves(s.world, first)
    requires Saves(Mutated(s, UpdateOther("a"), now, first).store.world, second)
    ensures var one := Mutated(s, UpdateOther("a"), now, first);
            var two := Mutated(one.store, UpdateOther("b"), now, second);
            && one.reply.Snapshot? && two.reply.Snapshot?
            && one.reply.revision == two.reply.revision == U64_MAX && one.reply.data != two.reply.data
  {
    var one := Mutated(s, UpdateOther("a"), now, first);
    assert one.store.unlocked.value.data.other == "a";
    var two := Mutated(one.store, UpdateOther("b"), now, second);
    assert two.store.unlocked.value.data.other == "b";
  }
}
