/** Whole runs of the encrypted store, with a crash allowed in every world passed. */
module VaultRuns {
  import opened Options
  import opened Bytes
  import opened FileSystem
  import opened VaultDocument
  import opened VaultStore
  import opened PlainVault
  import opened VaultRefinement
  import Codec = VaultCodec
  import VaultIntegrity

  // ------------------------------------------------------- every world passed

  /** The vault of this world is what was there before or one of the targets. */
  ghost predicate Covered(w: World, before: Option<Locker>, targets: seq<Target>) {
    exists after :: Consistent(w, after) && OldOrInFlight(before, targets, after)
  }

  /** A key that is in use on this disk, or new. */
  ghost predicate KeyToSave(w: World, vault: Option<Locker>, key: Key) {
    || SealedUnder(w.log, key) == {}
    || (vault.Some? && Stored(w, vault.value) && key == DiskKey(w.disk, vault.value.password))
  }

  lemma NewCovered(w: World, vault: Option<Locker>, before: Option<Locker>, key: Key, data: VaultData, at: World,
                   targets: seq<Target>)
    requires Consistent(w, vault) && KeyToSave(w, vault, key) && LogInv(at.log)
    requires Passes(w, vault, key, data, at, true)
    requires OldOrInFlight(before, targets, vault) && Target(key.password, data) in targets
    ensures Covered(at, before, targets)
  {
    var after := Locker(key.password, data, IsSlow(key.params), SealedUnder(w.log, key) + {data});
    assert TargetsHold(targets, data);
    assert OldOrInFlight(before, targets, Some(after));
    assert Consistent(at, Some(after));
  }

  lemma OldCovered(w: World, vault: Option<Locker>, before: Option<Locker>, key: Key, data: VaultData, at: World,
                   targets: seq<Target>)
    requires Consistent(w, vault) && LogInv(at.log)
    requires Passes(w, vault, key, data, at, false)
    requires OldOrInFlight(before, targets, vault) && Target(key.password, data) in targets
    ensures Covered(at, before, targets)
  {
    if vault.Some? {
      var after := SealedLocker(vault.value, key == DiskKey(w.disk, vault.value.password), data);
      assert TargetsHold(targets, data);
      assert OldOrInFlight(before, targets, Some(after));
      assert Consistent(at, Some(after));
    } else {
      assert At(at.disk, VAULT_FILE_NAME) == [];
      assert Consistent(at, None);
    }
  }

  lemma SaveCovered(w: World, vault: Option<Locker>, before: Option<Locker>, key: Key, data: VaultData, draw: Draw,
                    targets: seq<Target>, i: nat)
    requires CanSave(w, vault, key, draw) && KeyToSave(w, vault, key)
    requires OldOrInFlight(before, targets, vault) && Target(key.password, data) in targets
    requires i < |SaveTrace(w, key, data, draw)|
    ensures Covered(SaveTrace(w, key, data, draw)[i], before, targets)
  {
    var changed := SavePasses(w, vault, key, data, draw, i);
    if changed {
      NewCovered(w, vault, before, key, data, SaveTrace(w, key, data, draw)[i], targets);
    } else {
      OldCovered(w, vault, before, key, data, SaveTrace(w, key, data, draw)[i], targets);
    }
  }

  lemma CommitCovered(s: Store, vault: Option<Locker>, before: Option<Locker>, key: Key, data: VaultData, draw: Draw,
                      bump: bool, targets: seq<Target>, i: nat)
    requires CanSave(s.world, vault, key, draw) && KeyToSave(s.world, vault, key)
    requires OldOrInFlight(before, targets, vault) && Target(key.password, data) in targets
    requires i < |Commit(s, key, data, draw, bump).passed|
    ensures Covered(Commit(s, key, data, draw, bump).passed[i], before, targets)
  {
    CommitPassed(s, key, data, draw, bump, i);
    if i == 0 {
      CoveredBy(s.world, vault, before, targets);
    } else {
      SaveCovered(s.world, vault, before, key, data, draw, targets, i - 1);
    }
  }

  lemma CoveredBy(w: World, vault: Option<Locker>, before: Option<Locker>, targets: seq<Target>)
    requires Consistent(w, vault) && OldOrInFlight(before, targets, vault)
    ensures Covered(w, before, targets)
  {
  }

  lemma CommitPassed(s: Store, key: Key, data: VaultData, draw: Draw, bump: bool, i: nat)
    requires i < |Commit(s, key, data, draw, bump).passed|
    ensures |Commit(s, key, data, draw, bump).passed| == |SaveTrace(s.world, key, data, draw)| + 1
    ensures Commit(s, key, data, draw, bump).passed[i]
         == if i == 0 then s.world else SaveTrace(s.world, key, data, draw)[i - 1]
  {
  }

  lemma UnmovedCovered(w: World, vault: Option<Locker>, targets: seq<Target>)
    requires Consistent(w, vault)
    ensures Covered(w, vault, targets)
  {
    assert OldOrInFlight(vault, targets, vault);
  }

  lemma UnlockCovered(s: Store, p: Plain, password: string, now: int, draw: Draw, targets: seq<Target>, i: nat)
    requires Shows(s, p) && FreshDraw(s.world.log, draw) && i < |UnlockedBy(s, password, now, draw).passed|
    requires forall t :: t in UnlockTargets(p, password, now) ==> t in targets
    ensures Covered(UnlockedBy(s, password, now, draw).passed[i], p.vault, targets)
  {
    UnlockRefines(s, p, password, now, draw);
    if p.vault.Some? && password == p.vault.value.password && !Settled(p.vault.value.data) {
      DiskKeySupported(s.world, p.vault.value);
      var t := Target(password, Migrate(p.vault.value.data, now));
      assert t in UnlockTargets(p, password, now);
      CommitCovered(s, p.vault, p.vault, DiskKey(s.world.disk, password), t.data, draw, false, targets, i);
    } else {
      UnlockPassesOne(s, p, password, now, draw);
      UnmovedCovered(s.world, p.vault, targets);
    }
  }

  lemma UnlockPassesOne(s: Store, p: Plain, password: string, now: int, draw: Draw)
    requires Shows(s, p)
    requires p.vault.None? || password != p.vault.value.password || Settled(p.vault.value.data)
    ensures UnlockedBy(s, password, now, draw).passed == [s.world]
  {
    if p.vault.Some? && password != p.vault.value.password {
      OnePasswordOpens(s.world, p.vault.value, password);
    }
  }

  /** Saving again under a new automatic key, after an unlock. */
  lemma RekeyCovered(s: Store, p: Plain, password: string, now: int, draw: Draw, salt: Codec.Salt, again: Draw,
                     targets: seq<Target>, i: nat)
    requires Shows(s, p) && FreshDraw(s.world.log, draw) && FreshDraw(s.world.log, again)
    requires draw.nonce != again.nonce && FreshSalt(s.world.log, salt)
    requires UnlockedBy(s, password, now, draw).reply.Snapshot?
    requires forall t :: t in UnlockTargets(p, password, now) ==> t in targets
    requires p.vault.Some? && Target(AUTO_PASSWORD, Migrate(p.vault.value.data, now)) in targets
    ensures var o := UnlockedBy(s, password, now, draw);
            o.store.unlocked.Some?
            && (var c := Commit(o.store, Key(AUTO_PASSWORD, salt, KDF_PARAMS_FAST), o.store.unlocked.value.data, again, false);
                i < |c.passed| ==> Covered(c.passed[i], p.vault, targets))
  {
    UnlockRefines(s, p, password, now, draw);
    OpenedDocument(p, password, now, Saves(s.world, draw));
    StillFresh(s, p, password, now, draw, salt, again);
    UnlockLands(p, password, now, Saves(s.world, draw), targets);
    ParamsSupported(AUTO_PASSWORD);
    var o, q := UnlockedBy(s, password, now, draw), PlainUnlock(p, password, now, Saves(s.world, draw)).plain;
    var key := Key(AUTO_PASSWORD, salt, KDF_PARAMS_FAST);
    FreshKeyIsUnused(o.store.world.log, key);
    if i < |Commit(o.store, key, o.store.unlocked.value.data, again, false).passed| {
      CommitCovered(o.store, q.vault, p.vault, key, o.store.unlocked.value.data, again, false, targets, i);
    }
  }

  lemma CreateCovered(s: Store, p: Plain, password: string, data: VaultData, salt: Codec.Salt, draw: Draw,
                      targets: seq<Target>, i: nat)
    requires Shows(s, p) && FreshSalt(s.world.log, salt) && FreshDraw(s.world.log, draw)
    requires p.vault.None? && |password| >= MIN_MASTER_PASSWORD_LEN ==> Target(password, data) in targets
    requires i < |Created(s, password, data, salt, draw).passed|
    ensures Covered(Created(s, password, data, salt, draw).passed[i], p.vault, targets)
  {
    UnmovedCovered(s.world, p.vault, targets);
    if p.vault.None? && |password| >= MIN_MASTER_PASSWORD_LEN {
      ParamsSupported(password);
      var key := Key(password, salt, ParamsFor(password));
      FreshKeyIsUnused(s.world.log, key);
      CommitCovered(s, p.vault, p.vault, key, data, draw, false, targets, i);
    }
  }

  lemma AutoOpenCovered(s: Store, p: Plain, op: Op, source: Source, i: nat)
    requires op.AutoOpen? && Shows(s, p) && FreshOp(s, op) && i < |Step(s, op).passed|
    ensures Covered(Step(s, op).passed[i], p.vault, Targets(p, op, source))
  {
    if p.vault.None? {
      var data := WithDefaultGroup(op.groupId, op.now);
      CreateCovered(s, p, AUTO_PASSWORD, data, op.salt, op.draw, Targets(p, op, source), i);
    } else {
      UnlockTargetsKept(p, op, source);
      OpenCovered(s, p, op, i);
    }
  }

  lemma OpenCovered(s: Store, p: Plain, op: Op, i: nat)
    requires op.AutoOpen? && Shows(s, p) && FreshOp(s, op) && p.vault.Some? && i < |Step(s, op).passed|
    ensures Covered(Step(s, op).passed[i], p.vault, Targets(p, op, Foreign))
  {
    UnlockTargetsKept(p, op, Foreign);
    AutoOpenPassed(s, op, i);
    var o := UnlockedBy(s, AUTO_PASSWORD, op.now, op.draw);
    if i < |o.passed| {
      UnlockCovered(s, p, AUTO_PASSWORD, op.now, op.draw, Targets(p, op, Foreign), i);
    } else {
      UpgradeCovered(s, p, op.now, op.draw, op.salt, op.again, Targets(p, op, Foreign), i - |o.passed|);
    }
  }

  /** The worlds of `auto_open` on a vault: those of the unlock, then those of the upgrade. */
  lemma AutoOpenPassed(s: Store, op: Op, i: nat)
    requires op.AutoOpen? && VAULT_FILE_NAME in s.world.disk && i < |Step(s, op).passed|
    ensures var o := UnlockedBy(s, AUTO_PASSWORD, op.now, op.draw);
            var u := Upgraded(o.store, op.salt, op.again);
            if i < |o.passed| then Step(s, op).passed[i] == o.passed[i]
            else o.reply.Snapshot? && i - |o.passed| < |u.passed| && Step(s, op).passed[i] == u.passed[i - |o.passed|]
  {
  }

  lemma UnlockTargetsKept(p: Plain, op: Op, source: Source)
    requires op.AutoOpen? && p.vault.Some?
    ensures forall t :: t in UnlockTargets(p, AUTO_PASSWORD, op.now) ==> t in Targets(p, op, source)
    ensures Targets(p, op, source) == Targets(p, op, Foreign)
  {
  }

  lemma UpgradeCovered(s: Store, p: Plain, now: int, draw: Draw, salt: Codec.Salt, again: Draw, targets: seq<Target>, i: nat)
    requires Shows(s, p) && FreshDraw(s.world.log, draw) && FreshDraw(s.world.log, again)
    requires draw.nonce != again.nonce && FreshSalt(s.world.log, salt)
    requires UnlockedBy(s, AUTO_PASSWORD, now, draw).reply.Snapshot?
    requires forall t :: t in UnlockTargets(p, AUTO_PASSWORD, now) ==> t in targets
    requires p.vault.Some? && p.vault.value.password == AUTO_PASSWORD ==>
               Target(AUTO_PASSWORD, Migrate(p.vault.value.data, now)) in targets
    ensures var u := Upgraded(UnlockedBy(s, AUTO_PASSWORD, now, draw).store, salt, again);
            i < |u.passed| ==> Covered(u.passed[i], p.vault, targets)
  {
    var o := UnlockedBy(s, AUTO_PASSWORD, now, draw);
    UnlockRefines(s, p, AUTO_PASSWORD, now, draw);
    OpenedDocument(p, AUTO_PASSWORD, now, Saves(s.world, draw));
    if IsSlow(o.store.unlocked.value.key.params) {
      RekeyCovered(s, p, AUTO_PASSWORD, now, draw, salt, again, targets, i);
    } else {
      UnlockLands(p, AUTO_PASSWORD, now, Saves(s.world, draw), targets);
      CoveredBy(o.store.world, PlainUnlock(p, AUTO_PASSWORD, now, Saves(s.world, draw)).plain.vault, p.vault, targets);
    }
  }

  lemma MigrateCovered(s: Store, p: Plain, op: Op, source: Source, i: nat)
    requires op.MigratePassword? && Shows(s, p) && FreshOp(s, op) && i < |Step(s, op).passed|
    ensures Covered(Step(s, op).passed[i], p.vault, Targets(p, op, source))
  {
    var targets := Targets(p, op, source);
    var o := UnlockedBy(s, op.password, op.now, op.draw);
    if i < |o.passed| {
      UnlockCovered(s, p, op.password, op.now, op.draw, targets, i);
    } else {
      UnlockRefines(s, p, op.password, op.now, op.draw);
      OpenedDocument(p, op.password, op.now, Saves(s.world, op.draw));
      RekeyCovered(s, p, op.password, op.now, op.draw, op.salt, op.again, targets, i - |o.passed|);
    }
  }

  lemma MutateCovered(s: Store, p: Plain, op: Op, i: nat)
    requires op.Mutate? && Shows(s, p) && FreshOp(s, op) && i < |Step(s, op).passed|
    ensures Covered(Step(s, op).passed[i], p.vault, Targets(p, op, Foreign))
  {
    if p.unlocked && !AlreadySo(p.vault.value.data, op.edit) {
      EditCovered(s, p, Apply(p.vault.value.data, op.edit), op.now, op.draw, Targets(p, op, Foreign), i);
    } else {
      UnmovedCovered(s.world, p.vault, Targets(p, op, Foreign));
    }
  }

  lemma EditCovered(s: Store, p: Plain, next: Edited, now: int, draw: Draw, targets: seq<Target>, i: nat)
    requires Shows(s, p) && p.unlocked && FreshDraw(s.world.log, draw)
    requires next.Ok? ==> Target(p.vault.value.password, next.data.(updatedAt := now)) in targets
    ensures var o := CommittedEdit(s, s.unlocked.value.key, next, now, draw);
            i < |o.passed| ==> Covered(o.passed[i], p.vault, targets)
  {
    if next.Ok? {
      SavingCovered(s, p, next.data.(updatedAt := now), draw, targets, i);
    } else {
      UnmovedCovered(s.world, p.vault, targets);
    }
  }

  lemma ImportCovered(s: Store, p: Plain, op: Op, i: nat)
    requires op.ImportBytes? && Shows(s, p) && FreshOp(s, op) && i < |Step(s, op).passed|
    ensures Covered(Step(s, op).passed[i], p.vault, Targets(p, op, SourceOf(s, op)))
  {
    var targets := Targets(p, op, SourceOf(s, op));
    if targets != [] {
      SavingCovered(s, p, targets[0].data, op.draw, targets, i);
    } else {
      UnmovedCovered(s.world, p.vault, targets);
    }
  }

  /** Saving under the key in use. */
  lemma SavingCovered(s: Store, p: Plain, data: VaultData, draw: Draw, targets: seq<Target>, i: nat)
    requires Shows(s, p) && p.unlocked && FreshDraw(s.world.log, draw)
    requires Target(p.vault.value.password, data) in targets
    ensures var c := Commit(s, s.unlocked.value.key, data, draw, true);
            i < |c.passed| ==> Covered(c.passed[i], p.vault, targets)
  {
    DiskKeySupported(s.world, p.vault.value);
    if i < |Commit(s, s.unlocked.value.key, data, draw, true).passed| {
      CommitCovered(s, p.vault, p.vault, s.unlocked.value.key, data, draw, true, targets, i);
    }
  }

  /** In every world an operation passes through, the vault file opens to what was there
      before or to what the operation is storing. */
  lemma EveryWorldIsOldOrInFlight(s: Store, p: Plain, op: Op, i: nat)
    requires Shows(s, p) && FreshOp(s, op) && i < |Step(s, op).passed|
    ensures Covered(Step(s, op).passed[i], p.vault, Targets(p, op, SourceOf(s, op)))
  {
    var targets := Targets(p, op, SourceOf(s, op));
    match op
    case Create(password, groupId, now, salt, draw) =>
      CreateCovered(s, p, password, WithDefaultGroup(groupId, now), salt, draw, targets, i);
    case Unlock(password, now, draw) => UnlockCovered(s, p, password, now, draw, targets, i);
    case AutoOpen(_, _, _, _, _) => AutoOpenCovered(s, p, op, Foreign, i);
    case MigratePassword(_, _, _, _, _) => MigrateCovered(s, p, op, Foreign, i);
    case Mutate(_, _, _) => MutateCovered(s, p, op, i);
    case ImportBytes(_, _, _) => ImportCovered(s, p, op, i);
    case TakeSnapshot => UnmovedCovered(s.world, p.vault, targets);
  }

  // -------------------------------------------------------------------- crashes

  lemma CrashKeepsVault(w: World, vault: Option<Locker>, disk: Disk)
    requires Consistent(w, vault) && CrashOf(w.disk, disk)
    ensures Consistent(World(disk, w.log), vault)
  {
  }

  /** After a crash in any world an operation passes, a restarted store holds what the last
      finished operation left, or what this one was storing. */
  lemma CrashRecovers(s: Store, p: Plain, e: Event) returns (q: Plain)
    requires Shows(s, p) && e.Crash? && CanHappen(s, e)
    ensures Shows(Next(s, e), q) && PlainNext(p, Lost(e.op), q)
    ensures OldOrInFlight(p.vault, Targets(p, e.op, SourceOf(s, e.op)), q.vault) && !q.unlocked && q.revision == 0
  {
    var w := Step(s, e.op).passed[e.at];
    EveryWorldIsOldOrInFlight(s, p, e.op, e.at);
    q := RestartFrom(w, p.vault, Targets(p, e.op, SourceOf(s, e.op)), e.disk);
    SourceIsPossible(s, p, e.op);
  }

  lemma RestartFrom(w: World, before: Option<Locker>, targets: seq<Target>, disk: Disk) returns (q: Plain)
    requires Covered(w, before, targets) && CrashOf(w.disk, disk)
    ensures Shows(Restarted(disk, w.log), q) && OldOrInFlight(before, targets, q.vault)
    ensures !q.unlocked && q.revision == 0
  {
    var after :| Consistent(w, after) && OldOrInFlight(before, targets, after);
    CrashKeepsVault(w, after, disk);
    q := Plain(after, false, 0);
  }

  /** What unlocking replies: the document, at the current version, to the one password. */
  ghost predicate OpensOnlyWith(s: Store, owner: string, data: VaultData) {
    forall password, now, draw :: FreshDraw(s.world.log, draw) && Saves(s.world, draw) ==>
      UnlockedBy(s, password, now, draw).reply
      == if password == owner then Snapshot(Migrate(data, now), s.revision) else Failed(InvalidMasterPassword)
  }

  lemma StoredOpensOnlyWith(s: Store, p: Plain)
    requires Shows(s, p) && p.vault.Some?
    ensures OpensOnlyWith(s, p.vault.value.password, p.vault.value.data)
  {
    forall password, now, draw | FreshDraw(s.world.log, draw) && Saves(s.world, draw)
      ensures UnlockedBy(s, password, now, draw).reply
              == if password == p.vault.value.password then Snapshot(Migrate(p.vault.value.data, now), s.revision)
                 else Failed(InvalidMasterPassword)
    {
      UnlockRefines(s, p, password, now, draw);
    }
  }

  /** After a crash during any operation, exactly one password opens the vault: with
      the document that was there before, or with one the operation was storing. */
  lemma CrashDuringOperation(s: Store, p: Plain, e: Event) returns (owner: string, data: VaultData)
    requires Shows(s, p) && p.vault.Some? && e.Crash? && CanHappen(s, e)
    ensures OpensOnlyWith(Next(s, e), owner, data)
    ensures (owner == p.vault.value.password && data == p.vault.value.data)
            || Target(owner, data) in Targets(p, e.op, SourceOf(s, e.op))
  {
    var q := CrashRecovers(s, p, e);
    owner, data := q.vault.value.password, q.vault.value.data;
    StoredOpensOnlyWith(Next(s, e), q);
  }

  lemma MigrateTargets(p: Plain, op: Op, source: Source, t: Target)
    requires op.MigratePassword? && p.vault.Some? && t in Targets(p, op, source)
    ensures t.password == p.vault.value.password || t.password == AUTO_PASSWORD
    ensures t.data == Migrate(p.vault.value.data, op.now)
  {
  }

  /** After a crash during `migrate`, exactly one password opens the vault, the old one or the
      automatic one, and it opens the document that was there (migrated to the current
      version, if a write got through). */
  lemma CrashDuringMigrate(s: Store, p: Plain, e: Event) returns (owner: string, data: VaultData)
    requires Shows(s, p) && p.vault.Some? && e.Crash? && e.op.MigratePassword? && CanHappen(s, e)
    ensures OpensOnlyWith(Next(s, e), owner, data)
    ensures owner == p.vault.value.password || owner == AUTO_PASSWORD
    ensures data == p.vault.value.data || data == Migrate(p.vault.value.data, e.op.now)
  {
    owner, data := CrashDuringOperation(s, p, e);
    if Target(owner, data) in Targets(p, e.op, SourceOf(s, e.op)) {
      MigrateTargets(p, e.op, SourceOf(s, e.op), Target(owner, data));
    }
  }

  // ---------------------------------------------------------------- whole runs

  /** What an observer sees of a run. */
  ghost function Seen(s: Store, events: seq<Event>): seq<Observed>
    requires CanRun(s, events)
    decreases events
  {
    if events == [] then []
    else
      var e := events[0];
      [if e.Done? then Replied(e.op, Step(s, e.op).reply) else Lost(e.op)] + Seen(Next(s, e), events[1..])
  }

  /** Every run with crashes is a run of the plain store with the same replies. */
  lemma {:induction false} RunRefines(s: Store, p: Plain, events: seq<Event>) returns (q: Plain)
    requires Shows(s, p) && CanRun(s, events)
    ensures Shows(After(s, events), q) && PlainRun(p, Seen(s, events), q)
    decreases events
  {
    if events == [] {
      q := p;
    } else {
      var m := EventRefines(s, p, events[0]);
      q := RunRefines(Next(s, events[0]), m, events[1..]);
      var seen := Seen(s, events);
      assert seen[1..] == Seen(Next(s, events[0]), events[1..]);
      assert PlainNext(p, seen[0], m) && PlainRun(m, seen[1..], q);
    }
  }

  lemma EventRefines(s: Store, p: Plain, e: Event) returns (m: Plain)
    requires Shows(s, p) && CanHappen(s, e)
    ensures Shows(Next(s, e), m)
    ensures PlainNext(p, if e.Done? then Replied(e.op, Step(s, e.op).reply) else Lost(e.op), m)
    ensures OldOrInFlight(p.vault, Targets(p, e.op, SourceOf(s, e.op)), m.vault)
  {
    if e.Done? {
      StepRefines(s, p, e.op);
      var chance := ChanceOf(s, e.op);
      m := PlainStep(p, e.op, chance).plain;
      assert PlainStep(p, e.op, chance) == PlainOutcome(m, Step(s, e.op).reply);
      StepIsOldOrInFlight(p, e.op, chance);
      assert chance.source == SourceOf(s, e.op);
    } else {
      m := CrashRecovers(s, p, e);
    }
  }

  // ------------------------------------------------------------- consequences

  lemma EventKeepsSound(s: Store, p: Plain, e: Event, m: Plain, home: string)
    requires Shows(s, p) && CanHappen(s, e) && Sound(p.vault, home)
    requires OldOrInFlight(p.vault, Targets(p, e.op, SourceOf(s, e.op)), m.vault)
    ensures Sound(m.vault, HomeAfter(p, e.op, home))
  {
    SourceIsPossible(s, p, e.op);
    if e.op.Mutate? {
      NewIdsShown(s, p, e.op.edit);
    }
    InFlightIsSound(p, e.op, SourceOf(s, e.op), home, m.vault);
  }

  lemma NewIdsShown(s: Store, p: Plain, edit: Edit)
    requires Shows(s, p) && NewIds(s, edit)
    ensures NewIdsFor(p, edit)
  {
  }

  /** In every run, with crashes and imports, the stored document and the one in memory are
      sound, and once there is a vault its default group never changes. */
  lemma {:induction false} RunKeepsIntegrity(s: Store, p: Plain, events: seq<Event>, home: string)
    returns (q: Plain, at: string)
    requires Shows(s, p) && CanRun(s, events) && Sound(p.vault, home)
    ensures Shows(After(s, events), q) && Sound(q.vault, at)
    ensures p.vault.Some? ==> q.vault.Some? && at == home
    ensures After(s, events).unlocked.Some? ==>
              VaultIntegrity.Integrity(After(s, events).unlocked.value.data, at)
    decreases events
  {
    if events == [] {
      q, at := p, home;
    } else {
      var m := EventRefines(s, p, events[0]);
      EventKeepsSound(s, p, events[0], m, home);
      q, at := RunKeepsIntegrity(Next(s, events[0]), m, events[1..], HomeAfter(p, events[0].op, home));
    }
  }

  /** A new installation: nothing on disk, nothing sealed. */
  lemma FreshStoreShowsNothing(disk: Disk)
    requires VAULT_FILE_NAME !in disk
    ensures Shows(Restarted(disk, map[]), Plain(None, false, 0)) && Sound(None, "")
  {
  }

  /** Every document that a run of a new installation has in memory is sound. */
  lemma ReachableDocumentIsSound(disk: Disk, events: seq<Event>) returns (home: string)
    requires VAULT_FILE_NAME !in disk && CanRun(Restarted(disk, map[]), events)
    requires After(Restarted(disk, map[]), events).unlocked.Some?
    ensures VaultIntegrity.Integrity(After(Restarted(disk, map[]), events).unlocked.value.data, home)
  {
    FreshStoreShowsNothing(disk);
    var q;
    q, home := RunKeepsIntegrity(Restarted(disk, map[]), Plain(None, false, 0), events, "");
  }

  /** No event of the run acknowledges a document: operations are refused, answer only that the
      store is ready, or are lost in a crash. */
  ghost predicate Unacknowledged(s: Store, events: seq<Event>)
    requires CanRun(s, events)
    decreases events
  {
    events == []
    || ((events[0].Done? ==> !Step(s, events[0].op).reply.Snapshot?) && Unacknowledged(Next(s, events[0]), events[1..]))
  }

  /** Some event of the run sets out to store `t`. */
  ghost predicate SetOut(s: Store, events: seq<Event>, t: Target)
    requires CanRun(s, events)
    decreases events
  {
    events != []
    && (SetsOut(s, events[0].op, t) || SetOut(Next(s, events[0]), events[1..], t))
  }

  ghost predicate SetsOut(s: Store, op: Op, t: Target) {
    exists p :: Shows(s, p) && t in Targets(p, op, SourceOf(s, op))
  }

  /** Whatever a run leaves was there before it, or some operation of it set out to store it. */
  lemma {:induction false} RunLeavesOldOrSetOut(s: Store, p: Plain, events: seq<Event>) returns (q: Plain)
    requires Shows(s, p) && p.vault.Some? && CanRun(s, events)
    ensures Shows(After(s, events), q) && q.vault.Some?
    ensures (q.vault.value.password == p.vault.value.password && q.vault.value.data == p.vault.value.data)
            || SetOut(s, events, Target(q.vault.value.password, q.vault.value.data))
    decreases events
  {
    if events == [] {
      q := p;
    } else {
      var m := EventRefines(s, p, events[0]);
      var t := Target(m.vault.value.password, m.vault.value.data);
      assert t in Targets(p, events[0].op, SourceOf(s, events[0].op)) ==> SetsOut(s, events[0].op, t);
      q := RunLeavesOldOrSetOut(Next(s, events[0]), m, events[1..]);
    }
  }

  /** In any run: once a document has been acknowledged, then after any number of operations
      that acknowledge nothing and of crashes, exactly one password opens the vault, and with it
      the acknowledged document or one that such a later operation set out to store. */
  lemma AcknowledgedSurvives(s: Store, p: Plain, events: seq<Event>, op: Op, later: seq<Event>)
    returns (owner: string, data: VaultData)
    requires Shows(s, p) && CanRun(s, events)
    requires FreshOp(After(s, events), op) && Step(After(s, events), op).reply.Snapshot?
    requires CanRun(Step(After(s, events), op).store, later)
    requires Unacknowledged(Step(After(s, events), op).store, later)
    ensures var t, reply := Step(After(s, events), op).store, Step(After(s, events), op).reply;
            && OpensOnlyWith(After(t, later), owner, data)
            && (data == reply.data || SetOut(t, later, Target(owner, data)))
  {
    var m := RunRefines(s, p, events);
    StepRefines(After(s, events), m, op);
    var chance := ChanceOf(After(s, events), op);
    AcknowledgedIsStored(m, op, chance);
    var q := RunLeavesOldOrSetOut(Step(After(s, events), op).store, PlainStep(m, op, chance).plain, later);
    owner, data := q.vault.value.password, q.vault.value.data;
    StoredOpensOnlyWith(After(Step(After(s, events), op).store, later), q);
  }

  /** Whenever the store is unlocked, memory mirrors the file: its document is what the file
      decrypts to with the key in memory, and that key is the one derived from the password
      with the salt and the parameters of the file. */
  lemma MemoryMirrorsDisk(s: Store, p: Plain, events: seq<Event>) returns (password: string)
    requires Shows(s, p) && CanRun(s, events) && After(s, events).unlocked.Some?
    ensures var t := After(s, events);
            && Readable(t.world.disk)
            && t.unlocked.value.key == DiskKey(t.world.disk, password)
            && Open(t.world.log, t.unlocked.value.key, Codec.Decode(t.world.disk[VAULT_FILE_NAME].bytes).vault)
               == Some(t.unlocked.value.data)
  {
    var q := RunRefines(s, p, events);
    password := q.vault.value.password;
  }

  /** A refused mutate or import leaves memory, revision and vault file as they were, and
      with a working clean-up the whole disk. */
  lemma RefusalChangesNothing(s: Store, op: Op)
    requires (op.Mutate? || op.ImportBytes?) && Step(s, op).reply.Failed?
    ensures Undisturbed(s, op.draw, Step(s, op).store)
  {
    if op.Mutate? {
      RefusedMutation(s, op.edit, op.now, op.draw);
    } else {
      RefusedImport(s, Codec.Decode(op.bytes), op.now, op.draw);
    }
  }

  lemma RefusedMutation(s: Store, edit: Edit, now: int, draw: Draw)
    requires Performed(s, edit, now, draw).reply.Failed?
    ensures Undisturbed(s, draw, Performed(s, edit, now, draw).store)
  {
    if s.unlocked.Some? && Apply(s.unlocked.value.data, edit).Ok? {
      var key, data := s.unlocked.value.key, Apply(s.unlocked.value.data, edit).data.(updatedAt := now);
      RefusedCommit(s, key, data, draw);
    }
  }

  lemma RefusedCommit(s: Store, key: Key, data: VaultData, draw: Draw)
    ensures var o := Commit(s, key, data, draw, true);
            o.reply.Failed? ==> Undisturbed(s, draw, o.store)
  {
    if !Saves(s.world, draw) {
      FailedSave(s.world.disk, key, draw);
    }
  }

  lemma RefusedImport(s: Store, read: Codec.Decoded, now: int, draw: Draw)
    requires ImportedVault(s, read, now, draw).reply.Failed?
    ensures Undisturbed(s, draw, ImportedVault(s, read, now, draw).store)
  {
    if read.Ok? && s.unlocked.Some? {
      var data := Open(s.world.log, s.unlocked.value.key, read.vault);
      if data.Some? {
        RefusedCommit(s, s.unlocked.value.key, Migrate(data.value, now), draw);
      }
    }
  }

  /** Memory, revision and vault file of `t` are those of `s`; with a working clean-up, the whole disk. */
  predicate Undisturbed(s: Store, draw: Draw, t: Store) {
    && t.unlocked == s.unlocked && t.revision == s.revision
    && At(t.world.disk, VAULT_FILE_NAME) == At(s.world.disk, VAULT_FILE_NAME)
    && (draw.io.cleans && TempOf(draw) !in s.world.disk ==> t.world.disk == s.world.disk)
  }

  lemma FailedSave(disk: Disk, key: Key, draw: Draw)
    requires !Written(disk, TempOf(draw), draw.io)
    ensures At(Final(DiskTrace(disk, key, draw)), VAULT_FILE_NAME) == At(disk, VAULT_FILE_NAME)
    ensures draw.io.cleans && TempOf(draw) !in disk ==> Final(DiskTrace(disk, key, draw)) == disk
  {
    var bytes := Codec.Encode(VaultOf(key, draw));
    EveryStateIsOldOrNew(disk, VAULT_FILE_NAME, draw.uuid, bytes, draw.io, |DiskTrace(disk, key, draw)| - 1);
    if TempOf(draw) !in disk {
      EndOfWrite(disk, VAULT_FILE_NAME, draw.uuid, bytes, draw.io);
    }
  }

  /** Every document sealed under the key in use can be imported: its file is accepted. */
  lemma BackupsCanBeImported(s: Store, p: Plain, d: VaultData) returns (bytes: seq<Byte>)
    requires Shows(s, p) && p.unlocked && d in p.vault.value.backups
    ensures SourceFrom(s, Codec.Decode(bytes)) == Backup(d)
    ensures forall now, draw :: SourceOf(s, ImportBytes(bytes, now, draw)) == Backup(d)
  {
    var key := s.unlocked.value.key;
    var sealing :| sealing in s.world.log && sealing.key == key && s.world.log[sealing] == d;
    assert SealedWell(sealing);
    bytes := FileOf(sealing);
    assert SourceFrom(s, Codec.Decode(bytes)) == Backup(d);
  }

  /** The vault file of a sealing decodes to a vault with that sealing. */
  lemma FileOf(sealing: Sealing) returns (bytes: seq<Byte>)
    requires SealedWell(sealing)
    ensures Codec.Decode(bytes).Ok? && SealingOf(sealing.key, Codec.Decode(bytes).vault) == sealing
  {
    var vault := Codec.EncryptedVault(sealing.key.params, sealing.key.salt, sealing.nonce, sealing.ciphertext);
    Codec.DecodeEncode(vault);
    bytes := Codec.Encode(vault);
  }

  lemma SameSealingSameVault(key: Key, a: Codec.EncryptedVault, b: Codec.EncryptedVault)
    requires Codec.WellFormed(a) && Codec.WellFormed(b) && SealingOf(key, a) == SealingOf(key, b)
    ensures a == b
  {
    Codec.DecodeEncode(a);
    Codec.DecodeEncode(b);
  }

  lemma FreshKeyOpensOnlyItsOwn(log: Log, key: Key, data: VaultData, draw: Draw, vault: Codec.EncryptedVault)
    requires FreshSalt(log, key.salt) && FreshDraw(log, draw) && Codec.Supported(key.params) && Codec.WellFormed(vault)
    ensures Open(Seal(log, key, data, draw), key, vault) == if vault == VaultOf(key, draw) then Some(data) else None
  {
    if SealingOf(key, vault) in Seal(log, key, data, draw) {
      assert SealingOf(key, vault) !in log;
      SameSealingSameVault(key, vault, VaultOf(key, draw));
    }
  }

  /** After a change of key exactly one payload can be imported: the vault file it wrote. */
  lemma RekeyLeavesOnePayload(s: Store, key: Key, data: VaultData, draw: Draw, bytes: seq<Byte>, now: int, d: Draw)
    requires FreshSalt(s.world.log, key.salt) && FreshDraw(s.world.log, draw) && Codec.Supported(key.params)
    requires Saves(s.world, draw)
    ensures var t := Commit(s, key, data, draw, false).store;
            && (SourceOf(t, ImportBytes(bytes, now, d)).Backup? <==> Codec.Decode(bytes) == Codec.Ok(VaultOf(key, draw)))
            && (SourceOf(t, ImportBytes(bytes, now, d)).Backup? ==> SourceOf(t, ImportBytes(bytes, now, d)) == Backup(data))
  {
    var read := Codec.Decode(bytes);
    if read.Ok? {
      Codec.DecodedIsWellFormed(bytes);
      FreshKeyOpensOnlyItsOwn(s.world.log, key, data, draw, read.vault);
    }
  }

  /** So every backup that could be imported before is foreign to the workspace afterwards. */
  lemma RekeyOrphansBackups(s: Store, key: Key, data: VaultData, draw: Draw, bytes: seq<Byte>, now: int, d: Draw)
    requires FreshSalt(s.world.log, key.salt) && FreshDraw(s.world.log, draw) && Codec.Supported(key.params)
    requires Saves(s.world, draw) && SourceOf(s, ImportBytes(bytes, now, d)).Backup?
    ensures SourceOf(Commit(s, key, data, draw, false).store, ImportBytes(bytes, now, d)) == Foreign
  {
    var read := Codec.Decode(bytes);
    RekeyLeavesOnePayload(s, key, data, draw, bytes, now, d);
    assert SealingOf(s.unlocked.value.key, read.vault) in s.world.log;
    assert read.vault.nonce != draw.nonce;
  }

  /** The silent upgrade of `auto_open` does this. */
  lemma UpgradeOrphansBackups(s: Store, salt: Codec.Salt, draw: Draw, bytes: seq<Byte>, now: int, d: Draw)
    requires FreshSalt(s.world.log, salt) && FreshDraw(s.world.log, draw) && Saves(s.world, draw)
    requires s.unlocked.Some? && IsSlow(s.unlocked.value.key.params)
    requires SourceOf(s, ImportBytes(bytes, now, d)).Backup?
    ensures SourceOf(Upgraded(s, salt, draw).store, ImportBytes(bytes, now, d)) == Foreign
  {
    ParamsSupported(AUTO_PASSWORD);
    RekeyOrphansBackups(s, Key(AUTO_PASSWORD, salt, KDF_PARAMS_FAST), s.unlocked.value.data, draw, bytes, now, d);
  }

  /** And so does `migrate`, to every backup that the old password's key opens. */
  lemma MigrateOrphansBackups(s: Store, p: Plain, op: Op, bytes: seq<Byte>, now: int, d: Draw)
    requires op.MigratePassword? && Shows(s, p) && FreshOp(s, op) && Step(s, op).reply.Snapshot?
    requires SourceOf(UnlockedBy(s, op.password, op.now, op.draw).store, ImportBytes(bytes, now, d)).Backup?
    ensures SourceOf(Step(s, op).store, ImportBytes(bytes, now, d)) == Foreign
  {
    var o := UnlockedBy(s, op.password, op.now, op.draw);
    UnlockRefines(s, p, op.password, op.now, op.draw);
    OpenedDocument(p, op.password, op.now, Saves(s.world, op.draw));
    StillFresh(s, p, op.password, op.now, op.draw, op.salt, op.again);
    ParamsSupported(AUTO_PASSWORD);
    RekeyOrphansBackups(o.store, Key(AUTO_PASSWORD, op.salt, KDF_PARAMS_FAST), o.store.unlocked.value.data, op.again,
                        bytes, now, d);
  }

  // ------------------------------------------------------------ a concrete run

  function ZeroDraw(first: Byte, uuid: string): Draw {
    Draw([first] + seq(23, _ => 0), seq(16, _ => 0), uuid, Io(NoFault, 0, true))
  }

  function FirstKey(): Key {
    Key("secret", seq(16, _ => 0), KDF_PARAMS_CURRENT)
  }

  function CreateOp(): Op {
    Create("secret", "home", 0, FirstKey().salt, ZeroDraw(0, "a"))
  }

  function EditOp(): Op {
    Mutate(UpdateOther("x"), 1, ZeroDraw(1, "b"))
  }

  lemma FirstStep(s: Store)
    requires s == Restarted(map[], map[])
    ensures FreshOp(s, CreateOp())
    ensures var t := Step(s, CreateOp()).store;
            && t.unlocked == Some(Unlocked(WithDefaultGroup("home", 0), FirstKey())) && t.revision == 0
            && t.world.log == Seal(map[], FirstKey(), WithDefaultGroup("home", 0), ZeroDraw(0, "a"))
            && t.world.disk == Final(DiskTrace(map[], FirstKey(), ZeroDraw(0, "a")))
  {
  }

  lemma SecondStep(s: Store, t: Store)
    requires s == Restarted(map[], map[]) && t == Step(s, CreateOp()).store
    ensures FreshOp(t, EditOp())
    ensures var u := Step(t, EditOp()).store;
            u.unlocked.Some? && u.revision == 1 && u.unlocked.value.data.other == "x"
  {
    FirstStep(s);
    CreatedDisk(FirstKey());
    DistinctDraws(FirstKey(), WithDefaultGroup("home", 0));
    EditSaved(t);
  }

  lemma EditSaved(t: Store)
    requires t.unlocked.Some? && t.revision == 0 && Saves(t.world, ZeroDraw(1, "b"))
    ensures var u := Step(t, EditOp()).store;
            u.unlocked.Some? && u.revision == 1 && u.unlocked.value.data.other == "x"
  {
  }

  lemma DistinctDraws(key: Key, data: VaultData)
    ensures FreshDraw(Seal(map[], key, data, ZeroDraw(0, "a")), ZeroDraw(1, "b"))
  {
    assert ZeroDraw(0, "a").nonce[0] != ZeroDraw(1, "b").nonce[0];
  }

  lemma TwoEvents(s: Store, first: Event, second: Event)
    requires CanHappen(s, first) && CanHappen(Next(s, first), second)
    ensures CanRun(s, [first, second]) && After(s, [first, second]) == Next(Next(s, first), second)
  {
    var t := Next(s, first);
    assert [first, second][1..] == [second] && [second][1..] == [];
    assert CanRun(Next(t, second), []);
    assert CanRun(t, [second]) && After(t, [second]) == Next(t, second);
  }

  /** The freshness conditions can be met: a new installation creates a vault and edits it. */
  lemma ConcreteRun(s: Store)
    requires s == Restarted(map[], map[])
    ensures CanRun(s, [Done(CreateOp()), Done(EditOp())])
    ensures var t := After(s, [Done(CreateOp()), Done(EditOp())]);
            t.unlocked.Some? && t.revision == 1 && t.unlocked.value.data.other == "x"
  {
    FirstStep(s);
    SecondStep(s, Step(s, CreateOp()).store);
    TwoEvents(s, Done(CreateOp()), Done(EditOp()));
  }

  lemma CreatedDisk(key: Key)
    ensures TempOf(ZeroDraw(1, "b")) !in Final(DiskTrace(map[], key, ZeroDraw(0, "a")))
  {
    var disk := Final(DiskTrace(map[], key, ZeroDraw(0, "a")));
    TempIsAnotherFile(VAULT_FILE_NAME, "b");
    EndOfWrite(map[], VAULT_FILE_NAME, "a", Codec.Encode(VaultOf(key, ZeroDraw(0, "a"))), Io(NoFault, 0, true));
    assert disk == map[][VAULT_FILE_NAME := File(Codec.Encode(VaultOf(key, ZeroDraw(0, "a"))), true)];
  }
}
