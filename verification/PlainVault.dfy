/** The store a user believes in: a password and a document, no files and no ciphers.  The
    encrypted store refines it (module VaultRefinement). */
module PlainVault {
  import opened Options
  import opened VaultDocument
  import opened VaultStore
  import Integrity = VaultIntegrity

  /** What is kept: the document, the password that opens it, whether its key is slow to
      derive, and the documents sealed so far under that key, which are the ones a backup
      can bring back. */
  datatype Locker = Locker(password: string, data: VaultData, slow: bool, backups: set<VaultData>)

  datatype Plain = Plain(vault: Option<Locker>, unlocked: bool, revision: nat)
  datatype PlainOutcome = PlainOutcome(plain: Plain, reply: Reply)

  /** What an imported payload is: not a vault file, a file not sealed under the current key,
      or one of the backups. */
  datatype Source = Broken(error: Error) | Foreign | Backup(data: VaultData)

  /** What the environment decides: whether the first and the second write of an operation
      succeed, and what an imported payload is. */
  datatype Chance = Chance(first: bool, second: bool, source: Source)

  /** Only a document sealed under the current key comes out of a payload. */
  predicate Possible(p: Plain, source: Source) {
    source.Backup? && p.unlocked && p.vault.Some? ==> source.data in p.vault.value.backups
  }

  // ------------------------------------------------------------------ operations

  function PlainRefused(p: Plain, error: Error): PlainOutcome {
    PlainOutcome(p, Failed(error))
  }

  function PlainRekey(p: Plain, password: string, slow: bool, data: VaultData, ok: bool): PlainOutcome {
    if ok then PlainOutcome(Plain(Some(Locker(password, data, slow, {data})), true, p.revision),
                            Snapshot(data, p.revision))
    else PlainRefused(p, IoError)
  }

  function PlainSave(p: Plain, data: VaultData, ok: bool, bump: bool): PlainOutcome
    requires p.vault.Some?
  {
    var sealed := p.vault.value.(backups := p.vault.value.backups + {data});
    var revision := if bump then Bumped(p.revision) else p.revision;
    if ok then PlainOutcome(Plain(Some(sealed.(data := data)), true, revision), Snapshot(data, revision))
    else PlainRefused(p.(vault := Some(sealed)), IoError)
  }

  function PlainCreate(p: Plain, password: string, data: VaultData, ok: bool): PlainOutcome {
    if p.vault.Some? then PlainRefused(p, VaultAlreadyExists)
    else if |password| < MIN_MASTER_PASSWORD_LEN then PlainRefused(p, BadInput)
    else PlainRekey(p, password, IsSlow(ParamsFor(password)), data, ok)
  }

  function PlainUnlock(p: Plain, password: string, now: int, ok: bool): PlainOutcome {
    if p.vault.None? then PlainRefused(p, VaultNotFound)
    else if password != p.vault.value.password then PlainRefused(p, InvalidMasterPassword)
    else if Settled(p.vault.value.data) then
      PlainOutcome(p.(unlocked := true), Snapshot(p.vault.value.data, p.revision))
    else PlainSave(p, Migrate(p.vault.value.data, now), ok, false)
  }

  predicate Settled(data: VaultData) {
    MigratedData(data) == data
  }

  function PlainUpgrade(p: Plain, ok: bool): PlainOutcome {
    if p.unlocked && p.vault.Some? && p.vault.value.slow then
      PlainRekey(p, AUTO_PASSWORD, false, p.vault.value.data, ok).(reply := Ready)
    else PlainOutcome(p, Ready)
  }

  function PlainAutoOpen(p: Plain, data: VaultData, now: int, first: bool, second: bool): PlainOutcome {
    if p.vault.None? then
      var o := PlainCreate(p, AUTO_PASSWORD, data, first);
      if o.reply.Failed? then o else o.(reply := Ready)
    else
      var o := PlainUnlock(p, AUTO_PASSWORD, now, first);
      if o.reply.Snapshot? then PlainUpgrade(o.plain, second)
      else if o.reply == Failed(InvalidMasterPassword) then o.(reply := NeedsMigration)
      else o
  }

  function PlainMigrate(p: Plain, password: string, now: int, first: bool, second: bool): PlainOutcome {
    var o := PlainUnlock(p, password, now, first);
    if o.reply.Snapshot? then PlainRekey(o.plain, AUTO_PASSWORD, false, o.reply.data, second) else o
  }

  function PlainMutate(p: Plain, edit: Edit, now: int, ok: bool): PlainOutcome {
    if !p.unlocked || p.vault.None? then PlainRefused(p, VaultLocked)
    else if AlreadySo(p.vault.value.data, edit) then PlainShow(p)
    else PlainEdit(p, Apply(p.vault.value.data, edit), now, ok)
  }

  function PlainEdit(p: Plain, next: Edited, now: int, ok: bool): PlainOutcome
    requires p.vault.Some?
  {
    if next.Err? then PlainRefused(p, EditFailure(next.error))
    else PlainSave(p, next.data.(updatedAt := now), ok, true)
  }

  function PlainImport(p: Plain, source: Source, now: int, ok: bool): PlainOutcome {
    if source.Broken? then PlainRefused(p, source.error)
    else if !p.unlocked || p.vault.None? then PlainRefused(p, VaultLocked)
    else if source.Foreign? then PlainRefused(p, BadInput)
    else PlainSave(p, Migrate(source.data, now), ok, true)
  }

  function PlainShow(p: Plain): PlainOutcome {
    if !p.unlocked || p.vault.None? then PlainRefused(p, VaultLocked)
    else PlainOutcome(p, Snapshot(p.vault.value.data, p.revision))
  }

  function PlainStep(p: Plain, op: Op, chance: Chance): PlainOutcome {
    match op
    case Create(password, groupId, now, _, _) =>
      PlainCreate(p, password, WithDefaultGroup(groupId, now), chance.first)
    case Unlock(password, now, _) => PlainUnlock(p, password, now, chance.first)
    case AutoOpen(groupId, now, _, _, _) =>
      PlainAutoOpen(p, WithDefaultGroup(groupId, now), now, chance.first, chance.second)
    case MigratePassword(password, now, _, _, _) => PlainMigrate(p, password, now, chance.first, chance.second)
    case Mutate(edit, now, _) => PlainMutate(p, edit, now, chance.first)
    case ImportBytes(_, now, _) => PlainImport(p, chance.source, now, chance.first)
    case TakeSnapshot => PlainShow(p)
  }

  // -------------------------------------------------------------------- crashes

  /** What an operation is about to store: the password and document of each of its writes. */
  datatype Target = Target(password: string, data: VaultData)

  function UnlockTargets(p: Plain, password: string, now: int): seq<Target> {
    if p.vault.None? || password != p.vault.value.password || Settled(p.vault.value.data) then []
    else [Target(password, Migrate(p.vault.value.data, now))]
  }

  /** The writes of an operation, in order, if each succeeds. */
  function Targets(p: Plain, op: Op, source: Source): seq<Target> {
    match op
    case Create(password, groupId, now, _, _) =>
      if p.vault.Some? || |password| < MIN_MASTER_PASSWORD_LEN then []
      else [Target(password, WithDefaultGroup(groupId, now))]
    case Unlock(password, now, _) => UnlockTargets(p, password, now)
    case AutoOpen(groupId, now, _, _, _) =>
      if p.vault.None? then [Target(AUTO_PASSWORD, WithDefaultGroup(groupId, now))]
      else if p.vault.value.password == AUTO_PASSWORD then
        UnlockTargets(p, AUTO_PASSWORD, now) + [Target(AUTO_PASSWORD, Migrate(p.vault.value.data, now))]
      else []
    case MigratePassword(password, now, _, _, _) =>
      if p.vault.Some? && p.vault.value.password == password then
        UnlockTargets(p, password, now) + [Target(AUTO_PASSWORD, Migrate(p.vault.value.data, now))]
      else []
    case Mutate(edit, now, _) =>
      if p.unlocked && p.vault.Some? && !AlreadySo(p.vault.value.data, edit) && Apply(p.vault.value.data, edit).Ok? then
        [Target(p.vault.value.password, Apply(p.vault.value.data, edit).data.(updatedAt := now))]
      else []
    case ImportBytes(_, now, _) =>
      if p.unlocked && p.vault.Some? && source.Backup? then
        [Target(p.vault.value.password, Migrate(source.data, now))]
      else []
    case TakeSnapshot => []
  }

  predicate TargetsHold(targets: seq<Target>, data: VaultData) {
    exists j :: 0 <= j < |targets| && targets[j].data == data
  }

  /** `after` is what was there before, or one of the targets; the backups are those there
      were, and at most the targets' documents. */
  predicate OldOrInFlight(before: Option<Locker>, targets: seq<Target>, after: Option<Locker>) {
    match after
    case None => before.None?
    case Some(l) =>
      && ((before.Some? && l.password == before.value.password && l.data == before.value.data)
          || Target(l.password, l.data) in targets)
      && forall d :: d in l.backups ==> (before.Some? && d in before.value.backups) || TargetsHold(targets, d)
  }

  /** What an observer of the store sees. */
  datatype Observed = Replied(op: Op, reply: Reply) | Lost(op: Op)

  ghost predicate PlainNext(p: Plain, seen: Observed, q: Plain) {
    match seen
    case Replied(op, reply) =>
      exists chance: Chance :: Possible(p, chance.source) && PlainStep(p, op, chance) == PlainOutcome(q, reply)
    case Lost(op) =>
      && !q.unlocked && q.revision == 0
      && exists source :: Possible(p, source) && OldOrInFlight(p.vault, Targets(p, op, source), q.vault)
  }

  ghost predicate PlainRun(p: Plain, seen: seq<Observed>, q: Plain)
    decreases seen
  {
    if seen == [] then p == q
    else exists m :: PlainNext(p, seen[0], m) && PlainRun(m, seen[1..], q)
  }

  // --------------------------------------------------- what a reply says of the store

  /** An acknowledged document is the one stored, at the revision told; after `Ready` the
      store is open. */
  lemma AcknowledgedIsStored(p: Plain, op: Op, chance: Chance)
    requires p.unlocked ==> p.vault.Some?
    ensures var o := PlainStep(p, op, chance);
            && (o.plain.unlocked ==> o.plain.vault.Some?)
            && (o.reply.Snapshot? ==> o.plain.unlocked && o.plain.vault.value.data == o.reply.data
                                      && o.plain.revision == o.reply.revision)
            && (o.reply.Ready? ==> o.plain.unlocked && o.plain.vault.value.password == AUTO_PASSWORD)
  {
    match op
    case AutoOpen(groupId, now, _, _, _) =>
      if p.vault.None? {
        assert |AUTO_PASSWORD| >= MIN_MASTER_PASSWORD_LEN;
      }
    case _ =>
  }

  /** A refused operation keeps the password, the revision and the document; only the
      migration of an old document may have been stored by a `migrate` that then failed. */
  lemma RefusedKeepsDocument(p: Plain, op: Op, chance: Chance)
    requires p.unlocked ==> p.vault.Some?
    requires PlainStep(p, op, chance).reply.Failed? || PlainStep(p, op, chance).reply.NeedsMigration?
    ensures var q := PlainStep(p, op, chance).plain;
            && q.revision == p.revision
            && q.vault.Some? == p.vault.Some?
            && (p.vault.Some? ==> q.vault.value.password == p.vault.value.password)
            && (p.vault.Some? ==> q.vault.value.data == p.vault.value.data
                                  || (op.MigratePassword? && q.vault.value.data == Migrate(p.vault.value.data, op.now)))
            && (!op.MigratePassword? ==> q.unlocked == p.unlocked)
  {
    match op
    case Unlock(password, now, _) => RefusedUnlock(p, password, now, chance.first);
    case AutoOpen(_, now, _, _, _) => RefusedAutoOpen(p, op, chance);
    case MigratePassword(password, now, _, _, _) => RefusedMigrate(p, password, now, chance.first, chance.second);
    case _ =>
  }

  /** Same password, document, revision and lock. */
  predicate KeptBy(p: Plain, q: Plain) {
    && q.revision == p.revision && q.unlocked == p.unlocked && q.vault.Some? == p.vault.Some?
    && (p.vault.Some? ==> q.vault.value.password == p.vault.value.password && q.vault.value.data == p.vault.value.data)
  }

  lemma RefusedUnlock(p: Plain, password: string, now: int, ok: bool)
    requires PlainUnlock(p, password, now, ok).reply.Failed?
    ensures KeptBy(p, PlainUnlock(p, password, now, ok).plain)
  {
  }

  lemma RefusedAutoOpen(p: Plain, op: Op, chance: Chance)
    requires op.AutoOpen? && (PlainStep(p, op, chance).reply.Failed? || PlainStep(p, op, chance).reply.NeedsMigration?)
    ensures KeptBy(p, PlainStep(p, op, chance).plain)
  {
    if p.vault.Some? && PlainUnlock(p, AUTO_PASSWORD, op.now, chance.first).reply.Failed? {
      RefusedUnlock(p, AUTO_PASSWORD, op.now, chance.first);
    }
  }

  lemma RefusedMigrate(p: Plain, password: string, now: int, first: bool, second: bool)
    requires PlainMigrate(p, password, now, first, second).reply.Failed?
    ensures var q := PlainMigrate(p, password, now, first, second).plain;
            && q.revision == p.revision && q.vault.Some? == p.vault.Some?
            && (p.vault.Some? ==> q.vault.value.password == p.vault.value.password
                                  && (q.vault.value.data == p.vault.value.data
                                      || q.vault.value.data == Migrate(p.vault.value.data, now)))
  {
    if PlainUnlock(p, password, now, first).reply.Failed? {
      RefusedUnlock(p, password, now, first);
    } else {
      OpenedDocument(p, password, now, first);
    }
  }

  // ------------------------------------------------------------------- integrity

  /** The document and every backup of it are sound, and share the default group. */
  ghost predicate Sound(vault: Option<Locker>, home: string) {
    vault.Some? ==>
      && Integrity.Integrity(vault.value.data, home)
      && forall d :: d in vault.value.backups ==> Integrity.Integrity(d, home)
  }

  predicate NewIdsFor(p: Plain, edit: Edit) {
    p.unlocked && p.vault.Some? ==> Integrity.FreshIds(p.vault.value.data, edit)
  }

  lemma TouchedIntegrity(data: VaultData, home: string, now: int)
    requires Integrity.Integrity(data, home)
    ensures Integrity.Integrity(data.(updatedAt := now), home)
  {
  }

  /** The default group of the vault `op` leaves: the one it had, or the one `op` creates. */
  function HomeAfter(p: Plain, op: Op, home: string): string {
    if p.vault.Some? then home
    else match op
         case Create(_, groupId, _, _, _) => groupId
         case AutoOpen(groupId, _, _, _, _) => groupId
         case _ => home
  }

  /** Whatever an operation is about to store is sound. */
  lemma TargetsAreSound(p: Plain, op: Op, source: Source, home: string, t: Target)
    requires Sound(p.vault, home) && Possible(p, source) && t in Targets(p, op, source)
    requires op.Mutate? ==> NewIdsFor(p, op.edit)
    ensures Integrity.Integrity(t.data, HomeAfter(p, op, home))
  {
    if p.vault.None? {
      CreatedSound(op, t);
    } else {
      var data := p.vault.value.data;
      match op
      case Mutate(edit, now, _) =>
        Integrity.ApplyKeepsIntegrity(data, home, edit);
        TouchedIntegrity(Apply(data, edit).data, home, now);
      case ImportBytes(_, now, _) =>
        Integrity.MigrationSettles(source.data, home, now, now);
      case Unlock(_, now, _) =>
        Integrity.MigrationSettles(data, home, now, now);
      case AutoOpen(_, now, _, _, _) =>
        Integrity.MigrationSettles(data, home, now, now);
      case MigratePassword(_, now, _, _, _) =>
        Integrity.MigrationSettles(data, home, now, now);
      case _ =>
    }
  }

  lemma CreatedSound(op: Op, t: Target)
    requires t in Targets(Plain(None, false, 0), op, Foreign)
    ensures Integrity.Integrity(t.data, HomeAfter(Plain(None, false, 0), op, ""))
  {
    match op
    case Create(_, groupId, now, _, _) => Integrity.CreatedIntegrity(groupId, now);
    case AutoOpen(groupId, now, _, _, _) => Integrity.CreatedIntegrity(groupId, now);
    case _ =>
  }

  /** A vault that is what it was or what was in flight is sound. */
  lemma InFlightIsSound(p: Plain, op: Op, source: Source, home: string, after: Option<Locker>)
    requires Sound(p.vault, home) && Possible(p, source) && OldOrInFlight(p.vault, Targets(p, op, source), after)
    requires op.Mutate? ==> NewIdsFor(p, op.edit)
    ensures Sound(after, HomeAfter(p, op, home))
  {
    if after.Some? {
      var targets := Targets(p, op, source);
      if Target(after.value.password, after.value.data) in targets {
        TargetsAreSound(p, op, source, home, Target(after.value.password, after.value.data));
      }
      forall d | d in after.value.backups
        ensures Integrity.Integrity(d, HomeAfter(p, op, home))
      {
        if !(p.vault.Some? && d in p.vault.value.backups) {
          var j :| 0 <= j < |targets| && targets[j].data == d;
          TargetsAreSound(p, op, source, home, targets[j]);
        }
      }
    }
  }

  lemma SaveLands(p: Plain, data: VaultData, ok: bool, bump: bool, targets: seq<Target>)
    requires p.vault.Some? && Target(p.vault.value.password, data) in targets
    ensures OldOrInFlight(p.vault, targets, PlainSave(p, data, ok, bump).plain.vault)
  {
    assert TargetsHold(targets, data);
  }

  lemma RekeyLands(before: Option<Locker>, p: Plain, password: string, slow: bool, data: VaultData, ok: bool,
                   targets: seq<Target>)
    requires OldOrInFlight(before, targets, p.vault) && Target(password, data) in targets
    ensures OldOrInFlight(before, targets, PlainRekey(p, password, slow, data, ok).plain.vault)
  {
    assert TargetsHold(targets, data);
  }

  lemma UnlockLands(p: Plain, password: string, now: int, ok: bool, targets: seq<Target>)
    requires p.unlocked ==> p.vault.Some?
    requires forall t :: t in UnlockTargets(p, password, now) ==> t in targets
    ensures OldOrInFlight(p.vault, targets, PlainUnlock(p, password, now, ok).plain.vault)
  {
    if p.vault.Some? && password == p.vault.value.password && !Settled(p.vault.value.data) {
      var t := Target(password, Migrate(p.vault.value.data, now));
      assert t in UnlockTargets(p, password, now);
      SaveLands(p, t.data, ok, false, targets);
    }
  }

  lemma OpenedDocument(p: Plain, password: string, now: int, ok: bool)
    requires PlainUnlock(p, password, now, ok).reply.Snapshot?
    ensures p.vault.Some? && p.vault.value.password == password
    ensures var o := PlainUnlock(p, password, now, ok);
            && o.plain.vault.Some? && o.plain.vault.value.data == o.reply.data
            && o.reply.data == Migrate(p.vault.value.data, now) && o.plain.unlocked
  {
  }

  /** A completed operation leaves the old vault or a target, too. */
  lemma StepIsOldOrInFlight(p: Plain, op: Op, chance: Chance)
    requires p.unlocked ==> p.vault.Some?
    ensures OldOrInFlight(p.vault, Targets(p, op, chance.source), PlainStep(p, op, chance).plain.vault)
  {
    var targets := Targets(p, op, chance.source);
    match op
    case Create(password, groupId, now, _, _) =>
      if targets != [] {
        RekeyLands(p.vault, p, password, IsSlow(ParamsFor(password)), targets[0].data, chance.first, targets);
      }
    case Unlock(password, now, _) => UnlockLands(p, password, now, chance.first, targets);
    case AutoOpen(_, now, _, _, _) => AutoOpenLands(p, op, chance);
    case MigratePassword(password, now, _, _, _) =>
      UnlockLands(p, password, now, chance.first, targets);
      var o := PlainUnlock(p, password, now, chance.first);
      if o.reply.Snapshot? {
        OpenedDocument(p, password, now, chance.first);
        RekeyLands(p.vault, o.plain, AUTO_PASSWORD, false, o.reply.data, chance.second, targets);
      }
    case Mutate(edit, now, _) =>
      if targets != [] {
        SaveLands(p, targets[0].data, chance.first, true, targets);
      }
    case ImportBytes(_, now, _) =>
      if targets != [] {
        SaveLands(p, targets[0].data, chance.first, true, targets);
      }
    case TakeSnapshot =>
  }

  lemma AutoOpenLands(p: Plain, op: Op, chance: Chance)
    requires op.AutoOpen? && (p.unlocked ==> p.vault.Some?)
    ensures OldOrInFlight(p.vault, Targets(p, op, chance.source), PlainStep(p, op, chance).plain.vault)
  {
    var targets := Targets(p, op, chance.source);
    if p.vault.None? {
      RekeyLands(p.vault, p, AUTO_PASSWORD, IsSlow(ParamsFor(AUTO_PASSWORD)), targets[0].data, chance.first, targets);
    } else {
      UnlockLands(p, AUTO_PASSWORD, op.now, chance.first, targets);
      var o := PlainUnlock(p, AUTO_PASSWORD, op.now, chance.first);
      if o.reply.Snapshot? {
        OpenedDocument(p, AUTO_PASSWORD, op.now, chance.first);
        RekeyLands(p.vault, o.plain, AUTO_PASSWORD, false, o.reply.data, chance.second, targets);
      }
    }
  }
}
