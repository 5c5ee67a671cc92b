/** The vault store (vault.rs): one document in memory mirrored to one encrypted file.
    Each operation is given as the worlds it passes through, the store it leaves and its
    reply.  Clocks, random salts and nonces, new ids and the behaviour of the operating
    system are arguments.

    The cipher is ideal: a log holds everything ever sealed, and a ciphertext opens exactly
    if it was sealed with the same key, nonce and authenticated header.  The key derivation is
    ideal too: a key is the password, the salt and the parameters it comes from. */
module VaultStore {
  import opened Options
  import opened Bytes
  import opened FileSystem
  import opened VaultDocument
  import Codec = VaultCodec

  const VAULT_FILE_NAME := "vault.rpvault"
  const AUTO_PASSWORD := "helm-internal-auto-key-2024"
  const MIN_MASTER_PASSWORD_LEN := 6
  const KDF_PARAMS_CURRENT := Codec.KdfParams(64 * 1024, 3, 1)
  const KDF_PARAMS_FAST := Codec.KdfParams(1024, 1, 1)

  datatype Key = Key(password: string, salt: Codec.Salt, params: Codec.KdfParams)
  datatype Sealing = Sealing(key: Key, nonce: Codec.Nonce, header: seq<Byte>, ciphertext: seq<Byte>)
  type Log = map<Sealing, VaultData>

  datatype World = World(disk: Disk, log: Log)
  datatype Unlocked = Unlocked(data: VaultData, key: Key)
  datatype Store = Store(world: World, unlocked: Option<Unlocked>, revision: nat)

  /** What one sealed write draws from outside: the nonce, the ciphertext that the cipher
      makes, the name of the temporary file and the answers of the operating system. */
  datatype Draw = Draw(nonce: Codec.Nonce, ciphertext: seq<Byte>, uuid: string, io: Io)

  datatype Error =
    | VaultAlreadyExists | VaultNotFound | VaultLocked | InvalidMasterPassword
    | BadInput | Missing | Unreadable(reason: Codec.DecodeError) | IoError
  datatype Reply = Snapshot(data: VaultData, revision: nat) | Ready | NeedsMigration | Failed(error: Error)

  /** The worlds passed through, first to last, the store at the end, and the answer. */
  datatype Outcome = Outcome(passed: seq<World>, store: Store, reply: Reply)

  // ------------------------------------------------------------- sealing and saving

  /** `CryptoSession::is_slow`. */
  predicate IsSlow(params: Codec.KdfParams) {
    params.mCostKib > KDF_PARAMS_FAST.mCostKib * 2 || params.tCost > KDF_PARAMS_FAST.tCost * 2
  }

  function VaultOf(key: Key, draw: Draw): Codec.EncryptedVault {
    Codec.EncryptedVault(key.params, key.salt, draw.nonce, draw.ciphertext)
  }

  function SealingOf(key: Key, vault: Codec.EncryptedVault): Sealing {
    Sealing(key, vault.nonce, Codec.Header(vault.params, vault.salt, vault.nonce, |vault.ciphertext|), vault.ciphertext)
  }

  /** `decrypt_with_key`. */
  function Open(log: Log, key: Key, vault: Codec.EncryptedVault): Option<VaultData> {
    var sealing := SealingOf(key, vault);
    if sealing in log then Some(log[sealing]) else None
  }

  /** `encrypt_with_session`. */
  function Seal(log: Log, key: Key, data: VaultData, draw: Draw): Log {
    log[SealingOf(key, VaultOf(key, draw)) := data]
  }

  function TempOf(draw: Draw): string {
    TempPath(VAULT_FILE_NAME, draw.uuid)
  }

  function DiskTrace(disk: Disk, key: Key, draw: Draw): (t: seq<Disk>)
    ensures t != []
  {
    Trace(disk, VAULT_FILE_NAME, TempOf(draw), Codec.Encode(VaultOf(key, draw)), draw.io)
  }

  function Worlds(disks: seq<Disk>, log: Log): (w: seq<World>)
    ensures |w| == |disks|
    ensures forall i :: 0 <= i < |w| ==> w[i] == World(disks[i], log)
  {
    seq(|disks|, i requires 0 <= i < |disks| => World(disks[i], log))
  }

  /** `write_encrypted` after `encrypt_with_session`. */
  function SaveTrace(world: World, key: Key, data: VaultData, draw: Draw): (w: seq<World>)
    ensures w != []
  {
    Worlds(DiskTrace(world.disk, key, draw), Seal(world.log, key, data, draw))
  }

  predicate Saves(world: World, draw: Draw) {
    Written(world.disk, TempOf(draw), draw.io)
  }

  function Last(passed: seq<World>): World
    requires passed != []
  {
    passed[|passed| - 1]
  }

  /** `saturating_add(1)` on a u64. */
  function Bumped(revision: nat): nat {
    if revision >= U64_MAX then U64_MAX else revision + 1
  }

  /** The common tail of every writing operation: seal, write, and only then take the
      document and the key into memory. */
  function Commit(s: Store, key: Key, data: VaultData, draw: Draw, bump: bool): (o: Outcome)
    ensures o.passed != []
  {
    var passed := SaveTrace(s.world, key, data, draw);
    if Saves(s.world, draw) then
      var revision := if bump then Bumped(s.revision) else s.revision;
      Outcome([s.world] + passed, Store(Last(passed), Some(Unlocked(data, key)), revision), Snapshot(data, revision))
    else
      Outcome([s.world] + passed, s.(world := Last(passed)), Failed(IoError))
  }

  function Refused(s: Store, error: Error): Outcome {
    Outcome([s.world], s, Failed(error))
  }

  // ------------------------------------------------------------------ the operations

  datatype Op =
    | Create(password: string, groupId: string, now: int, salt: Codec.Salt, draw: Draw)
    | Unlock(password: string, now: int, draw: Draw)
    | AutoOpen(groupId: string, now: int, draw: Draw, salt: Codec.Salt, again: Draw)
    | MigratePassword(password: string, now: int, draw: Draw, salt: Codec.Salt, again: Draw)
    | Mutate(edit: Edit, now: int, draw: Draw)
    | ImportBytes(bytes: seq<Byte>, now: int, draw: Draw)
    | TakeSnapshot

  function ParamsFor(password: string): Codec.KdfParams {
    if password == AUTO_PASSWORD then KDF_PARAMS_FAST else KDF_PARAMS_CURRENT
  }

  /** `create`. */
  function Created(s: Store, password: string, data: VaultData, salt: Codec.Salt, draw: Draw): Outcome {
    if VAULT_FILE_NAME in s.world.disk then Refused(s, VaultAlreadyExists)
    else if |password| < MIN_MASTER_PASSWORD_LEN then Refused(s, BadInput)
    else Commit(s, Key(password, salt, ParamsFor(password)), data, draw, false)
  }

  /** `unlock`. */
  function UnlockedBy(s: Store, password: string, now: int, draw: Draw): Outcome {
    if VAULT_FILE_NAME !in s.world.disk then Refused(s, VaultNotFound)
    else
      var read := Codec.Decode(s.world.disk[VAULT_FILE_NAME].bytes);
      if read.Err? then Refused(s, Unreadable(read.error))
      else
        var key := Key(password, read.vault.salt, read.vault.params);
        var data := Open(s.world.log, key, read.vault);
        if data.None? then Refused(s, InvalidMasterPassword)
        else if MigratedData(data.value) == data.value then
          Outcome([s.world], s.(unlocked := Some(Unlocked(data.value, key))), Snapshot(data.value, s.revision))
        else Commit(s, key, Migrate(data.value, now), draw, false)
  }

  /** `upgrade_to_fast_kdf_if_needed`: a failure is not reported. */
  function Upgraded(s: Store, salt: Codec.Salt, draw: Draw): Outcome {
    if s.unlocked.Some? && IsSlow(s.unlocked.value.key.params) then
      Commit(s, Key(AUTO_PASSWORD, salt, KDF_PARAMS_FAST), s.unlocked.value.data, draw, false).(reply := Ready)
    else Outcome([s.world], s, Ready)
  }

  function Then(first: Outcome, second: Outcome): Outcome {
    second.(passed := first.passed + second.passed)
  }

  /** `auto_open`. */
  function AutoOpened(s: Store, data: VaultData, now: int, draw: Draw, salt: Codec.Salt, again: Draw): Outcome {
    if VAULT_FILE_NAME !in s.world.disk then
      var o := Created(s, AUTO_PASSWORD, data, salt, draw);
      if o.reply.Failed? then o else o.(reply := Ready)
    else
      var o := UnlockedBy(s, AUTO_PASSWORD, now, draw);
      if o.reply.Snapshot? then Then(o, Upgraded(o.store, salt, again))
      else if o.reply == Failed(InvalidMasterPassword) then o.(reply := NeedsMigration)
      else o
  }

  /** `migrate`. */
  function MigratedTo(s: Store, password: string, now: int, draw: Draw, salt: Codec.Salt, again: Draw): Outcome {
    var o := UnlockedBy(s, password, now, draw);
    if o.store.unlocked.Some? && o.reply.Snapshot? then
      Then(o, Commit(o.store, Key(AUTO_PASSWORD, salt, KDF_PARAMS_FAST), o.store.unlocked.value.data, again, false))
    else o
  }

  function EditFailure(error: EditError): Error {
    if error.InvalidInput? then BadInput else Missing
  }

  /** `mutate`. */
  function Mutated(s: Store, edit: Edit, now: int, draw: Draw): Outcome {
    if s.unlocked.None? then Refused(s, VaultLocked)
    else CommittedEdit(s, s.unlocked.value.key, Apply(s.unlocked.value.data, edit), now, draw)
  }

  /** `mutate` after the closure has run. */
  function CommittedEdit(s: Store, key: Key, next: Edited, now: int, draw: Draw): Outcome {
    if next.Err? then Refused(s, EditFailure(next.error))
    else Commit(s, key, next.data.(updatedAt := now), draw, true)
  }

  /** `set_tunnel_enabled` finds nothing to do: some tunnel with this id is already so. */
  predicate AlreadySo(data: VaultData, edit: Edit) {
    && edit.SetTunnelEnabled?
    && exists i :: 0 <= i < |data.tunnels| && data.tunnels[i].id == edit.id && data.tunnels[i].enabled == edit.enabled
  }

  /** The mutating operations: all go through `mutate`, but for a tunnel that is already so. */
  function Performed(s: Store, edit: Edit, now: int, draw: Draw): Outcome {
    if s.unlocked.Some? && AlreadySo(s.unlocked.value.data, edit) then Shown(s) else Mutated(s, edit, now, draw)
  }

  /** `backup_import_bytes`, from the payload of the backup. */
  function Imported(s: Store, bytes: seq<Byte>, now: int, draw: Draw): Outcome {
    ImportedVault(s, Codec.Decode(bytes), now, draw)
  }

  function ImportedVault(s: Store, read: Codec.Decoded, now: int, draw: Draw): Outcome {
    if read.Err? then Refused(s, Unreadable(read.error))
    else if s.unlocked.None? then Refused(s, VaultLocked)
    else
      var data := Open(s.world.log, s.unlocked.value.key, read.vault);
      if data.None? then Refused(s, BadInput)
      else Commit(s, s.unlocked.value.key, Migrate(data.value, now), draw, true)
  }

  /** `snapshot`. */
  function Shown(s: Store): Outcome {
    if s.unlocked.None? then Refused(s, VaultLocked)
    else Outcome([s.world], s, Snapshot(s.unlocked.value.data, s.revision))
  }

  function Step(s: Store, op: Op): Outcome {
    match op
    case Create(password, groupId, now, salt, draw) => Created(s, password, WithDefaultGroup(groupId, now), salt, draw)
    case Unlock(password, now, draw) => UnlockedBy(s, password, now, draw)
    case AutoOpen(groupId, now, draw, salt, again) =>
      AutoOpened(s, WithDefaultGroup(groupId, now), now, draw, salt, again)
    case MigratePassword(password, now, draw, salt, again) => MigratedTo(s, password, now, draw, salt, again)
    case Mutate(edit, now, draw) => Performed(s, edit, now, draw)
    case ImportBytes(bytes, now, draw) => Imported(s, bytes, now, draw)
    case TakeSnapshot => Shown(s)
  }

  // ------------------------------------------------------------ runs with crashes

  /** An operation that returns, or one during which the process ends: in the `at`-th world
      it passes, leaving `disk`. */
  datatype Event = Done(op: Op) | Crash(op: Op, at: nat, disk: Disk)

  function Restarted(disk: Disk, log: Log): Store {
    Store(World(disk, log), None, 0)
  }

  ghost predicate CanHappen(s: Store, e: Event) {
    && FreshOp(s, e.op)
    && (e.Crash? ==> e.at < |Step(s, e.op).passed| && CrashOf(Step(s, e.op).passed[e.at].disk, e.disk))
  }

  ghost function Next(s: Store, e: Event): Store
    requires CanHappen(s, e)
  {
    if e.Done? then Step(s, e.op).store else Restarted(e.disk, Step(s, e.op).passed[e.at].log)
  }

  ghost predicate CanRun(s: Store, events: seq<Event>)
    decreases events
  {
    events == [] || (CanHappen(s, events[0]) && CanRun(Next(s, events[0]), events[1..]))
  }

  ghost function After(s: Store, events: seq<Event>): Store
    requires CanRun(s, events)
    decreases events
  {
    if events == [] then s else After(Next(s, events[0]), events[1..])
  }

  /** The random choices do not repeat: no nonce and no salt of the log is drawn again, and a
      new id is not one of the document.  A ciphertext is longer than its tag. */
  ghost predicate FreshDraw(log: Log, draw: Draw) {
    && Codec.TAG_LEN <= |draw.ciphertext| < Codec.U64_LIMIT
    && forall sealing :: sealing in log ==> sealing.nonce != draw.nonce
  }

  ghost predicate FreshSalt(log: Log, salt: Codec.Salt) {
    forall sealing :: sealing in log ==> sealing.key.salt != salt
  }

  predicate NewIds(s: Store, edit: Edit) {
    && (edit.CreateGroup? && s.unlocked.Some? ==> edit.newId !in GroupIds(s.unlocked.value.data.groups))
    && (edit.CreateSession? && s.unlocked.Some? ==> edit.newId !in SessionIds(s.unlocked.value.data.sessions))
  }

  ghost predicate FreshOp(s: Store, op: Op) {
    var log := s.world.log;
    match op
    case Create(_, _, _, salt, draw) => FreshSalt(log, salt) && FreshDraw(log, draw)
    case Unlock(_, _, draw) => FreshDraw(log, draw)
    case AutoOpen(_, _, draw, salt, again) =>
      FreshSalt(log, salt) && FreshDraw(log, draw) && FreshDraw(log, again) && draw.nonce != again.nonce
    case MigratePassword(_, _, draw, salt, again) =>
      FreshSalt(log, salt) && FreshDraw(log, draw) && FreshDraw(log, again) && draw.nonce != again.nonce
    case Mutate(edit, _, draw) => FreshDraw(log, draw) && NewIds(s, edit)
    case ImportBytes(_, _, draw) => FreshDraw(log, draw)
    case TakeSnapshot => true
  }
}
