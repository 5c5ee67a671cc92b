/** The encrypted store refines the plain one, through every run and every crash. */
module VaultRefinement {
  import opened Options
  import opened FileSystem
  import opened VaultDocument
  import opened VaultStore
  import opened PlainVault
  import Codec = VaultCodec

  // ---------------------------------------------------------------- the relation

  /** Every ciphertext is authenticated with the header of its own vault file, and no nonce
      was used twice. */
  ghost predicate SealedWell(sealing: Sealing) {
    && Codec.Supported(sealing.key.params)
    && Codec.TAG_LEN <= |sealing.ciphertext| < Codec.U64_LIMIT
    && sealing.header
       == Codec.Header(sealing.key.params, sealing.key.salt, sealing.nonce, |sealing.ciphertext|)
  }

  ghost predicate LogInv(log: Log) {
    && (forall a :: a in log ==> SealedWell(a))
    && (forall a, b :: a in log && b in log && a.nonce == b.nonce ==> a == b)
  }

  ghost function SealedUnder(log: Log, key: Key): set<VaultData> {
    set s | s in log && s.key == key :: log[s]
  }

  /** The key that `password` gives with the salt and parameters on disk. */
  function DiskKey(disk: Disk, password: string): (key: Key)
    requires VAULT_FILE_NAME in disk && Codec.Decode(disk[VAULT_FILE_NAME].bytes).Ok?
  {
    var vault := Codec.Decode(disk[VAULT_FILE_NAME].bytes).vault;
    Key(password, vault.salt, vault.params)
  }

  ghost predicate Readable(disk: Disk) {
    && VAULT_FILE_NAME in disk
    && disk[VAULT_FILE_NAME].synced
    && Codec.Decode(disk[VAULT_FILE_NAME].bytes).Ok?
  }

  /** The file on disk is the locker: its password opens its document. */
  ghost predicate Stored(w: World, l: Locker) {
    && Readable(w.disk)
    && (var vault := Codec.Decode(w.disk[VAULT_FILE_NAME].bytes).vault;
        var key := DiskKey(w.disk, l.password);
        && Open(w.log, key, vault) == Some(l.data)
        && l.slow == IsSlow(key.params)
        && l.backups == SealedUnder(w.log, key))
  }

  ghost predicate Consistent(w: World, vault: Option<Locker>) {
    && LogInv(w.log)
    && (vault.None? ==> VAULT_FILE_NAME !in w.disk)
    && (vault.Some? ==> Stored(w, vault.value))
  }

  /** The store shows the plain store: in memory are the document on disk and the key that
      the password gives with the salt and parameters on disk. */
  ghost predicate Shows(s: Store, p: Plain) {
    && Consistent(s.world, p.vault)
    && s.revision == p.revision
    && (p.unlocked ==> p.vault.Some?)
    && s.unlocked == (if p.unlocked && p.vault.Some?
                      then Some(Unlocked(p.vault.value.data, DiskKey(s.world.disk, p.vault.value.password)))
                      else None)
  }

  // ------------------------------------------------------------------ sealing laws

  lemma SealKeepsLogInv(log: Log, key: Key, data: VaultData, draw: Draw)
    requires LogInv(log) && FreshDraw(log, draw) && Codec.Supported(key.params)
    ensures LogInv(Seal(log, key, data, draw))
  {
  }

  lemma SealAdds(log: Log, key: Key, data: VaultData, draw: Draw)
    requires FreshDraw(log, draw)
    ensures SealedUnder(Seal(log, key, data, draw), key) == SealedUnder(log, key) + {data}
    ensures forall k :: k != key ==> SealedUnder(Seal(log, key, data, draw), k) == SealedUnder(log, k)
  {
    var new_, sealing := Seal(log, key, data, draw), SealingOf(key, VaultOf(key, draw));
    assert sealing !in log && sealing in new_ && new_[sealing] == data;
    assert forall s :: s in log ==> s in new_ && new_[s] == log[s];
    assert forall s :: s in new_ ==> s in log || s == sealing;
    assert data in SealedUnder(new_, key);
    forall k, d | d in SealedUnder(log, k)
      ensures d in SealedUnder(new_, k)
    {
      var s :| s in log && s.key == k && log[s] == d;
      assert s in new_ && new_[s] == d;
    }
  }

  lemma OpenSurvivesSeal(log: Log, key: Key, data: VaultData, draw: Draw, k: Key, vault: Codec.EncryptedVault)
    requires FreshDraw(log, draw) && Open(log, k, vault).Some?
    ensures Open(Seal(log, key, data, draw), k, vault) == Open(log, k, vault)
  {
    assert SealingOf(k, vault) in log;
    assert SealingOf(key, VaultOf(key, draw)) !in log;
  }

  /** Only the password of the locker opens the file. */
  lemma OnePasswordOpens(w: World, l: Locker, password: string)
    requires LogInv(w.log) && Stored(w, l) && password != l.password
    ensures Open(w.log, DiskKey(w.disk, password), Codec.Decode(w.disk[VAULT_FILE_NAME].bytes).vault) == None
  {
    var vault := Codec.Decode(w.disk[VAULT_FILE_NAME].bytes).vault;
    var right, wrong := SealingOf(DiskKey(w.disk, l.password), vault), SealingOf(DiskKey(w.disk, password), vault);
    assert right in w.log && right.nonce == wrong.nonce && right != wrong;
  }

  // ------------------------------------------------------ the worlds of one save

  function SealedLocker(l: Locker, same: bool, data: VaultData): Locker {
    if same then l.(backups := l.backups + {data}) else l
  }

  /** While the file is the old one, it still opens to the old document. */
  lemma OldStillStored(w: World, l: Locker, key: Key, data: VaultData, draw: Draw, disk: Disk)
    requires LogInv(w.log) && Stored(w, l) && FreshDraw(w.log, draw)
    requires At(disk, VAULT_FILE_NAME) == At(w.disk, VAULT_FILE_NAME)
    ensures Stored(World(disk, Seal(w.log, key, data, draw)),
                   SealedLocker(l, key == DiskKey(w.disk, l.password), data))
  {
    assert At(disk, VAULT_FILE_NAME) == [w.disk[VAULT_FILE_NAME]];
    assert disk[VAULT_FILE_NAME] == w.disk[VAULT_FILE_NAME];
    var own := DiskKey(w.disk, l.password);
    OpenSurvivesSeal(w.log, key, data, draw, own, Codec.Decode(w.disk[VAULT_FILE_NAME].bytes).vault);
    SealAdds(w.log, key, data, draw);
  }

  /** Once the file is the new one, it opens to the new document, under the new key. */
  lemma NewIsStored(log: Log, key: Key, data: VaultData, draw: Draw, disk: Disk)
    requires FreshDraw(log, draw) && Codec.Supported(key.params)
    requires At(disk, VAULT_FILE_NAME) == [File(Codec.Encode(VaultOf(key, draw)), true)]
    ensures Stored(World(disk, Seal(log, key, data, draw)),
                   Locker(key.password, data, IsSlow(key.params), SealedUnder(log, key) + {data}))
    ensures DiskKey(disk, key.password) == key
  {
    var vault := VaultOf(key, draw);
    assert disk[VAULT_FILE_NAME] == File(Codec.Encode(vault), true);
    Codec.DecodeEncode(vault);
    SealAdds(log, key, data, draw);
  }

  /** What the vault is in the i-th world of a save, `changed` once the file is the new one. */
  ghost predicate Passes(w: World, vault: Option<Locker>, key: Key, data: VaultData, at: World, changed: bool)
    requires vault.Some? ==> Readable(w.disk)
  {
    if changed then
      && Stored(at, Locker(key.password, data, IsSlow(key.params), SealedUnder(w.log, key) + {data}))
      && DiskKey(at.disk, key.password) == key
    else
      && At(at.disk, VAULT_FILE_NAME) == At(w.disk, VAULT_FILE_NAME)
      && (vault.Some? ==> Stored(at, SealedLocker(vault.value, key == DiskKey(w.disk, vault.value.password), data)))
  }

  ghost predicate CanSave(w: World, vault: Option<Locker>, key: Key, draw: Draw) {
    Consistent(w, vault) && FreshDraw(w.log, draw) && Codec.Supported(key.params)
  }

  lemma SavePasses(w: World, vault: Option<Locker>, key: Key, data: VaultData, draw: Draw, i: nat) returns (changed: bool)
    requires CanSave(w, vault, key, draw) && i < |SaveTrace(w, key, data, draw)|
    ensures LogInv(SaveTrace(w, key, data, draw)[i].log)
    ensures Passes(w, vault, key, data, SaveTrace(w, key, data, draw)[i], changed)
    ensures changed == (Saves(w, draw) && i == |SaveTrace(w, key, data, draw)| - 1)
  {
    SealKeepsLogInv(w.log, key, data, draw);
    var bytes := Codec.Encode(VaultOf(key, draw));
    var disk := SaveTrace(w, key, data, draw)[i].disk;
    EveryStateIsOldOrNew(w.disk, VAULT_FILE_NAME, draw.uuid, bytes, draw.io, i);
    changed := Saves(w, draw) && i == |SaveTrace(w, key, data, draw)| - 1;
    if changed {
      LastIsNew(w.disk, key, draw);
      NewIsStored(w.log, key, data, draw, disk);
    } else if vault.Some? {
      OldStillStored(w, vault.value, key, data, draw, disk);
    }
  }

  lemma LastIsNew(disk: Disk, key: Key, draw: Draw)
    requires Written(disk, TempOf(draw), draw.io)
    ensures At(Final(DiskTrace(disk, key, draw)), VAULT_FILE_NAME) == [File(Codec.Encode(VaultOf(key, draw)), true)]
  {
  }

  // ------------------------------------------------------------ commits refine

  function SavedLocker(l: Locker, data: VaultData, ok: bool): Locker {
    Locker(l.password, if ok then data else l.data, l.slow, l.backups + {data})
  }

  lemma SavedWorld(w: World, l: Locker, key: Key, data: VaultData, last: World, changed: bool)
    requires Consistent(w, Some(l)) && key == DiskKey(w.disk, l.password) && LogInv(last.log)
    requires Passes(w, Some(l), key, data, last, changed)
    ensures Consistent(last, Some(SavedLocker(l, data, changed))) && DiskKey(last.disk, l.password) == key
  {
    if !changed {
      SameFileSameKey(w.disk, last.disk, l.password);
    }
  }

  /** Saving under the key in use. */
  lemma SaveRefines(s: Store, p: Plain, key: Key, data: VaultData, draw: Draw, bump: bool)
    requires Shows(s, p) && p.vault.Some? && key == DiskKey(s.world.disk, p.vault.value.password)
    requires CanSave(s.world, p.vault, key, draw)
    ensures var o, q := Commit(s, key, data, draw, bump), PlainSave(p, data, Saves(s.world, draw), bump);
            Shows(o.store, q.plain) && o.reply == q.reply
  {
    var changed := SavePasses(s.world, p.vault, key, data, draw, |SaveTrace(s.world, key, data, draw)| - 1);
    SavedWorld(s.world, p.vault.value, key, data, Last(SaveTrace(s.world, key, data, draw)), changed);
    var q := PlainSave(p, data, Saves(s.world, draw), bump);
    assert q.plain.vault == Some(SavedLocker(p.vault.value, data, Saves(s.world, draw)));
  }

  lemma SameFileSameKey(disk: Disk, other: Disk, password: string)
    requires Readable(disk) && At(disk, VAULT_FILE_NAME) == At(other, VAULT_FILE_NAME)
    ensures Readable(other) && DiskKey(other, password) == DiskKey(disk, password)
  {
    assert At(other, VAULT_FILE_NAME) == [disk[VAULT_FILE_NAME]];
    assert other[VAULT_FILE_NAME] == disk[VAULT_FILE_NAME];
  }

  lemma FreshKeyIsUnused(log: Log, key: Key)
    requires FreshSalt(log, key.salt)
    ensures SealedUnder(log, key) == {}
  {
  }

  /** The key on disk was used to seal what is there. */
  lemma DiskKeyIsUsed(w: World, l: Locker)
    requires LogInv(w.log) && Stored(w, l)
    ensures exists s :: s in w.log && s.key == DiskKey(w.disk, l.password)
  {
    var vault := Codec.Decode(w.disk[VAULT_FILE_NAME].bytes).vault;
    assert SealingOf(DiskKey(w.disk, l.password), vault) in w.log;
  }

  /** Saving under a new key. */
  lemma RekeyRefines(s: Store, p: Plain, key: Key, data: VaultData, draw: Draw)
    requires Shows(s, p) && FreshSalt(s.world.log, key.salt) && CanSave(s.world, p.vault, key, draw)
    ensures var o := Commit(s, key, data, draw, false);
            var q := PlainRekey(p, key.password, IsSlow(key.params), data, Saves(s.world, draw));
            Shows(o.store, q.plain) && o.reply == q.reply
  {
    if Saves(s.world, draw) {
      RekeySucceeds(s, p, key, data, draw);
    } else {
      RekeyFails(s, p, key, data, draw);
    }
  }

  lemma CommitLeaves(s: Store, key: Key, data: VaultData, draw: Draw)
    ensures var last := Last(SaveTrace(s.world, key, data, draw));
            Commit(s, key, data, draw, false).store
            == if Saves(s.world, draw) then Store(last, Some(Unlocked(data, key)), s.revision) else s.(world := last)
  {
  }

  lemma ShowsNew(last: World, key: Key, data: VaultData, revision: nat)
    requires Consistent(last, Some(NewLocker(key, data))) && DiskKey(last.disk, key.password) == key
    ensures Shows(Store(last, Some(Unlocked(data, key)), revision), Plain(Some(NewLocker(key, data)), true, revision))
  {
  }

  lemma ShowsStill(s: Store, p: Plain, last: World)
    requires Shows(s, p) && Consistent(last, p.vault)
    requires p.vault.Some? ==>
               DiskKey(last.disk, p.vault.value.password) == DiskKey(s.world.disk, p.vault.value.password)
    ensures Shows(s.(world := last), p)
  {
  }

  lemma RekeySucceeds(s: Store, p: Plain, key: Key, data: VaultData, draw: Draw)
    requires Shows(s, p) && FreshSalt(s.world.log, key.salt) && CanSave(s.world, p.vault, key, draw)
    requires Saves(s.world, draw)
    ensures Shows(Commit(s, key, data, draw, false).store, Plain(Some(NewLocker(key, data)), true, p.revision))
  {
    var last := Last(SaveTrace(s.world, key, data, draw));
    var changed := SavePasses(s.world, p.vault, key, data, draw, |SaveTrace(s.world, key, data, draw)| - 1);
    CommitLeaves(s, key, data, draw);
    RekeyedWorld(s.world, p.vault, key, data, last);
    ShowsNew(last, key, data, p.revision);
  }

  lemma RekeyFails(s: Store, p: Plain, key: Key, data: VaultData, draw: Draw)
    requires Shows(s, p) && FreshSalt(s.world.log, key.salt) && CanSave(s.world, p.vault, key, draw)
    requires !Saves(s.world, draw)
    ensures Shows(Commit(s, key, data, draw, false).store, p)
  {
    var last := Last(SaveTrace(s.world, key, data, draw));
    var changed := SavePasses(s.world, p.vault, key, data, draw, |SaveTrace(s.world, key, data, draw)| - 1);
    CommitLeaves(s, key, data, draw);
    UnchangedWorld(s.world, p.vault, key, data, last);
    ShowsStill(s, p, last);
  }

  function NewLocker(key: Key, data: VaultData): Locker {
    Locker(key.password, data, IsSlow(key.params), {data})
  }

  lemma RekeyedWorld(w: World, vault: Option<Locker>, key: Key, data: VaultData, last: World)
    requires FreshSalt(w.log, key.salt) && Consistent(w, vault) && LogInv(last.log)
    requires Passes(w, vault, key, data, last, true)
    ensures Consistent(last, Some(NewLocker(key, data))) && DiskKey(last.disk, key.password) == key
  {
    FreshKeyIsUnused(w.log, key);
  }

  lemma UnchangedWorld(w: World, vault: Option<Locker>, key: Key, data: VaultData, last: World)
    requires Consistent(w, vault) && LogInv(last.log) && FreshSalt(w.log, key.salt)
    requires Passes(w, vault, key, data, last, false)
    ensures Consistent(last, vault)
    ensures vault.Some? ==> DiskKey(last.disk, vault.value.password) == DiskKey(w.disk, vault.value.password)
  {
    if vault.Some? {
      DiskKeyIsUsed(w, vault.value);
      SameFileSameKey(w.disk, last.disk, vault.value.password);
    } else {
      assert At(last.disk, VAULT_FILE_NAME) == [];
    }
  }

  // ---------------------------------------------------------- operations refine

  /** What an imported payload turns out to be. */
  function SourceOf(s: Store, op: Op): Source {
    if op.ImportBytes? then SourceFrom(s, Codec.Decode(op.bytes)) else Foreign
  }

  function SourceFrom(s: Store, read: Codec.Decoded): Source {
    if read.Err? then Broken(Unreadable(read.error))
    else if s.unlocked.None? then Foreign
    else
      var data := Open(s.world.log, s.unlocked.value.key, read.vault);
      if data.None? then Foreign else Backup(data.value)
  }

  /** The writes that succeed, and the source of an import. */
  function ChanceOf(s: Store, op: Op): Chance {
    match op
    case Create(_, _, _, _, draw) => Chance(Saves(s.world, draw), false, Foreign)
    case Unlock(_, _, draw) => Chance(Saves(s.world, draw), false, Foreign)
    case AutoOpen(_, now, draw, _, again) =>
      Chance(Saves(s.world, draw), Saves(UnlockedBy(s, AUTO_PASSWORD, now, draw).store.world, again), Foreign)
    case MigratePassword(password, now, draw, _, again) =>
      Chance(Saves(s.world, draw), Saves(UnlockedBy(s, password, now, draw).store.world, again), Foreign)
    case Mutate(_, _, draw) => Chance(Saves(s.world, draw), false, Foreign)
    case ImportBytes(_, _, draw) => Chance(Saves(s.world, draw), false, SourceOf(s, op))
    case TakeSnapshot => Chance(false, false, Foreign)
  }

  ghost predicate Matches(o: Outcome, q: PlainOutcome) {
    Shows(o.store, q.plain) && o.reply == q.reply
  }

  lemma DiskKeySupported(w: World, l: Locker)
    requires LogInv(w.log) && Stored(w, l)
    ensures Codec.Supported(DiskKey(w.disk, l.password).params)
  {
    DiskKeyIsUsed(w, l);
  }

  lemma ParamsSupported(password: string)
    ensures Codec.Supported(ParamsFor(password)) && Codec.Supported(KDF_PARAMS_FAST)
    ensures IsSlow(KDF_PARAMS_CURRENT) && !IsSlow(KDF_PARAMS_FAST)
  {
  }

  lemma CreateRefines(s: Store, p: Plain, password: string, data: VaultData, salt: Codec.Salt, draw: Draw)
    requires Shows(s, p) && FreshSalt(s.world.log, salt) && FreshDraw(s.world.log, draw)
    ensures Matches(Created(s, password, data, salt, draw), PlainCreate(p, password, data, Saves(s.world, draw)))
  {
    if p.vault.None? && |password| >= MIN_MASTER_PASSWORD_LEN {
      ParamsSupported(password);
      RekeyRefines(s, p, Key(password, salt, ParamsFor(password)), data, draw);
    }
  }

  lemma UnlockRefines(s: Store, p: Plain, password: string, now: int, draw: Draw)
    requires Shows(s, p) && FreshDraw(s.world.log, draw)
    ensures Matches(UnlockedBy(s, password, now, draw), PlainUnlock(p, password, now, Saves(s.world, draw)))
  {
    if p.vault.Some? {
      var l := p.vault.value;
      if password != l.password {
        OnePasswordOpens(s.world, l, password);
      } else if !Settled(l.data) {
        DiskKeySupported(s.world, l);
        SaveRefines(s, p, DiskKey(s.world.disk, password), Migrate(l.data, now), draw, false);
      }
    }
  }

  /** After an unlock the second draw and the new salt are still fresh. */
  lemma StillFresh(s: Store, p: Plain, password: string, now: int, draw: Draw, salt: Codec.Salt, again: Draw)
    requires Shows(s, p) && FreshDraw(s.world.log, draw) && FreshDraw(s.world.log, again)
    requires draw.nonce != again.nonce && FreshSalt(s.world.log, salt)
    requires UnlockedBy(s, password, now, draw).reply.Snapshot?
    ensures var log := UnlockedBy(s, password, now, draw).store.world.log;
            FreshDraw(log, again) && FreshSalt(log, salt)
  {
    UnlockRefines(s, p, password, now, draw);
    OpenedDocument(p, password, now, Saves(s.world, draw));
    var key := DiskKey(s.world.disk, password);
    DiskKeyIsUsed(s.world, p.vault.value);
    SealStaysFresh(s.world.log, key, Migrate(p.vault.value.data, now), draw, salt, again);
    UnlockLog(s, password, now, draw);
  }

  lemma UnlockLog(s: Store, password: string, now: int, draw: Draw)
    requires UnlockedBy(s, password, now, draw).reply.Snapshot?
    ensures VAULT_FILE_NAME in s.world.disk && Codec.Decode(s.world.disk[VAULT_FILE_NAME].bytes).Ok?
    ensures var log := UnlockedBy(s, password, now, draw).store.world.log;
            var key := DiskKey(s.world.disk, password);
            var data := Open(s.world.log, key, Codec.Decode(s.world.disk[VAULT_FILE_NAME].bytes).vault);
            log == s.world.log || (data.Some? && log == Seal(s.world.log, key, Migrate(data.value, now), draw))
  {
  }

  lemma SealStaysFresh(log: Log, key: Key, data: VaultData, draw: Draw, salt: Codec.Salt, again: Draw)
    requires FreshDraw(log, again) && draw.nonce != again.nonce && FreshSalt(log, salt) && key.salt != salt
    ensures FreshDraw(Seal(log, key, data, draw), again) && FreshSalt(Seal(log, key, data, draw), salt)
  {
  }

  lemma UpgradeRefines(s: Store, p: Plain, salt: Codec.Salt, draw: Draw)
    requires Shows(s, p) && FreshSalt(s.world.log, salt) && FreshDraw(s.world.log, draw)
    ensures Matches(Upgraded(s, salt, draw), PlainUpgrade(p, Saves(s.world, draw)))
  {
    if p.unlocked && p.vault.value.slow {
      ParamsSupported(AUTO_PASSWORD);
      RekeyRefines(s, p, Key(AUTO_PASSWORD, salt, KDF_PARAMS_FAST), p.vault.value.data, draw);
    }
  }

  lemma AutoOpenRefines(s: Store, p: Plain, data: VaultData, now: int, draw: Draw, salt: Codec.Salt, again: Draw)
    requires Shows(s, p) && FreshSalt(s.world.log, salt) && FreshDraw(s.world.log, draw)
    requires FreshDraw(s.world.log, again) && draw.nonce != again.nonce
    ensures var second := Saves(UnlockedBy(s, AUTO_PASSWORD, now, draw).store.world, again);
            Matches(AutoOpened(s, data, now, draw, salt, again),
                    PlainAutoOpen(p, data, now, Saves(s.world, draw), second))
  {
    if p.vault.None? {
      CreateRefines(s, p, AUTO_PASSWORD, data, salt, draw);
    } else if UnlockedBy(s, AUTO_PASSWORD, now, draw).reply.Snapshot? {
      UpgradeAfterUnlock(s, p, data, now, draw, salt, again);
    } else {
      UnlockRefines(s, p, AUTO_PASSWORD, now, draw);
    }
  }

  /** `auto_open` that can unlock. */
  lemma UpgradeAfterUnlock(s: Store, p: Plain, data: VaultData, now: int, draw: Draw, salt: Codec.Salt, again: Draw)
    requires Shows(s, p) && FreshSalt(s.world.log, salt) && FreshDraw(s.world.log, draw)
    requires FreshDraw(s.world.log, again) && draw.nonce != again.nonce
    requires p.vault.Some? && UnlockedBy(s, AUTO_PASSWORD, now, draw).reply.Snapshot?
    ensures var second := Saves(UnlockedBy(s, AUTO_PASSWORD, now, draw).store.world, again);
            Matches(AutoOpened(s, data, now, draw, salt, again),
                    PlainAutoOpen(p, data, now, Saves(s.world, draw), second))
  {
    UnlockRefines(s, p, AUTO_PASSWORD, now, draw);
    StillFresh(s, p, AUTO_PASSWORD, now, draw, salt, again);
    var o, q := UnlockedBy(s, AUTO_PASSWORD, now, draw), PlainUnlock(p, AUTO_PASSWORD, now, Saves(s.world, draw)).plain;
    UpgradeRefines(o.store, q, salt, again);
    assert AutoOpened(s, data, now, draw, salt, again).store == Upgraded(o.store, salt, again).store;
  }

  lemma MigrateRefines(s: Store, p: Plain, password: string, now: int, draw: Draw, salt: Codec.Salt, again: Draw)
    requires Shows(s, p) && FreshSalt(s.world.log, salt) && FreshDraw(s.world.log, draw)
    requires FreshDraw(s.world.log, again) && draw.nonce != again.nonce
    ensures var second := Saves(UnlockedBy(s, password, now, draw).store.world, again);
            Matches(MigratedTo(s, password, now, draw, salt, again),
                    PlainMigrate(p, password, now, Saves(s.world, draw), second))
  {
    UnlockRefines(s, p, password, now, draw);
    if UnlockedBy(s, password, now, draw).reply.Snapshot? {
      RekeyAfterUnlock(s, p, password, now, draw, salt, again);
    }
  }

  lemma RekeyAfterUnlock(s: Store, p: Plain, password: string, now: int, draw: Draw, salt: Codec.Salt, again: Draw)
    requires Shows(s, p) && FreshSalt(s.world.log, salt) && FreshDraw(s.world.log, draw)
    requires FreshDraw(s.world.log, again) && draw.nonce != again.nonce
    requires UnlockedBy(s, password, now, draw).reply.Snapshot?
    ensures var o, q := UnlockedBy(s, password, now, draw), PlainUnlock(p, password, now, Saves(s.world, draw));
            && o.store.unlocked.Some? && o.store.unlocked.value.data == q.reply.data && q.reply.Snapshot?
            && Matches(Commit(o.store, Key(AUTO_PASSWORD, salt, KDF_PARAMS_FAST), q.reply.data, again, false),
                       PlainRekey(q.plain, AUTO_PASSWORD, false, q.reply.data, Saves(o.store.world, again)))
  {
    UnlockRefines(s, p, password, now, draw);
    var o, q := UnlockedBy(s, password, now, draw), PlainUnlock(p, password, now, Saves(s.world, draw));
    OpenedDocument(p, password, now, Saves(s.world, draw));
    StillFresh(s, p, password, now, draw, salt, again);
    ParamsSupported(AUTO_PASSWORD);
    RekeyRefines(o.store, q.plain, Key(AUTO_PASSWORD, salt, KDF_PARAMS_FAST), q.reply.data, again);
  }

  lemma MutateRefines(s: Store, p: Plain, edit: Edit, now: int, draw: Draw)
    requires Shows(s, p) && FreshDraw(s.world.log, draw)
    ensures Matches(Performed(s, edit, now, draw), PlainMutate(p, edit, now, Saves(s.world, draw)))
  {
    if p.unlocked && !AlreadySo(p.vault.value.data, edit) {
      EditRefines(s, p, Apply(p.vault.value.data, edit), now, draw);
    }
  }

  lemma EditRefines(s: Store, p: Plain, next: Edited, now: int, draw: Draw)
    requires Shows(s, p) && p.unlocked && FreshDraw(s.world.log, draw)
    ensures Matches(CommittedEdit(s, s.unlocked.value.key, next, now, draw),
                    PlainEdit(p, next, now, Saves(s.world, draw)))
  {
    if next.Ok? {
      SaveInUse(s, p, next.data.(updatedAt := now), draw);
    }
  }

  lemma ImportRefines(s: Store, p: Plain, read: Codec.Decoded, now: int, draw: Draw)
    requires Shows(s, p) && FreshDraw(s.world.log, draw)
    ensures Matches(ImportedVault(s, read, now, draw), PlainImport(p, SourceFrom(s, read), now, Saves(s.world, draw)))
  {
    var source := SourceFrom(s, read);
    if p.unlocked && source.Backup? {
      SaveInUse(s, p, Migrate(source.data, now), draw);
      assert ImportedVault(s, read, now, draw) == Commit(s, s.unlocked.value.key, Migrate(source.data, now), draw, true);
    } else {
      assert ImportedVault(s, read, now, draw).store == s;
    }
  }

  /** Saving under the key in memory, with a new revision. */
  lemma SaveInUse(s: Store, p: Plain, data: VaultData, draw: Draw)
    requires Shows(s, p) && p.unlocked && FreshDraw(s.world.log, draw)
    ensures Matches(Commit(s, s.unlocked.value.key, data, draw, true), PlainSave(p, data, Saves(s.world, draw), true))
  {
    DiskKeySupported(s.world, p.vault.value);
    SaveRefines(s, p, s.unlocked.value.key, data, draw, true);
  }

  /** A payload opens only to a document sealed under the key in use. */
  lemma SourceIsPossible(s: Store, p: Plain, op: Op)
    requires Shows(s, p)
    ensures Possible(p, SourceOf(s, op))
  {
  }

  /** Every operation does to the plain store what it does to the encrypted one, with the
      same reply. */
  lemma StepRefines(s: Store, p: Plain, op: Op)
    requires Shows(s, p) && FreshOp(s, op)
    ensures Shows(Step(s, op).store, PlainStep(p, op, ChanceOf(s, op)).plain)
    ensures Step(s, op).reply == PlainStep(p, op, ChanceOf(s, op)).reply
    ensures Possible(p, ChanceOf(s, op).source)
  {
    SourceIsPossible(s, p, op);
    match op
    case Create(password, groupId, now, salt, draw) =>
      CreateRefines(s, p, password, WithDefaultGroup(groupId, now), salt, draw);
    case Unlock(password, now, draw) => UnlockRefines(s, p, password, now, draw);
    case AutoOpen(groupId, now, draw, salt, again) =>
      AutoOpenRefines(s, p, WithDefaultGroup(groupId, now), now, draw, salt, again);
    case MigratePassword(password, now, draw, salt, again) =>
      MigrateRefines(s, p, password, now, draw, salt, again);
    case Mutate(edit, now, draw) => MutateRefines(s, p, edit, now, draw);
    case ImportBytes(bytes, now, draw) => ImportRefines(s, p, Codec.Decode(bytes), now, draw);
    case TakeSnapshot =>
  }
}
