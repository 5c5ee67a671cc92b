/** The store object of vault.rs: its methods change the file, the log of sealed
    documents, the memory and the revision step by step. */
module VaultObject {
  import opened Options
  import opened Collections
  import opened Bytes
  import opened FileSystem
  import opened VaultDocument
  import opened VaultStore
  import Codec = VaultCodec

  class VaultStoreObject {
    const volume: Volume
    var log: Log
    var unlocked: Option<Unlocked>
    var revision: nat
    ghost var passed: seq<World>

    /** `VaultStore::new`. */
    constructor (volume: Volume, log: Log)
      ensures this.volume == volume && View() == Restarted(volume.disk, log) && passed == []
    {
      this.volume, this.log, unlocked, revision, passed := volume, log, None, 0, [];
    }

    function View(): Store
      reads this, volume
    {
      Store(World(volume.disk, log), unlocked, revision)
    }

    /** The new state, the reply and the worlds passed on the way are those of `o`. */
    twostate predicate Did(o: Outcome, reply: Reply)
      reads this, volume
    {
      View() == o.store && reply == o.reply && passed == old(passed) + o.passed
    }

    /** `encrypt_with_session` and `write_encrypted`. */
    method SealAndWrite(key: Key, data: VaultData, draw: Draw) returns (ok: bool)
      modifies this`log, this`passed, volume
      ensures ok == Saves(old(View()).world, draw)
      ensures View() == old(View()).(world := Last(SaveTrace(old(View()).world, key, data, draw)))
      ensures passed == old(passed) + ([old(View()).world] + SaveTrace(old(View()).world, key, data, draw))
    {
      ghost var before := View().world;
      log := Seal(log, key, data, draw);
      ghost var disks;
      ok, disks := volume.WriteAtomic(VAULT_FILE_NAME, draw.uuid, Codec.Encode(VaultOf(key, draw)), draw.io);
      passed := passed + ([before] + Worlds(disks, log));
    }

    /** Write the document under a key, then take both into memory. */
    method Install(key: Key, data: VaultData, draw: Draw) returns (reply: Reply)
      modifies this, volume
      ensures Did(Commit(old(View()), key, data, draw, false), reply)
    {
      var ok := SealAndWrite(key, data, draw);
      if !ok {
        return Failed(IoError);
      }
      unlocked := Some(Unlocked(data, key));
      reply := Snapshot(data, revision);
    }

    ghost method Stay()
      modifies this`passed
      ensures passed == old(passed) + [View().world]
    {
      passed := passed + [View().world];
    }

    method Create(password: string, data: VaultData, salt: Codec.Salt, draw: Draw) returns (reply: Reply)
      modifies this, volume
      ensures Did(Created(old(View()), password, data, salt, draw), reply)
    {
      if VAULT_FILE_NAME in volume.disk {
        Stay();
        return Failed(VaultAlreadyExists);
      }
      if |password| < MIN_MASTER_PASSWORD_LEN {
        Stay();
        return Failed(BadInput);
      }
      reply := Install(Key(password, salt, ParamsFor(password)), data, draw);
    }

    method Unlock(password: string, now: int, draw: Draw) returns (reply: Reply)
      modifies this, volume
      ensures Did(UnlockedBy(old(View()), password, now, draw), reply)
    {
      if VAULT_FILE_NAME !in volume.disk {
        Stay();
        return Failed(VaultNotFound);
      }
      var read := Codec.Decode(volume.disk[VAULT_FILE_NAME].bytes);
      if read.Err? {
        Stay();
        return Failed(Unreadable(read.error));
      }
      var key := Key(password, read.vault.salt, read.vault.params);
      var found := Open(log, key, read.vault);
      if found.None? {
        Stay();
        return Failed(InvalidMasterPassword);
      }
      var data := Migrate(found.value, now);
      if MigratedData(found.value) != found.value {
        var ok := SealAndWrite(key, data, draw);
        if !ok {
          return Failed(IoError);
        }
      } else {
        Stay();
      }
      unlocked := Some(Unlocked(data, key));
      reply := Snapshot(data, revision);
    }

    method UpgradeToFastKdfIfNeeded(salt: Codec.Salt, draw: Draw)
      modifies this, volume
      ensures Did(Upgraded(old(View()), salt, draw), Ready)
    {
      if unlocked.None? || !IsSlow(unlocked.value.key.params) {
        Stay();
        return;
      }
      var data, key := unlocked.value.data, Key(AUTO_PASSWORD, salt, KDF_PARAMS_FAST);
      var ok := SealAndWrite(key, data, draw);
      if ok {
        unlocked := Some(Unlocked(data, key));
      }
    }

    method AutoOpen(data: VaultData, now: int, draw: Draw, salt: Codec.Salt, again: Draw) returns (reply: Reply)
      modifies this, volume
      ensures Did(AutoOpened(old(View()), data, now, draw, salt, again), reply)
    {
      if VAULT_FILE_NAME !in volume.disk {
        reply := Create(AUTO_PASSWORD, data, salt, draw);
        return if reply.Failed? then reply else Ready;
      }
      reply := Unlock(AUTO_PASSWORD, now, draw);
      ghost var first := UnlockedBy(old(View()), AUTO_PASSWORD, now, draw);
      if reply.Snapshot? {
        UpgradeToFastKdfIfNeeded(salt, again);
        reply := Ready;
        Associative(old(passed), first.passed, Upgraded(first.store, salt, again).passed);
      } else if reply == Failed(InvalidMasterPassword) {
        reply := NeedsMigration;
      }
    }

    /** `migrate`. */
    method MigratePassword(password: string, now: int, draw: Draw, salt: Codec.Salt, again: Draw)
      returns (reply: Reply)
      modifies this, volume
      ensures Did(MigratedTo(old(View()), password, now, draw, salt, again), reply)
    {
      reply := Unlock(password, now, draw);
      if !reply.Snapshot? || unlocked.None? {
        return;
      }
      ghost var first := UnlockedBy(old(View()), password, now, draw);
      var key := Key(AUTO_PASSWORD, salt, KDF_PARAMS_FAST);
      ghost var second := Commit(first.store, key, first.store.unlocked.value.data, again, false);
      reply := Install(key, unlocked.value.data, again);
      Associative(old(passed), first.passed, second.passed);
    }

    method Mutate(edit: Edit, now: int, draw: Draw) returns (reply: Reply)
      modifies this, volume
      ensures Did(Mutated(old(View()), edit, now, draw), reply)
    {
      if unlocked.None? {
        Stay();
        return Failed(VaultLocked);
      }
      var next := Apply(unlocked.value.data, edit);
      if next.Err? {
        Stay();
        return Failed(EditFailure(next.error));
      }
      var data := next.data.(updatedAt := now);
      var ok := SealAndWrite(unlocked.value.key, data, draw);
      if !ok {
        return Failed(IoError);
      }
      unlocked := Some(unlocked.value.(data := data));
      revision := Bumped(revision);
      reply := Snapshot(data, revision);
    }

    /** `set_tunnel_enabled`. */
    method SetTunnelEnabled(id: string, enabled: bool, now: int, draw: Draw) returns (reply: Reply)
      modifies this, volume
      ensures Did(Performed(old(View()), Edit.SetTunnelEnabled(id, enabled), now, draw), reply)
    {
      var edit := Edit.SetTunnelEnabled(id, enabled);
      if unlocked.Some? && AlreadySo(unlocked.value.data, edit) {
        Stay();
        return Snapshot(unlocked.value.data, revision);
      }
      reply := Mutate(edit, now, draw);
    }

    /** `backup_import_bytes`. */
    method ImportBytes(bytes: seq<Byte>, now: int, draw: Draw) returns (reply: Reply)
      modifies this, volume
      ensures Did(Imported(old(View()), bytes, now, draw), reply)
    {
      var read := Codec.Decode(bytes);
      if read.Err? {
        Stay();
        return Failed(Unreadable(read.error));
      }
      if unlocked.None? {
        Stay();
        return Failed(VaultLocked);
      }
      var found := Open(log, unlocked.value.key, read.vault);
      if found.None? {
        Stay();
        return Failed(BadInput);
      }
      var data := Migrate(found.value, now);
      var ok := SealAndWrite(unlocked.value.key, data, draw);
      if !ok {
        return Failed(IoError);
      }
      unlocked := Some(unlocked.value.(data := data));
      revision := Bumped(revision);
      reply := Snapshot(data, revision);
    }
  }
}
