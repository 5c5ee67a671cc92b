/** What the replies of the store say about the document, field by field. */
module VaultReplies {
  import opened Options
  import opened Bytes
  import opened FileSystem
  import opened VaultDocument
  import opened VaultEdits
  import opened VaultStore
  import opened PlainVault
  import opened VaultRefinement
  import opened VaultRuns
  import Codec = VaultCodec

  /** Unlocking shows the stored document, migrated without losing anything: every session the
      AI API could use before, it can use after. */
  lemma UnlockCarriesOver(s: Store, password: string, now: int, draw: Draw)
    requires UnlockedBy(s, password, now, draw).reply.Snapshot?
    ensures VAULT_FILE_NAME in s.world.disk && Codec.Decode(s.world.disk[VAULT_FILE_NAME].bytes).Ok?
    ensures var vault := Codec.Decode(s.world.disk[VAULT_FILE_NAME].bytes).vault;
            var stored := Open(s.world.log, Key(password, vault.salt, vault.params), vault);
            var o := UnlockedBy(s, password, now, draw);
            && stored.Some? && CarriedOver(stored.value, o.reply.data, now) && o.reply.revision == s.revision
            && o.store.unlocked == Some(Unlocked(o.reply.data, Key(password, vault.salt, vault.params)))
  {
    var vault := Codec.Decode(s.world.disk[VAULT_FILE_NAME].bytes).vault;
    var stored := Open(s.world.log, Key(password, vault.salt, vault.params), vault);
    MigrationCarriesOver(stored.value, now);
  }

  /** An import shows the document of the backup, carried over in the same way, as the next
      revision. */
  lemma ImportCarriesOver(s: Store, read: Codec.Decoded, now: int, draw: Draw)
    requires ImportedVault(s, read, now, draw).reply.Snapshot?
    ensures s.unlocked.Some? && read.Ok?
    ensures var found := Open(s.world.log, s.unlocked.value.key, read.vault);
            var reply := ImportedVault(s, read, now, draw).reply;
            && found.Some? && CarriedOver(found.value, reply.data, now)
            && reply.revision == if s.revision < U64_MAX then s.revision + 1 else U64_MAX
  {
    MigrationCarriesOver(Open(s.world.log, s.unlocked.value.key, read.vault).value, now);
  }

  /** Every document sealed under the key in use comes back from its file, if the write succeeds. */
  lemma ImportRestores(s: Store, p: Plain, d: VaultData, now: int, draw: Draw) returns (bytes: seq<Byte>)
    requires Shows(s, p) && p.unlocked && d in p.vault.value.backups && Saves(s.world, draw)
    ensures var reply := Imported(s, bytes, now, draw).reply;
            reply.Snapshot? && CarriedOver(d, reply.data, now)
  {
    bytes := BackupsCanBeImported(s, p, d);
    BackupIsAccepted(s, Codec.Decode(bytes), d, now, draw);
  }

  lemma BackupIsAccepted(s: Store, read: Codec.Decoded, d: VaultData, now: int, draw: Draw)
    requires SourceFrom(s, read) == Backup(d) && Saves(s.world, draw)
    ensures var reply := ImportedVault(s, read, now, draw).reply;
            reply.Snapshot? && CarriedOver(d, reply.data, now)
  {
    ImportCarriesOver(s, read, now, draw);
  }

  /** A mutation of an open store is acknowledged exactly if the edit is accepted and the write
      succeeds; it shows the edited document, touched, as the next revision.  A refusal says
      why. */
  lemma MutateShowsEdit(s: Store, edit: Edit, now: int, draw: Draw)
    requires s.unlocked.Some? && !AlreadySo(s.unlocked.value.data, edit)
    ensures var next := Apply(s.unlocked.value.data, edit);
            var reply := Performed(s, edit, now, draw).reply;
            && (next.Ok? && Saves(s.world, draw) ==>
                  reply == Snapshot(next.data.(updatedAt := now), if s.revision < U64_MAX then s.revision + 1 else U64_MAX))
            && (next.Ok? && !Saves(s.world, draw) ==> reply == Failed(IoError))
            && (next == Err(InvalidInput) ==> reply == Failed(BadInput))
            && (next == Err(NotFound) ==> reply == Failed(Missing))
  {
    RepliesToEdit(s, s.unlocked.value.key, Apply(s.unlocked.value.data, edit), now, draw);
  }

  lemma RepliesToEdit(s: Store, key: Key, next: Edited, now: int, draw: Draw)
    ensures var reply := CommittedEdit(s, key, next, now, draw).reply;
            && (next.Ok? && Saves(s.world, draw) ==>
                  reply == Snapshot(next.data.(updatedAt := now), if s.revision < U64_MAX then s.revision + 1 else U64_MAX))
            && (next.Ok? && !Saves(s.world, draw) ==> reply == Failed(IoError))
            && (next == Err(InvalidInput) ==> reply == Failed(BadInput))
            && (next == Err(NotFound) ==> reply == Failed(Missing))
  {
  }

  /** Switching a tunnel to what it already is writes nothing and shows the document as it is;
      otherwise exactly its switch changes. */
  lemma SwitchTunnelShows(s: Store, id: string, enabled: bool, now: int, draw: Draw, k: int)
    requires s.unlocked.Some? && IsFirstTunnel(s.unlocked.value.data.tunnels, id, k)
    ensures var data, o := s.unlocked.value.data, Performed(s, SetTunnelEnabled(id, enabled), now, draw);
            var already := exists i :: 0 <= i < |data.tunnels| && data.tunnels[i].id == id && data.tunnels[i].enabled == enabled;
            && (already ==> o == Outcome([s.world], s, Snapshot(data, s.revision)))
            && (!already && Saves(s.world, draw) ==>
                  o.reply == Snapshot(data.(tunnels := data.tunnels[k := data.tunnels[k].(enabled := enabled)], updatedAt := now),
                                      if s.revision < U64_MAX then s.revision + 1 else U64_MAX))
  {
    var edit := SetTunnelEnabled(id, enabled);
    SwitchTunnelExactly(s.unlocked.value.data, id, enabled);
    if !AlreadySo(s.unlocked.value.data, edit) {
      MutateShowsEdit(s, edit, now, draw);
    }
  }

  /** A vault is created exactly if there is none, the password has six characters and the write
      succeeds; a user's password gets the slow derivation, the automatic one the fast. */
  lemma CreateExactly(s: Store, password: string, data: VaultData, salt: Codec.Salt, draw: Draw)
    ensures var o := Created(s, password, data, salt, draw);
            && (o.reply.Snapshot? <==> VAULT_FILE_NAME !in s.world.disk && |password| >= 6 && Saves(s.world, draw))
            && (o.reply.Snapshot? ==>
                  && o.reply == Snapshot(data, s.revision)
                  && o.store.unlocked == Some(Unlocked(data, Key(password, salt,
                       if password == "helm-internal-auto-key-2024" then Codec.KdfParams(1024, 1, 1)
                       else Codec.KdfParams(65536, 3, 1)))))
            && (VAULT_FILE_NAME in s.world.disk ==> o.reply == Failed(VaultAlreadyExists))
  {
  }

  /** `auto_open` that is ready has opened with the automatic password, and with the fast
      derivation unless the upgrade could not be written. */
  lemma AutoOpenIsFast(s: Store, op: Op)
    requires op.AutoOpen? && Step(s, op).reply.Ready?
    ensures Step(s, op).store.unlocked.Some?
    ensures Step(s, op).store.unlocked.value.key.password == "helm-internal-auto-key-2024"
    ensures var before := UnlockedBy(s, AUTO_PASSWORD, op.now, op.draw).store.world;
            VAULT_FILE_NAME !in s.world.disk || Saves(before, op.again) ==>
              Step(s, op).store.unlocked.value.key.params.mCostKib <= 2048
              && Step(s, op).store.unlocked.value.key.params.tCost <= 2
  {
    if VAULT_FILE_NAME !in s.world.disk {
      CreateExactly(s, AUTO_PASSWORD, WithDefaultGroup(op.groupId, op.now), op.salt, op.draw);
    } else {
      UnlockCarriesOver(s, AUTO_PASSWORD, op.now, op.draw);
      UpgradedIsFast(UnlockedBy(s, AUTO_PASSWORD, op.now, op.draw).store, op.salt, op.again);
    }
  }

  lemma UpgradedIsFast(s: Store, salt: Codec.Salt, draw: Draw)
    requires s.unlocked.Some? && s.unlocked.value.key.password == AUTO_PASSWORD
    ensures var t := Upgraded(s, salt, draw).store;
            && t.unlocked.Some? && t.unlocked.value.key.password == AUTO_PASSWORD
            && t.unlocked.value.data == s.unlocked.value.data
            && (Saves(s.world, draw) ==>
                  t.unlocked.value.key.params.mCostKib <= 2048 && t.unlocked.value.key.params.tCost <= 2)
  {
  }

  /** `migrate` that succeeds leaves the automatic password and the fast derivation, with the
      document it opened under the old one. */
  lemma MigrateKeepsDocument(s: Store, op: Op)
    requires op.MigratePassword? && Step(s, op).reply.Snapshot?
    ensures var opened_ := UnlockedBy(s, op.password, op.now, op.draw).reply;
            && opened_.Snapshot? && Step(s, op).reply.data == opened_.data
            && Step(s, op).store.unlocked == Some(Unlocked(opened_.data,
                 Key("helm-internal-auto-key-2024", op.salt, Codec.KdfParams(1024, 1, 1))))
  {
    UnlockReplies(s, op.password, op.now, op.draw);
    if UnlockedBy(s, op.password, op.now, op.draw).reply.Snapshot? {
      UnlockCarriesOver(s, op.password, op.now, op.draw);
    }
  }

  /** What the vault file is to a password. */
  datatype Finding = NoFile | NoVault(reason: Codec.DecodeError) | Closed | Opens(data: VaultData)

  function Find(w: World, password: string): Finding {
    if VAULT_FILE_NAME !in w.disk then NoFile
    else
      var read := Codec.Decode(w.disk[VAULT_FILE_NAME].bytes);
      if read.Err? then NoVault(read.error)
      else
        var data := Open(w.log, Key(password, read.vault.salt, read.vault.params), read.vault);
        if data.None? then Closed else Opens(data.value)
  }

  /** The reply to an unlock, case by case; a migrated document is shown only once it is written. */
  lemma UnlockReplies(s: Store, password: string, now: int, draw: Draw)
    ensures var o := UnlockedBy(s, password, now, draw);
            match Find(s.world, password)
            case NoFile => o.reply == Failed(VaultNotFound) && o.store == s
            case NoVault(reason) => o.reply == Failed(Unreadable(reason)) && o.store == s
            case Closed => o.reply == Failed(InvalidMasterPassword) && o.store == s
            case Opens(data) =>
              if MigratedData(data) == data then o.reply == Snapshot(data, s.revision) && o.store.world == s.world
              else if Saves(s.world, draw) then o.reply.Snapshot? && o.store.unlocked.Some?
              else o.reply == Failed(IoError) && o.store.unlocked == s.unlocked
  {
  }

  /** The reply to `auto_open`: ready with a vault it has created or can open, a request for the
      old password exactly if there is a vault that the automatic one does not open, else
      the error. */
  lemma AutoOpenReplies(s: Store, op: Op)
    requires op.AutoOpen?
    ensures var reply := Step(s, op).reply;
            match Find(s.world, AUTO_PASSWORD)
            case NoFile => reply == if Saves(s.world, op.draw) then Ready else Failed(IoError)
            case NoVault(reason) => reply == Failed(Unreadable(reason))
            case Closed => reply == NeedsMigration
            case Opens(data) =>
              reply == if MigratedData(data) == data || Saves(s.world, op.draw) then Ready else Failed(IoError)
  {
    UnlockReplies(s, AUTO_PASSWORD, op.now, op.draw);
  }

  /** The reply to an import: what the payload is decides it before the write does. */
  lemma ImportReplies(s: Store, read: Codec.Decoded, now: int, draw: Draw)
    ensures var reply := ImportedVault(s, read, now, draw).reply;
            if read.Err? then reply == Failed(Unreadable(read.error))
            else if s.unlocked.None? then reply == Failed(VaultLocked)
            else if Open(s.world.log, s.unlocked.value.key, read.vault).None? then reply == Failed(BadInput)
            else if Saves(s.world, draw) then reply.Snapshot?
            else reply == Failed(IoError)
  {
  }
}
