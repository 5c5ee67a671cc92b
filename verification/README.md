# Helm SSH: verified core

Helm is a desktop SSH client, with a Rust back end (`src-tauri/src`) and a TypeScript front end
(`src`).  This project models the parts of it that carry invariants and proves what they promise, for every
input and every run.  `dafny verify dfyconfig.toml` checks all of it.

**The encrypted vault** (`FileSystem`, `VaultCodec`, `VaultDocument`, `VaultIntegrity`, `VaultEdits`,
`VaultStore`, `PlainVault`, `VaultRefinement`, `VaultRuns`, `VaultReplies`, `VaultObject`, `SnapshotGate`).  One document
in memory is mirrored to one encrypted file.  The file system is a map from paths to files that may or may
not be flushed; a crash may strike between any two file-system steps and change or lose whatever was
not flushed.  The cipher is ideal: a log holds all that was ever sealed, and a ciphertext opens exactly
if it was sealed with that key, nonce and authenticated header.  A key is the password, salt and
parameters it is derived from.  The bytes on disk are the real vault format.  The specification is
`PlainVault`, a store with a password and a document and neither files nor ciphers.  The
main theorem, `VaultRuns.RunRefines`, says that every run with crashes is a run of that store with the
same replies; durability, the coherence of memory and disk, referential integrity and the meaning of
revisions follow from it.  `VaultEdits` says of every edit when it is accepted and what each field of the document
is afterwards, and `VaultReplies` says the same of the replies.  `VaultRuns.ConcreteRun` shows that the freshness conditions on runs can be met.

**Concurrent protocols** (`ConfigMutation`, `UploadClose`, `SessionRuntime`, `SessionLaws`, `SessionCourse`,
`SessionObject`, `Countdown`).  Each is a state machine over all interleavings of its atomic steps, of which the laws are proved for
all runs, and a class; every step that works on the object is a method of the class, proved to do that step.  Steps
outside the object (a new task, a closer that times out, the copy of a ticket) are the machine's alone.
`UploadQueue` is one method that leaves open which worker resumes next.

**Algorithms** (`OutputGate`, `DownloadPlan`, `DownloadLaws`, `DownloadText`, `DownloadCauses`,
`DownloadBuild`, `Retention`, `RetentionLaws`, `RetentionExact`, `CommandLine`, `Broker`).  Loops proved against specifications that do not mention them.  `Text`, `Bytes`, `Options`
and `Collections` hold what several modules share.

What the proofs say about the code where its behaviour is not what one would expect:

- A NUL in an argument cuts the broker's command line short, and a program name that holds a quote, or has to
  be quoted and ends in a backslash, is not read back: `CommandLine.CommandLineRoundTrip` gives the exact
  condition.
- A retention window shorter than the backup interval makes targets due early:
  `RetentionLaws.PruneKeepsDueExactly` proves that pruning is invisible to the scheduler exactly when it is not.
- A backup that has just succeeded can be due again at once: `merge_backup_outcomes` drops an outcome whose target is
  already listed, with whatever time the listing gives it.  `RetentionLaws.ListedRecordHidesNewSuccess` is the case,
  `RetentionLaws.DueAfterBackupExactly` and `RetentionLaws.FreshBackupIsNotDueExactly` give the condition.
- An attempt cancelled after it has received a connection id disconnects it a second time if the component is
  unmounted before the attempt resumes (`SessionLaws.UnmountAfterCancelUsesTwice`).
- An attempt cancelled while its terminal starts is disconnected by the cancellation and reported as connected all the
  same, its services started (`src/app/useSessionRuntime.ts:730-764`), also in a mounted component:
  `SessionLaws.CancelDuringStartReportsDisconnected` is such a run, `SessionLaws.DisconnectedAndReportedExactly` and
  `SessionLaws.ConnectionUsedExactlyOnce` say exactly when it happens, and `SessionLaws.SecondUseExactly` names
  the steps.
- The revision saturates; at its greatest value it no longer determines the document
  (`SnapshotGate.RevisionSaturates`).
- Every change of key, also the silent upgrade to a faster derivation, makes the earlier backups of the workspace
  unreadable to `backup_import_bytes`: `VaultRuns.RekeyOrphansBackups`, `VaultRuns.UpgradeOrphansBackups` and
  `VaultRuns.MigrateOrphansBackups`.  What can be imported is exactly what `VaultRuns.BackupsCanBeImported` and
  `VaultRuns.RekeyLeavesOnePayload` say.
- The epoch of the mutation coordinator wraps at 2^64; `ConfigMutation.CheckGrantsExactly` states the law with
  the wrap.

## Model

| member | source | states |
|---|---|---|
| `FileSystem.Volume.WriteAtomic` | src-tauri/src/atomic_file.rs:13-30 | passes exactly through the disks of the specified sequence (create, partial and whole write, flush, rename, clean-up) and succeeds exactly if no step is refused |
| `FileSystem.Volume.Replace` | src-tauri/src/atomic_file.rs:16-25 | the closure without the clean-up: each refused step ends it after the disks passed so far |
| `FileSystem.TempIsAnotherFile` | src-tauri/src/atomic_file.rs:106-113 | the temporary name is never the target's, for every random part |
| `FileSystem.EveryStateIsOldOrNew` | src-tauri/src/atomic_file.rs:13-30 | every disk passed holds at the target the old file or the whole new one, flushed; a failed write never the new one; no file but target and temporary changes |
| `FileSystem.EndOfWrite` | src-tauri/src/atomic_file.rs:26-29 | success leaves only the target replaced; failure with a working clean-up leaves the disk as it was |
| `FileSystem.CrashLeavesOldOrNew` | src-tauri/src/atomic_file.rs:13-30 | a crash in any state of any write leaves the old flushed file or the complete new one |
| `VaultCodec.BinaryHeader` | src-tauri/src/crypto.rs:209-221 | the loop-built header is magic, version, parameters, salt, nonce and length at their offsets |
| `VaultCodec.DecodeEncode` | src-tauri/src/crypto.rs:223-257 | decoding an encoded vault with supported parameters and a tag returns it |
| `VaultCodec.EncodeDecode` | src-tauri/src/crypto.rs:223-257 | encoding what an accepted byte string decodes to returns the byte string |
| `VaultCodec.DecodeExactly` | src-tauri/src/crypto.rs:229-257 | the reader accepts exactly the encodings of well-formed vaults, each as that vault |
| `VaultCodec.AuthenticatedHeader` | src-tauri/src/crypto.rs:115-185 | the header sealed with the plaintext is the file's first 70 bytes and the header rebuilt on reading |
| `VaultCodec.FileLayout` | src-tauri/src/crypto.rs:209-227 | every field of a vault file at its offset, magic and version byte for byte |
| `VaultCodec.DigitAt` | src-tauri/src/crypto.rs:209-221 | numbers are written lowest byte first |
| `VaultDocument.PickAiSessions` | src-tauri/src/vault.rs:262-285 | the normalising loop computes the recursive specification |
| `VaultEdits.PickedExactly` | src-tauri/src/vault.rs:262-285 | accepted exactly if at most 20 different non-blank ids are asked for and all exist; then exactly those, each once |
| `VaultEdits.PickedInOrder` | src-tauri/src/vault.rs:262-285 | the ids picked are distinct and in the order in which the request first names them |
| `VaultEdits.CreateSessionExactly` | src-tauri/src/vault.rs:643-649 | accepted exactly if the fields are filled, the group exists, the name is free and the proxy is valid; the new session holds the trimmed fields, nothing else changes; which error otherwise |
| `VaultEdits.UpdateSessionExactly` | src-tauri/src/vault.rs:651-666 | accepted exactly if valid and the id exists; name, host and username trimmed, port, group and details as given, id, favourite mark and history kept, nothing else changed; which error otherwise |
| `VaultEdits.SmallSessionEditsExactly` | src-tauri/src/vault.rs:668-709 | favourite mark, count and last connection of the session become what the edit says, nothing else changes |
| `VaultEdits.CreateTunnelExactly` | src-tauri/src/vault.rs:345-351 | accepted exactly if the input is complete and the session exists; the new tunnel is off and holds the trimmed fields |
| `VaultEdits.UpdateTunnelExactly` | src-tauri/src/vault.rs:403-418 | the tunnel takes the trimmed fields and keeps id and switch |
| `VaultEdits.SwitchTunnelExactly` | src-tauri/src/vault.rs:357-381 | exactly the switch of the tunnel changes |
| `VaultEdits.DeleteTunnelExactly` | src-tauri/src/vault.rs:420-429 | exactly the tunnels with the id go |
| `VaultEdits.CreateGroupExactly` | src-tauri/src/vault.rs:593-600 | accepted exactly if the name fits (8 Han of 10 characters), fewer than ten custom groups exist and the parent exists; added last with its sort order |
| `VaultEdits.UpdateGroupExactly` | src-tauri/src/vault.rs:602-613 | accepted exactly for an existing group other than the default with a fitting name and an existing parent other than itself; id and order are kept |
| `VaultEdits.UpdateAiApiExactly` | src-tauri/src/vault.rs:262-299 | accepted exactly if the port is unprivileged, the sessions exist and are at most 20 and an automatic start has both; stores them in order with port and start |
| `VaultEdits.UpdateSectionsExactly` | src-tauri/src/vault.rs:324-343 | the collapsed sections become exactly the existing ones asked for, in order, if at most 32 and of fitting length |
| `VaultEdits.OtherEditsExactly` | src-tauri/src/vault.rs:194-202 | preferences are replaced exactly if valid, the rest of the document unconditionally |
| `VaultEdits.MigrationCarriesOver` | src-tauri/src/config.rs:401-435 | migration keeps every AI-API authorisation, the legacy one included, the automatic start if any session is authorised, and all else; the version never falls |
| `Text.TrimExactly` | src-tauri/src/config.rs:512-517 | trimming takes white space off both ends, and all of it |
| `VaultEdits.DeleteSessionExactly` | src-tauri/src/vault.rs:711-738 | succeeds exactly for an existing id; removes the session, its tunnels and its authorisation and nothing else; the automatic start stays exactly if another id is left |
| `VaultEdits.DeleteGroupExactly` | src-tauri/src/vault.rs:615-641 | succeeds exactly for an existing group that is not the default one; every session stays, those of the group move to the default group |
| `VaultIntegrity.CreateGroupSound` | src-tauri/src/vault.rs:593-600 | a new group keeps integrity, with the bound of ten custom groups |
| `VaultIntegrity.DeleteGroupSound` | src-tauri/src/vault.rs:615-641 | deleting a group leaves no dangling parent, session group or collapsed section |
| `VaultIntegrity.CreateSessionSound` | src-tauri/src/vault.rs:643-649 | a new session has an existing group and an unused name |
| `VaultIntegrity.UpdateSessionSound` | src-tauri/src/vault.rs:651-666 | an updated session keeps ids, distinct names and existing groups |
| `VaultIntegrity.DeleteSessionSound` | src-tauri/src/vault.rs:711-738 | deleting a session leaves no tunnel and no AI-API id without its session |
| `VaultIntegrity.TunnelSound` | src-tauri/src/vault.rs:345-429 | every tunnel edit keeps tunnels on existing sessions |
| `VaultIntegrity.AiApiSound` | src-tauri/src/vault.rs:262-299 | ids distinct, at most 20, existing; the legacy id is the first; automatic start only with ids and a port |
| `VaultIntegrity.ApplyKeepsIntegrity` | src-tauri/src/vault.rs:593-738 | every edit keeps the whole integrity invariant with the same default group |
| `VaultIntegrity.CreatedIntegrity` | src-tauri/src/config.rs:370-382 | a new document is sound |
| `VaultIntegrity.MigrationSettles` | src-tauri/src/config.rs:401-435 | migration settles in one pass, restores the legacy mirror, and leaves sound documents alone |
| `VaultObject.VaultStoreObject.Create` | src-tauri/src/vault.rs:146-163 | new state, reply and worlds passed are those of the specified create |
| `VaultObject.VaultStoreObject.Unlock` | src-tauri/src/vault.rs:165-178 | likewise for unlock, with the rewrite of a migrated document before memory changes |
| `VaultObject.VaultStoreObject.UpgradeToFastKdfIfNeeded` | src-tauri/src/vault.rs:98-116 | likewise for the silent upgrade |
| `VaultObject.VaultStoreObject.AutoOpen` | src-tauri/src/vault.rs:80-94 | likewise for auto_open |
| `VaultObject.VaultStoreObject.MigratePassword` | src-tauri/src/vault.rs:120-132 | likewise for migrate |
| `VaultObject.VaultStoreObject.Mutate` | src-tauri/src/vault.rs:740-753 | likewise for mutate |
| `VaultObject.VaultStoreObject.SetTunnelEnabled` | src-tauri/src/vault.rs:357-381 | likewise; a tunnel that is already so gives a snapshot without a write or a new revision |
| `VaultObject.VaultStoreObject.ImportBytes` | src-tauri/src/vault.rs:451-464 | likewise for the import of a backup |
| `VaultObject.VaultStoreObject.SealAndWrite` | src-tauri/src/vault.rs:791-793 | seals into the log, then writes the encoded vault atomically; memory and revision stay |
| `VaultRefinement.OnePasswordOpens` | src-tauri/src/crypto.rs:144-171 | no password but the stored one opens the file |
| `VaultRefinement.SaveRefines` | src-tauri/src/vault.rs:740-753 | saving under the key in use is replacing the document of the plain store, or refusing |
| `VaultRefinement.RekeyRefines` | src-tauri/src/vault.rs:120-132 | saving under a new key is replacing password and document together, or refusing |
| `VaultRefinement.UnlockRefines` | src-tauri/src/vault.rs:165-178 | unlocking accepts exactly the stored password and shows the stored document |
| `VaultRefinement.ImportRefines` | src-tauri/src/vault.rs:451-464 | importing is restoring a document sealed under the current key, or refusing |
| `VaultRefinement.SourceIsPossible` | src-tauri/src/crypto.rs:173-185 | a payload opens only to a document sealed earlier under the current key |
| `VaultRefinement.StepRefines` | src-tauri/src/vault.rs:69-764 | every operation does to the plain store what it does to the encrypted one, with the same reply |
| `PlainVault.AcknowledgedIsStored` | src-tauri/src/vault.rs:740-760 | a snapshot in a reply is the stored document at the stored revision; after auto_open is ready the automatic password opens |
| `PlainVault.RefusedKeepsDocument` | src-tauri/src/vault.rs:120-178 | a refusal keeps password, document, revision and lock state; only a failed migrate may leave a migrated document and an unlocked store |
| `PlainVault.StepIsOldOrInFlight` | src-tauri/src/vault.rs:69-764 | every operation leaves the old vault or one of the documents it set out to store |
| `PlainVault.TargetsAreSound` | src-tauri/src/vault.rs:451-464 | whatever an operation sets out to store is sound, imports included, with the same default group |
| `VaultRuns.EveryWorldIsOldOrInFlight` | src-tauri/src/vault.rs:120-178 | in every world an operation passes the file opens to the old or an in-flight document |
| `VaultRuns.CrashRecovers` | src-tauri/src/vault.rs:740-753 | after a crash in any of them a restarted store holds the old or an in-flight document |
| `VaultRuns.CrashDuringOperation` | src-tauri/src/vault.rs:165-178 | after the crash exactly one password opens the vault, with that document |
| `VaultRuns.CrashDuringMigrate` | src-tauri/src/vault.rs:118-132 | after a crash in migrate the old or the automatic password opens the same document |
| `VaultRuns.RunRefines` | src-tauri/src/vault.rs:69-764 | every run with crashes is a run of the plain store with the same replies |
| `VaultRuns.RunLeavesOldOrSetOut` | src-tauri/src/vault.rs:740-753 | whatever a run with crashes leaves was there before it or some operation of it set out to store it |
| `VaultRuns.AcknowledgedSurvives` | src-tauri/src/vault.rs:740-753 | once a document has been acknowledged, after any number of unacknowledged operations and crashes exactly one password opens the vault, with that document or one a later unacknowledged operation set out to store |
| `VaultRuns.RunKeepsIntegrity` | src-tauri/src/vault.rs:451-464 | in every run, with crashes and imports, document and backups are sound and the default group never changes |
| `VaultRuns.ReachableDocumentIsSound` | src-tauri/src/config.rs:370-398 | every document in memory in a run of a new installation is sound |
| `VaultRuns.MemoryMirrorsDisk` | src-tauri/src/crypto.rs:68-75 | whenever unlocked, the key is derived from the password with the salt and parameters on disk and opens the file to the document in memory |
| `VaultRuns.RefusalChangesNothing` | src-tauri/src/vault.rs:740-753 | a refused mutate or import changes neither memory, revision nor vault file |
| `VaultRuns.BackupsCanBeImported` | src-tauri/src/vault.rs:451-464 | every document sealed under the current key can be imported from its file |
| `VaultRuns.RekeyLeavesOnePayload` | src-tauri/src/vault.rs:451-464 | after a change of key a payload can be imported if and only if it decodes to the vault the change wrote |
| `VaultRuns.RekeyOrphansBackups` | src-tauri/src/vault.rs:451-464 | a payload that could be imported before a change of key is foreign after it |
| `VaultRuns.UpgradeOrphansBackups` | src-tauri/src/vault.rs:98-116 | the silent upgrade does this |
| `VaultRuns.MigrateOrphansBackups` | src-tauri/src/vault.rs:120-132 | migrate does this to the backups of the old key |
| `VaultRuns.ConcreteRun` | src-tauri/src/vault.rs:146-163 | a concrete run of create and mutate meets the freshness conditions |
| `VaultReplies.UnlockCarriesOver` | src-tauri/src/vault.rs:165-178 | the snapshot of an unlock is the stored document, migrated without losing an authorisation or any other field |
| `VaultReplies.ImportCarriesOver` | src-tauri/src/vault.rs:451-464 | the snapshot of an import is the document of the backup, carried over likewise, at the next revision |
| `VaultReplies.ImportRestores` | src-tauri/src/vault.rs:451-464 | every document sealed under the current key comes back from its file |
| `VaultReplies.MutateShowsEdit` | src-tauri/src/vault.rs:740-753 | a mutation is acknowledged exactly if the edit is accepted and written, with the edited document at the next revision; a refusal names its cause |
| `VaultReplies.SwitchTunnelShows` | src-tauri/src/vault.rs:357-381 | switching a tunnel to what it is writes nothing; otherwise the snapshot differs in the switch alone |
| `VaultReplies.CreateExactly` | src-tauri/src/vault.rs:146-163 | a vault is created exactly if there is none, the password has six characters and the write succeeds; user passwords get the slow derivation |
| `VaultReplies.UnlockReplies` | src-tauri/src/vault.rs:165-178 | the reply for a missing, unreadable, closed and openable file |
| `VaultReplies.AutoOpenReplies` | src-tauri/src/vault.rs:80-94 | ready, a request for the old password exactly if the automatic one does not open, or the error |
| `VaultReplies.AutoOpenIsFast` | src-tauri/src/vault.rs:80-116 | after auto_open the automatic password is in use, with the fast derivation unless the upgrade could not be written |
| `VaultReplies.MigrateKeepsDocument` | src-tauri/src/vault.rs:120-132 | migrate shows the document it opened, under the automatic password and the fast derivation |
| `VaultReplies.ImportReplies` | src-tauri/src/vault.rs:451-464 | the reply for an unreadable, foreign and accepted payload |
| `SnapshotGate.ConfigView.CommitSnapshot` | src/App.tsx:568-574 | takes a snapshot exactly if none is shown or its revision is not lower |
| `SnapshotGate.NeverStepsBack` | src/lib/configSnapshot.ts:3-8 | for every delivery sequence the shown revision never falls |
| `SnapshotGate.EndsOnHighest` | src/lib/configSnapshot.ts:3-8 | the view ends on a delivered snapshot of the highest delivered revision |
| `SnapshotGate.RevisionLaw` | src-tauri/src/vault.rs:740-760 | an open store's document changes only together with its revision |
| `SnapshotGate.RevisionDeterminesDocument` | src-tauri/src/vault.rs:740-760 | of the snapshots of one run a later one has no lower revision and, below the greatest, equal revisions mean equal documents |
| `SnapshotGate.GateEndsOnNewest` | src/App.tsx:568-574 | for every order and repetition of deliveries the view ends on the one issued last |
| `SnapshotGate.GateOfOneRun` | src/App.tsx:568-574 | the same for every run of a process from its start, on whatever vault it finds |
| `SnapshotGate.RevisionSaturates` | src-tauri/src/vault.rs:751-751 | at the greatest revision two different documents carry the same revision |
| `ConfigMutation.ConfigMutationCoordinator.TakeTicket` | src-tauri/src/config_mutation.rs:31-33 | is the ticket event of the machine and returns the epoch |
| `ConfigMutation.ConfigMutationCoordinator.Lock` | src-tauri/src/config_mutation.rs:35-42 | is the acquire, check and, if refused, release events; granted exactly if the epoch is even and still the ticket's |
| `ConfigMutation.ConfigMutationCoordinator.BeginReplacement` | src-tauri/src/config_mutation.rs:44-52 | is the acquire and begin events |
| `ConfigMutation.ConfigMutationCoordinator.EndReplacement` | src-tauri/src/config_mutation.rs:55-60 | is the end event and then the release of the gate |
| `ConfigMutation.RunsKeepInv` | src-tauri/src/config_mutation.rs:31-60 | the protocol invariant in every run |
| `ConfigMutation.EpochUnmoved` | src-tauri/src/config_mutation.rs:31-42 | a ticket equals the epoch exactly if the epoch moved a multiple of 2^64 times |
| `ConfigMutation.CheckGrantsExactly` | src-tauri/src/config_mutation.rs:35-42 | the lock is granted if and only if no replacement began or ended since the ticket (up to the wrap) |
| `ConfigMutation.GrantedIsUndisturbed` | src-tauri/src/config_mutation.rs:35-60 | while a lock is held no replacement has begun or ended since its ticket |
| `ConfigMutation.OddEpochBelongsToReplacement` | src-tauri/src/config_mutation.rs:44-60 | at an odd epoch the gate is neither free nor with a mutator; never two holders |
| `ConfigMutation.GateIsNeverStuck` | src-tauri/src/config_mutation.rs:35-60 | the gate is free, or its holder can go on and releases it within four events of its own |
| `UploadClose.SftpRecord.StepUpload` | src-tauri/src/remote.rs:826-840 | each atomic operation of registration and guard drop is the step of the state machine |
| `UploadClose.SftpRecord.StepCloser` | src-tauri/src/remote.rs:842-859 | each atomic operation of the closer is the step of the state machine |
| `UploadClose.CleanMeansNoGuardEver` | src-tauri/src/remote.rs:820-859 | once a closer read zero after closing, no upload owns a guard, then or later |
| `UploadClose.CounterNeverUnderflows` | src-tauri/src/remote.rs:923-928 | the counter is the number of counted uploads |
| `UploadClose.SleepingCloserIsWoken` | src-tauri/src/remote.rs:842-859 | a closer asleep at zero uploads has a notification still to come, which lets it finish |
| `UploadClose.OpenRecordGrants` | src-tauri/src/remote.rs:826-840 | in every run that has not closed the record a registration gets its guard in three operations, counted once, nothing else changed |
| `UploadClose.TurnedAwayOnlyByClosing` | src-tauri/src/remote.rs:826-840 | an upload is refused, or gone without a guard, only if a closer had begun |
| `UploadClose.ClosedRecordGrantsNothing` | src-tauri/src/remote.rs:826-840 | once closed, an upload that is not live never becomes live |
| `UploadClose.DroppedGuardNotifies` | src-tauri/src/remote.rs:923-928 | dropping a guard uncounts the upload and notifies once |
| `UploadClose.IdleRecordClosesAtOnce` | src-tauri/src/remote.rs:820-859 | a closer of an idle record finishes clean in four operations |
| `OutputGate.TerminalOutputGate.PushPending` | src-tauri/src/remote.rs:778-795 | the buffer after a push is the specified buffer of all frames pushed |
| `OutputGate.TerminalOutputGate.MakeRoom` | src-tauri/src/remote.rs:783-791 | the loop drops the fewest frames at the front so that the new one fits |
| `OutputGate.TerminalOutputGate.Route` | src-tauri/src/remote.rs:759-767 | a frame is handed on when streaming and buffered otherwise |
| `OutputGate.TerminalOutputGate.Start` | src-tauri/src/remote.rs:769-776 | hands the buffer over once, nothing the second time |
| `OutputGate.BufferIsLongestFitting` | src-tauri/src/remote.rs:778-795 | the buffer is the longest run of newest frames that fits the cap |
| `OutputGate.BufferIsSuffix` | src-tauri/src/remote.rs:778-795 | the buffered bytes, tagged with their kind, are a suffix of everything pushed |
| `OutputGate.BufferWithinCap` | src-tauri/src/remote.rs:778-795 | the byte count is the buffered length and never above the cap |
| `OutputGate.NothingLostWhileItFits` | src-tauri/src/remote.rs:778-795 | while all pushed bytes fit, all are buffered |
| `OutputGate.NoSaturation` | src-tauri/src/remote.rs:778-795 | no sequence of pushes saturates the sum of the loop test if and only if the cap is at most half the address space, as the default is |
| `OutputGate.DropIsExact` | src-tauri/src/remote.rs:783-791 | the subtraction for a dropped frame never saturates |
| `OutputGate.FrameCarriesKind` | src-tauri/src/remote.rs:713-736 | a frame gives back its kind and its bytes |
| `DownloadBuild.BuildRemoteDownloadPlan` | src/app/remoteDownloadPlan.ts:27-74 | for every concurrency the batched scan ends, fails exactly when the simple scan fails, and returns the simple scan's plan in its order |
| `DownloadBuild.ScanBatch` | src/app/remoteDownloadPlan.ts:48-72 | a batch does what as many steps of the simple scan do |
| `DownloadBuild.AddListing` | src/app/remoteDownloadPlan.ts:58-71 | adding a listing computes its recursive specification |
| `DownloadBuild.ConcurrencyDoesNotMatter` | src/app/remoteDownloadPlan.ts:27-74 | any two concurrencies give the same plan or both fail |
| `DownloadPlan.OneOutcome` | src/app/remoteDownloadPlan.ts:27-74 | the simple scan has one outcome |
| `DownloadPlan.SafeChild` | src/app/remoteDownloadPlan.ts:105-113 | joining a safe name cannot leave the directory |
| `DownloadPlan.NormalizeIsNormal` | src/lib/path.ts:1-16 | normalised paths have no empty, dot or dot-dot segment |
| `DownloadText.NormalizeSteps` | src/lib/path.ts:1-16 | empty parts and dots vanish, two dots take back the part before, every other part stays |
| `DownloadText.SafeSegmentExactly` | src/app/remoteDownloadPlan.ts:105-118 | the test accepts exactly the names with a visible character, no separator, reserved or control character, no final dot or blank, that name no Windows device |
| `DownloadText.SafeChildText` | src/lib/path.ts:14-16 | the text of a directory, a slash and a safe name, taken apart and normalised, is the child of that name |
| `DownloadText.SafePathStaysBelow` | src/app/remoteDownloadPlan.ts:99-113 | a path of safe names joined as text splits at both separators into itself, and joined to any folder lies one level below it a name |
| `DownloadText.PlanStaysBelow` | src/app/remoteDownloadPlan.ts:76-113 | everything a finished plan writes stays below the chosen folder, as text |
| `DownloadText.PlanMirrorsRemote` | src/app/remoteDownloadPlan.ts:58-88 | every planned file has its remote name at its remote place |
| `DownloadCauses.AddExactly` | src/app/remoteDownloadPlan.ts:76-96 | an addition fails exactly by a folded key that another item has, and otherwise goes last in its list |
| `DownloadCauses.FailsOnlyForCause` | src/app/remoteDownloadPlan.ts:38-113 | a scan fails only for the cause its error names: an unsafe name, a reachable directory that cannot be listed, or a clash of local keys |
| `DownloadCauses.CompletesOnlyIfClean` | src/app/remoteDownloadPlan.ts:48-72 | a finished scan has listed every reachable directory and found only safe names |
| `DownloadLaws.PlanListsReachableOnce` | src/app/remoteDownloadPlan.ts:48-83 | a plan lists exactly the reachable directories, each once |
| `DownloadLaws.PlanHoldsEveryFile` | src/app/remoteDownloadPlan.ts:58-88 | a plan holds exactly the selected files and the files of its directories |
| `DownloadLaws.PlanIsWritable` | src/app/remoteDownloadPlan.ts:76-113 | no two entries share a folded key; segments are safe; parents come earlier |
| `DownloadLaws.ListedBound` | src/app/remoteDownloadPlan.ts:48-72 | a scan lists no more directories than there are |
| `Retention.PruneBackupRecords` | src-tauri/src/vault.rs:804-856 | the counting loop removes exactly the specified records and reports their files |
| `Retention.PrunedByClass` | src-tauri/src/vault.rs:804-856 | per target kind, successes and failures apart, exactly the most recent up to the count and not past the cutoff stay |
| `RetentionExact.ClassKeepsNewest` | src-tauri/src/vault.rs:804-856 | of each class exactly the newest records in the window stay: as many as the retention count, at least one, or all if fewer |
| `RetentionExact.CleanupsAreOfRemoved` | src-tauri/src/vault.rs:836-856 | the files to delete are exactly those of the records that do not stay |
| `RetentionExact.DueExactly` | src-tauri/src/backup.rs:207-257 | a target is due exactly if the frequency is automatic, it is switched on and configured, and no success of its kind is younger than the frequency in seconds |
| `RetentionLaws.PruneIsIdempotent` | src-tauri/src/vault.rs:804-856 | pruning twice at one clock reading is pruning once |
| `RetentionLaws.LastSuccessAfterPrune` | src-tauri/src/vault.rs:804-856 | the newest success of a kind stays unless past the cutoff |
| `RetentionLaws.PruneKeepsDueExactly` | src-tauri/src/backup.rs:207-257 | pruning leaves the due targets alone, for all records, if and only if the window is off or no shorter than the interval |
| `RetentionLaws.WitnessBecomesDue` | src-tauri/src/backup.rs:233-257 | otherwise a concrete record makes a target due early |
| `RetentionLaws.MergeBackupOutcomes` | src-tauri/src/backup.rs:171-182 | the loop computes the merge |
| `RetentionLaws.MergeRepresents` | src-tauri/src/backup.rs:171-182 | merging keeps the listed, represents every outcome and adds nothing represented |
| `RetentionLaws.DueAfterPrune` | src-tauri/src/backup.rs:233-257 | after pruning a target is due exactly if no listed success of its kind is younger than the interval and inside the window |
| `RetentionLaws.MergedMembers` | src-tauri/src/backup.rs:171-182 | the merged list holds exactly the records and the outcomes whose target is not listed by a record or an earlier outcome |
| `RetentionLaws.DueAfterBackupExactly` | src-tauri/src/backup.rs:152-182 | after merging any outcomes and pruning a target is due if and only if no listed success still counts and every outcome that would is dropped by the merge |
| `RetentionLaws.FreshBackupIsNotDueExactly` | src-tauri/src/backup.rs:152-182 | a success recorded now leaves its target not due, after merge and prune, if and only if it is not listed already or a listed success still counts |
| `RetentionLaws.ListedRecordHidesNewSuccess` | src-tauri/src/backup.rs:171-182 | a concrete list whose old record of the same file makes the target due right after a success |
| `SessionObject.SessionRefs.BeginConnect` | src/app/useSessionRuntime.ts:216-232 | the new refs are those of the step; refused exactly when connecting or unmounted |
| `SessionObject.SessionRefs.FinishConnectionAttempt` | src/app/useSessionRuntime.ts:234-246 | the new refs are those of the step |
| `SessionObject.SessionRefs.CancelConnectingSession` | src/app/useSessionRuntime.ts:284-332 | the loop over targets is the step |
| `SessionObject.SessionRefs.ScheduleReconnect` | src/app/useSessionRuntime.ts:925-969 | the new refs are those of the step |
| `SessionObject.SessionRefs.CancelReconnect` | src/app/useSessionRuntime.ts:914-917 | the countdown of the session, and no other, is stopped and forgotten |
| `SessionObject.SessionRefs.ResetSessionRuntime` | src/app/useSessionRuntime.ts:189-214 | the new refs are those of the step |
| `SessionObject.AfterAwait` | src/app/useSessionRuntime.ts:675-776 | the code of connectSession between two awaits does to its attempt what the step does |
| `SessionObject.SessionRefs.ResumeAttempt` | src/app/useSessionRuntime.ts:675-841 | a continuation, with the finally block when it returns, is the step |
| `SessionObject.SessionRefs.RunReconnectAttempt` | src/app/useSessionRuntime.ts:971-1003 | the new refs are those of the step |
| `SessionObject.SessionRefs.CountdownElapsed` | src/app/useSessionRuntime.ts:925-969 | the new refs are those of the step |
| `SessionObject.SessionRefs.Perform` | src/app/useSessionRuntime.ts:189-1003 | every event of a run is a call of one method, which does that step |
| `SessionLaws.RunsKeepInv` | src/app/useSessionRuntime.ts:189-246 | the invariant of attempts, countdowns and maps in every run |
| `SessionLaws.ConnectionUsedExactlyOnce` | src/app/useSessionRuntime.ts:675-771 | while mounted, a returned attempt has used its connection id exactly once, disconnecting or reporting it, if and only if it was not cancelled between its last test and the start of its terminal; then it has done both |
| `SessionLaws.DisconnectedAndReportedExactly` | src/app/useSessionRuntime.ts:730-764 | mounted or not, an attempt has both disconnected and reported its id if and only if it was cancelled that late and its terminal started |
| `SessionLaws.CancelDuringStartReportsDisconnected` | src/app/useSessionRuntime.ts:730-764 | a concrete run of a mounted component in which that happens |
| `SessionLaws.SecondUseExactly` | src/app/useSessionRuntime.ts:696-764 | the steps by which an id is used a second time, in every run |
| `SessionLaws.UnmountAfterCancelUsesTwice` | src/app/useSessionRuntime.ts:696-699 | a concrete run with two uses |
| `SessionLaws.ConnectingIsAttempts` | src/app/useSessionRuntime.ts:216-246 | at yield points the connecting set is the key set of the attempts |
| `SessionLaws.AtMostOneCountdown` | src/app/useSessionRuntime.ts:925-1003 | at most one countdown a session; automatic attempts numbered 1 to the maximum |
| `SessionLaws.ManualDisconnectIsRespected` | src/app/useSessionRuntime.ts:925-1003 | no manually disconnected session has a live countdown or is reconnected by one |
| `SessionCourse.ReportedExactly` | src/app/useSessionRuntime.ts:675-764 | an attempt reports its connection if and only if it had five continuations, of which the connection, the terminal and its start succeeded, mounted at the tests and not cancelled before them |
| `SessionCourse.FailedExactly` | src/app/useSessionRuntime.ts:675-776 | a failed or refused continuation makes it return false, by its seventh at the latest, with the id it received disconnected |
| `SessionCourse.CountdownsAreNumbered` | src/app/useSessionRuntime.ts:925-969 | while the count of a session is neither cleared nor set back its countdowns are numbered one after the other, none beyond the maximum |
| `SessionCourse.LostConnectionSchedules` | src/app/useSessionRuntime.ts:925-969 | a lost connection brings the next countdown exactly if none runs and tries are left |
| `SessionCourse.ElapsedCountdownConnects` | src/app/useSessionRuntime.ts:957-1003 | an elapsed countdown of a session neither connected nor connecting begins the attempt with its number |
| `SessionCourse.FailedAttemptSchedules` | src/app/useSessionRuntime.ts:971-1003 | a failed automatic attempt schedules the next exactly if nothing speaks against it |
| `SessionCourse.CancelReachesTargets` | src/app/useSessionRuntime.ts:284-332 | every target of a cancellation is marked, not connecting and without countdown, its attempt cancelled and without connection |
| `SessionCourse.ResetAndUnmountSilence` | src/app/useSessionRuntime.ts:184-214 | a reset cancels all attempts and countdowns, unmounting all countdowns |
| `SessionCourse.ConnectBegins` | src/app/useSessionRuntime.ts:630-675 | connecting begins one attempt exactly if mounted and not connecting, takes back a manual disconnection and the session's countdown, and touches no other session |
| `SessionCourse.DisconnectStops` | src/app/useSessionRuntime.ts:373-384 | a manual disconnection marks the session and stops its countdown, nothing else |
| `SessionCourse.ReturnClears` | src/app/useSessionRuntime.ts:234-246 | a success clears the count of its session alone; a returned attempt is no longer connecting |
| `Countdown.ReconnectCountdown.DoRefresh` | src/app/sessionConnectionState.ts:47-67 | a refresh is the step of the machine |
| `Countdown.TicksDecreaseAndElapseOnce` | src/app/sessionConnectionState.ts:19-67 | ticks positive and strictly decreasing; elapse at most once and not before the deadline |
| `Countdown.StoppedIsSilent` | src/app/sessionConnectionState.ts:36-45 | nothing is ticked or elapsed after a cancellation |
| `Countdown.RefreshesAreFew` | src/app/sessionConnectionState.ts:47-67 | with timers never early, at most one refresh a second and one more |
| `Countdown.StartBrings` | src/app/sessionConnectionState.ts:30-67 | a start ticks once with the seconds rounded up and sets a timer, or elapses at once |
| `Countdown.FireBrings` | src/app/sessionConnectionState.ts:47-67 | in every run a timer before the deadline shows the seconds left and sets the next within a second; a later one elapses |
| `Countdown.CancelBrings` | src/app/sessionConnectionState.ts:36-45 | cancelling stops the timer without a tick and without elapsing |
| `UploadQueue.RunUploadQueue` | src/app/appHelpers.ts:38-56 | for every completion order each item starts once and in order, the results are a permutation of the outputs, after every step no more uploads are in flight than there are workers, and the queue ends after a fixed number of steps |
| `UploadQueue.WorkerCount` | src/app/appHelpers.ts:45-45 | the least of 12, the concurrency and the items, and at least one |
| `CommandLine.QuoteWindowsArgument` | src-tauri/src/direct_broker.rs:506-536 | the loop computes the quoted text |
| `CommandLine.BuildCommandLine` | src-tauri/src/direct_broker.rs:409-415 | the command line is the quoted program and arguments, separated by spaces |
| `CommandLine.ArgumentsRoundTrip` | src-tauri/src/direct_broker.rs:506-536 | parsing the printed arguments by Microsoft's C rules gives the list, for every list |
| `CommandLine.ProgramScans` | src-tauri/src/direct_broker.rs:409-415 | how a quoted program name is read back |
| `CommandLine.CommandLineRoundTrip` | src-tauri/src/direct_broker.rs:409-415 | program and arguments are received exactly if no text holds a NUL and the program name is readable |
| `Broker.DecimalRoundTrip` | src-tauri/src/direct_broker.rs:20-58 | printed numbers parse back within their bound |
| `Broker.HexRoundTrip` | src-tauri/src/direct_broker.rs:20-58 | the token survives hexadecimal |
| `Broker.DecodedArguments` | src-tauri/src/direct_broker.rs:20-58 | the child recovers the request from the arguments, or ignores a blank host |
| `Broker.BrokerRecoversRequest` | src-tauri/src/direct_broker.rs:352-359 | the child runs exactly its parent's request if and only if the host is not blank and holds no NUL |

## Left out

- The cipher, the key derivation and JSON: ideal functions stand for them.  That only the store seals is part of
  the idealisation; the automatic password itself is a constant of the program, so anyone who has the program
  can seal under it.  Failures of the cipher, of serialisation and of reading the vault file are not modelled.
- Power-loss durability of `rename` off Windows: the model takes the replacement as durable, as
  `MOVEFILE_WRITE_THROUGH` asks for; elsewhere the code does not flush the directory.
- The zip container of a backup: an import starts from its payload.  Old JSON workspaces are refused by the decoder.
- The cleaning of a session's default path, tags and note (`normalize_remote_path`, `clean_tags`) belongs to the input's
  `details`; creation and update times of groups, sessions and tunnels are not kept.
- Parts of the document that no check relates to another part (proxy, quick commands, backup settings, known
  hosts, backup records, API key) are single values; their own checks are one verdict, `Preferences.valid`.
- Timestamps as text: a clock reading is an integer.  Records with an unreadable time are not modelled.
- Snapshots from `validate_backup_bytes`: they carry foreign data at the current revision.
- Weak memory: atomics are sequentially consistent interleavings.
- Acyclic groups: not a property of the code, which refuses only a group that is its own parent.
- The UI count of attempts: not an invariant of the code and not modelled.
- The host-key dialog, telemetry and terminals beyond their effect on an attempt: an answer of the environment.
- SessionObject.SessionRefs.CancelConnectingSession: stops at its awaited disconnects, which the run machine
  resumes as steps of their own.
- OutputGate.TerminalOutputGate.constructor: excludes the one cap `usize::MAX`, for which the loop test can never ask
  for room and the byte count would overflow.
- DownloadLaws.PlanIsWritable: the folding of local names (NFC and upper case) is an arbitrary function.
- UploadQueue.RunUploadQueue: only for a worker function that does not fail; a failing one rejects the whole queue.
- A concurrency that is not an integer: `runUploadQueue` takes any number, and NaN gives it no worker at all, so that it
  returns no results; `buildRemoteDownloadPlan` rounds down and takes NaN as one.
- Broker.BrokerRecoversRequest: the program name is the path of the executable, which holds no quote and no NUL on Windows.
- The file to delete for a pruned record (`backup_cleanup_target`) is a parameter of the pruning.
- HTTP, WebDAV, S3, updates, SSH and SFTP libraries, Win32 calls, windows, tray, React components and themes:
  input and output, or easy members.
