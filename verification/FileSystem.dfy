/** Atomic replacement of a file (atomic_file.rs) as a sequence of crashable steps.  Paths
    are relative to the directory of the vault.  A file is `synced` once its bytes have been
    flushed; a crash may change or lose any other file. */
module FileSystem {
  import opened Bytes

  datatype File = File(bytes: seq<Byte>, synced: bool)
  type Disk = map<string, File>

  /** Where the operating system refuses: the step, and for a refused write how much of it
      had been done is `Io.partial`. */
  datatype Fault = NoFault | ParentFault | CreateFault | WriteFault | SyncFault | RenameFault

  /** What the operating system does during one write: its fault, the prefix that a single
      transfer stores, and whether the clean-up after a fault can remove the file. */
  datatype Io = Io(fault: Fault, partial: nat, cleans: bool)

  /** `temp_path_for`: the name of the target with a suffix. */
  function TempPath(path: string, uuid: string): string {
    path + ".helm-" + uuid + ".tmp"
  }

  lemma TempIsAnotherFile(path: string, uuid: string)
    ensures TempPath(path, uuid) != path
  {
    assert |TempPath(path, uuid)| > |path|;
  }

  function Prefix(bytes: seq<Byte>, length: nat): seq<Byte> {
    bytes[..if length <= |bytes| then length else |bytes|]
  }

  // --------------------------------------------------------------- specification

  predicate Written(disk: Disk, temp: string, io: Io) {
    io.fault.NoFault? && temp !in disk
  }

  /** The clean-up of a failed write, after the states passed so far. */
  function Cleaned(passed: seq<Disk>, temp: string, io: Io): seq<Disk>
    requires passed != []
  {
    if io.cleans then passed + [passed[|passed| - 1] - {temp}] else passed
  }

  /** The disks that `write_atomic` passes through, from the one it finds to the one it leaves. */
  function Trace(disk: Disk, path: string, temp: string, bytes: seq<Byte>, io: Io): (t: seq<Disk>)
    ensures t != [] && t[0] == disk
  {
    var created := disk[temp := File([], false)];
    var partial := disk[temp := File(Prefix(bytes, io.partial), false)];
    var written := disk[temp := File(bytes, false)];
    var synced := disk[temp := File(bytes, true)];
    if io.fault.ParentFault? then [disk]
    else if io.fault.CreateFault? || temp in disk then Cleaned([disk], temp, io)
    else if io.fault.WriteFault? then Cleaned([disk, created, partial], temp, io)
    else if io.fault.SyncFault? then Cleaned([disk, created, partial, written], temp, io)
    else if io.fault.RenameFault? then Cleaned([disk, created, partial, written, synced], temp, io)
    else [disk, created, partial, written, synced, (synced - {temp})[path := File(bytes, true)]]
  }

  function Final(t: seq<Disk>): Disk
    requires t != []
  {
    t[|t| - 1]
  }

  /** What a power failure or a killed process can leave of `before`. */
  ghost predicate CrashOf(before: Disk, after: Disk) {
    && (forall p :: p in before && before[p].synced ==> p in after && after[p] == before[p])
    && (forall p :: p in after ==> p in before)
  }

  // -------------------------------------------------------------- the disk object

  class Volume {
    var disk: Disk

    constructor (disk: Disk)
      ensures this.disk == disk
    {
      this.disk := disk;
    }

    method CreateNew(temp: string, io: Io) returns (ok: bool)
      modifies this
      ensures ok == (!io.fault.CreateFault? && temp !in old(disk))
      ensures disk == if ok then old(disk)[temp := File([], false)] else old(disk)
    {
      ok := !io.fault.CreateFault? && temp !in disk;
      if ok {
        disk := disk[temp := File([], false)];
      }
    }

    method RemoveFile(temp: string, io: Io)
      modifies this
      ensures disk == if io.cleans then old(disk) - {temp} else old(disk)
    {
      if io.cleans {
        disk := disk - {temp};
      }
    }

    /** The closure of `write_atomic`: create, write, flush, move into place. */
    method Replace(path: string, temp: string, bytes: seq<Byte>, io: Io) returns (ok: bool, ghost passed: seq<Disk>)
      requires !io.fault.ParentFault?
      modifies this
      ensures ok == Written(old(disk), temp, io)
      ensures passed != [] && disk == Final(passed)
      ensures Trace(old(disk), path, temp, bytes, io) == if ok then passed else Cleaned(passed, temp, io)
    {
      passed := [disk];
      ok := CreateNew(temp, io);
      if !ok {
        return;
      }
      passed := passed + [disk];
      disk := disk[temp := File(Prefix(bytes, io.partial), false)];
      assert disk == old(disk)[temp := File(Prefix(bytes, io.partial), false)];
      passed := passed + [disk];
      if io.fault.WriteFault? {
        return false, passed;
      }
      disk := disk[temp := File(bytes, false)];
      assert disk == old(disk)[temp := File(bytes, false)];
      passed := passed + [disk];
      if io.fault.SyncFault? {
        return false, passed;
      }
      disk := disk[temp := File(bytes, true)];
      assert disk == old(disk)[temp := File(bytes, true)];
      passed := passed + [disk];
      if io.fault.RenameFault? {
        return false, passed;
      }
      disk := (disk - {temp})[path := disk[temp]];
      passed := passed + [disk];
    }

    /** `write_atomic`. */
    method WriteAtomic(path: string, uuid: string, bytes: seq<Byte>, io: Io) returns (ok: bool, ghost passed: seq<Disk>)
      modifies this
      ensures ok == Written(old(disk), TempPath(path, uuid), io)
      ensures passed == Trace(old(disk), path, TempPath(path, uuid), bytes, io)
      ensures disk == Final(passed)
    {
      if io.fault.ParentFault? {
        return false, [disk];
      }
      var temp := TempPath(path, uuid);
      ok, passed := Replace(path, temp, bytes, io);
      if !ok {
        RemoveFile(temp, io);
        passed := Cleaned(passed, temp, io);
      }
    }
  }

  // ------------------------------------------------------------------------- laws

  function At(disk: Disk, path: string): (f: seq<File>)
    ensures |f| <= 1
  {
    if path in disk then [disk[path]] else []
  }

  /** Every disk passed holds at the target the file found there or the whole new file,
      flushed; a failed write never holds the new one, a successful one ends with it; no
      other file changes but the temporary one. */
  lemma EveryStateIsOldOrNew(disk: Disk, path: string, uuid: string, bytes: seq<Byte>, io: Io, i: nat)
    requires i < |Trace(disk, path, TempPath(path, uuid), bytes, io)|
    ensures var temp := TempPath(path, uuid);
            var t := Trace(disk, path, temp, bytes, io);
            && (At(t[i], path) == At(disk, path)
                || (Written(disk, temp, io) && i == |t| - 1 && At(t[i], path) == [File(bytes, true)]))
            && (forall p :: p != path && p != temp ==> At(t[i], p) == At(disk, p))
  {
    TempIsAnotherFile(path, uuid);
  }

  /** What is left at the end: the new file exactly if the write succeeded, and no temporary
      file unless the clean-up of a failure was refused. */
  lemma EndOfWrite(disk: Disk, path: string, uuid: string, bytes: seq<Byte>, io: Io)
    requires TempPath(path, uuid) !in disk
    ensures var temp := TempPath(path, uuid);
            var last := Final(Trace(disk, path, temp, bytes, io));
            && (Written(disk, temp, io) ==> last == disk[path := File(bytes, true)])
            && (!Written(disk, temp, io) && io.cleans ==> last == disk)
            && (!Written(disk, temp, io) ==> At(last, path) == At(disk, path))
  {
    TempIsAnotherFile(path, uuid);
    var temp := TempPath(path, uuid);
    assert disk[temp := File(Prefix(bytes, io.partial), false)] - {temp} == disk;
    assert disk[temp := File(bytes, false)] - {temp} == disk;
    assert disk[temp := File(bytes, true)] - {temp} == disk;
  }

  /** A crash in any state of any write leaves the flushed file that was there, or the
      complete new one. */
  lemma CrashLeavesOldOrNew(disk: Disk, path: string, uuid: string, bytes: seq<Byte>, io: Io, i: nat, after: Disk)
    requires path in disk ==> disk[path].synced
    requires i < |Trace(disk, path, TempPath(path, uuid), bytes, io)|
    requires CrashOf(Trace(disk, path, TempPath(path, uuid), bytes, io)[i], after)
    ensures At(after, path) == At(disk, path) || At(after, path) == [File(bytes, true)]
  {
    EveryStateIsOldOrNew(disk, path, uuid, bytes, io, i);
    var now := Trace(disk, path, TempPath(path, uuid), bytes, io)[i];
    if path in now {
      assert At(now, path) == [now[path]];
    }
  }
}
