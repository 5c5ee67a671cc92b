/** Backup retention and the automatic-backup test (`prune_backup_records` in vault.rs;
    `merge_backup_outcomes` and `auto_backup_due_target_kinds` in backup.rs).
    Timestamps are well formed and totally ordered: whole seconds. */
module Retention {
  import opened Options

  const HOUR := 3600
  const DAY := 24 * HOUR
  const WEEK := 7 * DAY

  datatype Record = Record(id: string, targetKind: string, targetPath: string, status: string, createdAt: int)

  /** The settings that matter here; `localReady` and `cloudReady` say whether the target
      is configured. */
  datatype Settings = Settings(
    frequency: string,
    retentionCount: nat,
    retentionDays: nat,
    autoEnabled: bool,
    localReady: bool,
    cloudAutoEnabled: bool,
    cloudReady: bool,
    cloudKind: string)

  /** Records compete for retention within a target kind and success or failure. */
  datatype Class = Class(targetKind: string, success: bool)

  function ClassOf(r: Record): Class {
    Class(r.targetKind, r.status == "success")
  }

  function OfClass(records: seq<Record>, c: Class): seq<Record> {
    if records == [] then []
    else if ClassOf(records[0]) == c then [records[0]] + OfClass(records[1..], c)
    else OfClass(records[1..], c)
  }

  // --------------------------------------------------------------------- sorting

  predicate Descending(records: seq<Record>) {
    forall i, j :: 0 <= i < j < |records| ==> records[i].createdAt >= records[j].createdAt
  }

  function Insert(r: Record, records: seq<Record>): seq<Record> {
    if records == [] || records[0].createdAt <= r.createdAt then [r] + records
    else [records[0]] + Insert(r, records[1..])
  }

  /** The stable sort, newest first. */
  function Sorted(records: seq<Record>): seq<Record> {
    if records == [] then [] else Insert(records[0], Sorted(records[1..]))
  }

  lemma {:induction false} InsertPermutes(r: Record, records: seq<Record>)
    ensures multiset(Insert(r, records)) == multiset(records) + multiset{r}
    ensures |Insert(r, records)| == |records| + 1
  {
    if records == [] || records[0].createdAt <= r.createdAt {
    } else {
      InsertPermutes(r, records[1..]);
      assert records == [records[0]] + records[1..];
    }
  }

  lemma {:induction false} SortedPermutes(records: seq<Record>)
    ensures multiset(Sorted(records)) == multiset(records)
    ensures |Sorted(records)| == |records|
  {
    if records != [] {
      SortedPermutes(records[1..]);
      InsertPermutes(records[0], Sorted(records[1..]));
      assert records == [records[0]] + records[1..];
    }
  }

  lemma DescendingCons(r: Record, records: seq<Record>)
    requires Descending(records) && (records == [] || r.createdAt >= records[0].createdAt)
    ensures Descending([r] + records)
  {
  }

  lemma {:induction false} InsertDescends(r: Record, records: seq<Record>)
    requires Descending(records)
    ensures Descending(Insert(r, records))
    ensures Insert(r, records)[0] == if records == [] || records[0].createdAt <= r.createdAt then r else records[0]
  {
    if records == [] || records[0].createdAt <= r.createdAt {
      DescendingCons(r, records);
    } else {
      InsertDescends(r, records[1..]);
      DescendingCons(records[0], Insert(r, records[1..]));
    }
  }

  lemma {:induction false} SortedDescends(records: seq<Record>)
    ensures Descending(Sorted(records))
  {
    if records != [] {
      SortedDescends(records[1..]);
      InsertDescends(records[0], Sorted(records[1..]));
    }
  }

  lemma {:induction false} SortedOfDescending(records: seq<Record>)
    requires Descending(records)
    ensures Sorted(records) == records
  {
    if records != [] {
      SortedOfDescending(records[1..]);
      assert records == [records[0]] + records[1..];
    }
  }

  lemma {:induction false} InsertOfClass(r: Record, records: seq<Record>, c: Class)
    requires Descending(records)
    ensures OfClass(Insert(r, records), c) ==
            if ClassOf(r) == c then Insert(r, OfClass(records, c)) else OfClass(records, c)
  {
    var inserted := Insert(r, records);
    if records == [] || records[0].createdAt <= r.createdAt {
      assert inserted[1..] == records;
      InsertFirst(r, records, c);
    } else {
      InsertOfClass(r, records[1..], c);
      assert inserted[1..] == Insert(r, records[1..]);
    }
  }

  /** A record no older than the first is inserted first in every class. */
  lemma {:induction false} InsertFirst(r: Record, records: seq<Record>, c: Class)
    requires Descending(records) && (records == [] || records[0].createdAt <= r.createdAt)
    ensures Insert(r, OfClass(records, c)) == [r] + OfClass(records, c)
  {
    if records != [] && ClassOf(records[0]) != c {
      InsertFirst(r, records[1..], c);
    }
  }

  /** Sorting all records sorts each class. */
  lemma {:induction false} SortedOfClass(records: seq<Record>, c: Class)
    ensures OfClass(Sorted(records), c) == Sorted(OfClass(records, c))
  {
    if records != [] {
      SortedOfClass(records[1..], c);
      SortedDescends(records[1..]);
      InsertOfClass(records[0], Sorted(records[1..]), c);
      if ClassOf(records[0]) == c {
        assert OfClass(records, c)[1..] == OfClass(records[1..], c);
      }
    }
  }

  // -------------------------------------------------------------------- pruning

  /** The cutoff, when a retention window is set. */
  function Cutoff(settings: Settings, now: int): Option<int> {
    if settings.retentionDays > 0 then Some(now - settings.retentionDays * DAY) else None
  }

  predicate TooOld(cutoff: Option<int>, r: Record) {
    cutoff.Some? && r.createdAt < cutoff.value
  }

  function Limit(settings: Settings): (n: nat)
    ensures n >= 1
  {
    if settings.retentionCount > 1 then settings.retentionCount else 1
  }

  type Counts = map<Class, nat>

  function CountOf(counts: Counts, c: Class): nat {
    if c in counts then counts[c] else 0
  }

  function Counted(counts: Counts, r: Record): Counts {
    counts[ClassOf(r) := CountOf(counts, ClassOf(r)) + 1]
  }

  /** The decision for the next record when `counts` records of each class came before. */
  predicate Removes(limit: nat, cutoff: Option<int>, counts: Counts, r: Record) {
    CountOf(counts, ClassOf(r)) + 1 > limit || TooOld(cutoff, r)
  }

  /** The records a walk over sorted records removes, and those it keeps. */
  function Removed(records: seq<Record>, limit: nat, cutoff: Option<int>, counts: Counts): seq<Record> {
    if records == [] then []
    else
      var rest := Removed(records[1..], limit, cutoff, Counted(counts, records[0]));
      if Removes(limit, cutoff, counts, records[0]) then [records[0]] + rest else rest
  }

  function Kept(records: seq<Record>, limit: nat, cutoff: Option<int>, counts: Counts): seq<Record> {
    if records == [] then []
    else
      var rest := Kept(records[1..], limit, cutoff, Counted(counts, records[0]));
      if Removes(limit, cutoff, counts, records[0]) then rest else [records[0]] + rest
  }

  function Ids(records: seq<Record>): set<string> {
    set r | r in records :: r.id
  }

  /** `retain`: drop the records with these ids. */
  function Without(records: seq<Record>, ids: set<string>): seq<Record> {
    if records == [] then []
    else if records[0].id in ids then Without(records[1..], ids)
    else [records[0]] + Without(records[1..], ids)
  }

  /** The records left by `prune_backup_records`. */
  function Pruned(records: seq<Record>, settings: Settings, now: int): seq<Record> {
    var sorted := Sorted(records);
    Without(sorted, Ids(Removed(sorted, Limit(settings), Cutoff(settings, now), map[])))
  }

  function Cleanup<T>(r: Record, target: Record -> Option<T>): seq<T> {
    if target(r).Some? then [target(r).value] else []
  }

  /** The files to delete for removed records, in their order. */
  function Cleanups<T>(removed: seq<Record>, target: Record -> Option<T>): seq<T> {
    if removed == [] then []
    else Cleanup(removed[0], target) + Cleanups(removed[1..], target)
  }

  function Get(counts: map<string, nat>, kind: string): nat {
    if kind in counts then counts[kind] else 0
  }

  /** The two maps of the loop say what the walk's counts say. */
  ghost predicate Agrees(success: map<string, nat>, failure: map<string, nat>, counts: Counts) {
    forall c: Class :: CountOf(counts, c) == Get(if c.success then success else failure, c.targetKind)
  }

  /** `prune_backup_records`: `target` gives the file to delete for a record, by the
      current settings or else by the previous ones. */
  method PruneBackupRecords<T>(records: seq<Record>, settings: Settings, now: int, target: Record -> Option<T>)
    returns (kept: seq<Record>, cleanups: seq<T>)
    ensures kept == Pruned(records, settings, now)
    ensures cleanups == Cleanups(Removed(Sorted(records), Limit(settings), Cutoff(settings, now), map[]), target)
  {
    var limit, cutoff := Limit(settings), Cutoff(settings, now);
    var sorted := Sorted(records);
    var successCounts: map<string, nat>, failureCounts: map<string, nat> := map[], map[];
    var removeIds: set<string> := {};
    cleanups := [];
    ghost var counts: Counts := map[];
    ghost var gone: seq<Record> := [];
    assert sorted[0..] == sorted;
    for i := 0 to |sorted|
      invariant Agrees(successCounts, failureCounts, counts)
      invariant Removed(sorted, limit, cutoff, map[]) == gone + Removed(sorted[i..], limit, cutoff, counts)
      invariant removeIds == Ids(gone) && cleanups == Cleanups(gone, target)
    {
      var record := sorted[i];
      var count;
      successCounts, failureCounts, count := CountRecord(successCounts, failureCounts, record, counts);
      RemovedNext(gone, sorted, i, limit, cutoff, counts);
      if count > limit || TooOld(cutoff, record) {
        GoneSnoc(gone, record, target);
        removeIds := removeIds + {record.id};
        if target(record).Some? {
          cleanups := cleanups + [target(record).value];
        }
        gone := gone + [record];
      }
      counts := Counted(counts, record);
    }
    assert gone + [] == gone;
    kept := Without(sorted, removeIds);
  }

  lemma RemovedNext(gone: seq<Record>, sorted: seq<Record>, i: nat, limit: nat, cutoff: Option<int>, counts: Counts)
    requires i < |sorted|
    ensures var rest := Removed(sorted[i + 1..], limit, cutoff, Counted(counts, sorted[i]));
            gone + Removed(sorted[i..], limit, cutoff, counts)
            == if Removes(limit, cutoff, counts, sorted[i]) then (gone + [sorted[i]]) + rest else gone + rest
  {
    assert sorted[i..][0] == sorted[i] && sorted[i..][1..] == sorted[i + 1..];
    var rest := Removed(sorted[i + 1..], limit, cutoff, Counted(counts, sorted[i]));
    assert gone + ([sorted[i]] + rest) == (gone + [sorted[i]]) + rest;
  }

  lemma {:induction false} GoneSnoc<T>(gone: seq<Record>, r: Record, target: Record -> Option<T>)
    ensures Ids(gone + [r]) == Ids(gone) + {r.id}
    ensures Cleanups(gone + [r], target) == Cleanups(gone, target) + Cleanup(r, target)
  {
    assert forall x :: x in gone + [r] <==> x in gone || x == r;
    assert r in gone + [r];
    CleanupsSnoc(gone, r, target);
  }

  lemma {:induction false} CleanupsSnoc<T>(gone: seq<Record>, r: Record, target: Record -> Option<T>)
    ensures Cleanups(gone + [r], target) == Cleanups(gone, target) + Cleanup(r, target)
  {
    if gone == [] {
      assert gone + [r] == [r] && [r][1..] == [];
    } else {
      assert (gone + [r])[1..] == gone[1..] + [r];
      CleanupsSnoc(gone[1..], r, target);
    }
  }

  /** The counting part of the loop body. */
  method CountRecord(success: map<string, nat>, failure: map<string, nat>, record: Record, ghost counts: Counts)
    returns (success': map<string, nat>, failure': map<string, nat>, count: nat)
    requires Agrees(success, failure, counts)
    ensures Agrees(success', failure', Counted(counts, record))
    ensures count == CountOf(counts, ClassOf(record)) + 1
  {
    success', failure' := success, failure;
    if record.status == "success" {
      count := Get(success, record.targetKind) + 1;
      success' := success[record.targetKind := count];
    } else {
      count := Get(failure, record.targetKind) + 1;
      failure' := failure[record.targetKind := count];
    }
    assert CountOf(counts, ClassOf(record)) + 1 == count;
  }

  // -------------------------------------------------------- what pruning keeps

  predicate DistinctIds(records: seq<Record>) {
    forall i, j :: 0 <= i < j < |records| ==> records[i].id != records[j].id
  }

  /** Newest first, the ones past the cutoff left out. */
  function NotTooOld(records: seq<Record>, cutoff: Option<int>): seq<Record> {
    if records == [] then []
    else if TooOld(cutoff, records[0]) then NotTooOld(records[1..], cutoff)
    else [records[0]] + NotTooOld(records[1..], cutoff)
  }

  function Take(records: seq<Record>, n: int): seq<Record> {
    if n <= 0 then [] else if n < |records| then records[..n] else records
  }

  lemma {:induction false} KeptOfClass(records: seq<Record>, limit: nat, cutoff: Option<int>, counts: Counts, c: Class)
    ensures OfClass(Kept(records, limit, cutoff, counts), c)
         == NotTooOld(Take(OfClass(records, c), limit - CountOf(counts, c)), cutoff)
    decreases records
  {
    if records != [] {
      var r, rest, counted := records[0], OfClass(records[1..], c), Counted(counts, records[0]);
      var n := limit - CountOf(counts, c);
      KeptOfClass(records[1..], limit, cutoff, counted, c);
      var kept := Kept(records[1..], limit, cutoff, counted);
      assert ([r] + kept)[1..] == kept;
      if ClassOf(r) == c && n > 0 {
        assert Take([r] + rest, n) == [r] + Take(rest, n - 1);
        assert ([r] + Take(rest, n - 1))[1..] == Take(rest, n - 1);
      }
    }
  }

  lemma {:induction false} RemovedIsRest(records: seq<Record>, limit: nat, cutoff: Option<int>, counts: Counts)
    requires DistinctIds(records)
    ensures Without(records, Ids(Removed(records, limit, cutoff, counts))) == Kept(records, limit, cutoff, counts)
    ensures forall r :: r in Removed(records, limit, cutoff, counts) ==> r in records
    decreases records
  {
    if records != [] {
      var r, counted := records[0], Counted(counts, records[0]);
      RemovedIsRest(records[1..], limit, cutoff, counted);
      var rest := Removed(records[1..], limit, cutoff, counted);
      var removed := Removed(records, limit, cutoff, counts);
      assert r.id !in Ids(rest);
      assert Ids([r] + rest) == Ids(rest) + {r.id} by {
        assert forall x :: x in [r] + rest <==> x == r || x in rest;
        assert r in [r] + rest;
      }
      WithoutSame(records[1..], Ids(rest), Ids(removed), r.id);
    }
  }

  lemma {:induction false} WithoutSame(records: seq<Record>, a: set<string>, b: set<string>, id: string)
    requires a <= b <= a + {id}
    requires forall i :: 0 <= i < |records| ==> records[i].id != id
    ensures Without(records, a) == Without(records, b)
  {
    if records != [] {
      WithoutSame(records[1..], a, b, id);
    }
  }

  lemma DistinctPermuted(a: seq<Record>, b: seq<Record>)
    requires multiset(a) == multiset(b) && DistinctIds(a)
    ensures DistinctIds(b)
  {
    forall i, j | 0 <= i < j < |b|
      ensures b[i].id != b[j].id
    {
      if b[i].id == b[j].id {
        DistinctMeansOnce(a, b[i], b[j]);
        TwoIn(b, i, j);
      }
    }
  }

  lemma {:induction false} DistinctMeansOnce(a: seq<Record>, x: Record, y: Record)
    requires DistinctIds(a) && x.id == y.id
    ensures multiset(a)[x] <= 1 && (x != y ==> x !in a || y !in a)
  {
    if a != [] {
      DistinctMeansOnce(a[1..], x, y);
      assert a == [a[0]] + a[1..];
      assert forall r :: r in a[1..] ==> r.id != a[0].id;
    }
  }

  lemma TwoIn(b: seq<Record>, i: nat, j: nat)
    requires i < j < |b|
    ensures b[i] in multiset(b) && b[j] in multiset(b)
    ensures b[i] == b[j] ==> multiset(b)[b[i]] >= 2
  {
    assert b == b[..i] + [b[i]] + b[i + 1..j] + [b[j]] + b[j + 1..];
  }

  /** With distinct ids, pruning keeps of every target kind, successes and failures apart,
      exactly the most recent records up to the retention count, less those past the
      cutoff. */
  lemma PrunedByClass(records: seq<Record>, settings: Settings, now: int, c: Class)
    requires DistinctIds(records)
    ensures OfClass(Pruned(records, settings, now), c)
         == NotTooOld(Take(Sorted(OfClass(records, c)), Limit(settings)), Cutoff(settings, now))
  {
    var sorted, limit, cutoff := Sorted(records), Limit(settings), Cutoff(settings, now);
    SortedPermutes(records);
    DistinctPermuted(records, sorted);
    RemovedIsRest(sorted, limit, cutoff, map[]);
    KeptOfClass(sorted, limit, cutoff, map[], c);
    SortedOfClass(records, c);
  }
}
