/** `buildRemoteDownloadPlan` itself: directories are listed in batches, yet the plan and
    its order are those of the one-directory-at-a-time scan. */
module DownloadBuild {
  import opened DownloadPlan
  import opened DownloadLaws

  /** The default and the limits of the concurrency parameter. */
  function BatchSize(concurrency: int): (n: nat)
    ensures 1 <= n <= 12
  {
    var wanted := if concurrency == 0 then 1 else concurrency;
    var capped := if wanted < 12 then wanted else 12;
    if capped < 1 then 1 else capped
  }

  /** The same scan with more directories queued in front. */
  function Behind(front: seq<Target>, r: Result): Result {
    if r.Err? then r else Ok(r.scan.(pending := front + r.scan.pending))
  }

  lemma AddBehind(fold: Fold, s: Scan, front: seq<Target>, t: Target, isDirectory: bool)
    ensures Add(fold, s.(pending := front + s.pending), t, isDirectory) == Behind(front, Add(fold, s, t, isDirectory))
  {
    assert front + (s.pending + [t]) == (front + s.pending) + [t];
  }

  lemma {:induction false} EntriesBehind(fold: Fold, s: Scan, front: seq<Target>, d: Target, entries: seq<Entry>)
    ensures AddEntries(fold, s.(pending := front + s.pending), d, entries)
         == Behind(front, AddEntries(fold, s, d, entries))
    decreases entries
  {
    if entries != [] && SafeSegment(entries[0].name) {
      var t := EntryTarget(d, entries[0]);
      AddBehind(fold, s, front, t, entries[0].isDirectory);
      var added := Add(fold, s, t, entries[0].isDirectory);
      if added.Ok? {
        EntriesBehind(fold, added.scan, front, d, entries[1..]);
      }
    }
  }

  /** One directory of a batch: the simple scan still has the rest of the batch queued. */
  lemma StepInBatch(fold: Fold, current: Scan, batch: seq<Target>, i: nat, listing: Listing)
    requires i < |batch| && batch[i].remote in listing
    ensures Step(fold, current.(pending := batch[i..] + current.pending), listing)
         == Behind(batch[i + 1..], AddEntries(fold, current, batch[i], listing[batch[i].remote]))
  {
    var s := current.(pending := batch[i..] + current.pending);
    assert s.pending[0] == batch[i];
    assert s.pending[1..] == batch[i + 1..] + current.pending;
    EntriesBehind(fold, current, batch[i + 1..], batch[i], listing[batch[i].remote]);
  }

  /** After some steps the directories queued before them are still next in line. */
  lemma {:induction false} QueueKept(fold: Fold, s: Scan, listing: Listing, i: nat)
    requires i <= |s.pending| && Steps(fold, s, listing, i).Ok?
    ensures s.pending[i..] <= Steps(fold, s, listing, i).scan.pending
  {
    if i > 0 {
      QueueKept(fold, s, listing, i - 1);
      var before := Steps(fold, s, listing, i - 1).scan;
      assert before.pending[0] == s.pending[i - 1];
      var popped := before.(pending := before.pending[1..]);
      EntriesExtend(fold, popped, before.pending[0], listing[before.pending[0].remote]);
    }
  }

  /** A queued directory that cannot be listed makes the simple scan fail too. */
  lemma UnlistableFails(fold: Fold, s: Scan, listing: Listing, j: nat)
    requires j < |s.pending| && s.pending[j].remote !in listing
    ensures Steps(fold, s, listing, j + 1).Err?
  {
    if Steps(fold, s, listing, j).Ok? {
      QueueKept(fold, s, listing, j);
      assert Steps(fold, s, listing, j).scan.pending[0] == s.pending[j];
    }
  }

  lemma {:induction false} StepsAdd(fold: Fold, s: Scan, listing: Listing, m: nat, n: nat)
    requires Steps(fold, s, listing, m).Ok?
    ensures Steps(fold, s, listing, m + n) == Steps(fold, Steps(fold, s, listing, m).scan, listing, n)
    decreases n
  {
    if n > 0 {
      StepsAdd(fold, s, listing, m, n - 1);
    }
  }

  // -------------------------------------------------------------------- the loops

  /** The inner loop: every entry of one listed directory. */
  method AddListing(fold: Fold, scan: Scan, directory: Target, entries: seq<Entry>) returns (r: Result)
    ensures r == AddEntries(fold, scan, directory, entries)
  {
    r := Ok(scan);
    for i := 0 to |entries|
      invariant r.Ok?
      invariant AddEntries(fold, scan, directory, entries) == AddEntries(fold, r.scan, directory, entries[i..])
    {
      assert entries[i..][0] == entries[i] && entries[i..][1..] == entries[i + 1..];
      if !SafeSegment(entries[i].name) {
        return Err(UnsafeName);
      }
      r := Add(fold, r.scan, EntryTarget(directory, entries[i]), entries[i].isDirectory);
      if r.Err? {
        return;
      }
    }
  }

  method AddSelected(fold: Fold, selections: seq<Selection>) returns (r: Result)
    ensures r == AddSelections(fold, EMPTY, selections)
  {
    r := Ok(EMPTY);
    for i := 0 to |selections|
      invariant r.Ok?
      invariant AddSelections(fold, EMPTY, selections) == AddSelections(fold, r.scan, selections[i..])
    {
      assert selections[i..][0] == selections[i] && selections[i..][1..] == selections[i + 1..];
      if !SafeSegment(selections[i].fileName) {
        return Err(UnsafeName);
      }
      r := Add(fold, r.scan, SelectionTarget(selections[i]), selections[i].isDirectory);
      if r.Err? {
        return;
      }
    }
  }

  /** The listings of a batch, up to the first that fails. */
  method ListBatch(batch: seq<Target>, listing: Listing) returns (listings: seq<seq<Entry>>)
    ensures |listings| <= |batch|
    ensures forall k :: 0 <= k < |listings| ==> batch[k].remote in listing && listings[k] == listing[batch[k].remote]
    ensures |listings| < |batch| ==> batch[|listings|].remote !in listing
  {
    listings := [];
    for j := 0 to |batch|
      invariant |listings| == j
      invariant forall k :: 0 <= k < j ==> batch[k].remote in listing && listings[k] == listing[batch[k].remote]
    {
      if batch[j].remote !in listing {
        return;
      }
      listings := listings + [listing[batch[j].remote]];
    }
  }

  /** One round of the scan: splice a batch, list all of it, then add what was listed. */
  method ScanBatch(fold: Fold, scan: Scan, listing: Listing, size: nat) returns (r: Result)
    requires 0 < size <= |scan.pending|
    ensures r.Ok? ==> r == Steps(fold, scan, listing, size)
    ensures r.Err? ==> Steps(fold, scan, listing, size).Err?
  {
    var batch := scan.pending[..size];
    var listings := ListBatch(batch, listing);
    if |listings| < |batch| {
      UnlistableFails(fold, scan, listing, |listings|);
      StepsSettle(fold, scan, listing, |listings| + 1, size);
      return Err(ListFailed);
    }
    r := Ok(scan.(pending := scan.pending[size..]));
    BehindAll(scan, size);
    for i := 0 to |batch|
      invariant r.Ok?
      invariant Steps(fold, scan, listing, i) == Behind(batch[i..], r)
    {
      StepsInBatch(fold, scan, r.scan, batch, i, listing);
      r := AddListing(fold, r.scan, batch[i], listings[i]);
      if r.Err? {
        StepsSettle(fold, scan, listing, i + 1, size);
        return;
      }
    }
    BehindNothing(batch, r);
  }

  lemma BehindAll(scan: Scan, size: nat)
    requires size <= |scan.pending|
    ensures Behind(scan.pending[..size][0..], Ok(scan.(pending := scan.pending[size..]))) == Ok(scan)
  {
    assert scan.pending[..size][0..] + scan.pending[size..] == scan.pending;
  }

  lemma BehindNothing(batch: seq<Target>, r: Result)
    ensures Behind(batch[|batch|..], r) == r
  {
    assert r.Ok? ==> batch[|batch|..] + r.scan.pending == r.scan.pending;
  }

  lemma StepsInBatch(fold: Fold, scan: Scan, current: Scan, batch: seq<Target>, i: nat, listing: Listing)
    requires i < |batch| && batch[i].remote in listing
    requires Steps(fold, scan, listing, i) == Behind(batch[i..], Ok(current))
    ensures Steps(fold, scan, listing, i + 1)
         == Behind(batch[i + 1..], AddEntries(fold, current, batch[i], listing[batch[i].remote]))
  {
    StepInBatch(fold, current, batch, i, listing);
  }

  datatype PlanResult = Planned(directories: seq<Relative>, files: seq<Target>) | Failed(error: Error)

  function RelativePaths(targets: seq<Target>): (r: seq<Relative>)
    ensures |r| == |targets| && forall i :: 0 <= i < |r| ==> r[i] == targets[i].relative
  {
    seq(|targets|, i requires 0 <= i < |targets| => targets[i].relative)
  }

  /** The result is that of the one-directory-at-a-time scan. */
  ghost predicate IsOutcome(fold: Fold, selections: seq<Selection>, listing: Listing, r: PlanResult) {
    if r.Planned? then
      exists final :: Completes(fold, selections, listing, final)
                      && r == Planned(RelativePaths(final.directories), final.files)
    else
      Fails(fold, selections, listing)
  }

  lemma FailedOutcome(fold: Fold, selections: seq<Selection>, listing: Listing, n: nat, error: Error)
    requires Sequential(fold, selections, listing, n).Err?
    ensures IsOutcome(fold, selections, listing, Failed(error))
  {
  }

  lemma PlannedOutcome(fold: Fold, selections: seq<Selection>, listing: Listing, n: nat, final: Scan)
    requires Sequential(fold, selections, listing, n) == Ok(final) && final.pending == []
    ensures IsOutcome(fold, selections, listing, Planned(RelativePaths(final.directories), final.files))
  {
    assert Completes(fold, selections, listing, final);
  }

  /** After `n` steps the simple scan is at `scan`. */
  ghost predicate Reached(fold: Fold, selections: seq<Selection>, listing: Listing, n: nat, scan: Scan) {
    Sequential(fold, selections, listing, n) == Ok(scan)
  }

  /** The directories still to list, at most. */
  function Remaining(scan: Scan, listing: Listing): int {
    |listing| - Listed(scan)
  }

  lemma ReachedMore(fold: Fold, selections: seq<Selection>, listing: Listing, n: nat, scan: Scan, size: nat)
    requires Reached(fold, selections, listing, n, scan) && size <= |scan.pending|
    ensures Sequential(fold, selections, listing, n + size) == Steps(fold, scan, listing, size)
    ensures var r := Steps(fold, scan, listing, size);
            r.Ok? ==> 0 <= Remaining(r.scan, listing) == Remaining(scan, listing) - size
  {
    StepsAdd(fold, AddSelections(fold, EMPTY, selections).scan, listing, n, size);
    if Steps(fold, scan, listing, size).Ok? {
      SequentialKeepsInv(fold, selections, listing, n);
      BatchProgress(fold, scan, selections, listing, size);
      ListedBound(fold, Steps(fold, scan, listing, size).scan, listing);
    }
  }

  /** A round fails only as the simple scan does, or brings it nearer to its end. */
  ghost predicate RoundResult(fold: Fold, selections: seq<Selection>, listing: Listing, reached: nat, scan: Scan, r: Result) {
    match r
    case Err(_) => Sequential(fold, selections, listing, reached).Err?
    case Ok(next) =>
      Reached(fold, selections, listing, reached, next) && 0 <= Remaining(next, listing) < Remaining(scan, listing)
  }

  /** The body of the scanning loop. */
  method ScanRound(fold: Fold, selections: seq<Selection>, listing: Listing, ghost n: nat, scan: Scan, batchSize: nat)
    returns (r: Result, ghost reached: nat)
    requires Reached(fold, selections, listing, n, scan) && scan.pending != [] && batchSize > 0
    ensures RoundResult(fold, selections, listing, reached, scan, r)
  {
    var size := if batchSize < |scan.pending| then batchSize else |scan.pending|;
    r := ScanBatch(fold, scan, listing, size);
    reached := n + size;
    RoundOutcome(fold, selections, listing, n, scan, size, r);
  }

  lemma RoundOutcome(fold: Fold, selections: seq<Selection>, listing: Listing, n: nat, scan: Scan, size: nat, r: Result)
    requires Reached(fold, selections, listing, n, scan) && 0 < size <= |scan.pending|
    requires r.Ok? ==> r == Steps(fold, scan, listing, size)
    requires r.Err? ==> Steps(fold, scan, listing, size).Err?
    ensures RoundResult(fold, selections, listing, n + size, scan, r)
  {
    ReachedMore(fold, selections, listing, n, scan, size);
  }

  /** `buildRemoteDownloadPlan`.  For every concurrency the scan ends, fails exactly when
      the simple scan fails, and otherwise returns the plan of the simple scan. */
  method BuildRemoteDownloadPlan(fold: Fold, selections: seq<Selection>, listing: Listing, concurrency: int)
    returns (r: PlanResult)
    ensures IsOutcome(fold, selections, listing, r)
  {
    var start := AddSelected(fold, selections);
    if start.Err? {
      FailedOutcome(fold, selections, listing, 0, start.error);
      return Failed(start.error);
    }
    var scan := start.scan;
    var batchSize := BatchSize(concurrency);
    ghost var n: nat := 0;
    while scan.pending != []
      invariant Reached(fold, selections, listing, n, scan)
      decreases Remaining(scan, listing)
    {
      var round, reached := ScanRound(fold, selections, listing, n, scan, batchSize);
      if round.Err? {
        FailedOutcome(fold, selections, listing, reached, round.error);
        return Failed(round.error);
      }
      scan, n := round.scan, reached;
    }
    PlannedOutcome(fold, selections, listing, n, scan);
    r := Planned(RelativePaths(scan.directories), scan.files);
  }

  lemma OneProgress(fold: Fold, s: Scan, selections: seq<Selection>, listing: Listing)
    requires Inv(fold, s, selections, listing) && s.pending != [] && Step(fold, s, listing).Ok?
    ensures var s' := Step(fold, s, listing).scan;
            Inv(fold, s', selections, listing) && Listed(s') == Listed(s) + 1
  {
    StepKeepsInv(fold, s, selections, listing);
    StepExplores(fold, s, listing);
  }

  lemma {:induction false} BatchProgress(fold: Fold, s: Scan, selections: seq<Selection>, listing: Listing, size: nat)
    requires Inv(fold, s, selections, listing) && size <= |s.pending| && Steps(fold, s, listing, size).Ok?
    ensures var s' := Steps(fold, s, listing, size).scan;
            Inv(fold, s', selections, listing) && Listed(s') == Listed(s) + size
    decreases size
  {
    if size > 0 {
      BatchProgress(fold, s, selections, listing, size - 1);
      OneMoreStep(fold, s, selections, listing, size);
    }
  }

  lemma OneMoreStep(fold: Fold, s: Scan, selections: seq<Selection>, listing: Listing, size: nat)
    requires 0 < size <= |s.pending| && Steps(fold, s, listing, size).Ok?
    requires Steps(fold, s, listing, size - 1).Ok?
    requires Inv(fold, Steps(fold, s, listing, size - 1).scan, selections, listing)
    ensures var s' := Steps(fold, s, listing, size).scan;
            Inv(fold, s', selections, listing) && Listed(s') == Listed(Steps(fold, s, listing, size - 1).scan) + 1
  {
    var mid := Steps(fold, s, listing, size - 1).scan;
    QueueKept(fold, s, listing, size - 1);
    assert mid.pending != [] && Steps(fold, s, listing, size) == Step(fold, mid, listing);
    OneProgress(fold, mid, selections, listing);
  }

  /** Two runs with any two concurrencies give the same plan, or both fail. */
  lemma ConcurrencyDoesNotMatter(fold: Fold, selections: seq<Selection>, listing: Listing, a: PlanResult, b: PlanResult)
    requires IsOutcome(fold, selections, listing, a) && IsOutcome(fold, selections, listing, b)
    ensures a.Planned? == b.Planned?
    ensures a.Planned? ==> a == b
  {
    if a.Planned? {
      var final :| Completes(fold, selections, listing, final)
                   && a == Planned(RelativePaths(final.directories), final.files);
      OneOutcome(fold, selections, listing, final, final);
      if b.Planned? {
        var other :| Completes(fold, selections, listing, other)
                     && b == Planned(RelativePaths(other.directories), other.files);
        OneOutcome(fold, selections, listing, final, other);
      }
    } else if b.Planned? {
      var final :| Completes(fold, selections, listing, final)
                   && b == Planned(RelativePaths(final.directories), final.files);
      OneOutcome(fold, selections, listing, final, final);
    }
  }
}
