/** How retention, merging and the automatic-backup scheduler fit together. */
module RetentionLaws {
  import opened Options
  import opened Retention

  // ------------------------------------------------------------------ idempotence

  /** Every class has counted no more in `a` than in `b`. */
  ghost predicate AtMost(a: Counts, b: Counts) {
    forall c: Class :: CountOf(a, c) <= CountOf(b, c)
  }

  lemma {:induction false} KeptIsKept(records: seq<Record>, limit: nat, cutoff: Option<int>, counts: Counts, fewer: Counts)
    requires AtMost(fewer, counts)
    ensures Removed(Kept(records, limit, cutoff, counts), limit, cutoff, fewer) == []
    decreases records
  {
    if records != [] {
      var r, counted := records[0], Counted(counts, records[0]);
      var kept := Kept(records[1..], limit, cutoff, counted);
      if Removes(limit, cutoff, counts, r) {
        KeptIsKept(records[1..], limit, cutoff, counted, fewer);
      } else {
        forall c: Class
          ensures CountOf(Counted(fewer, r), c) <= CountOf(counted, c)
        {
          assert CountOf(fewer, c) <= CountOf(counts, c);
        }
        KeptIsKept(records[1..], limit, cutoff, counted, Counted(fewer, r));
        assert ([r] + kept)[1..] == kept;
      }
    }
  }

  lemma {:induction false} KeptFrom(records: seq<Record>, limit: nat, cutoff: Option<int>, counts: Counts)
    ensures forall r :: r in Kept(records, limit, cutoff, counts) ==> r in records
    ensures Descending(records) ==> Descending(Kept(records, limit, cutoff, counts))
    decreases records
  {
    if records != [] {
      var r, counted := records[0], Counted(counts, records[0]);
      KeptFrom(records[1..], limit, cutoff, counted);
      var kept := Kept(records[1..], limit, cutoff, counted);
      if Descending(records) && kept != [] {
        assert kept[0] in records[1..];
        DescendingCons(r, kept);
      }
    }
  }

  lemma {:induction false} WithoutNothing(records: seq<Record>)
    ensures Without(records, {}) == records
  {
    if records != [] {
      WithoutNothing(records[1..]);
      assert [records[0]] + records[1..] == records;
    }
  }

  /** Pruning twice at one clock reading is pruning once. */
  lemma PruneIsIdempotent(records: seq<Record>, settings: Settings, now: int)
    requires DistinctIds(records)
    ensures Pruned(Pruned(records, settings, now), settings, now) == Pruned(records, settings, now)
  {
    var sorted, limit, cutoff := Sorted(records), Limit(settings), Cutoff(settings, now);
    SortedPermutes(records);
    DistinctPermuted(records, sorted);
    SortedDescends(records);
    RemovedIsRest(sorted, limit, cutoff, map[]);
    var kept := Kept(sorted, limit, cutoff, map[]);
    KeptFrom(sorted, limit, cutoff, map[]);
    SortedOfDescending(kept);
    KeptIsKept(sorted, limit, cutoff, map[], map[]);
    assert Ids([]) == {};
    WithoutNothing(kept);
    assert Pruned(records, settings, now) == kept;
  }

  // ---------------------------------------------------------------- the scheduler

  function Newest(records: seq<Record>): Option<int> {
    if records == [] then None
    else
      var rest := Newest(records[1..]);
      if rest.Some? && rest.value > records[0].createdAt then rest else Some(records[0].createdAt)
  }

  function LastSuccess(records: seq<Record>, kind: string): Option<int> {
    Newest(OfClass(records, Class(kind, true)))
  }

  /** `should_run_target_auto_backup`. */
  predicate ShouldRun(records: seq<Record>, kind: string, interval: int, now: int) {
    var last := LastSuccess(records, kind);
    last.Some? ==> now - last.value >= interval
  }

  /** `backup_frequency_duration`. */
  function Interval(frequency: string): (interval: Option<int>)
    ensures interval.Some? ==> interval.value >= HOUR && interval.value % HOUR == 0
  {
    if frequency == "hourly" then Some(HOUR)
    else if frequency == "daily" then Some(DAY)
    else if frequency == "weekly" then Some(WEEK)
    else None
  }

  function Filtered(kinds: seq<string>, records: seq<Record>, interval: int, now: int): seq<string> {
    if kinds == [] then []
    else
      var rest := Filtered(kinds[1..], records, interval, now);
      if ShouldRun(records, kinds[0], interval, now) then [kinds[0]] + rest else rest
  }

  /** The targets with automatic backup on and configured. */
  function EnabledKinds(settings: Settings): seq<string> {
    (if settings.autoEnabled && settings.localReady then ["local"] else [])
    + (if settings.cloudAutoEnabled && settings.cloudReady then [settings.cloudKind] else [])
  }

  /** `auto_backup_due_target_kinds`. */
  function DueKinds(settings: Settings, records: seq<Record>, now: int): seq<string> {
    var interval := Interval(settings.frequency);
    if interval.None? then [] else Filtered(EnabledKinds(settings), records, interval.value, now)
  }

  lemma {:induction false} NewestInsert(r: Record, records: seq<Record>)
    ensures Newest(Insert(r, records)) ==
            var newest := Newest(records);
            if newest.Some? && newest.value > r.createdAt then newest else Some(r.createdAt)
  {
    var inserted := Insert(r, records);
    if records == [] || records[0].createdAt <= r.createdAt {
      assert inserted[1..] == records;
    } else {
      NewestInsert(r, records[1..]);
      assert inserted[1..] == Insert(r, records[1..]);
    }
  }

  lemma {:induction false} NewestSorted(records: seq<Record>)
    ensures Newest(Sorted(records)) == Newest(records)
  {
    if records != [] {
      NewestSorted(records[1..]);
      NewestInsert(records[0], Sorted(records[1..]));
    }
  }

  lemma {:induction false} NewestDescending(records: seq<Record>)
    requires Descending(records) && records != []
    ensures Newest(records) == Some(records[0].createdAt)
  {
    if |records| > 1 {
      NewestDescending(records[1..]);
    }
  }

  lemma {:induction false} AllTooOld(records: seq<Record>, cutoff: Option<int>)
    requires forall i :: 0 <= i < |records| ==> TooOld(cutoff, records[i])
    ensures NotTooOld(records, cutoff) == []
  {
    if records != [] {
      AllTooOld(records[1..], cutoff);
    }
  }

  lemma {:induction false} NotTooOldDescends(records: seq<Record>, cutoff: Option<int>)
    requires Descending(records)
    ensures Descending(NotTooOld(records, cutoff))
    ensures forall r :: r in NotTooOld(records, cutoff) ==> r in records
  {
    if records != [] {
      NotTooOldDescends(records[1..], cutoff);
      var rest := NotTooOld(records[1..], cutoff);
      if rest != [] {
        assert rest[0] in records[1..];
        DescendingCons(records[0], rest);
      }
    }
  }

  /** The newest success of a kind survives pruning, or was past the cutoff. */
  lemma LastSuccessAfterPrune(records: seq<Record>, settings: Settings, now: int, kind: string)
    requires DistinctIds(records)
    ensures var before, after := LastSuccess(records, kind), LastSuccess(Pruned(records, settings, now), kind);
            var cutoff := Cutoff(settings, now);
            after == if before.Some? && cutoff.Some? && before.value < cutoff.value then None else before
  {
    var c, cutoff := Class(kind, true), Cutoff(settings, now);
    PrunedByClass(records, settings, now, c);
    var sorted := Sorted(OfClass(records, c));
    SortedDescends(OfClass(records, c));
    NewestSorted(OfClass(records, c));
    TakenNewest(sorted, Limit(settings), cutoff);
  }

  lemma TakenNewest(sorted: seq<Record>, limit: nat, cutoff: Option<int>)
    requires Descending(sorted) && limit >= 1
    ensures Newest(NotTooOld(Take(sorted, limit), cutoff)) ==
            var newest := Newest(sorted);
            if newest.Some? && cutoff.Some? && newest.value < cutoff.value then None else newest
  {
    var taken := Take(sorted, limit);
    if sorted != [] {
      NewestDescending(sorted);
      assert taken[0] == sorted[0];
      if TooOld(cutoff, sorted[0]) {
        AllTooOld(taken, cutoff);
      } else {
        NotTooOldDescends(taken, cutoff);
        NewestDescending(NotTooOld(taken, cutoff));
      }
    }
  }

  /** The retention window cannot hide a backup the scheduler still counts. */
  predicate WindowLongEnough(settings: Settings) {
    var interval := Interval(settings.frequency);
    settings.retentionDays == 0 || (interval.Some? ==> settings.retentionDays * DAY >= interval.value)
  }

  lemma ShouldRunKept(records: seq<Record>, settings: Settings, now: int, kind: string, interval: int)
    requires DistinctIds(records)
    requires settings.retentionDays == 0 || settings.retentionDays * DAY >= interval
    ensures ShouldRun(Pruned(records, settings, now), kind, interval, now) == ShouldRun(records, kind, interval, now)
  {
    LastSuccessAfterPrune(records, settings, now, kind);
  }

  lemma {:induction false} FilteredKept(kinds: seq<string>, records: seq<Record>, settings: Settings, now: int, interval: int)
    requires DistinctIds(records)
    requires settings.retentionDays == 0 || settings.retentionDays * DAY >= interval
    ensures Filtered(kinds, Pruned(records, settings, now), interval, now) == Filtered(kinds, records, interval, now)
  {
    if kinds != [] {
      ShouldRunKept(records, settings, now, kinds[0], interval);
      FilteredKept(kinds[1..], records, settings, now, interval);
    }
  }

  /** One success of a kind, just past the retention window. */
  function Witness(kind: string, settings: Settings, now: int): seq<Record> {
    [Record("id", kind, "path", "success", now - settings.retentionDays * DAY - 1)]
  }

  lemma WitnessBecomesDue(settings: Settings, now: int, kind: string, interval: int)
    requires 0 < settings.retentionDays && settings.retentionDays * DAY + 1 < interval
    ensures var records := Witness(kind, settings, now);
            && DistinctIds(records)
            && !ShouldRun(records, kind, interval, now)
            && ShouldRun(Pruned(records, settings, now), kind, interval, now)
  {
    var records := Witness(kind, settings, now);
    assert OfClass(records, Class(kind, true)) == records by {
      assert records[1..] == [];
    }
    assert Newest(records) == Some(records[0].createdAt) by {
      assert records[1..] == [];
    }
    LastSuccessAfterPrune(records, settings, now, kind);
  }

  lemma {:induction false} FilteredMember(kinds: seq<string>, records: seq<Record>, interval: int, now: int, kind: string)
    ensures kind in Filtered(kinds, records, interval, now) <==> kind in kinds && ShouldRun(records, kind, interval, now)
  {
    if kinds != [] {
      FilteredMember(kinds[1..], records, interval, now, kind);
    }
  }

  /** Pruning leaves the due targets as they are, for all records, if and only if the
      retention window is off or no shorter than the backup interval (or no target is
      automatic). */
  lemma PruneKeepsDueExactly(settings: Settings, now: int)
    ensures (forall records :: DistinctIds(records) ==>
               DueKinds(settings, Pruned(records, settings, now), now) == DueKinds(settings, records, now))
            <==> WindowLongEnough(settings) || EnabledKinds(settings) == []
  {
    var interval := Interval(settings.frequency);
    if WindowLongEnough(settings) && interval.Some? {
      forall records | DistinctIds(records)
        ensures DueKinds(settings, Pruned(records, settings, now), now) == DueKinds(settings, records, now)
      {
        FilteredKept(EnabledKinds(settings), records, settings, now, interval.value);
      }
    } else if interval.Some? && EnabledKinds(settings) != [] {
      var kind := EnabledKinds(settings)[0];
      var records := Witness(kind, settings, now);
      WindowInHours(settings, interval.value);
      WitnessBecomesDue(settings, now, kind, interval.value);
      FilteredMember(EnabledKinds(settings), records, interval.value, now, kind);
      FilteredMember(EnabledKinds(settings), Pruned(records, settings, now), interval.value, now, kind);
    }
  }

  lemma WindowInHours(settings: Settings, interval: int)
    requires interval % HOUR == 0 && settings.retentionDays * DAY < interval
    ensures settings.retentionDays * DAY + 1 < interval
  {
    assert settings.retentionDays * DAY == (settings.retentionDays * 24) * HOUR;
    assert interval == (interval / HOUR) * HOUR;
  }

  // --------------------------------------------------------------------- merging

  predicate SameTarget(a: Record, b: Record) {
    a.targetKind == b.targetKind && a.targetPath == b.targetPath && a.status == b.status
  }

  predicate Listed(records: seq<Record>, outcome: Record) {
    exists i :: 0 <= i < |records| && SameTarget(records[i], outcome)
  }

  function Merged(records: seq<Record>, outcomes: seq<Record>): seq<Record>
    decreases outcomes
  {
    if outcomes == [] then records
    else Merged(if Listed(records, outcomes[0]) then records else records + [outcomes[0]], outcomes[1..])
  }

  /** `merge_backup_outcomes`. */
  method MergeBackupOutcomes(records: seq<Record>, outcomes: seq<Record>) returns (merged: seq<Record>)
    ensures merged == Merged(records, outcomes)
  {
    merged := records;
    assert outcomes[0..] == outcomes;
    for i := 0 to |outcomes|
      invariant Merged(records, outcomes) == Merged(merged, outcomes[i..])
    {
      assert outcomes[i..][1..] == outcomes[i + 1..];
      if !Listed(merged, outcomes[i]) {
        merged := merged + [outcomes[i]];
      }
    }
  }

  lemma ListedKept(records: seq<Record>, more: seq<Record>, outcome: Record)
    requires records <= more && Listed(records, outcome)
    ensures Listed(more, outcome)
  {
    var i :| 0 <= i < |records| && SameTarget(records[i], outcome);
    assert more[i] == records[i];
  }

  lemma {:induction false} MergeExtends(records: seq<Record>, outcomes: seq<Record>)
    ensures records <= Merged(records, outcomes)
    decreases outcomes
  {
    if outcomes != [] {
      MergeExtends(if Listed(records, outcomes[0]) then records else records + [outcomes[0]], outcomes[1..]);
    }
  }

  /** Merging keeps the listed records, represents every outcome, and adds only outcomes;
      no outcome is added that some listed record or earlier addition represents. */
  lemma MergeRepresents(records: seq<Record>, outcomes: seq<Record>)
    ensures records <= Merged(records, outcomes)
    ensures forall i :: 0 <= i < |outcomes| ==> Listed(Merged(records, outcomes), outcomes[i])
    ensures forall k :: |records| <= k < |Merged(records, outcomes)| ==>
              Merged(records, outcomes)[k] in outcomes && !Listed(Merged(records, outcomes)[..k], Merged(records, outcomes)[k])
  {
    MergeExtends(records, outcomes);
    MergeAdds(records, outcomes);
    forall i | 0 <= i < |outcomes|
      ensures Listed(Merged(records, outcomes), outcomes[i])
    {
      assert SameTarget(outcomes[i], outcomes[i]);
      MergedListed(records, outcomes, outcomes[i]);
    }
  }

  lemma {:induction false} MergeAdds(records: seq<Record>, outcomes: seq<Record>)
    ensures forall k :: |records| <= k < |Merged(records, outcomes)| ==>
              Merged(records, outcomes)[k] in outcomes && !Listed(Merged(records, outcomes)[..k], Merged(records, outcomes)[k])
    decreases outcomes
  {
    if outcomes != [] {
      var o := outcomes[0];
      var next := if Listed(records, o) then records else records + [o];
      var merged := Merged(records, outcomes);
      MergeAdds(next, outcomes[1..]);
      MergeExtends(next, outcomes[1..]);
      if !Listed(records, o) {
        assert merged[|records|] == o && merged[..|records|] == records;
      }
    }
  }

  lemma {:induction false} NewestBound(records: seq<Record>, r: Record)
    requires r in records
    ensures Newest(records).Some? && Newest(records).value >= r.createdAt
  {
    if r != records[0] {
      NewestBound(records[1..], r);
    }
  }

  // ------------------------------------------------ due after merging and pruning

  /** The outcome is listed and so is dropped by the merge: by a record or an earlier outcome. */
  predicate Shadowed(records: seq<Record>, outcomes: seq<Record>, i: nat)
    requires i < |outcomes|
  {
    Listed(records, outcomes[i]) || Listed(outcomes[..i], outcomes[i])
  }

  /** A success of the kind that the scheduler counts and the cutoff spares. */
  predicate Satisfies(r: Record, settings: Settings, kind: string, interval: int, now: int) {
    r.status == "success" && r.targetKind == kind && now - r.createdAt < interval && !TooOld(Cutoff(settings, now), r)
  }

  /** An outcome is listed if a record has its target kind, its path and its status. */
  lemma ListedExactly(records: seq<Record>, outcome: Record)
    ensures Listed(records, outcome) <==>
            exists r :: r in records && r.targetKind == outcome.targetKind && r.targetPath == outcome.targetPath
                        && r.status == outcome.status
  {
    if Listed(records, outcome) {
      var i :| 0 <= i < |records| && SameTarget(records[i], outcome);
      assert records[i] in records;
    }
    if r :| r in records && r.targetKind == outcome.targetKind && r.targetPath == outcome.targetPath
            && r.status == outcome.status {
      var i :| 0 <= i < |records| && records[i] == r;
      assert SameTarget(records[i], outcome);
    }
  }

  lemma ListedSplit(a: seq<Record>, b: seq<Record>, outcome: Record)
    ensures Listed(a + b, outcome) <==> Listed(a, outcome) || Listed(b, outcome)
  {
    if Listed(b, outcome) {
      var i :| 0 <= i < |b| && SameTarget(b[i], outcome);
      assert (a + b)[|a| + i] == b[i];
    }
    if Listed(a, outcome) {
      ListedKept(a, a + b, outcome);
    }
  }

  /** What the merge holds while it has still to see `outcomes[k..]`: a target is listed in it
      exactly if it is in the records or among the outcomes seen. */
  lemma {:induction false} MergedListed(records: seq<Record>, outcomes: seq<Record>, outcome: Record)
    ensures Listed(Merged(records, outcomes), outcome) <==> Listed(records, outcome) || Listed(outcomes, outcome)
    decreases outcomes
  {
    if outcomes != [] {
      var o, rest := outcomes[0], outcomes[1..];
      MergedListed(if Listed(records, o) then records else records + [o], rest, outcome);
      ListedSplit(records, [o], outcome);
      ListedSplit([o], rest, outcome);
      assert [o] + rest == outcomes;
      assert Listed([o], outcome) <==> SameTarget([o][0], outcome);
      if SameTarget(o, outcome) && Listed(records, o) {
        var i :| 0 <= i < |records| && SameTarget(records[i], o);
        assert SameTarget(records[i], outcome);
      }
    }
  }

  lemma MergedSnoc(records: seq<Record>, outcomes: seq<Record>, o: Record)
    ensures var merged := Merged(records, outcomes);
            Merged(records, outcomes + [o]) == if Listed(merged, o) then merged else merged + [o]
    decreases outcomes
  {
    if outcomes == [] {
      assert (outcomes + [o])[1..] == [];
    } else {
      assert (outcomes + [o])[1..] == outcomes[1..] + [o];
      MergedSnoc(if Listed(records, outcomes[0]) then records else records + [outcomes[0]], outcomes[1..], o);
    }
  }

  ghost predicate Added(records: seq<Record>, outcomes: seq<Record>, r: Record) {
    exists i :: 0 <= i < |outcomes| && outcomes[i] == r && !Shadowed(records, outcomes, i)
  }

  lemma AddedSnoc(records: seq<Record>, init: seq<Record>, o: Record, r: Record)
    ensures Added(records, init + [o], r) <==>
            Added(records, init, r) || (r == o && !Listed(records, o) && !Listed(init, o))
  {
    var all := init + [o];
    assert all[..|init|] == init;
    forall i | 0 <= i < |init|
      ensures all[i] == init[i] && (Shadowed(records, all, i) <==> Shadowed(records, init, i))
    {
      assert all[..i] == init[..i];
    }
    assert all[|init|] == o && (Shadowed(records, all, |init|) <==> Listed(records, o) || Listed(init, o));
    if Added(records, init, r) {
      var i :| 0 <= i < |init| && init[i] == r && !Shadowed(records, init, i);
      assert all[i] == r && !Shadowed(records, all, i);
    }
  }

  /** The merged list holds exactly the records and the outcomes that are not shadowed. */
  lemma {:induction false} MergedMembers(records: seq<Record>, outcomes: seq<Record>, r: Record)
    ensures r in Merged(records, outcomes) <==> r in records || Added(records, outcomes, r)
    decreases |outcomes|
  {
    if outcomes != [] {
      var init, o := outcomes[..|outcomes| - 1], outcomes[|outcomes| - 1];
      assert init + [o] == outcomes;
      MergedMembers(records, init, r);
      MergedSnoc(records, init, o);
      MergedListed(records, init, o);
      AddedSnoc(records, init, o, r);
    }
  }

  lemma {:induction false} NewestIsOne(records: seq<Record>)
    requires records != []
    ensures exists r :: r in records && Newest(records) == Some(r.createdAt)
  {
    var rest := records[1..];
    if rest != [] && Newest(rest).value > records[0].createdAt {
      NewestIsOne(rest);
      var r :| r in rest && Newest(rest) == Some(r.createdAt);
      assert r in records && Newest(records) == Some(r.createdAt);
    } else {
      assert records[0] in records && Newest(records) == Some(records[0].createdAt);
    }
  }

  lemma {:induction false} OfClassFrom(records: seq<Record>, c: Class, r: Record)
    ensures r in OfClass(records, c) <==> r in records && ClassOf(r) == c
  {
    if records != [] {
      OfClassFrom(records[1..], c, r);
    }
  }

  /** Which targets are due after pruning: those without a recent success inside the window. */
  lemma DueAfterPrune(records: seq<Record>, settings: Settings, now: int, kind: string, interval: int)
    requires DistinctIds(records)
    ensures ShouldRun(Pruned(records, settings, now), kind, interval, now) <==>
            forall r :: r in records ==> !Satisfies(r, settings, kind, interval, now)
  {
    var successes := OfClass(records, Class(kind, true));
    LastSuccessAfterPrune(records, settings, now, kind);
    forall r | r in records && Satisfies(r, settings, kind, interval, now)
      ensures !ShouldRun(Pruned(records, settings, now), kind, interval, now)
    {
      OfClassFrom(records, Class(kind, true), r);
      NewestBound(successes, r);
    }
    if !ShouldRun(Pruned(records, settings, now), kind, interval, now) {
      NewestIsOne(successes);
      var r :| r in successes && Newest(successes) == Some(r.createdAt);
      OfClassFrom(records, Class(kind, true), r);
      assert Satisfies(r, settings, kind, interval, now);
    }
  }

  /** A target is not due after its outcomes have been merged and the list pruned, if and only
      if a listed success of its kind still counts, or an outcome does that the merge does not
      drop for a listed record of the same target. */
  lemma DueAfterBackupExactly(records: seq<Record>, outcomes: seq<Record>, settings: Settings, now: int, kind: string,
                              interval: int)
    requires DistinctIds(Merged(records, outcomes))
    ensures ShouldRun(Pruned(Merged(records, outcomes), settings, now), kind, interval, now) <==>
            && (forall r :: r in records ==> !Satisfies(r, settings, kind, interval, now))
            && (forall i :: 0 <= i < |outcomes| && Satisfies(outcomes[i], settings, kind, interval, now) ==>
                  Shadowed(records, outcomes, i))
  {
    var merged := Merged(records, outcomes);
    DueAfterPrune(merged, settings, now, kind, interval);
    forall r | r in records
      ensures r in merged
    {
      MergedMembers(records, outcomes, r);
    }
    forall i | 0 <= i < |outcomes| && !Shadowed(records, outcomes, i)
      ensures outcomes[i] in merged
    {
      MergedMembers(records, outcomes, outcomes[i]);
    }
    forall r | r in merged
      ensures r in records || Added(records, outcomes, r)
    {
      MergedMembers(records, outcomes, r);
    }
  }

  /** A success recorded now leaves its target not due, after merging and pruning, if and only
      if it is not listed already, or a listed success of the kind still counts. */
  lemma FreshBackupIsNotDueExactly(records: seq<Record>, latest: Record, settings: Settings, now: int, interval: int)
    requires DistinctIds(Merged(records, [latest])) && interval > 0
    requires latest.status == "success" && latest.createdAt == now
    ensures !ShouldRun(Pruned(Merged(records, [latest]), settings, now), latest.targetKind, interval, now) <==>
            || (forall r :: r in records ==>
                  !(r.targetKind == latest.targetKind && r.targetPath == latest.targetPath && r.status == "success"))
            || exists r :: r in records && Satisfies(r, settings, latest.targetKind, interval, now)
  {
    ListedExactly(records, latest);
    DueAfterBackupExactly(records, [latest], settings, now, latest.targetKind, interval);
    assert Satisfies([latest][0], settings, latest.targetKind, interval, now);
    assert Shadowed(records, [latest], 0) <==> Listed(records, latest);
  }

  /** The other case happens: a record of the same file with an old time hides the new
      success, and the target is due at once. */
  lemma ListedRecordHidesNewSuccess(settings: Settings, now: int)
    requires settings.retentionDays == 0
    ensures var records := [Record("x", "local", "p", "success", now - WEEK)];
            var latest := Record("y", "local", "p", "success", now);
            && DistinctIds(Merged(records, [latest]))
            && ShouldRun(Pruned(Merged(records, [latest]), settings, now), "local", WEEK, now)
  {
    var records := [Record("x", "local", "p", "success", now - WEEK)];
    var latest := Record("y", "local", "p", "success", now);
    assert SameTarget(records[0], latest);
    assert [latest][1..] == [] && Merged(records, [latest]) == records;
    FreshBackupIsNotDueExactly(records, latest, settings, now, WEEK);
  }
}
