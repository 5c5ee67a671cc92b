/** Pruning and the due test in plain numbers: how many records stay, which, whose files go, and
    which targets are due. */
module RetentionExact {
  import opened Options
  import opened Retention
  import opened RetentionLaws

  function Min(a: int, b: int): int {
    if a < b then a else b
  }

  /** Not older than the retention window, in seconds. */
  predicate InWindow(r: Record, settings: Settings, now: int) {
    settings.retentionDays == 0 || r.createdAt >= now - settings.retentionDays * 86400
  }

  function CountInWindow(records: seq<Record>, settings: Settings, now: int): nat {
    if records == [] then 0
    else CountInWindow(records[1..], settings, now) + if InWindow(records[0], settings, now) then 1 else 0
  }

  /** How many records of a kind may stay: the setting, but at least one. */
  function MayStay(settings: Settings): nat {
    if settings.retentionCount == 0 then 1 else settings.retentionCount
  }

  lemma WindowIsCutoff(r: Record, settings: Settings, now: int)
    ensures InWindow(r, settings, now) <==> !TooOld(Cutoff(settings, now), r)
  {
  }

  lemma {:induction false} CountOfPermuted(a: seq<Record>, b: seq<Record>, settings: Settings, now: int)
    requires multiset(a) == multiset(b)
    ensures CountInWindow(a, settings, now) == CountInWindow(b, settings, now)
    decreases |a|
  {
    if a == [] {
      assert |multiset(b)| == 0;
    } else {
      assert a[0] in multiset(b);
      var k :| 0 <= k < |b| && b[k] == a[0];
      var rest := b[..k] + b[k + 1..];
      WithoutOne(b, k);
      assert a == [a[0]] + a[1..];
      assert multiset(a[1..]) == multiset(a) - multiset{a[0]};
      CountOfPermuted(a[1..], rest, settings, now);
      CountSplit(b[..k], b[k + 1..], settings, now);
      CountSplit(b[..k], b[k..], settings, now);
      assert b[..k] + b[k..] == b && b[k..][1..] == b[k + 1..];
    }
  }

  lemma WithoutOne(b: seq<Record>, k: nat)
    requires k < |b|
    ensures multiset(b[..k] + b[k + 1..]) == multiset(b) - multiset{b[k]}
  {
    assert b == b[..k] + ([b[k]] + b[k + 1..]);
    assert multiset(b) == multiset(b[..k]) + (multiset{b[k]} + multiset(b[k + 1..]));
  }

  lemma {:induction false} CountSplit(a: seq<Record>, b: seq<Record>, settings: Settings, now: int)
    ensures CountInWindow(a + b, settings, now) == CountInWindow(a, settings, now) + CountInWindow(b, settings, now)
  {
    if a == [] {
      assert a + b == b;
    } else {
      assert (a + b)[1..] == a[1..] + b;
      CountSplit(a[1..], b, settings, now);
    }
  }

  /** Of records newest first, those inside the window are the first so many. */
  lemma {:induction false} WindowIsPrefix(sorted: seq<Record>, settings: Settings, now: int)
    requires Descending(sorted)
    ensures CountInWindow(sorted, settings, now) <= |sorted|
    ensures forall i :: 0 <= i < |sorted| ==> (InWindow(sorted[i], settings, now) <==> i < CountInWindow(sorted, settings, now))
  {
    if sorted != [] {
      WindowIsPrefix(sorted[1..], settings, now);
      var rest := CountInWindow(sorted[1..], settings, now);
      if rest > 0 {
        assert InWindow(sorted[1..][0], settings, now);
      }
      forall i | 0 < i < |sorted|
        ensures InWindow(sorted[i], settings, now) <==> i - 1 < rest
      {
        assert sorted[i] == sorted[1..][i - 1];
      }
    }
  }

  lemma {:induction false} NotTooOldOfPrefix(sorted: seq<Record>, n: nat, settings: Settings, now: int)
    requires Descending(sorted) && n <= |sorted|
    ensures var m := Min(n, CountInWindow(sorted, settings, now));
            0 <= m <= |sorted| && NotTooOld(sorted[..n], Cutoff(settings, now)) == sorted[..m]
    decreases n
  {
    WindowIsPrefix(sorted, settings, now);
    if n > 0 {
      NotTooOldOfPrefix(sorted, n - 1, settings, now);
      WindowIsCutoff(sorted[n - 1], settings, now);
      NotTooOldSnoc(sorted[..n - 1], sorted[n - 1], Cutoff(settings, now));
      assert sorted[..n - 1] + [sorted[n - 1]] == sorted[..n];
    }
  }

  lemma {:induction false} NotTooOldSnoc(records: seq<Record>, r: Record, cutoff: Option<int>)
    ensures NotTooOld(records + [r], cutoff)
         == if TooOld(cutoff, r) then NotTooOld(records, cutoff) else NotTooOld(records, cutoff) + [r]
  {
    if records == [] {
      assert (records + [r])[1..] == [];
    } else {
      assert (records + [r])[1..] == records[1..] + [r];
      NotTooOldSnoc(records[1..], r, cutoff);
    }
  }

  /** Of each target kind, successes and failures apart, exactly the newest records inside the
      window stay: as many as the setting allows, or all if there are fewer. */
  lemma ClassKeepsNewest(records: seq<Record>, settings: Settings, now: int, c: Class)
    requires DistinctIds(records)
    ensures var sorted, kept := Sorted(OfClass(records, c)), OfClass(Pruned(records, settings, now), c);
            && |kept| == Min(MayStay(settings), CountInWindow(OfClass(records, c), settings, now))
            && |kept| <= |sorted| && kept == sorted[..|kept|]
            && Descending(sorted) && multiset(sorted) == multiset(OfClass(records, c))
  {
    var mine, limit := OfClass(records, c), MayStay(settings);
    var sorted := Sorted(mine);
    PrunedByClass(records, settings, now, c);
    SortedDescends(mine);
    SortedPermutes(mine);
    CountOfPermuted(mine, sorted, settings, now);
    WindowIsPrefix(sorted, settings, now);
    NotTooOldOfPrefix(sorted, Min(limit, |sorted|), settings, now);
    assert Take(sorted, limit) == sorted[..Min(limit, |sorted|)];
  }

  lemma {:induction false} WithoutFrom(records: seq<Record>, ids: set<string>, r: Record)
    ensures r in Without(records, ids) <==> r in records && r.id !in ids
  {
    if records != [] {
      WithoutFrom(records[1..], ids, r);
    }
  }

  lemma {:induction false} CleanupsFrom<T>(removed: seq<Record>, target: Record -> Option<T>, x: T)
    ensures x in Cleanups(removed, target) <==> exists r :: r in removed && target(r) == Some(x)
  {
    if removed != [] {
      CleanupsFrom(removed[1..], target, x);
      assert removed[0] in removed;
      assert forall r :: r in removed <==> r == removed[0] || r in removed[1..];
    }
  }

  /** The files to delete are exactly those of the records that do not stay. */
  lemma CleanupsAreOfRemoved<T>(records: seq<Record>, settings: Settings, now: int, target: Record -> Option<T>, x: T)
    requires DistinctIds(records)
    ensures var removed := Removed(Sorted(records), Limit(settings), Cutoff(settings, now), map[]);
            x in Cleanups(removed, target) <==>
            exists r :: r in records && r !in Pruned(records, settings, now) && target(r) == Some(x)
  {
    var sorted := Sorted(records);
    var removed := Removed(sorted, Limit(settings), Cutoff(settings, now), map[]);
    SortedPermutes(records);
    DistinctPermuted(records, sorted);
    RemovedIsRest(sorted, Limit(settings), Cutoff(settings, now), map[]);
    CleanupsFrom(removed, target, x);
    assert forall r :: r in records <==> r in multiset(sorted);
    forall r | r in records
      ensures r in removed <==> r !in Pruned(records, settings, now)
    {
      WithoutFrom(sorted, Ids(removed), r);
      if r.id in Ids(removed) {
        var q :| q in removed && q.id == r.id;
        SameIdSameRecord(sorted, q, r);
      }
    }
  }

  lemma SameIdSameRecord(records: seq<Record>, a: Record, b: Record)
    requires DistinctIds(records) && a in records && b in records && a.id == b.id
    ensures a == b
  {
    var i :| 0 <= i < |records| && records[i] == a;
    var j :| 0 <= j < |records| && records[j] == b;
    assert i == j;
  }

  /** The seconds between automatic backups. */
  function Seconds(frequency: string): Option<int> {
    match frequency
    case "hourly" => Some(3600)
    case "daily" => Some(86400)
    case "weekly" => Some(604800)
    case _ => None
  }

  /** A target is due exactly if automatic backups are frequent, it is switched on and configured,
      and no success of its kind is younger than the frequency asks. */
  lemma DueExactly(settings: Settings, records: seq<Record>, now: int, kind: string)
    ensures kind in DueKinds(settings, records, now) <==>
            && Seconds(settings.frequency).Some?
            && ((kind == "local" && settings.autoEnabled && settings.localReady)
                || (kind == settings.cloudKind && settings.cloudAutoEnabled && settings.cloudReady))
            && forall r :: r in records && r.status == "success" && r.targetKind == kind ==>
                 now - r.createdAt >= Seconds(settings.frequency).value
  {
    var interval := Interval(settings.frequency);
    assert interval == Seconds(settings.frequency);
    if interval.Some? {
      FilteredMember(EnabledKinds(settings), records, interval.value, now, kind);
      NoRecentSuccess(records, kind, interval.value, now);
    }
  }

  lemma NoRecentSuccess(records: seq<Record>, kind: string, interval: int, now: int)
    ensures ShouldRun(records, kind, interval, now) <==>
            forall r :: r in records && r.status == "success" && r.targetKind == kind ==> now - r.createdAt >= interval
  {
    var successes := OfClass(records, Class(kind, true));
    forall r | r in records && r.status == "success" && r.targetKind == kind && ShouldRun(records, kind, interval, now)
      ensures now - r.createdAt >= interval
    {
      OfClassFrom(records, Class(kind, true), r);
      NewestBound(successes, r);
    }
    if !ShouldRun(records, kind, interval, now) {
      NewestIsOne(successes);
      var r :| r in successes && Newest(successes) == Some(r.createdAt);
      OfClassFrom(records, Class(kind, true), r);
    }
  }
}
