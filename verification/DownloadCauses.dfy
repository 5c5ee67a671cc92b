/** A plan fails only for a cause in what was selected and listed. */
module DownloadCauses {
  import opened DownloadPlan
  import opened DownloadLaws
  import opened DownloadText

  /** The target's folded local key is taken by another planned item; a directory that is planned
      already is no conflict. */
  ghost predicate Clashes(fold: Fold, s: Scan, t: Target, isDirectory: bool) {
    && (exists u :: u in s.directories + s.files && fold(u.relative) == fold(t.relative))
    && (isDirectory ==> t.remote !in Remotes(s.directories))
  }

  /** An addition to a sound plan fails exactly by a clash, and otherwise adds the target at the
      end of its list, unless it is a directory that is planned already. */
  lemma AddExactly(fold: Fold, s: Scan, t: Target, isDirectory: bool)
    requires Sound(fold, s)
    ensures var r := Add(fold, s, t, isDirectory);
            && (r.Err? <==> Clashes(fold, s, t, isDirectory))
            && (r.Err? ==> r.error == DuplicateLocalTarget)
            && (r.Ok? ==>
                  var known := isDirectory && t.remote in Remotes(s.directories);
                  && r.scan.directories == (if isDirectory && !known then s.directories + [t] else s.directories)
                  && r.scan.files == (if isDirectory then s.files else s.files + [t])
                  && r.scan.pending == (if isDirectory && !known then s.pending + [t] else s.pending))
  {
    KeyTaken(fold, s, t);
  }

  lemma KeyTaken(fold: Fold, s: Scan, t: Target)
    requires KeysSound(fold, s)
    ensures fold(t.relative) in s.seenLocal <==> exists u :: u in s.directories + s.files && fold(u.relative) == fold(t.relative)
  {
    if fold(t.relative) in s.seenLocal {
      if fold(t.relative) in Keys(fold, s.directories) {
        var u :| u in s.directories && fold(u.relative) == fold(t.relative);
        assert u in s.directories + s.files;
      } else {
        var u :| u in s.files && fold(u.relative) == fold(t.relative);
        assert u in s.directories + s.files;
      }
    }
  }

  /** The entries before the k-th have been added, and the k-th cannot be. */
  ghost predicate EntryFails(fold: Fold, s: Scan, d: Target, entries: seq<Entry>, k: nat, error: Error) {
    k < |entries|
    && (var before := AddEntries(fold, s, d, entries[..k]);
        before.Ok?
        && (error.UnsafeName? ==> !TextSafe(entries[k].name))
        && (error.DuplicateLocalTarget? ==> Clashes(fold, before.scan, EntryTarget(d, entries[k]), entries[k].isDirectory)))
    && !error.ListFailed?
  }

  lemma {:induction false} EntriesFailAt(fold: Fold, s: Scan, d: Target, entries: seq<Entry>, i: nat) returns (k: nat)
    requires Sound(fold, s) && i < |s.directories| && s.directories[i] == d && AddEntries(fold, s, d, entries).Err?
    ensures EntryFails(fold, s, d, entries, k, AddEntries(fold, s, d, entries).error)
    decreases entries
  {
    var e, t := entries[0], EntryTarget(d, entries[0]);
    k := 0;
    assert entries[..0] == [];
    SafeSegmentExactly(e.name);
    AddExactly(fold, s, t, e.isDirectory);
    if SafeSegment(e.name) && Add(fold, s, t, e.isDirectory).Ok? {
      var added := Add(fold, s, t, e.isDirectory).scan;
      SafeEntry(fold, s, d, e, i);
      var j := EntriesFailAt(fold, added, d, entries[1..], i);
      k := j + 1;
      assert entries[..k][1..] == entries[1..][..j] && entries[..k][0] == e;
      assert AddEntries(fold, s, d, entries[..k]) == AddEntries(fold, added, d, entries[1..][..j]);
    }
  }

  lemma SafeEntry(fold: Fold, s: Scan, d: Target, e: Entry, i: nat)
    requires Sound(fold, s) && i < |s.directories| && s.directories[i] == d
    requires SafeSegment(e.name) && Add(fold, s, EntryTarget(d, e), e.isDirectory).Ok?
    ensures var added := Add(fold, s, EntryTarget(d, e), e.isDirectory).scan;
            Sound(fold, added) && i < |added.directories| && added.directories[i] == d
  {
    var t := EntryTarget(d, e);
    assert t.relative[..|t.relative| - 1] == d.relative;
    assert SafePath(t.relative) && HasParent(s.directories, t.relative);
    AddKeepsSound(fold, s, t, e.isDirectory);
    AddExtends(fold, s, t, e.isDirectory);
  }

  /** The selections before the k-th have been added, and the k-th cannot be. */
  ghost predicate SelectionFails(fold: Fold, s: Scan, selections: seq<Selection>, k: nat, error: Error) {
    k < |selections|
    && (var before := AddSelections(fold, s, selections[..k]);
        before.Ok?
        && (error.UnsafeName? ==> !TextSafe(selections[k].fileName))
        && (error.DuplicateLocalTarget? ==> Clashes(fold, before.scan, SelectionTarget(selections[k]), selections[k].isDirectory)))
    && !error.ListFailed?
  }

  lemma {:induction false} SelectionsFailAt(fold: Fold, s: Scan, selections: seq<Selection>) returns (k: nat)
    requires Sound(fold, s) && AddSelections(fold, s, selections).Err?
    ensures SelectionFails(fold, s, selections, k, AddSelections(fold, s, selections).error)
    decreases selections
  {
    var selection, t := selections[0], SelectionTarget(selections[0]);
    k := 0;
    assert selections[..0] == [];
    SafeSegmentExactly(selection.fileName);
    AddExactly(fold, s, t, selection.isDirectory);
    if SafeSegment(selection.fileName) && Add(fold, s, t, selection.isDirectory).Ok? {
      var added := Add(fold, s, t, selection.isDirectory).scan;
      AddKeepsSound(fold, s, t, selection.isDirectory);
      var j := SelectionsFailAt(fold, added, selections[1..]);
      k := j + 1;
      assert selections[..k][1..] == selections[1..][..j] && selections[..k][0] == selection;
      assert AddSelections(fold, s, selections[..k]) == AddSelections(fold, added, selections[1..][..j]);
    }
  }

  /** After `m` directories the next one cannot be listed, or one of its entries fails. */
  ghost predicate DirectoryFails(fold: Fold, selections: seq<Selection>, listing: Listing, m: nat, error: Error) {
    var before := Sequential(fold, selections, listing, m);
    before.Ok? && before.scan.pending != []
    && (var d := before.scan.pending[0];
        && Reachable(selections, listing, d.remote)
        && (error.ListFailed? <==> d.remote !in listing)
        && (d.remote in listing ==>
              exists k :: EntryFails(fold, before.scan.(pending := before.scan.pending[1..]), d, listing[d.remote], k, error)))
  }

  /** The scan fails only for one of three causes, each of which the error names: a name that is
      not safe, a reachable directory that cannot be listed, or two items with one local key. */
  lemma {:induction false} FailsOnlyForCause(fold: Fold, selections: seq<Selection>, listing: Listing, n: nat)
    requires Sequential(fold, selections, listing, n).Err?
    ensures var error := Sequential(fold, selections, listing, n).error;
            || (exists k :: SelectionFails(fold, EMPTY, selections, k, error))
            || (exists m :: DirectoryFails(fold, selections, listing, m, error))
    decreases n
  {
    if AddSelections(fold, EMPTY, selections).Err? {
      var k := SelectionsFailAt(fold, EMPTY, selections);
    } else if Sequential(fold, selections, listing, n - 1).Err? {
      FailsOnlyForCause(fold, selections, listing, n - 1);
    } else {
      StepFails(fold, selections, listing, n - 1);
    }
  }

  lemma StepFails(fold: Fold, selections: seq<Selection>, listing: Listing, m: nat)
    requires Sequential(fold, selections, listing, m).Ok? && Sequential(fold, selections, listing, m + 1).Err?
    ensures DirectoryFails(fold, selections, listing, m, Sequential(fold, selections, listing, m + 1).error)
  {
    var s := Sequential(fold, selections, listing, m).scan;
    SequentialKeepsInv(fold, selections, listing, m);
    assert Sequential(fold, selections, listing, m + 1) == Step(fold, s, listing);
    var d := s.pending[0];
    assert d == s.directories[Listed(s)];
    if d.remote in listing {
      Popped(fold, s);
      var k := EntriesFailAt(fold, s.(pending := s.pending[1..]), d, listing[d.remote], Listed(s));
    }
  }

  /** And with either of the first two causes it does not complete. */
  lemma CompletesOnlyIfClean(fold: Fold, selections: seq<Selection>, listing: Listing, final: Scan, path: Path)
    requires Completes(fold, selections, listing, final) && Reachable(selections, listing, path)
    ensures path in listing && forall j :: 0 <= j < |listing[path]| ==> TextSafe(listing[path][j].name)
  {
    var n: nat :| Sequential(fold, selections, listing, n) == Ok(final);
    SequentialKeepsInv(fold, selections, listing, n);
    PlanListsReachableOnce(fold, selections, listing, final);
    var d :| d in final.directories && d.remote == path;
    var i :| 0 <= i < |final.directories| && final.directories[i] == d;
    assert ExploredAt(final, listing, final.directories[i]);
    forall j | 0 <= j < |listing[path]|
      ensures TextSafe(listing[path][j].name)
    {
      assert listing[path][j] in listing[path];
      SafeSegmentExactly(listing[path][j].name);
    }
  }
}
