/** What the one-directory-at-a-time scan keeps, and what its plan says. */
module DownloadLaws {
  import opened DownloadPlan
  import opened Collections

  type Fold = Relative -> string

  // ----------------------------------------------------------------- the pieces

  ghost function Remotes(targets: seq<Target>): set<Path> {
    set t | t in targets :: t.remote
  }

  ghost function Keys(fold: Fold, targets: seq<Target>): set<string> {
    set t | t in targets :: fold(t.relative)
  }

  ghost predicate DistinctRemotes(targets: seq<Target>) {
    forall i, j :: 0 <= i < j < |targets| ==> targets[i].remote != targets[j].remote
  }

  ghost predicate DistinctKeys(fold: Fold, targets: seq<Target>) {
    forall i, j :: 0 <= i < j < |targets| ==> fold(targets[i].relative) != fold(targets[j].relative)
  }

  ghost predicate SafePath(relative: Relative) {
    relative != [] && forall i :: 0 <= i < |relative| ==> SafeSegment(relative[i])
  }

  /** A nested path has its parent among the directories. */
  ghost predicate HasParent(directories: seq<Target>, relative: Relative) {
    |relative| > 1 ==> exists i :: 0 <= i < |directories| && directories[i].relative == relative[..|relative| - 1]
  }

  ghost predicate RemotesSound(s: Scan) {
    s.seenRemote == Remotes(s.directories) && DistinctRemotes(s.directories)
  }

  ghost predicate KeysSound(fold: Fold, s: Scan) {
    && s.seenLocal == Keys(fold, s.directories) + Keys(fold, s.files)
    && DistinctKeys(fold, s.directories)
    && DistinctKeys(fold, s.files)
    && Keys(fold, s.directories) !! Keys(fold, s.files)
  }

  ghost predicate PathsSound(s: Scan) {
    && (forall i :: 0 <= i < |s.directories| ==>
          SafePath(s.directories[i].relative) && HasParent(s.directories[..i], s.directories[i].relative))
    && (forall i :: 0 <= i < |s.files| ==>
          SafePath(s.files[i].relative) && HasParent(s.directories, s.files[i].relative))
  }

  /** The number of directories already listed. */
  function Listed(s: Scan): int {
    |s.directories| - |s.pending|
  }

  ghost predicate QueueSound(s: Scan) {
    Listed(s) >= 0 && s.pending == s.directories[Listed(s)..]
  }

  ghost predicate Sound(fold: Fold, s: Scan) {
    RemotesSound(s) && KeysSound(fold, s) && PathsSound(s) && QueueSound(s)
  }

  // ------------------------------------------------------- one target added

  lemma RemotesSnoc(targets: seq<Target>, t: Target)
    ensures Remotes(targets + [t]) == Remotes(targets) + {t.remote}
  {
    assert forall u :: u in targets + [t] <==> u in targets || u == t;
    assert t in targets + [t];
  }

  lemma KeysSnoc(fold: Fold, targets: seq<Target>, t: Target)
    ensures Keys(fold, targets + [t]) == Keys(fold, targets) + {fold(t.relative)}
  {
    assert forall u :: u in targets + [t] <==> u in targets || u == t;
    assert t in targets + [t];
  }

  lemma DistinctSnoc(fold: Fold, targets: seq<Target>, t: Target)
    ensures DistinctRemotes(targets) && t.remote !in Remotes(targets) ==> DistinctRemotes(targets + [t])
    ensures DistinctKeys(fold, targets) && fold(t.relative) !in Keys(fold, targets) ==>
              DistinctKeys(fold, targets + [t])
  {
    assert forall i :: 0 <= i < |targets| ==> targets[i] in targets;
  }

  lemma KeysStep(fold: Fold, s: Scan, t: Target, isDirectory: bool)
    requires KeysSound(fold, s) && Add(fold, s, t, isDirectory).Ok?
    ensures KeysSound(fold, Add(fold, s, t, isDirectory).scan)
  {
    if isDirectory {
      KeysSnoc(fold, s.directories, t);
      DistinctSnoc(fold, s.directories, t);
    } else {
      KeysSnoc(fold, s.files, t);
      DistinctSnoc(fold, s.files, t);
    }
  }

  lemma RemotesStep(fold: Fold, s: Scan, t: Target, isDirectory: bool)
    requires RemotesSound(s) && Add(fold, s, t, isDirectory).Ok?
    ensures RemotesSound(Add(fold, s, t, isDirectory).scan)
  {
    RemotesSnoc(s.directories, t);
    DistinctSnoc(fold, s.directories, t);
  }

  lemma ParentKept(directories: seq<Target>, t: Target, relative: Relative)
    requires HasParent(directories, relative)
    ensures HasParent(directories + [t], relative)
  {
    if |relative| > 1 {
      var i :| 0 <= i < |directories| && directories[i].relative == relative[..|relative| - 1];
      assert (directories + [t])[i] == directories[i];
    }
  }

  lemma DirectoryPathsStep(s: Scan, t: Target, s': Scan)
    requires PathsSound(s) && SafePath(t.relative) && HasParent(s.directories, t.relative)
    requires s'.directories == s.directories + [t] && s'.files == s.files
    ensures PathsSound(s')
  {
    forall i | 0 <= i < |s'.directories|
      ensures SafePath(s'.directories[i].relative) && HasParent(s'.directories[..i], s'.directories[i].relative)
    {
      if i < |s.directories| {
        assert s'.directories[..i] == s.directories[..i];
      } else {
        assert s'.directories[..i] == s.directories;
      }
    }
    forall i | 0 <= i < |s'.files|
      ensures SafePath(s'.files[i].relative) && HasParent(s'.directories, s'.files[i].relative)
    {
      ParentKept(s.directories, t, s.files[i].relative);
    }
  }

  lemma PathsStep(fold: Fold, s: Scan, t: Target, isDirectory: bool)
    requires PathsSound(s) && Add(fold, s, t, isDirectory).Ok?
    requires SafePath(t.relative) && HasParent(s.directories, t.relative)
    ensures PathsSound(Add(fold, s, t, isDirectory).scan)
  {
    if isDirectory && t.remote !in s.seenRemote {
      DirectoryPathsStep(s, t, Add(fold, s, t, isDirectory).scan);
    }
  }

  lemma QueueStep(fold: Fold, s: Scan, t: Target, isDirectory: bool)
    requires QueueSound(s) && Add(fold, s, t, isDirectory).Ok?
    ensures QueueSound(Add(fold, s, t, isDirectory).scan)
    ensures Listed(Add(fold, s, t, isDirectory).scan) == Listed(s)
  {
    var n := Listed(s);
    assert (s.directories + [t])[n..] == s.directories[n..] + [t];
  }

  lemma AddKeepsSound(fold: Fold, s: Scan, t: Target, isDirectory: bool)
    requires Sound(fold, s) && Add(fold, s, t, isDirectory).Ok?
    requires SafePath(t.relative) && HasParent(s.directories, t.relative)
    ensures Sound(fold, Add(fold, s, t, isDirectory).scan)
    ensures Listed(Add(fold, s, t, isDirectory).scan) == Listed(s)
  {
    RemotesStep(fold, s, t, isDirectory);
    KeysStep(fold, s, t, isDirectory);
    PathsStep(fold, s, t, isDirectory);
    QueueStep(fold, s, t, isDirectory);
  }

  // ------------------------------------------------------------- growth of a scan

  /** `t` extends `s`: nothing planned is ever withdrawn or moved. */
  ghost predicate Extends(s: Scan, t: Scan) {
    s.directories <= t.directories && s.files <= t.files && s.pending <= t.pending && s.seenRemote <= t.seenRemote
  }

  /** The target was planned: a directory by its remote path, a file as it is. */
  ghost predicate Accounted(s: Scan, t: Target, isDirectory: bool) {
    if isDirectory then t.remote in s.seenRemote else t in s.files
  }

  lemma AddExtends(fold: Fold, s: Scan, t: Target, isDirectory: bool)
    requires Add(fold, s, t, isDirectory).Ok?
    ensures Extends(s, Add(fold, s, t, isDirectory).scan)
    ensures Accounted(Add(fold, s, t, isDirectory).scan, t, isDirectory)
  {
    if !isDirectory {
      assert t in s.files + [t];
    }
  }

  lemma ExtendsTransitive(a: Scan, b: Scan, c: Scan)
    requires Extends(a, b) && Extends(b, c)
    ensures Extends(a, c)
  {
  }

  lemma AccountedKept(s: Scan, s': Scan, t: Target, isDirectory: bool)
    requires Extends(s, s') && Accounted(s, t, isDirectory)
    ensures Accounted(s', t, isDirectory)
  {
  }

  lemma {:induction false} EntriesExtend(fold: Fold, s: Scan, d: Target, entries: seq<Entry>)
    requires AddEntries(fold, s, d, entries).Ok?
    ensures Extends(s, AddEntries(fold, s, d, entries).scan)
    ensures forall e :: e in entries ==>
              SafeSegment(e.name) && Accounted(AddEntries(fold, s, d, entries).scan, EntryTarget(d, e), e.isDirectory)
    decreases entries
  {
    if entries != [] {
      var e := entries[0];
      var added := Add(fold, s, EntryTarget(d, e), e.isDirectory).scan;
      var final := AddEntries(fold, s, d, entries).scan;
      AddExtends(fold, s, EntryTarget(d, e), e.isDirectory);
      EntriesExtend(fold, added, d, entries[1..]);
      ExtendsTransitive(s, added, final);
      AccountedKept(added, final, EntryTarget(d, e), e.isDirectory);
      assert forall x :: x in entries <==> x == e || x in entries[1..];
    }
  }

  lemma {:induction false} EntriesKeepSound(fold: Fold, s: Scan, d: Target, entries: seq<Entry>, i: nat)
    requires Sound(fold, s) && AddEntries(fold, s, d, entries).Ok?
    requires i < |s.directories| && s.directories[i] == d
    ensures Sound(fold, AddEntries(fold, s, d, entries).scan)
    ensures Listed(AddEntries(fold, s, d, entries).scan) == Listed(s)
    decreases entries
  {
    if entries != [] {
      var t := EntryTarget(d, entries[0]);
      assert t.relative[..|t.relative| - 1] == d.relative;
      assert SafePath(t.relative);
      assert HasParent(s.directories, t.relative);
      AddKeepsSound(fold, s, t, entries[0].isDirectory);
      AddExtends(fold, s, t, entries[0].isDirectory);
      EntriesKeepSound(fold, Add(fold, s, t, entries[0].isDirectory).scan, d, entries[1..], i);
    }
  }

  // --------------------------------------------------------------- reachability

  ghost predicate IsRoot(selections: seq<Selection>, path: Path) {
    exists i :: 0 <= i < |selections| && selections[i].isDirectory && SelectionTarget(selections[i]).remote == path
  }

  ghost predicate IsChild(listing: Listing, parent: Path, path: Path) {
    parent in listing
    && exists i :: 0 <= i < |listing[parent]| && listing[parent][i].isDirectory
                   && Child(parent, listing[parent][i].name) == path
  }

  /** Reached from a selected directory by `depth` steps from directory to subdirectory. */
  ghost predicate ReachedIn(selections: seq<Selection>, listing: Listing, path: Path, depth: nat)
    decreases depth
  {
    if depth == 0 then IsRoot(selections, path)
    else exists parent :: ReachedIn(selections, listing, parent, depth - 1) && IsChild(listing, parent, path)
  }

  ghost predicate Reachable(selections: seq<Selection>, listing: Listing, path: Path) {
    exists depth: nat :: ReachedIn(selections, listing, path, depth)
  }

  /** The listed directories are listable and everything in them is planned. */
  ghost predicate Explored(s: Scan, listing: Listing) {
    forall i :: 0 <= i < Listed(s) && i < |s.directories| ==> ExploredAt(s, listing, s.directories[i])
  }

  ghost predicate ExploredAt(s: Scan, listing: Listing, d: Target) {
    d.remote in listing
    && forall e :: e in listing[d.remote] ==> SafeSegment(e.name) && Accounted(s, EntryTarget(d, e), e.isDirectory)
  }

  ghost predicate RootsPlanned(s: Scan, selections: seq<Selection>) {
    forall i :: 0 <= i < |selections| ==> Accounted(s, SelectionTarget(selections[i]), selections[i].isDirectory)
  }

  ghost predicate AllReachable(s: Scan, selections: seq<Selection>, listing: Listing) {
    forall i :: 0 <= i < |s.directories| ==> Reachable(selections, listing, s.directories[i].remote)
  }

  /** A planned file was selected or is an entry of a planned directory. */
  ghost predicate FileJustified(directories: seq<Target>, selections: seq<Selection>, listing: Listing, f: Target) {
    || (exists i :: 0 <= i < |selections| && !selections[i].isDirectory && SelectionTarget(selections[i]) == f)
    || (exists i :: 0 <= i < |directories| && ListsFile(listing, directories[i], f))
  }

  ghost predicate ListsFile(listing: Listing, d: Target, f: Target) {
    d.remote in listing
    && exists j :: 0 <= j < |listing[d.remote]| && !listing[d.remote][j].isDirectory
                   && EntryTarget(d, listing[d.remote][j]) == f
  }

  ghost predicate FilesJustified(s: Scan, selections: seq<Selection>, listing: Listing) {
    forall i :: 0 <= i < |s.files| ==> FileJustified(s.directories, selections, listing, s.files[i])
  }

  ghost predicate Inv(fold: Fold, s: Scan, selections: seq<Selection>, listing: Listing) {
    && Sound(fold, s)
    && Explored(s, listing)
    && RootsPlanned(s, selections)
    && AllReachable(s, selections, listing)
    && FilesJustified(s, selections, listing)
  }

  lemma ReachableChild(selections: seq<Selection>, listing: Listing, parent: Path, path: Path)
    requires Reachable(selections, listing, parent) && IsChild(listing, parent, path)
    ensures Reachable(selections, listing, path)
  {
    var depth: nat :| ReachedIn(selections, listing, parent, depth);
    assert ReachedIn(selections, listing, path, depth + 1);
  }

  lemma JustifiedKept(s: Scan, s': Scan, selections: seq<Selection>, listing: Listing, f: Target)
    requires s.directories <= s'.directories && FileJustified(s.directories, selections, listing, f)
    ensures FileJustified(s'.directories, selections, listing, f)
  {
    if i :| 0 <= i < |s.directories| && ListsFile(listing, s.directories[i], f) {
      assert s'.directories[i] == s.directories[i];
    }
  }

  /** Adding one justified target keeps every planned item justified. */
  lemma AddKeepsOrigin(fold: Fold, s: Scan, t: Target, isDirectory: bool,
                       selections: seq<Selection>, listing: Listing)
    requires Add(fold, s, t, isDirectory).Ok?
    requires AllReachable(s, selections, listing) && FilesJustified(s, selections, listing)
    requires isDirectory ==> Reachable(selections, listing, t.remote)
    requires !isDirectory ==> FileJustified(s.directories, selections, listing, t)
    ensures AllReachable(Add(fold, s, t, isDirectory).scan, selections, listing)
    ensures FilesJustified(Add(fold, s, t, isDirectory).scan, selections, listing)
  {
    var s' := Add(fold, s, t, isDirectory).scan;
    forall i | 0 <= i < |s'.files|
      ensures FileJustified(s'.directories, selections, listing, s'.files[i])
    {
      JustifiedKept(s, s', selections, listing, s'.files[i]);
    }
  }

  lemma {:induction false} EntriesKeepOrigin(fold: Fold, s: Scan, d: Target, entries: seq<Entry>, k: nat, i: nat,
                                             selections: seq<Selection>, listing: Listing)
    requires AddEntries(fold, s, d, entries).Ok?
    requires AllReachable(s, selections, listing) && FilesJustified(s, selections, listing)
    requires i < |s.directories| && s.directories[i] == d
    requires d.remote in listing && k <= |listing[d.remote]| && entries == listing[d.remote][k..]
    ensures AllReachable(AddEntries(fold, s, d, entries).scan, selections, listing)
    ensures FilesJustified(AddEntries(fold, s, d, entries).scan, selections, listing)
    decreases entries
  {
    if entries != [] {
      var e := entries[0];
      var t := EntryTarget(d, e);
      assert listing[d.remote][k] == e;
      if e.isDirectory {
        assert IsChild(listing, d.remote, t.remote);
        ReachableChild(selections, listing, d.remote, t.remote);
      } else {
        assert ListsFile(listing, d, t);
      }
      AddKeepsOrigin(fold, s, t, e.isDirectory, selections, listing);
      AddExtends(fold, s, t, e.isDirectory);
      EntriesKeepOrigin(fold, Add(fold, s, t, e.isDirectory).scan, d, entries[1..], k + 1, i, selections, listing);
    }
  }

  // ----------------------------------------------------------------- the start

  lemma {:induction false} SelectionsKeep(fold: Fold, s: Scan, k: nat, selections: seq<Selection>, listing: Listing)
    requires k <= |selections| && AddSelections(fold, s, selections[k..]).Ok?
    requires Sound(fold, s) && Listed(s) == 0
    requires AllReachable(s, selections, listing) && FilesJustified(s, selections, listing)
    requires forall i :: 0 <= i < k ==> Accounted(s, SelectionTarget(selections[i]), selections[i].isDirectory)
    ensures var s' := AddSelections(fold, s, selections[k..]).scan;
            Inv(fold, s', selections, listing) && Listed(s') == 0
    decreases |selections| - k
  {
    if k < |selections| {
      var selection, t := selections[k], SelectionTarget(selections[k]);
      assert selections[k..][1..] == selections[k + 1..];
      if selection.isDirectory {
        assert IsRoot(selections, t.remote);
        assert ReachedIn(selections, listing, t.remote, 0);
      }
      AddKeepsSound(fold, s, t, selection.isDirectory);
      AddKeepsOrigin(fold, s, t, selection.isDirectory, selections, listing);
      AddExtends(fold, s, t, selection.isDirectory);
      var added := Add(fold, s, t, selection.isDirectory).scan;
      forall i | 0 <= i < k + 1
        ensures Accounted(added, SelectionTarget(selections[i]), selections[i].isDirectory)
      {
        if i < k {
          AccountedKept(s, added, SelectionTarget(selections[i]), selections[i].isDirectory);
        }
      }
      SelectionsKeep(fold, added, k + 1, selections, listing);
    }
  }

  // ------------------------------------------------------------------- one step

  lemma Popped(fold: Fold, s: Scan)
    requires Sound(fold, s) && s.pending != []
    ensures var p := s.(pending := s.pending[1..]);
            Sound(fold, p) && Listed(p) == Listed(s) + 1 && s.directories[Listed(s)] == s.pending[0]
  {
  }

  lemma ExploredKept(s: Scan, s': Scan, listing: Listing, d: Target)
    requires ExploredAt(s, listing, d) && Extends(s, s')
    ensures ExploredAt(s', listing, d)
  {
    forall e | e in listing[d.remote]
      ensures Accounted(s', EntryTarget(d, e), e.isDirectory)
    {
      AccountedKept(s, s', EntryTarget(d, e), e.isDirectory);
    }
  }

  lemma StepExplores(fold: Fold, s: Scan, listing: Listing)
    requires Sound(fold, s) && Explored(s, listing) && s.pending != [] && Step(fold, s, listing).Ok?
    ensures Explored(Step(fold, s, listing).scan, listing)
    ensures Listed(Step(fold, s, listing).scan) == Listed(s) + 1
    ensures Sound(fold, Step(fold, s, listing).scan)
  {
    var d, popped := s.pending[0], s.(pending := s.pending[1..]);
    var s' := Step(fold, s, listing).scan;
    Popped(fold, s);
    EntriesExtend(fold, popped, d, listing[d.remote]);
    EntriesKeepSound(fold, popped, d, listing[d.remote], Listed(s));
    forall i | 0 <= i < Listed(s') && i < |s'.directories|
      ensures ExploredAt(s', listing, s'.directories[i])
    {
      if i < Listed(s) {
        assert ExploredAt(s, listing, s.directories[i]);
        assert ExploredAt(popped, listing, s.directories[i]);
        ExploredKept(popped, s', listing, s.directories[i]);
      }
    }
  }

  lemma StepKeepsInv(fold: Fold, s: Scan, selections: seq<Selection>, listing: Listing)
    requires Inv(fold, s, selections, listing) && Step(fold, s, listing).Ok?
    ensures Inv(fold, Step(fold, s, listing).scan, selections, listing)
  {
    if s.pending != [] {
      var d, popped := s.pending[0], s.(pending := s.pending[1..]);
      var s' := Step(fold, s, listing).scan;
      StepExplores(fold, s, listing);
      Popped(fold, s);
      EntriesExtend(fold, popped, d, listing[d.remote]);
      EntriesKeepOrigin(fold, popped, d, listing[d.remote], 0, Listed(s), selections, listing);
      forall i | 0 <= i < |selections|
        ensures Accounted(s', SelectionTarget(selections[i]), selections[i].isDirectory)
      {
        AccountedKept(popped, s', SelectionTarget(selections[i]), selections[i].isDirectory);
      }
    }
  }

  lemma {:induction false} StepsKeepInv(fold: Fold, s: Scan, selections: seq<Selection>, listing: Listing, n: nat)
    requires Inv(fold, s, selections, listing) && Steps(fold, s, listing, n).Ok?
    ensures Inv(fold, Steps(fold, s, listing, n).scan, selections, listing)
  {
    if n > 0 {
      StepsKeepInv(fold, s, selections, listing, n - 1);
      StepKeepsInv(fold, Steps(fold, s, listing, n - 1).scan, selections, listing);
    }
  }

  lemma SequentialKeepsInv(fold: Fold, selections: seq<Selection>, listing: Listing, n: nat)
    requires Sequential(fold, selections, listing, n).Ok?
    ensures Inv(fold, Sequential(fold, selections, listing, n).scan, selections, listing)
  {
    assert selections[0..] == selections;
    SelectionsKeep(fold, EMPTY, 0, selections, listing);
    StepsKeepInv(fold, AddSelections(fold, EMPTY, selections).scan, selections, listing, n);
  }

  // -------------------------------------------------------------------- the laws

  lemma {:induction false} ReachedIsPlanned(fold: Fold, s: Scan, selections: seq<Selection>, listing: Listing,
                                            path: Path, depth: nat)
    requires Inv(fold, s, selections, listing) && s.pending == []
    requires ReachedIn(selections, listing, path, depth)
    ensures path in s.seenRemote
    decreases depth
  {
    if depth == 0 {
      var i :| 0 <= i < |selections| && selections[i].isDirectory && SelectionTarget(selections[i]).remote == path;
      assert Accounted(s, SelectionTarget(selections[i]), true);
    } else {
      var parent :| ReachedIn(selections, listing, parent, depth - 1) && IsChild(listing, parent, path);
      ReachedIsPlanned(fold, s, selections, listing, parent, depth - 1);
      var d :| d in s.directories && d.remote == parent;
      var k :| 0 <= k < |s.directories| && s.directories[k] == d;
      assert ExploredAt(s, listing, s.directories[k]);
      var i :| 0 <= i < |listing[parent]| && listing[parent][i].isDirectory && Child(parent, listing[parent][i].name) == path;
      assert Accounted(s, EntryTarget(d, listing[parent][i]), true);
    }
  }

  /** A finished plan lists exactly the directories reachable from the selection, each
      once. */
  lemma PlanListsReachableOnce(fold: Fold, selections: seq<Selection>, listing: Listing, final: Scan)
    requires Completes(fold, selections, listing, final)
    ensures DistinctRemotes(final.directories)
    ensures forall path :: Reachable(selections, listing, path) <==> path in Remotes(final.directories)
  {
    var n: nat :| Sequential(fold, selections, listing, n) == Ok(final);
    SequentialKeepsInv(fold, selections, listing, n);
    forall path
      ensures Reachable(selections, listing, path) <==> path in Remotes(final.directories)
    {
      if Reachable(selections, listing, path) {
        var depth: nat :| ReachedIn(selections, listing, path, depth);
        ReachedIsPlanned(fold, final, selections, listing, path, depth);
      }
    }
  }

  /** A finished plan holds exactly the selected files and the files of its directories,
      each below the directory that lists it. */
  lemma PlanHoldsEveryFile(fold: Fold, selections: seq<Selection>, listing: Listing, final: Scan)
    requires Completes(fold, selections, listing, final)
    ensures forall f :: f in final.files <==> FileJustified(final.directories, selections, listing, f)
  {
    var n: nat :| Sequential(fold, selections, listing, n) == Ok(final);
    SequentialKeepsInv(fold, selections, listing, n);
    forall f | FileJustified(final.directories, selections, listing, f)
      ensures f in final.files
    {
      JustifiedIsPlanned(fold, final, selections, listing, f);
    }
  }

  lemma JustifiedIsPlanned(fold: Fold, s: Scan, selections: seq<Selection>, listing: Listing, f: Target)
    requires Inv(fold, s, selections, listing) && s.pending == []
    requires FileJustified(s.directories, selections, listing, f)
    ensures f in s.files
  {
    if i :| 0 <= i < |s.directories| && ListsFile(listing, s.directories[i], f) {
      var d := s.directories[i];
      assert ExploredAt(s, listing, d);
      var j :| 0 <= j < |listing[d.remote]| && !listing[d.remote][j].isDirectory
               && EntryTarget(d, listing[d.remote][j]) == f;
      assert Accounted(s, EntryTarget(d, listing[d.remote][j]), false);
    } else {
      var i :| 0 <= i < |selections| && !selections[i].isDirectory && SelectionTarget(selections[i]) == f;
      assert Accounted(s, SelectionTarget(selections[i]), false);
    }
  }

  /** No two entries of a plan, directories or files, share a folded local key; every
      relative path is made of safe segments; every nested entry's parent directory
      comes earlier. */
  lemma PlanIsWritable(fold: Fold, selections: seq<Selection>, listing: Listing, final: Scan)
    requires Completes(fold, selections, listing, final)
    ensures DistinctKeys(fold, final.directories + final.files)
    ensures PathsSound(final)
  {
    var n: nat :| Sequential(fold, selections, listing, n) == Ok(final);
    SequentialKeepsInv(fold, selections, listing, n);
    KeysAllDistinct(fold, final);
  }

  lemma KeysAllDistinct(fold: Fold, s: Scan)
    requires KeysSound(fold, s)
    ensures DistinctKeys(fold, s.directories + s.files)
  {
    var all := s.directories + s.files;
    forall i, j | 0 <= i < j < |all|
      ensures fold(all[i].relative) != fold(all[j].relative)
    {
      var n := |s.directories|;
      if i >= n {
        assert all[i] == s.files[i - n] && all[j] == s.files[j - n];
      } else if j >= n {
        assert all[i] == s.directories[i] && all[j] == s.files[j - n];
        assert fold(all[i].relative) in Keys(fold, s.directories);
        assert fold(all[j].relative) in Keys(fold, s.files);
      } else {
        assert all[i] == s.directories[i] && all[j] == s.directories[j];
      }
    }
  }

  /** A scan lists no more directories than the listing has. */
  lemma ListedBound(fold: Fold, s: Scan, listing: Listing)
    requires Sound(fold, s) && Explored(s, listing)
    ensures Listed(s) <= |listing|
  {
    var done := s.directories[..Listed(s)];
    assert forall i :: 0 <= i < |done| ==> done[i] == s.directories[i];
    assert Remotes(done) <= listing.Keys;
    DistinctCount(done);
    SubsetSize(Remotes(done), listing.Keys);
  }

  lemma {:induction false} DistinctCount(targets: seq<Target>)
    requires DistinctRemotes(targets)
    ensures |Remotes(targets)| == |targets|
  {
    if targets != [] {
      var init, last := targets[..|targets| - 1], targets[|targets| - 1];
      DistinctCount(init);
      assert init + [last] == targets;
      RemotesSnoc(init, last);
      assert last.remote !in Remotes(init);
    }
  }
}
