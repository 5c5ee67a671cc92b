/** The recursive download planner (remoteDownloadPlan.ts).

    A remote path is the list of its `/`-separated parts.  A listing is a finite map
    from normalised directory paths to entries; a path outside it fails to list.  The
    planner compares local names by a folded key (`normalize("NFC").toUpperCase()`);
    `fold` is any such function. */
module DownloadPlan {

  type Path = seq<string>
  type Relative = seq<string>

  datatype Selection = Selection(remotePath: Path, fileName: string, isDirectory: bool)
  datatype Entry = Entry(name: string, isDirectory: bool)
  type Listing = map<Path, seq<Entry>>

  /** A planned directory or file: where it is and where it goes. */
  datatype Target = Target(remote: Path, relative: Relative)

  datatype Error = UnsafeName | DuplicateLocalTarget | ListFailed

  /** The variables the planner updates. */
  datatype Scan = Scan(
    directories: seq<Target>,
    files: seq<Target>,
    pending: seq<Target>,
    seenRemote: set<Path>,
    seenLocal: set<string>)

  datatype Result = Ok(scan: Scan) | Err(error: Error)

  const EMPTY := Scan([], [], [], {}, {})

  // ------------------------------------------------------------- names and paths

  /** The characters `String.prototype.trim` removes. */
  predicate IsJsWhitespace(c: char) {
    var code := c as int;
    || 9 <= code <= 13
    || code in {0x20, 0xA0, 0x1680, 0x2028, 0x2029, 0x202F, 0x205F, 0x3000, 0xFEFF}
    || 0x2000 <= code <= 0x200A
  }

  function UpperAscii(s: string): string {
    seq(|s|, i requires 0 <= i < |s| =>
      if 'a' <= s[i] <= 'z' then (s[i] as int - 32) as char else s[i])
  }

  function BeforeDot(s: string): string {
    if s == "" || s[0] == '.' then "" else [s[0]] + BeforeDot(s[1..])
  }

  predicate IsWindowsReservedName(name: string) {
    var base := UpperAscii(BeforeDot(name));
    || base in {"CON", "PRN", "AUX", "NUL"}
    || (|base| == 4 && base[..3] in {"COM", "LPT"} && '1' <= base[3] <= '9')
  }

  /** `safePathSegment` returns the name instead of throwing. */
  predicate SafeSegment(name: string) {
    && name != "" && (exists i :: 0 <= i < |name| && !IsJsWhitespace(name[i]))
    && name != "." && name != ".."
    && (forall i :: 0 <= i < |name| ==> name[i] !in "\\/<>:\"|?*" && name[i] as int > 0x1F)
    && name[|name| - 1] !in ". "
    && !IsWindowsReservedName(name)
  }

  /** `normalizePath` on the parts of a path. */
  function Normalize(parts: Path): Path {
    if parts == [] then []
    else
      var before, last := Normalize(parts[..|parts| - 1]), parts[|parts| - 1];
      if last == "" || last == "." then before
      else if last == ".." then (if before == [] then [] else before[..|before| - 1])
      else before + [last]
  }

  /** `joinPath` of a directory and a name. */
  function Child(directory: Path, name: string): Path {
    Normalize(directory + [name])
  }

  predicate IsNormal(path: Path) {
    forall i :: 0 <= i < |path| ==> path[i] != "" && path[i] != "." && path[i] != ".."
  }

  lemma {:induction false} NormalizeIsNormal(parts: Path)
    ensures IsNormal(Normalize(parts))
    ensures IsNormal(parts) ==> Normalize(parts) == parts
  {
    if parts != [] {
      NormalizeIsNormal(parts[..|parts| - 1]);
      assert parts[..|parts| - 1] + [parts[|parts| - 1]] == parts;
    }
  }

  /** A safe name names an immediate child: joining cannot leave the directory. */
  lemma SafeChild(directory: Path, name: string)
    requires IsNormal(directory) && SafeSegment(name)
    ensures Child(directory, name) == directory + [name]
  {
    NormalizeIsNormal(directory + [name]);
  }

  // -------------------------------------------------------------- one entry added

  /** `addDirectory`. */
  function AddDirectory(fold: Relative -> string, s: Scan, target: Target): Result {
    if target.remote in s.seenRemote then Ok(s)
    else if fold(target.relative) in s.seenLocal then Err(DuplicateLocalTarget)
    else Ok(Scan(s.directories + [target], s.files, s.pending + [target],
                 s.seenRemote + {target.remote}, s.seenLocal + {fold(target.relative)}))
  }

  /** `addFile`. */
  function AddFile(fold: Relative -> string, s: Scan, target: Target): Result {
    if fold(target.relative) in s.seenLocal then Err(DuplicateLocalTarget)
    else Ok(s.(files := s.files + [target], seenLocal := s.seenLocal + {fold(target.relative)}))
  }

  function Add(fold: Relative -> string, s: Scan, target: Target, isDirectory: bool): Result {
    if isDirectory then AddDirectory(fold, s, target) else AddFile(fold, s, target)
  }

  function EntryTarget(directory: Target, entry: Entry): Target {
    Target(Child(directory.remote, entry.name), directory.relative + [entry.name])
  }

  function AddEntries(fold: Relative -> string, s: Scan, directory: Target, entries: seq<Entry>): Result
    decreases entries
  {
    if entries == [] then Ok(s)
    else if !SafeSegment(entries[0].name) then Err(UnsafeName)
    else
      var added := Add(fold, s, EntryTarget(directory, entries[0]), entries[0].isDirectory);
      if added.Err? then added else AddEntries(fold, added.scan, directory, entries[1..])
  }

  function SelectionTarget(selection: Selection): Target {
    Target(Normalize(selection.remotePath), [selection.fileName])
  }

  function AddSelections(fold: Relative -> string, s: Scan, selections: seq<Selection>): Result
    decreases selections
  {
    if selections == [] then Ok(s)
    else if !SafeSegment(selections[0].fileName) then Err(UnsafeName)
    else
      var added := Add(fold, s, SelectionTarget(selections[0]), selections[0].isDirectory);
      if added.Err? then added else AddSelections(fold, added.scan, selections[1..])
  }

  // ------------------------------------------------ one directory at a time

  /** The simple scan: list the oldest pending directory and add its entries. */
  function Step(fold: Relative -> string, s: Scan, listing: Listing): Result {
    if s.pending == [] then Ok(s)
    else if s.pending[0].remote !in listing then Err(ListFailed)
    else AddEntries(fold, s.(pending := s.pending[1..]), s.pending[0], listing[s.pending[0].remote])
  }

  function Steps(fold: Relative -> string, s: Scan, listing: Listing, n: nat): Result {
    if n == 0 then Ok(s)
    else
      var before := Steps(fold, s, listing, n - 1);
      if before.Err? then before else Step(fold, before.scan, listing)
  }

  function Sequential(fold: Relative -> string, selections: seq<Selection>, listing: Listing, n: nat): Result {
    var start := AddSelections(fold, EMPTY, selections);
    if start.Err? then start else Steps(fold, start.scan, listing, n)
  }

  /** The one-directory-at-a-time scan ends in this state. */
  ghost predicate Completes(fold: Relative -> string, selections: seq<Selection>, listing: Listing, final: Scan) {
    final.pending == [] && exists n: nat :: Sequential(fold, selections, listing, n) == Ok(final)
  }

  /** The one-directory-at-a-time scan fails. */
  ghost predicate Fails(fold: Relative -> string, selections: seq<Selection>, listing: Listing) {
    exists n: nat :: Sequential(fold, selections, listing, n).Err?
  }

  lemma {:induction false} StepsSettle(fold: Relative -> string, s: Scan, listing: Listing, m: nat, n: nat)
    requires m <= n
    requires Steps(fold, s, listing, m).Err? || Steps(fold, s, listing, m).scan.pending == []
    ensures Steps(fold, s, listing, n) == Steps(fold, s, listing, m)
    decreases n
  {
    if m < n {
      StepsSettle(fold, s, listing, m, n - 1);
    }
  }

  lemma SequentialSettles(fold: Relative -> string, selections: seq<Selection>, listing: Listing, m: nat, n: nat)
    requires var r := Sequential(fold, selections, listing, m); r.Err? || r.scan.pending == []
    requires var r := Sequential(fold, selections, listing, n); r.Err? || r.scan.pending == []
    ensures Sequential(fold, selections, listing, m) == Sequential(fold, selections, listing, n)
  {
    var start := AddSelections(fold, EMPTY, selections);
    if start.Ok? {
      if m <= n {
        StepsSettle(fold, start.scan, listing, m, n);
      } else {
        StepsSettle(fold, start.scan, listing, n, m);
      }
    }
  }

  /** The simple scan has one outcome: it does not both end and fail, and it ends in one
      state only. */
  lemma OneOutcome(fold: Relative -> string, selections: seq<Selection>, listing: Listing, a: Scan, b: Scan)
    requires Completes(fold, selections, listing, a)
    ensures !Fails(fold, selections, listing)
    ensures Completes(fold, selections, listing, b) ==> a == b
  {
    var m: nat :| Sequential(fold, selections, listing, m) == Ok(a);
    if Fails(fold, selections, listing) {
      var n: nat :| Sequential(fold, selections, listing, n).Err?;
      SequentialSettles(fold, selections, listing, m, n);
    }
    if Completes(fold, selections, listing, b) {
      var n: nat :| Sequential(fold, selections, listing, n) == Ok(b);
      SequentialSettles(fold, selections, listing, m, n);
    }
  }
}
