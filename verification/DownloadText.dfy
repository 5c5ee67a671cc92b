/** Safe names as text: what a plan writes stays below the chosen folder. */
module DownloadText {
  import opened DownloadPlan
  import opened DownloadLaws

  // --------------------------------------------------------------- safe, in words

  /** The device names of Windows. */
  predicate IsDevice(d: string) {
    || d == "CON" || d == "PRN" || d == "AUX" || d == "NUL"
    || (|d| == 4 && (d[..3] == "COM" || d[..3] == "LPT") && '1' <= d[3] <= '9')
  }

  predicate SameLetter(c: char, upper: char) {
    c == upper || ('A' <= upper <= 'Z' && c as int == upper as int + 32)
  }

  /** The name is the device's, in either case, alone or before a dot. */
  predicate NamesDevice(name: string, device: string) {
    && |device| <= |name|
    && (forall i :: 0 <= i < |device| ==> SameLetter(name[i], device[i]))
    && (|name| == |device| || name[|device|] == '.')
  }

  /** Characters that Windows refuses in a name, separators included. */
  predicate Forbidden(c: char) {
    || c == '/' || c == '\\' || c == '<' || c == '>' || c == ':' || c == '"' || c == '|' || c == '?' || c == '*'
    || (c as int) < 32
  }

  ghost predicate TextSafe(name: string) {
    && (exists i :: 0 <= i < |name| && !IsJsWhitespace(name[i]))
    && (forall i :: 0 <= i < |name| ==> !Forbidden(name[i]))
    && name[|name| - 1] != '.' && name[|name| - 1] != ' '
    && (forall d :: IsDevice(d) ==> !NamesDevice(name, d))
  }

  lemma {:induction false} BeforeDotIs(s: string)
    ensures BeforeDot(s) <= s && '.' !in BeforeDot(s)
    ensures |BeforeDot(s)| < |s| ==> s[|BeforeDot(s)|] == '.'
  {
    if s != "" && s[0] != '.' {
      BeforeDotIs(s[1..]);
    }
  }

  lemma DeviceLetters(d: string)
    requires IsDevice(d)
    ensures forall i :: 0 <= i < |d| ==> 'A' <= d[i] <= 'Z' || '1' <= d[i] <= '9'
  {
    if |d| == 4 {
      assert d[0] == d[..3][0] && d[1] == d[..3][1] && d[2] == d[..3][2];
    }
  }

  function UpperOf(c: char): char {
    if 'a' <= c <= 'z' then (c as int - 32) as char else c
  }

  lemma UpperIs(c: char, upper: char)
    requires 'A' <= upper <= 'Z' || '1' <= upper <= '9'
    ensures SameLetter(c, upper) <==> UpperOf(c) == upper
  {
  }

  lemma NamesDeviceIs(name: string, d: string)
    requires IsDevice(d)
    ensures NamesDevice(name, d) <==> UpperAscii(BeforeDot(name)) == d
  {
    DeviceLetters(d);
    BeforeDotIs(name);
    LettersAgree(name, d);
    if NamesDevice(name, d) {
      NoDotInDevice(name, d);
      UpperBase(name, BeforeDot(name), d);
    }
    if UpperAscii(BeforeDot(name)) == d {
      BaseOf(name, BeforeDot(name), d);
    }
  }

  lemma LettersAgree(name: string, d: string)
    requires forall i :: 0 <= i < |d| ==> 'A' <= d[i] <= 'Z' || '1' <= d[i] <= '9'
    ensures forall i :: 0 <= i < |d| && i < |name| ==> (SameLetter(name[i], d[i]) <==> UpperOf(name[i]) == d[i])
  {
    forall i | 0 <= i < |d| && i < |name|
      ensures SameLetter(name[i], d[i]) <==> UpperOf(name[i]) == d[i]
    {
      UpperIs(name[i], d[i]);
    }
  }

  lemma BaseOf(name: string, base: string, d: string)
    requires base <= name && UpperAscii(base) == d
    ensures |d| == |base| && forall i :: 0 <= i < |d| ==> UpperOf(name[i]) == d[i]
  {
    forall i | 0 <= i < |d|
      ensures UpperOf(name[i]) == d[i]
    {
      assert UpperAscii(base)[i] == d[i] && base[i] == name[i];
    }
  }

  lemma UpperBase(name: string, base: string, d: string)
    requires base <= name && |base| == |d| && forall i :: 0 <= i < |d| ==> UpperOf(name[i]) == d[i]
    ensures UpperAscii(base) == d
  {
    forall i | 0 <= i < |d|
      ensures UpperAscii(base)[i] == d[i]
    {
      assert base[i] == name[i];
    }
  }

  lemma NoDotInDevice(name: string, d: string)
    requires NamesDevice(name, d)
    requires forall i :: 0 <= i < |d| ==> 'A' <= d[i] <= 'Z' || '1' <= d[i] <= '9'
    ensures |BeforeDot(name)| == |d|
  {
    BeforeDotIs(name);
    assert forall i :: 0 <= i < |d| ==> SameLetter(name[i], d[i]) && name[i] != '.';
  }

  /** The test of the code is the one in words, both ways. */
  lemma SafeSegmentExactly(name: string)
    ensures SafeSegment(name) <==> TextSafe(name)
  {
    forall d | IsDevice(d)
      ensures NamesDevice(name, d) <==> UpperAscii(BeforeDot(name)) == d
    {
      NamesDeviceIs(name, d);
    }
    assert IsWindowsReservedName(name) <==> IsDevice(UpperAscii(BeforeDot(name)));
    AllowedCharacters(name);
  }

  lemma AllowedCharacters(name: string)
    ensures (forall i :: 0 <= i < |name| ==> !Forbidden(name[i])) <==>
            forall i :: 0 <= i < |name| ==> name[i] !in "\\/<>:\"|?*" && name[i] as int > 0x1F
  {
    forall c: char
      ensures Forbidden(c) <==> c in "\\/<>:\"|?*" || c as int <= 0x1F
    {
      var t := "\\/<>:\"|?*";
      assert t[0] == '\\' && t[1] == '/' && t[2] == '<' && t[3] == '>' && t[4] == ':' && t[5] == '"' && t[6] == '|';
      assert t[7] == '?' && t[8] == '*' && |t| == 9;
    }
  }

  // ------------------------------------------------------------ paths as text

  /** A slash, and for local paths a backslash too. */
  predicate Separates(c: char, local: bool) {
    c == '/' || (local && c == '\\')
  }

  function Prepend(c: char, parts: seq<string>): seq<string>
    requires parts != []
  {
    [[c] + parts[0]] + parts[1..]
  }

  /** The parts of a path. */
  function Split(s: string, local: bool): (parts: seq<string>)
    ensures |parts| >= 1
  {
    if s == "" then [""]
    else
      var rest := Split(s[1..], local);
      if Separates(s[0], local) then [""] + rest else Prepend(s[0], rest)
  }

  function Joined(parts: seq<string>): string
    requires parts != []
  {
    if |parts| == 1 then parts[0] else parts[0] + ("/" + Joined(parts[1..]))
  }

  predicate Unseparated(s: string, local: bool) {
    forall i :: 0 <= i < |s| ==> !Separates(s[i], local)
  }

  lemma {:induction false} SplitPlain(s: string, local: bool)
    requires Unseparated(s, local)
    ensures Split(s, local) == [s]
  {
    if s != "" {
      SplitPlain(s[1..], local);
      assert [s[0]] + s[1..] == s;
    }
  }

  lemma PrependConcat(c: char, a: seq<string>, b: seq<string>)
    requires a != []
    ensures Prepend(c, a + b) == Prepend(c, a) + b
  {
    assert (a + b)[1..] == a[1..] + b;
  }

  lemma {:induction false} SplitConcat(a: string, b: string, local: bool)
    ensures Split(a + ("/" + b), local) == Split(a, local) + Split(b, local)
  {
    var text := a + ("/" + b);
    if a == "" {
      assert text[1..] == b;
    } else {
      assert text[1..] == a[1..] + ("/" + b) && text[0] == a[0];
      SplitConcat(a[1..], b, local);
      PrependConcat(a[0], Split(a[1..], local), Split(b, local));
    }
  }

  lemma {:induction false} SplitJoined(parts: seq<string>, local: bool)
    requires parts != [] && forall i :: 0 <= i < |parts| ==> Unseparated(parts[i], local)
    ensures Split(Joined(parts), local) == parts
  {
    SplitPlain(parts[0], local);
    if |parts| > 1 {
      SplitConcat(parts[0], Joined(parts[1..]), local);
      SplitJoined(parts[1..], local);
      assert [parts[0]] + parts[1..] == parts;
    }
  }

  function StripEnd(s: string): string {
    if s != "" && Separates(s[|s| - 1], true) then StripEnd(s[..|s| - 1]) else s
  }

  function StripStart(s: string): string {
    if s != "" && s[0] == '/' then StripStart(s[1..]) else s
  }

  function Slashed(s: string): string {
    seq(|s|, i requires 0 <= i < |s| => if s[i] == '\\' then '/' else s[i])
  }

  /** What the base directory contributes to a joined path. */
  function Base(directory: string): string {
    if StripEnd(directory) == "" then directory else StripEnd(directory)
  }

  /** `joinLocalDownloadPath`. */
  function JoinLocal(directory: string, relative: string): string {
    Base(directory) + ("/" + StripStart(Slashed(relative)))
  }

  lemma {:induction false} JoinedKeepsSlashes(parts: seq<string>)
    requires parts != [] && forall i :: 0 <= i < |parts| ==> Unseparated(parts[i], true) && parts[i] != ""
    ensures Slashed(Joined(parts)) == Joined(parts)
    ensures Joined(parts) != "" && Joined(parts)[0] != '/'
  {
    assert !Separates(parts[0][0], true);
    if |parts| > 1 {
      JoinedKeepsSlashes(parts[1..]);
      var text, rest := Joined(parts), Joined(parts[1..]);
      forall i | 0 <= i < |text|
        ensures text[i] != '\\'
      {
        if i > |parts[0]| {
          assert text[i] == rest[i - |parts[0]| - 1] == Slashed(rest)[i - |parts[0]| - 1];
        }
      }
    }
  }

  /** A relative path of safe names: written as text and taken apart again it is itself, none of
      its parts moves up or stays, and below any folder it lies one level down a part. */
  ghost predicate StaysBelow(relative: Relative) {
    && relative != []
    && Split(Joined(relative), true) == relative
    && (forall i :: 0 <= i < |relative| ==>
          TextSafe(relative[i]) && relative[i] != "" && relative[i] != "." && relative[i] != "..")
    && (forall folder :: Split(JoinLocal(folder, Joined(relative)), true) == Split(Base(folder), true) + relative)
  }

  lemma SafePathStaysBelow(relative: Relative)
    requires SafePath(relative)
    ensures StaysBelow(relative)
  {
    forall i | 0 <= i < |relative|
      ensures TextSafe(relative[i]) && Unseparated(relative[i], true) && relative[i] != ""
      ensures relative[i] != "." && relative[i] != ".."
    {
      SafeSegmentExactly(relative[i]);
      assert forall j :: 0 <= j < |relative[i]| ==> !Forbidden(relative[i][j]);
    }
    SplitJoined(relative, true);
    JoinedKeepsSlashes(relative);
    forall folder
      ensures Split(JoinLocal(folder, Joined(relative)), true) == Split(Base(folder), true) + relative
    {
      SplitConcat(Base(folder), Joined(relative), true);
    }
  }

  /** Everything a finished plan writes stays below the chosen folder. */
  lemma PlanStaysBelow(fold: Fold, selections: seq<Selection>, listing: Listing, final: Scan)
    requires Completes(fold, selections, listing, final)
    ensures forall i :: 0 <= i < |final.directories| ==> StaysBelow(final.directories[i].relative)
    ensures forall i :: 0 <= i < |final.files| ==> StaysBelow(final.files[i].relative)
  {
    PlanIsWritable(fold, selections, listing, final);
    forall i | 0 <= i < |final.directories|
      ensures StaysBelow(final.directories[i].relative)
    {
      SafePathStaysBelow(final.directories[i].relative);
    }
    forall i | 0 <= i < |final.files|
      ensures StaysBelow(final.files[i].relative)
    {
      SafePathStaysBelow(final.files[i].relative);
    }
  }

  // -------------------------------------------------------------- remote paths

  /** `normalizePath` writes a path with a leading slash. */
  function PathText(path: Path): string {
    if path == [] then "/" else "/" + Joined(path)
  }

  predicate NoSlashes(path: Path) {
    forall i :: 0 <= i < |path| ==> Unseparated(path[i], false)
  }

  lemma {:induction false} DroppedBlank(parts: Path)
    ensures Normalize([""] + parts) == Normalize(parts)
  {
    if parts == [] {
      assert ([""] + parts)[..0] == [];
    } else {
      var n := |parts| - 1;
      assert ([""] + parts)[..n + 1] == [""] + parts[..n] && ([""] + parts)[n + 1] == parts[n];
      DroppedBlank(parts[..n]);
    }
  }

  lemma TextParts(directory: Path)
    requires NoSlashes(directory)
    ensures Split(PathText(directory), false) == if directory == [] then ["", ""] else [""] + directory
  {
    if directory == [] {
      assert "/"[1..] == "";
    } else {
      SplitJoined(directory, false);
      assert ("/" + Joined(directory))[1..] == Joined(directory);
    }
  }

  lemma SafeNameHasNoSlash(name: string)
    requires SafeSegment(name)
    ensures Unseparated(name, true) && Unseparated(name, false)
  {
    SafeSegmentExactly(name);
    assert forall i :: 0 <= i < |name| ==> !Forbidden(name[i]);
  }

  /** `joinPath` of a directory's text and a safe name: taken apart and normalised it is the child
      of that name, no level less and no level more. */
  lemma SafeChildText(directory: Path, name: string)
    requires IsNormal(directory) && NoSlashes(directory) && SafeSegment(name)
    ensures Normalize(Split(PathText(directory) + ("/" + name), false)) == directory + [name]
  {
    var child := directory + [name];
    ChildParts(directory, name);
    NormalizedBlanks(child);
    SafeChild(directory, name);
    assert Normalize(child) == child;
  }

  /** And its text is the directory's, a slash and the name. */
  lemma ChildText(directory: Path, name: string)
    ensures PathText(directory + [name]) == if directory == [] then "/" + name else PathText(directory) + ("/" + name)
  {
    if directory != [] {
      JoinedSnoc(directory, name);
    }
  }

  lemma NormalizedBlanks(parts: Path)
    ensures Normalize([""] + parts) == Normalize(parts) && Normalize([""] + ([""] + parts)) == Normalize(parts)
  {
    DroppedBlank(parts);
    DroppedBlank([""] + parts);
  }

  lemma ChildParts(directory: Path, name: string)
    requires NoSlashes(directory) && SafeSegment(name)
    ensures Split(PathText(directory) + ("/" + name), false)
         == if directory == [] then [""] + ([""] + (directory + [name])) else [""] + (directory + [name])
  {
    SafeNameHasNoSlash(name);
    SplitPlain(name, false);
    SplitConcat(PathText(directory), name, false);
    TextParts(directory);
  }

  lemma {:induction false} JoinedSnoc(parts: seq<string>, last: string)
    requires parts != []
    ensures Joined(parts + [last]) == Joined(parts) + ("/" + last)
  {
    if |parts| > 1 {
      assert (parts + [last])[1..] == parts[1..] + [last];
      JoinedSnoc(parts[1..], last);
    } else {
      assert (parts + [last])[1..] == [last];
    }
  }

  // --------------------------------------------------------------- normalising

  /** `normalizePath`, part by part: empty parts and dots vanish, two dots take back the part
      before them, if any, and every other part stays. */
  lemma NormalizeSteps(path: Path, name: string)
    requires IsNormal(path)
    ensures Normalize(path + [""]) == path && Normalize(path + ["."]) == path
    ensures Normalize(path + [".."]) == if path == [] then [] else path[..|path| - 1]
    ensures name != "" && name != "." && name != ".." ==>
              Normalize(path + [name]) == path + [name] && Normalize(path + [name] + [".."]) == path
  {
    NormalizeIsNormal(path);
    StepOf(path, "");
    StepOf(path, ".");
    StepOf(path, "..");
    StepOf(path, name);
    StepOf(path + [name], "..");
  }

  lemma StepOf(parts: Path, last: string)
    ensures var before := Normalize(parts);
            Normalize(parts + [last])
            == if last == "" || last == "." then before
               else if last == ".." then (if before == [] then [] else before[..|before| - 1])
               else before + [last]
  {
    assert (parts + [last])[..|parts|] == parts;
  }

  /** Every planned file mirrors where it was found: a selected one has its own name, another
      lies below a planned directory, at the same name on both sides. */
  lemma PlanMirrorsRemote(fold: Fold, selections: seq<Selection>, listing: Listing, final: Scan, f: Target)
    requires Completes(fold, selections, listing, final) && f in final.files
    ensures || (exists i :: 0 <= i < |selections| && !selections[i].isDirectory
                            && f == Target(Normalize(selections[i].remotePath), [selections[i].fileName]))
            || (exists i, j :: 0 <= i < |final.directories| && final.directories[i].remote in listing
                               && 0 <= j < |listing[final.directories[i].remote]|
                               && !listing[final.directories[i].remote][j].isDirectory
                               && BelowAt(final.directories[i], listing[final.directories[i].remote][j].name, f))
  {
    PlanHoldsEveryFile(fold, selections, listing, final);
    if i :| 0 <= i < |selections| && !selections[i].isDirectory && SelectionTarget(selections[i]) == f {
    } else {
      var i :| 0 <= i < |final.directories| && ListsFile(listing, final.directories[i], f);
      var d := final.directories[i];
      var j :| 0 <= j < |listing[d.remote]| && !listing[d.remote][j].isDirectory
               && EntryTarget(d, listing[d.remote][j]) == f;
      assert BelowAt(d, listing[d.remote][j].name, f);
    }
  }

  predicate BelowAt(d: Target, name: string, f: Target) {
    f.relative == d.relative + [name] && f.remote == Normalize(d.remote + [name])
  }
}
