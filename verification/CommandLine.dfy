/** The command line of the one-shot direct broker (direct_broker.rs).

    `quote_windows_argument` prints one argument; `spawn_with_shell_parent` joins
    the printed arguments with single spaces; the child process reads them back by
    the rules of Microsoft's "Parsing C command-line arguments".  The parser below is
    written from those rules and knows nothing of the printer. */
module CommandLine {
  import opened Collections
  import opened Text

  const NUL: char := '\0'
  const QUOTE: char := '"'
  const SLASH: char := '\\'

  // ---------------------------------------------------------------- printing

  predicate NeedsQuotes(value: string) {
    value == "" || exists i :: 0 <= i < |value| && (IsWhitespace(value[i]) || value[i] == QUOTE)
  }

  function Slashes(n: nat): (s: string)
    ensures |s| == n && forall i :: 0 <= i < n ==> s[i] == SLASH
  {
    seq(n, _ => SLASH)
  }

  /** What is printed after the opening quote for the rest of a value, when `pending`
      backslashes have been read and not yet printed. */
  function QuotedRest(rest: string, pending: nat): string {
    if rest == "" then Slashes(2 * pending) + [QUOTE]
    else if rest[0] == SLASH then QuotedRest(rest[1..], pending + 1)
    else if rest[0] == QUOTE then Slashes(2 * pending + 1) + ([QUOTE] + QuotedRest(rest[1..], 0))
    else Slashes(pending) + ([rest[0]] + QuotedRest(rest[1..], 0))
  }

  function Quoted(value: string): string {
    if NeedsQuotes(value) then [QUOTE] + QuotedRest(value, 0) else value
  }

  /** `quote_windows_argument`. */
  method QuoteWindowsArgument(value: string) returns (quoted: string)
    ensures quoted == Quoted(value)
  {
    if !NeedsQuotes(value) {
      return value;
    }
    quoted := [QUOTE];
    var backslashes := 0;
    for i := 0 to |value|
      invariant quoted + QuotedRest(value[i..], backslashes) == [QUOTE] + QuotedRest(value, 0)
    {
      var rest := value[i..];
      assert rest[0] == value[i] && rest[1..] == value[i + 1..];
      if value[i] == SLASH {
        backslashes := backslashes + 1;
      } else if value[i] == QUOTE {
        quoted := quoted + (Slashes(2 * backslashes + 1) + [QUOTE]);
        backslashes := 0;
      } else {
        quoted := quoted + (Slashes(backslashes) + [value[i]]);
        backslashes := 0;
      }
    }
    quoted := quoted + (Slashes(2 * backslashes) + [QUOTE]);
  }

  /** The arguments after the program name, each preceded by one space. */
  function ArgumentTail(args: seq<string>): string {
    if args == [] then "" else " " + Quoted(args[0]) + ArgumentTail(args[1..])
  }

  function CommandLineFor(program: string, args: seq<string>): string {
    Quoted(program) + ArgumentTail(args)
  }

  lemma {:induction false} ArgumentTailSnoc(args: seq<string>, last: string)
    ensures ArgumentTail(args + [last]) == ArgumentTail(args) + " " + Quoted(last)
  {
    if args == [] {
      assert [last][1..] == [];
    } else {
      assert (args + [last])[1..] == args[1..] + [last];
      ArgumentTailSnoc(args[1..], last);
    }
  }

  /** The command line as `spawn_with_shell_parent` builds it. */
  method BuildCommandLine(program: string, args: seq<string>) returns (line: string)
    ensures line == CommandLineFor(program, args)
  {
    line := QuoteWindowsArgument(program);
    for i := 0 to |args|
      invariant line == CommandLineFor(program, args[..i])
    {
      line := line + " ";
      var quoted := QuoteWindowsArgument(args[i]);
      line := line + quoted;
      ArgumentTailSnoc(args[..i], args[i]);
      assert args[..i] + [args[i]] == args[..i + 1];
    }
    assert args[..|args|] == args;
  }

  /** The operating system receives a NUL-terminated buffer. */
  function AsCString(s: string): (r: string) {
    if s == "" || s[0] == NUL then "" else [s[0]] + AsCString(s[1..])
  }

  // ----------------------------------------------------------------- parsing

  /** A parsed argument and the text that follows it. */
  datatype Scan = Scan(arg: string, rest: string)

  predicate IsBlank(c: char) {
    c == ' ' || c == '\t'
  }

  function SkipBlanks(s: string): (r: string)
    ensures |r| <= |s| && (r == "" || !IsBlank(r[0]))
  {
    if s != "" && IsBlank(s[0]) then SkipBlanks(s[1..]) else s
  }

  function Prefixed(prefix: string, scan: Scan): Scan {
    Scan(prefix + scan.arg, scan.rest)
  }

  /** Every argument but the first, with `slashes` backslashes read and not yet
      interpreted.  Backslashes are literal unless a double quote follows; then each
      pair gives one backslash, an odd one makes the quote literal and an even number
      leaves it a delimiter.  Inside a quoted part two quotes in a row are one literal
      quote, and blanks do not end the argument. */
  function ScanArgument(s: string, inQuotes: bool, slashes: nat): (r: Scan)
    ensures |r.rest| <= |s|
    ensures s != "" && !IsBlank(s[0]) ==> |r.rest| < |s|
    decreases |s|
  {
    if s == "" || (IsBlank(s[0]) && !inQuotes) then Scan(Slashes(slashes), s)
    else if s[0] == SLASH then ScanArgument(s[1..], inQuotes, slashes + 1)
    else if s[0] != QUOTE then
      Prefixed(Slashes(slashes) + [s[0]], ScanArgument(s[1..], inQuotes, 0))
    else if slashes % 2 == 1 then
      Prefixed(Slashes(slashes / 2) + [QUOTE], ScanArgument(s[1..], inQuotes, 0))
    else if inQuotes && |s| > 1 && s[1] == QUOTE then
      Prefixed(Slashes(slashes / 2) + [QUOTE], ScanArgument(s[2..], true, 0))
    else
      Prefixed(Slashes(slashes / 2), ScanArgument(s[1..], !inQuotes, 0))
  }

  function ParseArguments(s: string): seq<string>
    decreases |s|
  {
    var t := SkipBlanks(s);
    if t == "" then []
    else
      var scan := ScanArgument(t, false, 0);
      [scan.arg] + ParseArguments(scan.rest)
  }

  /** The program name: quotes protect blanks and are removed; nothing is escaped. */
  function ScanProgram(s: string, inQuotes: bool): (r: Scan)
    ensures QUOTE !in r.arg
  {
    if s == "" || (IsBlank(s[0]) && !inQuotes) then Scan("", s)
    else if s[0] == QUOTE then ScanProgram(s[1..], !inQuotes)
    else Prefixed([s[0]], ScanProgram(s[1..], inQuotes))
  }

  function ParseCommandLine(s: string): seq<string> {
    var program := ScanProgram(s, false);
    [program.arg] + ParseArguments(program.rest)
  }

  // -------------------------------------------------------------- round trip

  /** The text after an argument: nothing, or a blank first. */
  predicate Ends(tail: string) {
    tail == "" || IsBlank(tail[0])
  }

  lemma {:induction false} SlashesRead(n: nat, after: string, inQuotes: bool, slashes: nat)
    ensures ScanArgument(Slashes(n) + after, inQuotes, slashes) == ScanArgument(after, inQuotes, slashes + n)
    decreases n
  {
    var s := Slashes(n) + after;
    if n == 0 {
      assert s == after;
    } else {
      assert s[0] == SLASH && s[1..] == Slashes(n - 1) + after;
      SlashesRead(n - 1, after, inQuotes, slashes + 1);
    }
  }

  lemma LiteralRead(c: char, after: string, inQuotes: bool, slashes: nat)
    requires c != SLASH && c != QUOTE && (inQuotes || !IsBlank(c))
    ensures ScanArgument([c] + after, inQuotes, slashes)
         == Prefixed(Slashes(slashes) + [c], ScanArgument(after, inQuotes, 0))
  {
    assert ([c] + after)[1..] == after;
  }

  lemma EscapedQuoteRead(after: string, inQuotes: bool, n: nat)
    ensures ScanArgument([QUOTE] + after, inQuotes, 2 * n + 1)
         == Prefixed(Slashes(n) + [QUOTE], ScanArgument(after, inQuotes, 0))
  {
    assert ([QUOTE] + after)[1..] == after;
  }

  lemma DelimiterRead(after: string, inQuotes: bool, n: nat)
    requires inQuotes ==> Ends(after)
    ensures ScanArgument([QUOTE] + after, inQuotes, 2 * n)
         == Prefixed(Slashes(n), ScanArgument(after, !inQuotes, 0))
  {
    var s := [QUOTE] + after;
    assert s[1..] == after;
    assert |s| > 1 ==> s[1] == after[0];
  }

  lemma Regroup(a: string, b: string, c: string, d: string)
    ensures (a + (b + c)) + d == a + (b + (c + d))
  {
    Associative(b, c, d);
    Associative(a, b + c, d);
  }

  lemma {:induction false} QuotedRestScans(rest: string, pending: nat, tail: string)
    requires Ends(tail)
    ensures ScanArgument(QuotedRest(rest, pending) + tail, true, 0) == Scan(Slashes(pending) + rest, tail)
    decreases |rest|
  {
    if rest == "" {
      Regroup(Slashes(2 * pending), [QUOTE], "", tail);
      assert [QUOTE] + "" == [QUOTE] && "" + tail == tail;
      SlashesRead(2 * pending, [QUOTE] + tail, true, 0);
      DelimiterRead(tail, true, pending);
      assert Slashes(pending) + Slashes(0) == Slashes(pending) + rest;
    } else if rest[0] == SLASH {
      QuotedRestScans(rest[1..], pending + 1, tail);
      assert Slashes(pending + 1) + rest[1..] == Slashes(pending) + rest;
    } else {
      QuotedRestScans(rest[1..], 0, tail);
      OneRead(rest, pending, tail);
    }
  }

  lemma OneRead(rest: string, pending: nat, tail: string)
    requires rest != "" && rest[0] != SLASH
    requires ScanArgument(QuotedRest(rest[1..], 0) + tail, true, 0) == Scan(Slashes(0) + rest[1..], tail)
    ensures ScanArgument(QuotedRest(rest, pending) + tail, true, 0) == Scan(Slashes(pending) + rest, tail)
  {
    var after := QuotedRest(rest[1..], 0) + tail;
    SlashesJoin(pending, rest);
    if rest[0] == QUOTE {
      Regroup(Slashes(2 * pending + 1), [QUOTE], QuotedRest(rest[1..], 0), tail);
      SlashesRead(2 * pending + 1, [QUOTE] + after, true, 0);
      EscapedQuoteRead(after, true, pending);
    } else {
      Regroup(Slashes(pending), [rest[0]], QuotedRest(rest[1..], 0), tail);
      SlashesRead(pending, [rest[0]] + after, true, 0);
      LiteralRead(rest[0], after, true, pending);
    }
  }

  lemma SlashesJoin(pending: nat, rest: string)
    requires rest != ""
    ensures Slashes(pending) + [rest[0]] + (Slashes(0) + rest[1..]) == Slashes(pending) + rest
  {
  }

  predicate Plain(value: string) {
    forall i :: 0 <= i < |value| ==> !IsBlank(value[i]) && value[i] != QUOTE
  }

  lemma {:induction false} PlainScans(value: string, slashes: nat, tail: string)
    requires Plain(value) && Ends(tail)
    ensures ScanArgument(value + tail, false, slashes) == Scan(Slashes(slashes) + value, tail)
    decreases |value|
  {
    var s := value + tail;
    if value == "" {
      assert s == tail;
      assert Slashes(slashes) + value == Slashes(slashes);
    } else if value[0] == SLASH {
      assert s[1..] == value[1..] + tail;
      PlainScans(value[1..], slashes + 1, tail);
      assert Slashes(slashes + 1) + value[1..] == Slashes(slashes) + value;
    } else {
      assert s == [value[0]] + (value[1..] + tail);
      PlainScans(value[1..], 0, tail);
      LiteralRead(value[0], value[1..] + tail, false, slashes);
      SlashesJoin(slashes, value);
    }
  }

  lemma QuotedScans(value: string, tail: string)
    requires Ends(tail)
    ensures Quoted(value) != "" && !IsBlank(Quoted(value)[0])
    ensures ScanArgument(Quoted(value) + tail, false, 0) == Scan(value, tail)
  {
    assert Slashes(0) + value == value;
    if NeedsQuotes(value) {
      var after := QuotedRest(value, 0) + tail;
      QuotedRestScans(value, 0, tail);
      DelimiterRead(after, false, 0);
      assert Quoted(value) + tail == [QUOTE] + after;
    } else {
      PlainScans(value, 0, tail);
    }
  }

  /** Printing a list of arguments and parsing the text gives the list. */
  lemma {:induction false} ArgumentsRoundTrip(args: seq<string>)
    ensures ParseArguments(ArgumentTail(args)) == args
    ensures Ends(ArgumentTail(args))
  {
    if args != [] {
      var tail := ArgumentTail(args[1..]);
      ArgumentsRoundTrip(args[1..]);
      QuotedScans(args[0], tail);
      SpaceSkipped(Quoted(args[0]) + tail);
      assert ArgumentTail(args) == " " + (Quoted(args[0]) + tail);
      assert [args[0]] + args[1..] == args;
    }
  }

  lemma SpaceSkipped(s: string)
    requires s != "" && !IsBlank(s[0])
    ensures SkipBlanks(" " + s) == s
  {
    assert (" " + s)[1..] == s;
  }

  // -------------------------------------------------------- the program name

  lemma {:induction false} UnquotedProgramScans(program: string, tail: string)
    requires Plain(program) && Ends(tail)
    ensures ScanProgram(program + tail, false) == Scan(program, tail)
  {
    if program == "" {
      assert program + tail == tail;
    } else {
      assert (program + tail)[1..] == program[1..] + tail;
      UnquotedProgramScans(program[1..], tail);
    }
  }

  lemma {:induction false} LiteralProgramScans(prefix: string, after: string)
    requires QUOTE !in prefix
    ensures ScanProgram(prefix + after, true) == Prefixed(prefix, ScanProgram(after, true))
  {
    if prefix == "" {
      assert prefix + after == after;
    } else {
      assert (prefix + after)[1..] == prefix[1..] + after;
      LiteralProgramScans(prefix[1..], after);
      assert [prefix[0]] + prefix[1..] == prefix;
    }
  }

  function TrailingSlashes(s: string): (n: nat)
    ensures n <= |s|
    ensures n == 0 <==> s == "" || s[|s| - 1] != SLASH
  {
    if s != "" && s[|s| - 1] == SLASH then 1 + TrailingSlashes(s[..|s| - 1]) else 0
  }

  /** Between the quotes a name without quotes is printed as it is, its trailing
      backslashes doubled. */
  lemma {:induction false} QuotedNameText(rest: string, pending: nat)
    requires QUOTE !in rest
    ensures QuotedRest(rest, pending) == NameText(Slashes(pending) + rest)
    decreases |rest|
  {
    if rest == "" {
      assert Slashes(pending) + rest == Slashes(pending);
      AllTrailing(pending);
      assert Slashes(2 * pending) + [QUOTE] == Slashes(pending) + (Slashes(pending) + [QUOTE]);
    } else if rest[0] == SLASH {
      QuotedNameText(rest[1..], pending + 1);
      assert Slashes(pending + 1) + rest[1..] == Slashes(pending) + rest;
    } else {
      QuotedNameText(rest[1..], 0);
      assert Slashes(0) + rest[1..] == rest[1..];
      NameTextAfter(Slashes(pending), rest[0], rest[1..]);
      SlashesJoin(pending, rest);
    }
  }

  /** A name, its trailing backslashes once more, and the closing quote. */
  function NameText(name: string): string {
    name + (Slashes(TrailingSlashes(name)) + [QUOTE])
  }

  lemma NameTextAfter(before: string, c: char, after: string)
    requires c != SLASH
    ensures NameText(before + [c] + after) == before + ([c] + NameText(after))
  {
    TrailingAfter(before, c, after);
  }

  lemma {:induction false} AllTrailing(n: nat)
    ensures TrailingSlashes(Slashes(n)) == n
  {
    if n > 0 {
      assert Slashes(n)[..n - 1] == Slashes(n - 1);
      AllTrailing(n - 1);
    }
  }

  lemma {:induction false} TrailingAfter(before: string, c: char, after: string)
    requires c != SLASH
    ensures TrailingSlashes(before + [c] + after) == TrailingSlashes(after)
    decreases |after|
  {
    var s := before + [c] + after;
    if after != "" {
      assert s[|s| - 1] == after[|after| - 1];
      assert s[..|s| - 1] == before + [c] + after[..|after| - 1];
      TrailingAfter(before, c, after[..|after| - 1]);
    }
  }

  /** How the quoted program name is read back, whatever follows it. */
  lemma ProgramScans(program: string, tail: string)
    requires QUOTE !in program && Ends(tail)
    ensures ScanProgram(Quoted(program) + tail, false) == Scan(program + Slashes(ExtraSlashes(program)), tail)
  {
    if NeedsQuotes(program) {
      var inside := program + Slashes(ExtraSlashes(program));
      QuotedNameText(program, 0);
      assert Slashes(0) + program == program;
      assert NameText(program) == inside + [QUOTE];
      QuotedProgramScans(inside, tail);
    } else {
      UnquotedProgramScans(program, tail);
      assert program + Slashes(0) == program;
    }
  }

  lemma QuotedProgramScans(inside: string, tail: string)
    requires QUOTE !in inside && Ends(tail)
    ensures ScanProgram([QUOTE] + (inside + [QUOTE]) + tail, false) == Scan(inside, tail)
  {
    var s := [QUOTE] + (inside + [QUOTE]) + tail;
    assert s[1..] == inside + ([QUOTE] + tail);
    LiteralProgramScans(inside, [QUOTE] + tail);
    assert ([QUOTE] + tail)[1..] == tail;
    assert inside + "" == inside;
  }

  /** The backslashes that quoting a program name adds to what is read back. */
  function ExtraSlashes(program: string): nat {
    if NeedsQuotes(program) then TrailingSlashes(program) else 0
  }

  // ------------------------------------------------------------ NUL and text

  predicate NoNul(s: string) {
    NUL !in s
  }

  lemma {:induction false} CStringOf(s: string)
    ensures NoNul(AsCString(s))
    ensures NoNul(s) ==> AsCString(s) == s
  {
    if s != "" && s[0] != NUL {
      CStringOf(s[1..]);
      assert s == [s[0]] + s[1..];
    }
  }

  lemma {:induction false} QuotedRestNoNul(rest: string, pending: nat)
    requires NoNul(rest)
    ensures NoNul(QuotedRest(rest, pending))
    decreases |rest|
  {
    if rest != "" {
      QuotedRestNoNul(rest[1..], if rest[0] == SLASH then pending + 1 else 0);
    }
  }

  lemma QuotedNoNul(value: string)
    requires NoNul(value)
    ensures NoNul(Quoted(value))
  {
    QuotedRestNoNul(value, 0);
  }

  lemma {:induction false} ArgumentTailNoNul(args: seq<string>)
    requires forall a :: a in args ==> NoNul(a)
    ensures NoNul(ArgumentTail(args))
  {
    if args != [] {
      QuotedNoNul(args[0]);
      ArgumentTailNoNul(args[1..]);
    }
  }

  lemma {:induction false} ScanArgumentNoNul(s: string, inQuotes: bool, slashes: nat)
    requires NoNul(s)
    ensures NoNul(ScanArgument(s, inQuotes, slashes).arg) && NoNul(ScanArgument(s, inQuotes, slashes).rest)
    decreases |s|
  {
    if s == "" || (IsBlank(s[0]) && !inQuotes) {
    } else if s[0] == SLASH {
      ScanArgumentNoNul(s[1..], inQuotes, slashes + 1);
    } else if s[0] != QUOTE || slashes % 2 == 1 {
      ScanArgumentNoNul(s[1..], inQuotes, 0);
    } else if inQuotes && |s| > 1 && s[1] == QUOTE {
      ScanArgumentNoNul(s[2..], true, 0);
    } else {
      ScanArgumentNoNul(s[1..], !inQuotes, 0);
    }
  }

  lemma {:induction false} SkipBlanksNoNul(s: string)
    requires NoNul(s)
    ensures NoNul(SkipBlanks(s))
  {
    if s != "" && IsBlank(s[0]) {
      SkipBlanksNoNul(s[1..]);
    }
  }

  lemma {:induction false} ParseArgumentsNoNul(s: string)
    requires NoNul(s)
    ensures forall a :: a in ParseArguments(s) ==> NoNul(a)
    decreases |s|
  {
    var t := SkipBlanks(s);
    SkipBlanksNoNul(s);
    if t != "" {
      ScanArgumentNoNul(t, false, 0);
      ParseArgumentsNoNul(ScanArgument(t, false, 0).rest);
    }
  }

  lemma {:induction false} ScanProgramNoNul(s: string, inQuotes: bool)
    requires NoNul(s)
    ensures NoNul(ScanProgram(s, inQuotes).arg) && NoNul(ScanProgram(s, inQuotes).rest)
    decreases |s|
  {
    if s == "" || (IsBlank(s[0]) && !inQuotes) {
    } else if s[0] == QUOTE {
      ScanProgramNoNul(s[1..], !inQuotes);
    } else {
      ScanProgramNoNul(s[1..], inQuotes);
    }
  }

  lemma ParseCommandLineNoNul(s: string)
    requires NoNul(s)
    ensures forall a :: a in ParseCommandLine(s) ==> NoNul(a)
  {
    ScanProgramNoNul(s, false);
    ParseArgumentsNoNul(ScanProgram(s, false).rest);
  }

  // --------------------------------------------------------- the main result

  /** The program names the printer and the parser agree on. */
  predicate FaithfulProgram(program: string) {
    QUOTE !in program && ExtraSlashes(program) == 0
  }

  /** What the child process sees as its arguments. */
  function Received(program: string, args: seq<string>): seq<string> {
    ParseCommandLine(AsCString(CommandLineFor(program, args)))
  }

  lemma ReceivedWithoutNul(program: string, args: seq<string>)
    requires QUOTE !in program && NoNul(program)
    requires forall a :: a in args ==> NoNul(a)
    ensures Received(program, args) ==
            [program + Slashes(ExtraSlashes(program))] + args
  {
    var line := CommandLineFor(program, args);
    QuotedNoNul(program);
    ArgumentTailNoNul(args);
    CStringOf(line);
    ArgumentsRoundTrip(args);
    ProgramScans(program, ArgumentTail(args));
  }

  /** The child receives exactly the program name and the arguments, for every list
      of arguments, if and only if no text holds a NUL and the program name holds no
      quote and, when it has to be quoted, does not end in a backslash. */
  lemma CommandLineRoundTrip(program: string, args: seq<string>)
    ensures Received(program, args) == [program] + args <==>
            FaithfulProgram(program) && NoNul(program) && forall a :: a in args ==> NoNul(a)
  {
    var received := Received(program, args);
    CStringOf(CommandLineFor(program, args));
    ParseCommandLineNoNul(AsCString(CommandLineFor(program, args)));
    if received == [program] + args {
      assert received[0] == program && received[1..] == args;
      assert forall a :: a in args ==> a in received;
    }
    if QUOTE !in program && NoNul(program) && forall a :: a in args ==> NoNul(a) {
      ReceivedWithoutNul(program, args);
      assert received[0] == program + Slashes(ExtraSlashes(program));
      assert ExtraSlashes(program) == 0 ==> program + Slashes(0) == program;
    }
  }
}
