/** Command-line quoting (src/runtime/native_worker.cpp) against the way the Microsoft C runtime
    splits a command line into argv. */
module WindowsArgv {

  // ----- the splitter: the C runtime's documented rules -----

  predicate Blank(c: char) { c == ' ' || c == '\t' }

  function Slashes(n: nat): (r: string)
    ensures |r| == n && forall i :: 0 <= i < n ==> r[i] == '\\'
  {
    seq(n, _ => '\\')
  }

  /** The number of leading backslashes. */
  function Run(s: string): (n: nat)
    ensures n <= |s| && s[..n] == Slashes(n) && (n < |s| ==> s[n] != '\\')
  {
    if s == "" || s[0] != '\\' then 0 else 1 + Run(s[1..])
  }

  /** An argument and what follows it. */
  datatype Scan = Scan(arg: string, rest: string)

  function Before(prefix: string, s: Scan): Scan { Scan(prefix + s.arg, s.rest) }

  /** An even run of backslashes before a quote gives half of them and the quote opens or closes (or,
      doubled inside quotes, stands for itself); an odd run gives half of them and the quote itself;
      any other run stands for itself. */
  function ScanArgument(s: string, inQuotes: bool): (r: Scan)
    ensures |r.rest| <= |s| && (s != "" && !Blank(s[0]) ==> |r.rest| < |s|)
    decreases |s|
  {
    var n := Run(s);
    if n == |s| then Scan(s, "")
    else if s[n] == '"' then
      if n % 2 == 1 then Before(Slashes(n / 2) + "\"", ScanArgument(s[n + 1..], inQuotes))
      else if inQuotes && n + 1 < |s| && s[n + 1] == '"' then
        Before(Slashes(n / 2) + "\"", ScanArgument(s[n + 2..], inQuotes))
      else Before(Slashes(n / 2), ScanArgument(s[n + 1..], !inQuotes))
    else if !inQuotes && Blank(s[n]) then Scan(s[..n], s[n..])
    else Before(s[..n + 1], ScanArgument(s[n + 1..], inQuotes))
  }

  function SkipBlanks(s: string): (r: string)
    ensures |r| <= |s| && (r != "" ==> !Blank(r[0]))
  {
    if s != "" && Blank(s[0]) then SkipBlanks(s[1..]) else s
  }

  function SplitArguments(s: string): seq<string>
    decreases |s|
  {
    var t := SkipBlanks(s);
    if t == "" then []
    else
      var scan := ScanArgument(t, false);
      [scan.arg] + SplitArguments(scan.rest)
  }

  /** The program name: quotes only switch blanks on and off, backslashes mean nothing. */
  function ScanProgram(s: string, inQuotes: bool): Scan {
    if s == "" then Scan("", "")
    else if s[0] == '"' then ScanProgram(s[1..], !inQuotes)
    else if !inQuotes && Blank(s[0]) then Scan("", s[1..])
    else Before([s[0]], ScanProgram(s[1..], inQuotes))
  }

  /** What a C program sees of a buffer: everything before the first NUL. */
  function CString(s: string): string {
    if s == "" || s[0] == '\0' then "" else [s[0]] + CString(s[1..])
  }

  function Split(command: string): seq<string> {
    var scan := ScanProgram(CString(command), false);
    [scan.arg] + SplitArguments(scan.rest)
  }

  // ----- the quoter -----

  predicate Special(c: char) { c == ' ' || c == '\t' || c == '\n' || c == '\U{0B}' || c == '"' }

  predicate NeedsQuotes(a: string) { exists i :: 0 <= i < |a| && Special(a[i]) }

  /** The rest of a quoted argument when `n` backslashes are waiting. */
  function Body(a: string, n: nat): string {
    if a == "" then Slashes(2 * n) + "\""
    else if a[0] == '\\' then Body(a[1..], n + 1)
    else if a[0] == '"' then Slashes(2 * n + 1) + "\"" + Body(a[1..], 0)
    else Slashes(n) + [a[0]] + Body(a[1..], 0)
  }

  function Quote(a: string): string {
    if a == "" then "\"\"" else if !NeedsQuotes(a) then a else "\"" + Body(a, 0)
  }

  function Tail(arguments: seq<string>): string {
    if arguments == [] then "" else " " + Quote(arguments[0]) + Tail(arguments[1..])
  }

  function CommandLine(executable: string, arguments: seq<string>): string { Quote(executable) + Tail(arguments) }

  /** quote_windows_argument */
  method QuoteArgument(argument: string) returns (quoted: string)
    ensures quoted == Quote(argument)
  {
    if argument == "" { return "\"\""; }
    if !NeedsQuotes(argument) { return argument; }
    quoted := "\"";
    var slashCount := 0;
    var i := 0;
    while i < |argument|
      invariant 0 <= i <= |argument|
      invariant quoted + Body(argument[i..], slashCount) == "\"" + Body(argument, 0)
    {
      var character := argument[i];
      ghost var rest := Body(argument[i..], slashCount);
      if character == '\\' {
        slashCount := slashCount + 1;
      } else if character == '"' {
        quoted := quoted + Slashes(slashCount * 2 + 1) + "\"";
        slashCount := 0;
      } else {
        quoted := quoted + Slashes(slashCount) + [character];
        slashCount := 0;
      }
      i := i + 1;
    }
    quoted := quoted + Slashes(slashCount * 2) + "\"";
  }

  lemma OneArgument(command: string, rest: seq<string>)
    requires rest != []
    ensures command + Tail(rest) == command + " " + Quote(rest[0]) + Tail(rest[1..])
  {
    hide Quote;
  }

  /** build_command_line */
  method BuildCommandLine(executable: string, arguments: seq<string>) returns (command: string)
    ensures command == CommandLine(executable, arguments)
  {
    hide Quote;
    command := QuoteArgument(executable);
    var i := 0;
    while i < |arguments|
      invariant 0 <= i <= |arguments|
      invariant command + Tail(arguments[i..]) == CommandLine(executable, arguments)
    {
      var quoted := QuoteArgument(arguments[i]);
      OneArgument(command, arguments[i..]);
      command := command + " " + quoted;
      i := i + 1;
    }
  }

  // ----- splitting undoes quoting -----

  /** Arguments follow at a blank, or nothing does. */
  predicate Ends(rest: string) { rest == "" || rest[0] == ' ' }

  lemma {:induction false} RunIs(n: nat, s: string)
    requires s == "" || s[0] != '\\'
    ensures Run(Slashes(n) + s) == n
  {
    if n == 0 {
      assert Slashes(n) + s == s;
    } else {
      assert (Slashes(n) + s)[1..] == Slashes(n - 1) + s;
      RunIs(n - 1, s);
    }
  }

  /** One step of the scan: a run of backslashes and the character that ends it. */
  lemma ScanStep(n: nat, c: char, rest: string, inQuotes: bool)
    requires c != '\\'
    ensures ScanArgument(Slashes(n) + [c] + rest, inQuotes) ==
      if c == '"' then
        if n % 2 == 1 then Before(Slashes(n / 2) + "\"", ScanArgument(rest, inQuotes))
        else if inQuotes && rest != "" && rest[0] == '"' then
          Before(Slashes(n / 2) + "\"", ScanArgument(rest[1..], inQuotes))
        else Before(Slashes(n / 2), ScanArgument(rest, !inQuotes))
      else if !inQuotes && Blank(c) then Scan(Slashes(n), [c] + rest)
      else Before(Slashes(n) + [c], ScanArgument(rest, inQuotes))
  {
    var s := Slashes(n) + [c] + rest;
    assert s == Slashes(n) + ([c] + rest);
    RunIs(n, [c] + rest);
    assert s[..n] == Slashes(n) && s[n..] == [c] + rest && s[..n + 1] == Slashes(n) + [c] && s[n + 1..] == rest;
    assert rest != "" ==> s[n + 2..] == rest[1..];
  }

  /** Backslashes up to the end of the argument. */
  lemma ScanEnd(n: nat, rest: string)
    requires Ends(rest)
    ensures ScanArgument(Slashes(n) + rest, false) == Scan(Slashes(n), rest)
  {
    if rest == "" {
      assert Slashes(n) + rest == Slashes(n);
    } else {
      assert Slashes(n) + rest == Slashes(n) + [rest[0]] + rest[1..];
      ScanStep(n, rest[0], rest[1..], false);
    }
  }

  lemma {:induction false} PlainScans(a: string, rest: string)
    requires Ends(rest) && forall i :: 0 <= i < |a| ==> !Special(a[i])
    ensures ScanArgument(a + rest, false) == Scan(a, rest)
    decreases |a|
  {
    hide ScanArgument;
    var n := Run(a);
    if n == |a| {
      assert a == Slashes(n);
      ScanEnd(n, rest);
    } else {
      var b := a[n + 1..];
      assert a == Slashes(n) + [a[n]] + b;
      assert a + rest == Slashes(n) + [a[n]] + (b + rest);
      ScanStep(n, a[n], b + rest, false);
      PlainScans(b, rest);
    }
  }

  lemma BodyStep(a: string, n: nat, rest: string)
    requires a != "" && a[0] != '\\'
    ensures Body(a, n) + rest
         == Slashes(if a[0] == '"' then 2 * n + 1 else n) + [a[0]] + (Body(a[1..], 0) + rest)
  {
    BodyFirst(a, n);
    hide Body, Slashes;
    ThreeStrings(Slashes(if a[0] == '"' then 2 * n + 1 else n) + [a[0]], Body(a[1..], 0), rest);
  }

  lemma BodyFirst(a: string, n: nat)
    requires a != "" && a[0] != '\\'
    ensures Body(a, n) == Slashes(if a[0] == '"' then 2 * n + 1 else n) + [a[0]] + Body(a[1..], 0)
  {
    hide Slashes;
  }

  lemma ThreeStrings(a: string, b: string, c: string)
    ensures a + b + c == a + (b + c)
  {}

  lemma {:induction false} BodyScans(a: string, n: nat, rest: string)
    requires Ends(rest)
    ensures ScanArgument(Body(a, n) + rest, true) == Scan(Slashes(n) + a, rest)
    decreases |a|
  {
    hide ScanArgument;
    if a == "" {
      assert Body(a, n) + rest == Slashes(2 * n) + ['"'] + rest;
      ScanStep(2 * n, '"', rest, true);
      ScanEnd(0, rest);
      assert Slashes(0) + rest == rest;
    } else if a[0] == '\\' {
      BodyScans(a[1..], n + 1, rest);
      assert Slashes(n) + a == Slashes(n + 1) + a[1..];
    } else {
      hide Body, Run;
      var t, k := Body(a[1..], 0) + rest, if a[0] == '"' then 2 * n + 1 else n;
      BodyStep(a, n, rest);
      ScanStep(k, a[0], t, true);
      BodyScans(a[1..], 0, rest);
      assert Slashes(n) + a == Slashes(n) + [a[0]] + (Slashes(0) + a[1..]);
    }
  }

  /** One argument comes back whatever it holds. */
  lemma {:induction false} QuotedScans(a: string, rest: string)
    requires Ends(rest)
    ensures ScanArgument(Quote(a) + rest, false) == Scan(a, rest)
  {
    hide ScanArgument;
    if a != "" && !NeedsQuotes(a) {
      PlainScans(a, rest);
    } else {
      assert Quote(a) + rest == Slashes(0) + ['"'] + (Body(a, 0) + rest);
      ScanStep(0, '"', Body(a, 0) + rest, false);
      BodyScans(a, 0, rest);
      assert Slashes(0) + (Slashes(0) + a) == a;
    }
  }

  lemma SplitStep(s: string, a: string, rest: string)
    requires s != "" && !Blank(s[0]) && ScanArgument(s, false) == Scan(a, rest)
    ensures SplitArguments(" " + s) == [a] + SplitArguments(rest)
  {
    hide ScanArgument;
    var t := " " + s;
    assert t[1..] == s && SkipBlanks(s) == s;
  }

  lemma {:induction false} TailSplits(arguments: seq<string>)
    ensures SplitArguments(Tail(arguments)) == arguments && Ends(Tail(arguments))
  {
    if arguments != [] {
      var a, rest := arguments[0], Tail(arguments[1..]);
      assert Tail(arguments) == " " + (Quote(a) + rest) by { ThreeStrings(" ", Quote(a), rest); }
      hide Tail, SplitArguments, ScanArgument, Body;
      TailSplits(arguments[1..]);
      QuotedScans(a, rest);
      SplitStep(Quote(a) + rest, a, rest);
    }
  }

  // ----- the program name -----

  /** Without quotes of its own the name is read up to the blank that ends it. */
  lemma {:induction false} NameScans(a: string, rest: string)
    requires Ends(rest) && forall i :: 0 <= i < |a| ==> a[i] != '"' && !Blank(a[i])
    ensures ScanProgram(a + rest, false) == Scan(a, if rest == "" then "" else rest[1..])
  {
    if a == "" {
      assert a + rest == rest;
    } else {
      assert (a + rest)[1..] == a[1..] + rest;
      NameScans(a[1..], rest);
    }
  }

  /** Between quotes everything but a quote is read as it stands. */
  lemma {:induction false} QuotedNameScans(a: string, rest: string)
    requires Ends(rest) && '"' !in a
    ensures ScanProgram(a + "\"" + rest, true) == Scan(a, if rest == "" then "" else rest[1..])
  {
    var s := a + "\"" + rest;
    if a == "" {
      assert s[1..] == rest;
      NameScans("", rest);
      assert "" + rest == rest;
    } else {
      assert s[1..] == a[1..] + "\"" + rest;
      QuotedNameScans(a[1..], rest);
    }
  }

  /** The backslashes waiting when the name ends. */
  function Waiting(a: string, n: nat): nat {
    if a == "" then n else Waiting(a[1..], if a[0] == '\\' then n + 1 else 0)
  }

  lemma {:induction false} WaitingIsTrailing(a: string, n: nat)
    ensures Waiting(a, n) == 0 <==> if a == "" then n == 0 else a[|a| - 1] != '\\'
  {
    if a != "" {
      WaitingIsTrailing(a[1..], if a[0] == '\\' then n + 1 else 0);
    }
  }

  /** A quoted name without quotes of its own keeps its text but for the backslashes doubled at the end. */
  lemma {:induction false} BodyOfName(a: string, n: nat)
    requires '"' !in a
    ensures Body(a, n) == Slashes(n) + a + Slashes(Waiting(a, n)) + "\""
  {
    if a == "" {
      assert Slashes(2 * n) == Slashes(n) + a + Slashes(n);
    } else if a[0] == '\\' {
      BodyOfName(a[1..], n + 1);
      assert Slashes(n + 1) + a[1..] == Slashes(n) + a;
    } else {
      BodyOfName(a[1..], 0);
      assert Slashes(n) + [a[0]] + (Slashes(0) + a[1..]) == Slashes(n) + a;
    }
  }

  /** The names that survive: no quote, and no backslash at the end of one that needs quotes. */
  predicate NameSurvives(a: string) {
    '"' !in a && !(NeedsQuotes(a) && a[|a| - 1] == '\\')
  }

  /** What the splitter makes of a quoted name. */
  lemma {:induction false} QuotedProgramScans(a: string, rest: string)
    requires Ends(rest) && '"' !in a
    ensures ScanProgram(Quote(a) + rest, false)
         == Scan(if NeedsQuotes(a) then a + Slashes(Waiting(a, 0)) else a, if rest == "" then "" else rest[1..])
  {
    hide ScanProgram, Body;
    if a != "" && !NeedsQuotes(a) {
      NameScans(a, rest);
    } else {
      BodyOfName(a, 0);
      var name := a + Slashes(Waiting(a, 0));
      assert Slashes(0) + a == a;
      assert Quote(a) + rest == "\"" + (name + "\"" + rest);
      OpeningQuote(name + "\"" + rest);
      QuotedNameScans(name, rest);
      assert a == "" ==> name == a;
    }
  }

  lemma OpeningQuote(s: string)
    ensures ScanProgram("\"" + s, false) == ScanProgram(s, true)
  {
    assert ("\"" + s)[1..] == s;
  }

  /** Quotes never reach the program name. */
  lemma {:induction false} NameHasNoQuote(s: string, inQuotes: bool)
    ensures '"' !in ScanProgram(s, inQuotes).arg
  {
    if s != "" {
      NameHasNoQuote(s[1..], if s[0] == '"' then !inQuotes else inQuotes);
    }
  }

  // ----- NULs -----

  predicate NulFree(s: string) { '\0' !in s }

  lemma {:induction false} CStringIs(s: string)
    ensures NulFree(CString(s)) && (NulFree(s) ==> CString(s) == s)
  {
    if s != "" && s[0] != '\0' {
      CStringIs(s[1..]);
      assert s == [s[0]] + s[1..];
    }
  }

  lemma {:induction false} ProgramKeepsNulFree(s: string, inQuotes: bool)
    requires NulFree(s)
    ensures NulFree(ScanProgram(s, inQuotes).arg) && NulFree(ScanProgram(s, inQuotes).rest)
  {
    if s != "" {
      ProgramKeepsNulFree(s[1..], if s[0] == '"' then !inQuotes else inQuotes);
    }
  }

  lemma {:induction false} ArgumentKeepsNulFree(s: string, inQuotes: bool)
    requires NulFree(s)
    ensures NulFree(ScanArgument(s, inQuotes).arg) && NulFree(ScanArgument(s, inQuotes).rest)
    decreases |s|
  {
    var n := Run(s);
    if n < |s| {
      var c, rest := s[n], s[n + 1..];
      assert s == Slashes(n) + [c] + rest;
      hide ScanArgument, Run;
      ScanStep(n, c, rest, inQuotes);
      ArgumentKeepsNulFree(rest, inQuotes);
      ArgumentKeepsNulFree(rest, !inQuotes);
      if rest != "" {
        ArgumentKeepsNulFree(rest[1..], inQuotes);
      }
    }
  }

  lemma {:induction false} SplitsKeepNulFree(s: string)
    requires NulFree(s)
    ensures forall i :: 0 <= i < |SplitArguments(s)| ==> NulFree(SplitArguments(s)[i])
    decreases |s|
  {
    var t := SkipBlanks(s);
    BlanksKeepNulFree(s);
    if t != "" {
      ArgumentKeepsNulFree(t, false);
      hide ScanArgument;
      SplitsKeepNulFree(ScanArgument(t, false).rest);
    }
  }

  lemma {:induction false} BlanksKeepNulFree(s: string)
    requires NulFree(s)
    ensures NulFree(SkipBlanks(s))
  {
    if s != "" && Blank(s[0]) { BlanksKeepNulFree(s[1..]); }
  }

  lemma {:induction false} BodyKeepsNulFree(a: string, n: nat)
    requires NulFree(a)
    ensures NulFree(Body(a, n))
  {
    if a != "" { BodyKeepsNulFree(a[1..], if a[0] == '\\' then n + 1 else 0); }
  }

  predicate AllNulFree(ss: seq<string>) { forall i :: 0 <= i < |ss| ==> NulFree(ss[i]) }

  lemma {:induction false} TailKeepsNulFree(arguments: seq<string>)
    requires AllNulFree(arguments)
    ensures NulFree(Tail(arguments))
  {
    if arguments != [] {
      BodyKeepsNulFree(arguments[0], 0);
      TailKeepsNulFree(arguments[1..]);
    }
  }

  // ----- the law -----

  lemma {:induction false} SplitOfCommandLine(executable: string, arguments: seq<string>)
    requires NulFree(executable) && AllNulFree(arguments) && '"' !in executable
    ensures Split(CommandLine(executable, arguments)) ==
      [if NeedsQuotes(executable) then executable + Slashes(Waiting(executable, 0)) else executable] + arguments
  {
    var rest := Tail(arguments);
    BodyKeepsNulFree(executable, 0);
    TailKeepsNulFree(arguments);
    CStringIs(CommandLine(executable, arguments));
    TailSplits(arguments);
    hide ScanProgram, ScanArgument, CString, Body;
    QuotedProgramScans(executable, rest);
    if rest != "" {
      LeadingBlank(rest);
    }
  }

  lemma LeadingBlank(s: string)
    requires s != "" && s[0] == ' '
    ensures SplitArguments(s[1..]) == SplitArguments(s)
  {
    hide ScanArgument;
  }

  /** Splitting the built command line gives back the list if and only if no element holds a NUL
      and the program name survives; the arguments themselves may hold anything else. */
  lemma {:induction false} SplitUndoesBuild(executable: string, arguments: seq<string>)
    ensures Split(CommandLine(executable, arguments)) == [executable] + arguments
       <==> NulFree(executable) && AllNulFree(arguments) && NameSurvives(executable)
  {
    var command := CommandLine(executable, arguments);
    var scan := ScanProgram(CString(command), false);
    hide ScanProgram, SplitArguments, CString, CommandLine;
    if Split(command) == [executable] + arguments {
      CStringIs(command);
      ProgramKeepsNulFree(CString(command), false);
      NameHasNoQuote(CString(command), false);
      SplitsKeepNulFree(scan.rest);
      assert executable == ([executable] + arguments)[0] && arguments == ([executable] + arguments)[1..];
    }
    if NulFree(executable) && AllNulFree(arguments) && '"' !in executable {
      SplitOfCommandLine(executable, arguments);
      WaitingIsTrailing(executable, 0);
      var name := if NeedsQuotes(executable) then executable + Slashes(Waiting(executable, 0)) else executable;
      assert ([name] + arguments)[0] == name && ([executable] + arguments)[0] == executable;
      assert executable + Slashes(0) == executable;
      assert NameSurvives(executable) <==> name == executable;
    }
  }

  /** A name with a blank and a trailing backslash comes back with one backslash too many. */
  lemma TrailingBackslashDoubles()
    ensures Split(CommandLine("a b\\", [])) == ["a b\\\\"]
  {
    var a := "a b\\";
    assert Special(a[1]) && NulFree(a) && '"' !in a;
    SplitOfCommandLine(a, []);
    assert a[1..] == " b\\" && a[2..] == "b\\" && a[3..] == "\\";
    assert Waiting(a, 0) == Waiting(" b\\", 0) == Waiting("b\\", 0) == Waiting("\\", 0) == Waiting("", 1);
    assert a + Slashes(1) == "a b\\\\";
  }
}
