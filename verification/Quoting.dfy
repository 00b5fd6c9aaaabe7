/** packages/core/native/process-job.c, `command_line`: quoting arguments for a
    Windows command line, against the parsing rules of the Microsoft C runtime
    ("Parsing C command-line arguments"). */
module Quoting {
  const BACKSLASH := '\\'
  const QUOTE := '"'

  function Repeat(c: char, n: nat): (s: string)
    ensures |s| == n
  {
    if n == 0 then [] else [c] + Repeat(c, n - 1)
  }

  lemma {:induction false} RepeatAdds(c: char, a: nat, b: nat)
    ensures Repeat(c, a) + Repeat(c, b) == Repeat(c, a + b)
  {
    if a > 0 { RepeatAdds(c, a - 1, b); }
  }

  // ---------------------------------------------------------------------
  // The runtime's parser
  // ---------------------------------------------------------------------

  predicate IsSpace(c: char) {
    c == ' ' || c == '\t'
  }

  function LeadingSlashes(s: string): (n: nat)
    ensures n <= |s|
  {
    if s != [] && s[0] == BACKSLASH then 1 + LeadingSlashes(s[1..]) else 0
  }

  datatype Scan = Scan(arg: string, rest: string, quoted: bool)

  /** One argument: 2n backslashes before a quote are n backslashes and the quote
      delimits, 2n+1 are n backslashes and a literal quote, other backslashes are
      literal; a doubled quote inside quotes is a literal quote. */
  function ScanArgument(s: string, quoted: bool): (r: Scan)
    ensures |r.rest| <= |s| && (s != [] && !IsSpace(s[0]) ==> |r.rest| < |s|)
    decreases |s|
  {
    var n := LeadingSlashes(s);
    var t := s[n..];
    if t != [] && t[0] == QUOTE then
      if n % 2 == 1 then Prepend(Repeat(BACKSLASH, n / 2) + [QUOTE], ScanArgument(t[1..], quoted))
      else if quoted && |t| > 1
          && t[1] == QUOTE then Prepend(Repeat(BACKSLASH, n / 2) + [QUOTE], ScanArgument(t[2..], quoted))
      else Prepend(Repeat(BACKSLASH, n / 2), ScanArgument(t[1..], !quoted))
    else if t == [] || (!quoted && IsSpace(t[0])) then Scan(Repeat(BACKSLASH, n), t, quoted)
    else Prepend(Repeat(BACKSLASH, n) + [t[0]], ScanArgument(t[1..], quoted))
  }

  function Prepend(front: string, r: Scan): Scan {
    r.(arg := front + r.arg)
  }

  function SkipSpaces(s: string): (r: string)
    ensures |r| <= |s| && (r != [] ==> !IsSpace(r[0]))
  {
    if s != [] && IsSpace(s[0]) then SkipSpaces(s[1..]) else s
  }

  function ParseArguments(s: string, quoted: bool): seq<string>
    decreases |s|
  {
    var t := SkipSpaces(s);
    if t == [] then []
    else
      var r := ScanArgument(t, quoted);
      [r.arg] + ParseArguments(r.rest, r.quoted)
  }

  /** The program name knows quotes but no backslashes. */
  function ScanProgram(s: string, quoted: bool): (r: Scan)
    ensures |r.rest| <= |s|
  {
    if s == [] then Scan([], [], quoted)
    else if s[0] == QUOTE then ScanProgram(s[1..], !quoted)
    else if !quoted && IsSpace(s[0]) then Scan([], s[1..], quoted)
    else Prepend([s[0]], ScanProgram(s[1..], quoted))
  }

  function Parse(line: string): seq<string> {
    var r := ScanProgram(line, false);
    [r.arg] + ParseArguments(r.rest, false)
  }

  // ---------------------------------------------------------------------
  // What is written
  // ---------------------------------------------------------------------

  /** The rest of an argument, after `slashes` backslashes that were not written yet. */
  function Escaped(s: string, slashes: nat): string {
    if s == [] then Repeat(BACKSLASH, 2 * slashes)
    else if s[0] == BACKSLASH then Escaped(s[1..], slashes + 1)
    else if s[0] == QUOTE then Repeat(BACKSLASH, 2 * slashes + 1) + ([QUOTE] + Escaped(s[1..], 0))
    else Repeat(BACKSLASH, slashes) + ([s[0]] + Escaped(s[1..], 0))
  }

  function Quoted(arg: string): string {
    [QUOTE] + (Escaped(arg, 0) + [QUOTE])
  }

  function Line(args: seq<string>): string {
    if args == [] then []
    else if |args| == 1 then Quoted(args[0])
    else Line(args[..|args| - 1]) + ([' '] + Quoted(args[|args| - 1]))
  }

  function Size(args: seq<string>): nat {
    if args == [] then 1 else Size(args[..|args| - 1]) + 2 * |args[|args| - 1]| + 4
  }

  lemma {:induction false} EscapedLength(s: string, slashes: nat)
    ensures |Escaped(s, slashes)| <= 2 * |s| + 2 * slashes
  {
    if s != [] {
      if s[0] == BACKSLASH { EscapedLength(s[1..], slashes + 1); } else { EscapedLength(s[1..], 0); }
    }
  }

  lemma {:induction false} LineFits(args: seq<string>)
    ensures |Line(args)| < Size(args)
  {
    if args != [] {
      LineFits(args[..|args| - 1]);
      EscapedLength(args[|args| - 1], 0);
    }
  }

  // ---------------------------------------------------------------------
  // Round trip
  // ---------------------------------------------------------------------

  lemma Reassociate(a: string, c: char, e: string, end: string)
    ensures (a + ([c] + e)) + end == a + ([c] + (e + end))
  {
    assert ([c] + e) + end == [c] + (e + end);
  }

  /** Scanning an escaped argument inside its quotes gives it back, and the unwritten backslashes. */
  lemma {:induction false} ScanEscaped(s: string, slashes: nat, tail: string)
    requires tail == [] || IsSpace(tail[0])
    ensures ScanArgument(Escaped(s, slashes) + ([QUOTE] + tail), true) == Scan(Repeat(BACKSLASH, slashes) + s, tail,
            false)
    decreases |s|
  {
    hide ScanArgument, Repeat;
    var end := [QUOTE] + tail;
    if s == [] {
      ScanClosing(slashes, tail);
    } else if s[0] == BACKSLASH {
      ScanEscaped(s[1..], slashes + 1, tail);
      MoreSlashes(slashes, s);
    } else if s[0] == QUOTE {
      ScanEscaped(s[1..], 0, tail);
      ScanLiteralQuote(slashes, Escaped(s[1..], 0) + end);
      Reassociate(Repeat(BACKSLASH, 2 * slashes + 1), QUOTE, Escaped(s[1..], 0), end);
      FirstApart(slashes, s);
    } else {
      ScanEscaped(s[1..], 0, tail);
      ScanLiteral(slashes, s[0], Escaped(s[1..], 0) + end);
      Reassociate(Repeat(BACKSLASH, slashes), s[0], Escaped(s[1..], 0), end);
      FirstApart(slashes, s);
    }
  }

  lemma MoreSlashes(n: nat, s: string)
    requires s != [] && s[0] == BACKSLASH
    ensures Repeat(BACKSLASH, n + 1) + s[1..] == Repeat(BACKSLASH, n) + s
  {
    RepeatAdds(BACKSLASH, n, 1);
    assert Repeat(BACKSLASH, 1) == [BACKSLASH];
    assert s == [BACKSLASH] + s[1..];
  }

  lemma FirstApart(n: nat, s: string)
    requires s != []
    ensures Repeat(BACKSLASH, n) + [s[0]] + (Repeat(BACKSLASH, 0) + s[1..]) == Repeat(BACKSLASH, n) + s
  {
    assert s == [s[0]] + s[1..];
  }

  lemma ScanLiteral(n: nat, c: char, rest: string)
    requires c != BACKSLASH && c != QUOTE
    ensures ScanArgument(Repeat(BACKSLASH, n) + ([c] + rest), true) == Prepend(Repeat(BACKSLASH, n) + [c],
            ScanArgument(rest, true))
  {
    hide Repeat, LeadingSlashes;
    SlashesThen(n, [c] + rest);
    assert ([c] + rest)[1..] == rest;
  }

  lemma ScanLiteralQuote(n: nat, rest: string)
    ensures ScanArgument(Repeat(BACKSLASH, 2 * n + 1) + ([QUOTE] + rest), true)
            == Prepend(Repeat(BACKSLASH, n) + [QUOTE], ScanArgument(rest, true))
  {
    var m := 2 * n + 1;
    assert m % 2 == 1 && m / 2 == n;
    ScanOddSlashes(m, rest);
  }

  lemma ScanOddSlashes(m: nat, rest: string)
    requires m % 2 == 1
    ensures ScanArgument(Repeat(BACKSLASH, m) + ([QUOTE] + rest), true)
            == Prepend(Repeat(BACKSLASH, m / 2) + [QUOTE], ScanArgument(rest, true))
  {
    hide Repeat, LeadingSlashes;
    SlashesThen(m, [QUOTE] + rest);
    assert ([QUOTE] + rest)[1..] == rest;
  }

  lemma ScanClosing(n: nat, tail: string)
    requires tail == [] || IsSpace(tail[0])
    ensures ScanArgument(Repeat(BACKSLASH, 2 * n) + ([QUOTE] + tail), true)
            == Scan(Repeat(BACKSLASH, n) + [], tail, false)
  {
    var m := 2 * n;
    assert m % 2 == 0 && m / 2 == n;
    ScanEvenSlashes(m, tail);
  }

  lemma ScanEvenSlashes(m: nat, tail: string)
    requires m % 2 == 0 && (tail == [] || IsSpace(tail[0]))
    ensures ScanArgument(Repeat(BACKSLASH, m) + ([QUOTE] + tail), true)
            == Scan(Repeat(BACKSLASH, m / 2) + [], tail, false)
  {
    hide Repeat, LeadingSlashes;
    SlashesThen(m, [QUOTE] + tail);
    assert ([QUOTE] + tail)[1..] == tail;
    ScanStops(tail);
  }

  lemma ScanOpening(rest: string)
    ensures ScanArgument([QUOTE] + rest, false) == ScanArgument(rest, true)
  {
    var s := [QUOTE] + rest;
    assert LeadingSlashes(s) == 0 && s[0..] == s && s[1..] == rest;
    assert Repeat(BACKSLASH, 0) == [];
  }

  lemma ScanStops(tail: string)
    requires tail == [] || IsSpace(tail[0])
    ensures ScanArgument(tail, false) == Scan([], tail, false)
  {
    assert LeadingSlashes(tail) == 0;
  }

  lemma {:induction false} SlashesThen(n: nat, t: string)
    requires t != [] && t[0] != BACKSLASH
    ensures LeadingSlashes(Repeat(BACKSLASH, n) + t) == n && (Repeat(BACKSLASH, n) + t)[n..] == t
  {
    if n > 0 {
      SlashesThen(n - 1, t);
      assert (Repeat(BACKSLASH, n) + t)[1..] == Repeat(BACKSLASH, n - 1) + t;
    } else {
      assert Repeat(BACKSLASH, 0) + t == t;
    }
  }

  lemma ScanQuoted(arg: string, tail: string)
    requires tail == [] || IsSpace(tail[0])
    ensures ScanArgument(Quoted(arg) + tail, false) == Scan(arg, tail, false)
  {
    hide ScanArgument, Escaped;
    var e := Escaped(arg, 0);
    assert (e + [QUOTE]) + tail == e + ([QUOTE] + tail);
    assert ([QUOTE] + (e + [QUOTE])) + tail == [QUOTE] + ((e + [QUOTE]) + tail);
    ScanOpening(e + ([QUOTE] + tail));
    ScanEscaped(arg, 0, tail);
    assert Repeat(BACKSLASH, 0) + arg == arg;
  }

  /** The arguments after the program name, each behind its separator. */
  function Rest(args: seq<string>): string {
    if args == [] then [] else ([' '] + Quoted(args[0])) + Rest(args[1..])
  }

  lemma {:induction false} ParseRest(args: seq<string>)
    ensures ParseArguments(Rest(args), false) == args
  {
    if args != [] {
      ParseRest(args[1..]);
      var s, tail := Rest(args), Rest(args[1..]);
      var t := Quoted(args[0]) + tail;
      assert s == [' '] + t && s[1..] == t;
      assert SkipSpaces(t) == t && SkipSpaces(s) == t;
      ScanQuoted(args[0], tail);
      assert args == [args[0]] + args[1..];
    }
  }

  lemma Associate(a: string, b: string, c: string)
    ensures (a + b) + c == a + (b + c)
  {
  }

  lemma {:induction false} LineIsRest(args: seq<string>)
    requires args != []
    ensures Line(args) == Quoted(args[0]) + Rest(args[1..])
  {
    hide Quoted;
    var n := |args| - 1;
    if n == 0 {
      assert Rest(args[1..]) == [];
    } else {
      LineIsRest(args[..n]);
      assert args[..n][1..] + [args[n]] == args[1..];
      RestGrows(args[..n][1..], args[n]);
      Associate(Quoted(args[0]), Rest(args[..n][1..]), [' '] + Quoted(args[n]));
    }
  }

  lemma {:induction false} RestGrows(args: seq<string>, last: string)
    ensures Rest(args + [last]) == Rest(args) + ([' '] + Quoted(last))
  {
    hide Quoted;
    if args == [] {
      assert (args + [last])[1..] == [];
      assert Rest([]) == [];
    } else {
      assert (args + [last])[1..] == args[1..] + [last];
      RestGrows(args[1..], last);
    }
  }

  /** Without quotes and without a final backslash nothing is escaped. */
  lemma {:induction false} PlainIsUnescaped(s: string, slashes: nat)
    requires (forall i | 0 <= i < |s| :: s[i] != QUOTE) && if s == [] then slashes == 0 else s[|s| - 1] != BACKSLASH
    ensures Escaped(s, slashes) == Repeat(BACKSLASH, slashes) + s
  {
    if s == [] {
      assert Repeat(BACKSLASH, 0) == [];
    } else if s[0] == BACKSLASH {
      PlainIsUnescaped(s[1..], slashes + 1);
      MoreSlashes(slashes, s);
    } else {
      PlainIsUnescaped(s[1..], 0);
      FirstApart(slashes, s);
    }
  }

  lemma {:induction false} ScanProgramInQuotes(s: string, tail: string)
    requires QUOTE !in s && (tail == [] || tail[0] == ' ')
    ensures ScanProgram(s + [QUOTE] + tail, true) == Scan(s, if tail == [] then [] else tail[1..], false)
  {
    var t := s + [QUOTE] + tail;
    if s == [] {
      assert t[1..] == tail;
    } else {
      assert t[1..] == s[1..] + [QUOTE] + tail;
      ScanProgramInQuotes(s[1..], tail);
    }
  }

  /** What the helper accepts as a program: it ends in `.exe`, and a path has no quote. */
  predicate IsProgram(path: string) {
    |path| >= 5 && path[|path| - 1] != BACKSLASH && QUOTE !in path
  }

  /** The runtime parses the command line back into exactly the arguments. */
  lemma ParseLine(args: seq<string>)
    requires args != [] && IsProgram(args[0])
    ensures Parse(Line(args)) == args
  {
    hide ScanProgram, ParseArguments, Line, Rest, Escaped;
    var path, tail, line := args[0], Rest(args[1..]), Line(args);
    LineIsRest(args);
    PlainIsUnescaped(path, 0);
    assert Repeat(BACKSLASH, 0) + path == path;
    assert line == [QUOTE] + path + [QUOTE] + tail;
    TailStarts(args[1..]);
    ScanProgramQuoted(path, tail);
    ParseRest(args[1..]);
    ParseAfterSeparator(tail);
    assert args == [path] + args[1..];
  }

  lemma TailStarts(args: seq<string>)
    ensures Rest(args) == [] || Rest(args)[0] == ' '
  {
  }

  lemma ScanProgramQuoted(path: string, tail: string)
    requires QUOTE !in path && (tail == [] || tail[0] == ' ')
    ensures ScanProgram([QUOTE] + path + [QUOTE] + tail, false) == Scan(path, if tail == [] then [] else tail[1..],
            false)
  {
    var s := [QUOTE] + path + [QUOTE] + tail;
    assert s[1..] == path + [QUOTE] + tail;
    ScanProgramInQuotes(path, tail);
  }

  /** The separator behind the program name is skipped either way. */
  lemma ParseAfterSeparator(tail: string)
    requires tail == [] || tail[0] == ' '
    ensures ParseArguments(if tail == [] then [] else tail[1..], false) == ParseArguments(tail, false)
  {
    if tail != [] { assert SkipSpaces(tail) == SkipSpaces(tail[1..]); }
  }

  /** A program path with a final backslash does not survive: the runtime does not
      halve backslashes in the program name. The path comes back exactly if it has
      neither a quote nor a final backslash. */
  lemma ProgramRoundTripIff(path: string)
    ensures Parse(Line([path]))[0] == path
            <==> (forall i | 0 <= i < |path| :: path[i] != QUOTE) && (path == [] || path[|path| - 1] != BACKSLASH)
  {
    var inner, arg := Escaped(path, 0), Parse(Line([path]))[0];
    assert Line([path])[1..] == inner + [QUOTE] + [];
    ProgramHasNoQuotes(inner + [QUOTE] + [], true);
    assert arg == ScanProgram(inner + [QUOTE] + [], true).arg;
    if forall i | 0 <= i < |path| :: path[i] != QUOTE {
      if path == [] || path[|path| - 1] != BACKSLASH {
        PlainIsUnescaped(path, 0);
        assert Repeat(BACKSLASH, 0) + path == path;
      } else {
        FinalSlashesGrow(path, 0);
      }
      UnquotedStaysUnquoted(path, 0);
      ScanProgramInQuotes(inner, []);
    } else {
      var i :| 0 <= i < |path| && path[i] == QUOTE;
      assert QUOTE in path && QUOTE !in arg;
    }
  }

  lemma {:induction false} ProgramHasNoQuotes(s: string, quoted: bool)
    ensures forall i | 0 <= i < |ScanProgram(s, quoted).arg| :: ScanProgram(s, quoted).arg[i] != QUOTE
  {
    if s != [] {
      ProgramHasNoQuotes(s[1..], quoted);
      ProgramHasNoQuotes(s[1..], !quoted);
    }
  }

  lemma {:induction false} UnquotedStaysUnquoted(s: string, slashes: nat)
    requires forall i | 0 <= i < |s| :: s[i] != QUOTE
    ensures QUOTE !in Escaped(s, slashes)
  {
    SlashesAreNoQuotes(2 * slashes);
    SlashesAreNoQuotes(slashes);
    if s != [] {
      UnquotedStaysUnquoted(s[1..], slashes + 1);
      UnquotedStaysUnquoted(s[1..], 0);
    }
  }

  lemma {:induction false} SlashesAreNoQuotes(n: nat)
    ensures QUOTE !in Repeat(BACKSLASH, n)
  {
    if n > 0 { SlashesAreNoQuotes(n - 1); }
  }

  /** Backslashes before the closing quote are doubled. */
  lemma {:induction false} FinalSlashesGrow(s: string, slashes: nat)
    requires if s == [] then slashes > 0 else s[|s| - 1] == BACKSLASH
    requires forall i | 0 <= i < |s| :: s[i] != QUOTE
    ensures |Escaped(s, slashes)| > |s| + slashes
  {
    if s != [] {
      if s[0] == BACKSLASH { FinalSlashesGrow(s[1..], slashes + 1); } else { FinalSlashesGrow(s[1..], 0); }
    }
  }

  // ---------------------------------------------------------------------
  // The buffer
  // ---------------------------------------------------------------------

  const MAX_COMMAND_LINE := 32767

  function Lower(s: string): string {
    seq(|s|, i requires 0 <= i < |s| => if 'A' <= s[i] <= 'Z' then s[i] - 'A' + 'a' else s[i])
  }

  /** The part after the last backslash. */
  function BaseName(path: string): string {
    if path == [] || path[|path| - 1] == BACKSLASH then []
    else BaseName(path[..|path| - 1]) + [path[|path| - 1]]
  }

  /** `cmd.exe /d /s /c <command>`: the shell gets the command as it is. */
  predicate IsShell(args: seq<string>) {
    |args| == 5 && Lower(BaseName(args[0])) == "cmd.exe"
    && Lower(args[1]) == "/d" && Lower(args[2]) == "/s" && Lower(args[3]) == "/c"
  }

  /** Program and command in plain quotes; with `/s` the shell takes the outer pair off
      the command again and looks at nothing else. */
  function ShellLine(program: string, command: string): string {
    [QUOTE] + program + "\" /d /s /c \"" + command + [QUOTE]
  }

  function WholeLine(args: seq<string>): string {
    if IsShell(args) then ShellLine(args[0], args[4]) else Line(args)
  }

  lemma ShellLineFits(args: seq<string>)
    requires IsShell(args)
    ensures |ShellLine(args[0], args[4])| < Size(args)
  {
    SizeStep(args, 0);
    SizeStep(args, 1);
    SizeStep(args, 2);
    SizeStep(args, 3);
    SizeStep(args, 4);
    assert args[..5] == args;
    hide Size;
  }

  lemma SizeStep(args: seq<string>, i: nat)
    requires i < |args|
    ensures Size(args[..i + 1]) == Size(args[..i]) + 2 * |args[i]| + 4
  {
    assert args[..i + 1][..i] == args[..i];
  }

  /** `command_line`. Every write is inside the buffer. */
  method CommandLine(args: seq<string>) returns (line: array?<char>, at: nat)
    requires args != []
    ensures line == null <==> Size(args) > MAX_COMMAND_LINE
    ensures line != null ==>
              && fresh(line) && line.Length == Size(args) && at < line.Length
              && line[..at] == WholeLine(args) && forall i | at <= i < line.Length :: line[i] == '\0'
  {
    var size := 1;
    for i := 0 to |args|
      invariant size == Size(args[..i])
    {
      assert args[..i + 1][..i] == args[..i];
      size := size + |args[i]| * 2 + 4;
    }
    assert args[..|args|] == args;
    if size > MAX_COMMAND_LINE { return null, 0; }
    var buffer := new char[size](_ => '\0');
    line, at := buffer, 0;
    if IsShell(args) {
      ShellLineFits(args);
      at := PutText(buffer, ShellLine(args[0], args[4]));
      return;
    }
    LineFits(args);
    for i := 0 to |args|
      invariant buffer.Length == Size(args) && at <= buffer.Length && buffer[..at] == Line(args[..i])
      invariant forall j | at <= j < buffer.Length :: buffer[j] == '\0'
    {
      LinePrefix(args, i);
      if i != 0 { at := Put(buffer, at, ' '); }
      at := WriteQuoted(buffer, at, args[i]);
      assert args[..i + 1][..i] == args[..i];
    }
  }

  method Put(buffer: array<char>, at: nat, c: char) returns (next: nat)
    requires at < buffer.Length && forall j | at <= j < buffer.Length :: buffer[j] == '\0'
    modifies buffer
    ensures next == at + 1 && buffer[..next] == old(buffer[..at]) + [c]
    ensures forall j | next <= j < buffer.Length :: buffer[j] == '\0'
  {
    buffer[at] := c;
    next := at + 1;
  }

  /** The formatted print of the shell's line into an empty buffer. */
  method PutText(buffer: array<char>, text: string) returns (next: nat)
    requires |text| < buffer.Length && forall j | 0 <= j < buffer.Length :: buffer[j] == '\0'
    modifies buffer
    ensures next == |text| && buffer[..next] == text
    ensures forall j | next <= j < buffer.Length :: buffer[j] == '\0'
  {
    next := 0;
    for i := 0 to |text|
      invariant next == i && buffer[..next] == text[..i]
      invariant forall j | next <= j < buffer.Length :: buffer[j] == '\0'
    {
      next := Put(buffer, next, text[i]);
    }
  }

  method PutSlashes(buffer: array<char>, at: nat, n: nat) returns (next: nat)
    requires at + n <= buffer.Length && forall j | at <= j < buffer.Length :: buffer[j] == '\0'
    modifies buffer
    ensures next == at + n && buffer[..next] == old(buffer[..at]) + Repeat(BACKSLASH, n)
    ensures forall j | next <= j < buffer.Length :: buffer[j] == '\0'
  {
    next := at;
    for i := 0 to n
      invariant next == at + i && buffer[..next] == old(buffer[..at]) + Repeat(BACKSLASH, i)
      invariant forall j | next <= j < buffer.Length :: buffer[j] == '\0'
    {
      RepeatAdds(BACKSLASH, i, 1);
      next := Put(buffer, next, BACKSLASH);
    }
  }

  /** One argument in quotes, scanning it once with a count of pending backslashes. */
  method WriteQuoted(buffer: array<char>, start: nat, arg: string) returns (at: nat)
    requires start + |Quoted(arg)| <= buffer.Length && forall j | start <= j < buffer.Length :: buffer[j] == '\0'
    modifies buffer
    ensures at == start + |Quoted(arg)| && buffer[..at] == old(buffer[..start]) + Quoted(arg)
    ensures forall j | at <= j < buffer.Length :: buffer[j] == '\0'
  {
    ghost var before := buffer[..start];
    at := Put(buffer, start, QUOTE);
    var slashes, p := 0, 0;
    hide Escaped, Repeat;
    ghost var all := before + [QUOTE] + Escaped(arg, 0);
    assert arg[0..] == arg;
    while p < |arg|
      invariant p <= |arg| && at <= buffer.Length && |all| + 1 == start + |Quoted(arg)|
      invariant buffer[..at] + Escaped(arg[p..], slashes) == all
      invariant forall j | at <= j < buffer.Length :: buffer[j] == '\0'
    {
      var c := arg[p];
      EscapeStep(arg, p, slashes);
      ghost var written, rest := buffer[..at], Escaped(arg[p + 1..], 0);
      if c == BACKSLASH {
        slashes, p := slashes + 1, p + 1;
        continue;
      }
      if c == QUOTE {
        assert |all| == |written| + 2 * slashes + 2 + |rest|;
        at := PutSlashes(buffer, at, slashes * 2);
        at := Put(buffer, at, BACKSLASH);
      } else {
        assert |all| == |written| + slashes + 1 + |rest|;
        at := PutSlashes(buffer, at, slashes);
      }
      at := Put(buffer, at, c);
      if c == QUOTE { QuoteWritten(written, slashes, rest); } else { CharWritten(written, slashes, c, rest); }
      slashes, p := 0, p + 1;
    }
    EscapeEnds(arg, p, slashes);
    at := PutSlashes(buffer, at, slashes * 2);
    at := Put(buffer, at, QUOTE);
    assert all + [QUOTE] == before + Quoted(arg);
  }

  lemma QuoteWritten(written: string, n: nat, rest: string)
    ensures (written + Repeat(BACKSLASH, n * 2) + [BACKSLASH] + [QUOTE]) + rest
            == written + (Repeat(BACKSLASH, 2 * n + 1) + ([QUOTE] + rest))
  {
    RepeatAdds(BACKSLASH, 2 * n, 1);
    assert Repeat(BACKSLASH, 1) == [BACKSLASH];
    hide Repeat;
    assert Repeat(BACKSLASH, 2 * n) + [BACKSLASH] == Repeat(BACKSLASH, 2 * n + 1);
  }

  lemma CharWritten(written: string, n: nat, c: char, rest: string)
    ensures (written + Repeat(BACKSLASH, n) + [c]) + rest == written + (Repeat(BACKSLASH, n) + ([c] + rest))
  {
  }

  lemma EscapeStep(arg: string, p: nat, slashes: nat)
    requires p < |arg|
    ensures Escaped(arg[p..], slashes) ==
            if arg[p] == BACKSLASH then Escaped(arg[p + 1..], slashes + 1)
            else if arg[p] == QUOTE then Repeat(BACKSLASH, 2 * slashes + 1) + ([QUOTE] + Escaped(arg[p + 1..], 0))
            else Repeat(BACKSLASH, slashes) + ([arg[p]] + Escaped(arg[p + 1..], 0))
  {
    assert arg[p..][1..] == arg[p + 1..];
  }

  lemma EscapeEnds(arg: string, p: nat, slashes: nat)
    requires p == |arg|
    ensures Escaped(arg[p..], slashes) == Repeat(BACKSLASH, 2 * slashes)
  {
    assert arg[p..] == [];
  }

  lemma {:induction false} LinePrefix(args: seq<string>, i: nat)
    requires i < |args|
    ensures |Line(args[..i + 1])| <= |Line(args)|
    ensures Line(args[..i + 1]) == Line(args[..i]) + (if i == 0 then [] else [' ']) + Quoted(args[i])
    decreases |args|
  {
    assert args[..i + 1][..i] == args[..i];
    var n := |args| - 1;
    if i < n {
      LinePrefix(args[..n], i);
      assert args[..n][..i + 1] == args[..i + 1];
      assert args[..n][..i] == args[..i];
    } else {
      assert args[..i + 1] == args;
    }
  }
}
