/**
 * Printing and reading Windows command lines.
 *
 * The printers are `Program.QuoteArgument`, `Program.BuildCommandLine` and
 * `ProbeSuite.AppendArgument` of TrustLaunchProbe.cs and `Program.Quote` of
 * DefenderControl.cs. The reader is the C runtime's, as Microsoft documents it in
 * "Parsing C command-line arguments"; it is the independent meaning the printers
 * are proved against.
 */
module CommandLine {
  import opened Common

  // ----- the reader -----

  predicate IsDelimiter(c: char) { c == ' ' || c == '\t' }

  datatype Scanned = Scanned(text: string, rest: string)

  function Prepend(prefix: string, s: Scanned): Scanned { Scanned(prefix + s.text, s.rest) }

  /**
   * Reads one argument other than the program name. `pending` counts the backslashes
   * just seen, whose meaning depends on whether a quote follows: 2n and a quote give n
   * backslashes and a delimiter, 2n+1 give n backslashes and a literal quote, anything
   * else leaves them as they are. Inside quotes a doubled quote is one literal quote.
   */
  function Scan(s: string, quoted: bool, pending: nat): (r: Scanned)
    ensures |r.rest| <= |s|
    ensures s != "" && (quoted || !IsDelimiter(s[0])) ==> |r.rest| < |s|
    decreases |s|
  {
    if s == "" then Scanned(Repeat('\\', pending), "")
    else if s[0] == '\\' then Scan(s[1..], quoted, pending + 1)
    else if s[0] == '"' then
      if pending % 2 == 1 then Prepend(Repeat('\\', pending / 2) + "\"", Scan(s[1..], quoted, 0))
      else if quoted && |s| > 1 && s[1] == '"' then
        Prepend(Repeat('\\', pending / 2) + "\"", Scan(s[2..], true, 0))
      else Prepend(Repeat('\\', pending / 2), Scan(s[1..], !quoted, 0))
    else if !quoted && IsDelimiter(s[0]) then Scanned(Repeat('\\', pending), s)
    else Prepend(Repeat('\\', pending) + [s[0]], Scan(s[1..], quoted, 0))
  }

  /** The arguments after the program name. */
  function ScanArguments(s: string): seq<string>
    decreases |s|
  {
    if s == "" then []
    else if IsDelimiter(s[0]) then ScanArguments(s[1..])
    else
      var a := Scan(s, false, 0);
      [a.text] + ScanArguments(a.rest)
  }

  /** The program name: quotes only group and vanish, and backslashes escape nothing. */
  function ScanProgram(s: string, quoted: bool): (r: Scanned)
    decreases |s|
  {
    if s == "" then Scanned("", "")
    else if s[0] == '"' then ScanProgram(s[1..], !quoted)
    else if !quoted && IsDelimiter(s[0]) then Scanned("", s)
    else Prepend([s[0]], ScanProgram(s[1..], quoted))
  }

  function ParseCommandLine(line: string): seq<string> {
    var program := ScanProgram(line, false);
    [program.text] + ScanArguments(program.rest)
  }

  // ----- what the printers write -----

  /** The body of a quoted argument, `pending` backslashes being held back. */
  function Escaped(s: string, pending: nat): string {
    if s == "" then Repeat('\\', 2 * pending)
    else if s[0] == '\\' then Escaped(s[1..], pending + 1)
    else if s[0] == '"' then Repeat('\\', 2 * pending + 1) + "\"" + Escaped(s[1..], 0)
    else Repeat('\\', pending) + [s[0]] + Escaped(s[1..], 0)
  }

  function QuotedForm(value: string): string { "\"" + Escaped(value, 0) + "\"" }

  predicate NeedsQuotes(value: string) {
    value == "" || ' ' in value || '\t' in value || '"' in value
  }

  function Printed(value: string): string {
    if NeedsQuotes(value) then QuotedForm(value) else value
  }

  function PrintedAfter(line: string, arguments: seq<string>): string
    decreases |arguments|
  {
    if arguments == [] then line else PrintedAfter(line + " " + Printed(arguments[0]), arguments[1..])
  }

  const MAX_LINE := 32767

  datatype Code = NulInArgument | CommandLineTooLong

  /** `Program.QuoteArgument`. */
  method QuoteArgument(value: string) returns (r: Result<string, Code>)
    ensures r == if NUL in value then Err(NulInArgument) else Ok(Printed(value))
  {
    if NUL in value {
      return Err(NulInArgument);
    }
    if value != "" && !(' ' in value || '\t' in value || '"' in value) {
      return Ok(value);
    }
    var builder := "\"";
    var slashes := 0;
    for index := 0 to |value|
      invariant 0 <= slashes
      invariant builder + Escaped(value[index..], slashes) == "\"" + Escaped(value, 0)
    {
      var character := value[index];
      assert value[index..][1..] == value[index + 1..];
      if character == '\\' {
        slashes := slashes + 1;
        continue;
      }
      if character == '"' {
        builder := builder + Repeat('\\', slashes * 2 + 1);
        builder := builder + "\"";
        slashes := 0;
        continue;
      }
      builder := builder + Repeat('\\', slashes);
      slashes := 0;
      builder := builder + [character];
    }
    builder := builder + Repeat('\\', slashes * 2);
    builder := builder + "\"";
    return Ok(builder);
  }

  /** `DefenderControl.Program.Quote`: always quotes, and folds the two flushes into one. */
  method Quote(value: string) returns (r: string)
    ensures r == QuotedForm(value)
  {
    var result := "\"";
    var slashes := 0;
    for index := 0 to |value|
      invariant 0 <= slashes
      invariant result + Escaped(value[index..], slashes) == "\"" + Escaped(value, 0)
    {
      var c := value[index];
      assert value[index..][1..] == value[index + 1..];
      if c == '\\' {
        slashes := slashes + 1;
        continue;
      }
      result := result + Repeat('\\', if c == '"' then slashes * 2 + 1 else slashes);
      slashes := 0;
      result := result + [c];
    }
    result := result + Repeat('\\', slashes * 2);
    return result + "\"";
  }

  lemma {:induction false} RepeatLength(n: nat)
    ensures |Repeat('\\', n)| == n
  {
    if n > 0 {
      RepeatLength(n - 1);
    }
  }

  lemma {:induction false} EscapingAdds(s: string, pending: nat)
    ensures |Escaped(s, pending)| >= |s| + pending
    decreases |s|
  {
    RepeatLength(pending);
    RepeatLength(2 * pending);
    RepeatLength(2 * pending + 1);
    if s != "" {
      EscapingAdds(s[1..], if s[0] == '\\' then pending + 1 else 0);
    }
  }

  /** A value is left as it is if and only if it is not empty and has no blank and no quote; a quoted one is at least two longer. */
  lemma PrintedAsItself(value: string)
    ensures Printed(value) == value <==> value != "" && ' ' !in value && '\t' !in value && '"' !in value
    ensures Printed(value) != value ==> |Printed(value)| >= |value| + 2
  {
    EscapingAdds(value, 0);
  }

  predicate AnyNul(values: seq<string>) { exists i | 0 <= i < |values| :: NUL in values[i] }

  /** `Program.BuildCommandLine`. */
  method BuildCommandLine(application: string, arguments: seq<string>) returns (r: Result<string, Code>)
    ensures r == if NUL in application || AnyNul(arguments) then Err(NulInArgument)
                 else if |PrintedAfter(Printed(application), arguments)| >= MAX_LINE then Err(CommandLineTooLong)
                 else Ok(PrintedAfter(Printed(application), arguments))
  {
    var first := QuoteArgument(application);
    if first.Err? {
      return first;
    }
    var builder := first.value;
    for index := 0 to |arguments|
      invariant !AnyNul(arguments[..index])
      invariant PrintedAfter(builder, arguments[index..]) == PrintedAfter(Printed(application), arguments)
    {
      builder := builder + " ";
      var quoted := QuoteArgument(arguments[index]);
      if quoted.Err? {
        return quoted;
      }
      assert arguments[index..][1..] == arguments[index + 1..];
      builder := builder + quoted.value;
    }
    if |builder| >= MAX_LINE {
      return Err(CommandLineTooLong);
    }
    return Ok(builder);
  }

  // ----- one argument survives -----

  /** What may follow a printed argument: the end of the line or a delimiter. */
  predicate Ends(rest: string) { rest == "" || IsDelimiter(rest[0]) }

  lemma {:induction false} ScanBackslashes(n: nat, t: string, quoted: bool, pending: nat)
    ensures Scan(Repeat('\\', n) + t, quoted, pending) == Scan(t, quoted, pending + n)
  {
    if n == 0 {
      assert Repeat('\\', 0) + t == t;
    } else {
      assert Repeat('\\', n) + t == ['\\'] + (Repeat('\\', n - 1) + t);
      assert (Repeat('\\', n) + t)[1..] == Repeat('\\', n - 1) + t;
      ScanBackslashes(n - 1, t, quoted, pending + 1);
    }
  }

  /** One character other than a backslash, met after `n` of them. */
  lemma ScanStep(n: nat, c: char, tail: string, quoted: bool)
    requires c != '\\' && c != '"' && (quoted || !IsDelimiter(c))
    ensures Scan(Repeat('\\', n) + ([c] + tail), quoted, 0)
         == Prepend(Repeat('\\', n) + [c], Scan(tail, quoted, 0))
  {
    ScanBackslashes(n, [c] + tail, quoted, 0);
    assert ([c] + tail)[1..] == tail;
  }

  /** An odd run before a quote is half as many backslashes and the quote itself. */
  lemma ScanLiteralQuote(n: nat, tail: string)
    ensures Scan(Repeat('\\', 2 * n + 1) + (['"'] + tail), true, 0)
         == Prepend(Repeat('\\', n) + "\"", Scan(tail, true, 0))
  {
    ScanBackslashes(2 * n + 1, ['"'] + tail, true, 0);
    assert (['"'] + tail)[1..] == tail;
  }

  /** An even run before the closing quote is half as many backslashes. */
  lemma ScanClosingQuote(n: nat, rest: string)
    requires Ends(rest)
    ensures Scan(Repeat('\\', 2 * n) + (['"'] + rest), true, 0) == Scanned(Repeat('\\', n), rest)
  {
    ScanBackslashes(2 * n, ['"'] + rest, true, 0);
    assert (['"'] + rest)[1..] == rest;
    ScanEnd(rest);
    assert Repeat('\\', n) + "" == Repeat('\\', n);
  }

  /** A held-back backslash is the first of the value it belongs to. */
  lemma HeldBack(pending: nat, value: string)
    requires value != "" && value[0] == '\\'
    ensures Repeat('\\', pending + 1) + value[1..] == Repeat('\\', pending) + value
  {
    RepeatSnoc('\\', pending);
    assert value == ['\\'] + value[1..];
  }

  lemma Released(pending: nat, value: string, rest: string)
    requires value != ""
    ensures Prepend(Repeat('\\', pending) + [value[0]], Scanned(Repeat('\\', 0) + value[1..], rest))
         == Scanned(Repeat('\\', pending) + value, rest)
  {
    assert value == [value[0]] + value[1..];
    assert Repeat('\\', 0) + value[1..] == value[1..];
    assert Repeat('\\', pending) + [value[0]] + value[1..] == Repeat('\\', pending) + value;
  }

  lemma EscapedStep(value: string, pending: nat, rest: string)
    requires value != "" && value[0] != '\\'
    ensures Escaped(value, pending) + "\"" + rest
         == Repeat('\\', if value[0] == '"' then 2 * pending + 1 else pending)
          + ([value[0]] + (Escaped(value[1..], 0) + "\"" + rest))
  {}

  /** The pending-run invariant: what was held back is read back before the value. */
  lemma {:induction false} ScanEscaped(value: string, pending: nat, rest: string)
    requires Ends(rest)
    ensures Scan(Escaped(value, pending) + "\"" + rest, true, 0)
         == Scanned(Repeat('\\', pending) + value, rest)
    decreases |value|
  {
    if value == "" {
      assert Escaped(value, pending) + "\"" + rest == Repeat('\\', 2 * pending) + (['"'] + rest);
      ScanClosingQuote(pending, rest);
      assert Repeat('\\', pending) + value == Repeat('\\', pending);
    } else if value[0] == '\\' {
      ScanEscaped(value[1..], pending + 1, rest);
      HeldBack(pending, value);
    } else {
      ScanEscaped(value[1..], 0, rest);
      EscapedStep(value, pending, rest);
      Released(pending, value, rest);
      var tail := Escaped(value[1..], 0) + "\"" + rest;
      if value[0] == '"' {
        ScanLiteralQuote(pending, tail);
      } else {
        ScanStep(pending, value[0], tail, true);
      }
    }
  }

  lemma ScanEnd(rest: string)
    requires Ends(rest)
    ensures Scan(rest, false, 0) == Scanned("", rest)
  {}

  lemma ScanPlainStep(c: char, tail: string, pending: nat)
    requires !IsDelimiter(c) && c != '"'
    ensures Scan([c] + tail, false, pending)
         == if c == '\\' then Scan(tail, false, pending + 1)
            else Prepend(Repeat('\\', pending) + [c], Scan(tail, false, 0))
  {
    assert ([c] + tail)[1..] == tail;
  }

  lemma {:induction false} ScanPlain(value: string, pending: nat, rest: string)
    requires ' ' !in value && '\t' !in value && '"' !in value && Ends(rest)
    ensures Scan(value + rest, false, pending) == Scanned(Repeat('\\', pending) + value, rest)
    decreases |value|
  {
    if value == "" {
      assert value + rest == rest;
      assert Repeat('\\', pending) + value == Repeat('\\', pending);
    } else {
      assert value + rest == [value[0]] + (value[1..] + rest);
      ScanPlainStep(value[0], value[1..] + rest, pending);
      if value[0] == '\\' {
        ScanPlain(value[1..], pending + 1, rest);
        HeldBack(pending, value);
      } else {
        ScanPlain(value[1..], 0, rest);
        Released(pending, value, rest);
      }
    }
  }

  /** Reading a quoted value gives the value and stops exactly behind it. */
  lemma ScanQuoted(value: string, rest: string)
    requires Ends(rest)
    ensures Scan(QuotedForm(value) + rest, false, 0) == Scanned(value, rest)
  {
    var tail := Escaped(value, 0) + "\"" + rest;
    assert QuotedForm(value) + rest == "\"" + tail;
    assert ("\"" + tail)[1..] == tail;
    ScanEscaped(value, 0, rest);
    assert Repeat('\\', 0) + value == value;
  }

  lemma ScanPrinted(value: string, rest: string)
    requires Ends(rest)
    ensures Scan(Printed(value) + rest, false, 0) == Scanned(value, rest)
  {
    if NeedsQuotes(value) {
      ScanQuoted(value, rest);
    } else {
      ScanPlain(value, 0, rest);
      assert Repeat('\\', 0) + value == value;
    }
  }

  /** The two independent escapers mean the same single argument. */
  lemma PrintersAgree(value: string)
    ensures ScanArguments(QuotedForm(value)) == [value]
    ensures ScanArguments(Printed(value)) == [value]
  {
    ScanQuoted(value, "");
    assert QuotedForm(value) + "" == QuotedForm(value);
    ScanPrinted(value, "");
    assert Printed(value) + "" == Printed(value);
  }

  // ----- whole lines -----

  /** Each argument behind its own blank. */
  function Blanked(arguments: seq<string>): string {
    if arguments == [] then "" else " " + Printed(arguments[0]) + Blanked(arguments[1..])
  }

  lemma {:induction false} PrintedAfterIsAppend(line: string, arguments: seq<string>)
    ensures PrintedAfter(line, arguments) == line + Blanked(arguments)
    decreases |arguments|
  {
    if arguments != [] {
      PrintedAfterIsAppend(line + " " + Printed(arguments[0]), arguments[1..]);
    }
  }

  lemma {:induction false} ScanBlanked(arguments: seq<string>)
    ensures ScanArguments(Blanked(arguments)) == arguments
    decreases |arguments|
  {
    if arguments != [] {
      var rest := Blanked(arguments[1..]);
      var line := Printed(arguments[0]) + rest;
      assert Blanked(arguments) == " " + line;
      assert (" " + line)[1..] == line;
      ScanPrinted(arguments[0], rest);
      ScanBlanked(arguments[1..]);
      assert line != "" && !IsDelimiter(line[0]);
    }
  }

  // ----- the program name -----

  /** The names that the reader's different rules for the program name give back. */
  predicate ProgramSurvives(application: string) {
    '"' !in application && (NeedsQuotes(application) ==> !EndsWith(application, "\\"))
  }

  function TrailingSlashes(s: string): nat {
    if s != "" && s[|s| - 1] == '\\' then 1 + TrailingSlashes(s[..|s| - 1]) else 0
  }

  /** Without a quote the quoted form is the value with its final backslash run doubled. */
  lemma {:induction false} EscapedWithoutQuote(value: string, pending: nat)
    requires '"' !in value
    ensures Escaped(value, pending)
         == Repeat('\\', pending) + value + Repeat('\\', TrailingSlashes(Repeat('\\', pending) + value))
    decreases |value|
  {
    var whole := Repeat('\\', pending) + value;
    if value == "" {
      AllSlashes(pending);
      RepeatAdd('\\', pending, pending);
      assert whole == Repeat('\\', pending);
    } else if value[0] == '\\' {
      EscapedWithoutQuote(value[1..], pending + 1);
      RepeatSnoc('\\', pending);
      assert Repeat('\\', pending + 1) + value[1..] == whole;
    } else {
      EscapedWithoutQuote(value[1..], 0);
      EscapedLetter(value, pending);
    }
  }

  lemma EscapedLetter(value: string, pending: nat)
    requires value != "" && value[0] != '"' && value[0] != '\\'
    requires Escaped(value[1..], 0)
          == Repeat('\\', 0) + value[1..] + Repeat('\\', TrailingSlashes(Repeat('\\', 0) + value[1..]))
    ensures Escaped(value, pending)
         == Repeat('\\', pending) + value + Repeat('\\', TrailingSlashes(Repeat('\\', pending) + value))
  {
    var letter, tail, slashes := [value[0]], value[1..], Repeat('\\', pending);
    assert value == letter + tail && Repeat('\\', 0) + tail == tail;
    TrailingAfter(slashes + letter, tail);
    Reassociate(slashes, letter, tail, Repeat('\\', TrailingSlashes(tail)));
  }

  lemma Reassociate(a: string, b: string, c: string, d: string)
    ensures a + b + c == a + (b + c)
    ensures a + b + (c + d) == a + (b + c) + d
  {}

  lemma {:induction false} AllSlashes(n: nat)
    ensures TrailingSlashes(Repeat('\\', n)) == n
  {
    if n > 0 {
      RepeatSnoc('\\', n - 1);
      RepeatAdd('\\', n - 1, 0);
      assert Repeat('\\', n)[..|Repeat('\\', n)| - 1] == Repeat('\\', n - 1);
      AllSlashes(n - 1);
    }
  }

  lemma {:induction false} TrailingAfter(before: string, s: string)
    requires before != "" && before[|before| - 1] != '\\'
    ensures TrailingSlashes(before + s) == TrailingSlashes(s)
    decreases |s|
  {
    if s == "" {
      assert before + s == before;
    } else {
      assert (before + s)[..|before + s| - 1] == before + s[..|s| - 1];
      TrailingAfter(before, s[..|s| - 1]);
    }
  }

  lemma {:induction false} ScanProgramText(s: string, quoted: bool, rest: string)
    requires '"' !in s
    requires quoted || (' ' !in s && '\t' !in s)
    ensures ScanProgram(s + rest, quoted) == Prepend(s, ScanProgram(rest, quoted))
    decreases |s|
  {
    if s == "" {
      assert s + rest == rest;
      assert "" + ScanProgram(rest, quoted).text == ScanProgram(rest, quoted).text;
    } else {
      assert (s + rest)[1..] == s[1..] + rest;
      ScanProgramText(s[1..], quoted, rest);
      assert [s[0]] + (s[1..] + ScanProgram(rest, quoted).text) == s + ScanProgram(rest, quoted).text;
    }
  }

  lemma {:induction false} NoSlashes(n: nat)
    ensures '"' !in Repeat('\\', n) && |Repeat('\\', n)| == n
  {
    if n > 0 { NoSlashes(n - 1); }
  }

  /** The reader's view of a printed program name that holds no quote. */
  function ProgramView(application: string): string {
    if NeedsQuotes(application) then application + Repeat('\\', TrailingSlashes(application)) else application
  }

  lemma ScanProgramQuoted(inner: string, rest: string)
    requires '"' !in inner && Ends(rest)
    ensures ScanProgram("\"" + inner + "\"" + rest, false) == Scanned(inner, rest)
  {
    var closing := "\"" + rest;
    assert "\"" + inner + "\"" + rest == "\"" + (inner + closing);
    assert ("\"" + (inner + closing))[1..] == inner + closing;
    ScanProgramText(inner, true, closing);
    assert closing[1..] == rest;
    assert ScanProgram(rest, false) == Scanned("", rest);
  }

  lemma ScanProgramPrinted(application: string, rest: string)
    requires '"' !in application && Ends(rest)
    ensures ScanProgram(Printed(application) + rest, false) == Scanned(ProgramView(application), rest)
  {
    if NeedsQuotes(application) {
      var n := TrailingSlashes(application);
      EscapedWithoutQuote(application, 0);
      assert Repeat('\\', 0) + application == application;
      NoSlashes(n);
      ScanProgramQuoted(application + Repeat('\\', n), rest);
    } else {
      ScanProgramText(application, false, rest);
      assert ScanProgram(rest, false) == Scanned("", rest);
    }
  }

  lemma {:induction false} ProgramHasNoQuote(s: string, quoted: bool)
    ensures '"' !in ScanProgram(s, quoted).text
    decreases |s|
  {
    if s != "" && (s[0] == '"' || quoted || !IsDelimiter(s[0])) {
      ProgramHasNoQuote(s[1..], if s[0] == '"' then !quoted else quoted);
    }
  }

  // ----- the arguments behind the program name -----

  /** Where the reader of a quoted program name stands behind its closing quote, if it gets that far. */
  datatype Reach = Closed | Open | Broken

  /** Each quote of the name toggles the reader; a blank met outside quotes ends the name too early. */
  function ReachOf(s: string, quoted: bool): Reach {
    if s == "" then (if quoted then Closed else Open)
    else if s[0] == '"' then ReachOf(s[1..], !quoted)
    else if !quoted && IsDelimiter(s[0]) then Broken
    else ReachOf(s[1..], quoted)
  }

  /** The program names behind which every argument list is read as it was printed. */
  predicate ArgumentsSurvive(application: string) {
    NeedsQuotes(application) ==> ReachOf(application, true) == Closed
  }

  /** What is read behind the program name. */
  function ArgumentsRead(application: string, arguments: seq<string>): seq<string> {
    ParseCommandLine(PrintedAfter(Printed(application), arguments))[1..]
  }

  lemma SlashPasses(t: string, quoted: bool)
    ensures ScanProgram(['\\'] + t, quoted).rest == ScanProgram(t, quoted).rest
  {
    assert (['\\'] + t)[1..] == t;
  }

  lemma {:induction false} SlashesPass(n: nat, t: string, quoted: bool)
    ensures ScanProgram(Repeat('\\', n) + t, quoted).rest == ScanProgram(t, quoted).rest
  {
    if n == 0 {
      assert Repeat('\\', 0) + t == t;
    } else {
      var rest := Repeat('\\', n - 1) + t;
      assert Repeat('\\', n) + t == ['\\'] + rest;
      SlashesPass(n - 1, t, quoted);
      SlashPasses(rest, quoted);
    }
  }

  /** Backslashes, a quote, and what follows: the quote toggles the reader. */
  lemma QuoteToggles(n: nat, t: string, quoted: bool)
    ensures ScanProgram(Repeat('\\', n) + ("\"" + t), quoted).rest == ScanProgram(t, !quoted).rest
  {
    SlashesPass(n, "\"" + t, quoted);
    assert ("\"" + t)[1..] == t;
  }

  lemma OtherPasses(n: nat, c: char, t: string, quoted: bool)
    requires c != '"'
    ensures ScanProgram(Repeat('\\', n) + ([c] + t), quoted).rest
         == if !quoted && IsDelimiter(c) then [c] + t else ScanProgram(t, quoted).rest
  {
    SlashesPass(n, [c] + t, quoted);
    assert ([c] + t)[1..] == t;
  }

  /** How the quoted form of a name is left, whatever comes behind it. */
  ghost predicate LeftAs(reach: Reach, rest: string, behind: string) {
    match reach
    case Closed => rest == ScanProgram(behind, false).rest
    case Open => rest == ScanProgram(behind, true).rest
    case Broken => '"' in rest
  }

  lemma {:induction false} ScanProgramEscaped(s: string, pending: nat, quoted: bool, behind: string)
    ensures LeftAs(ReachOf(s, quoted), ScanProgram(Escaped(s, pending) + ("\"" + behind), quoted).rest, behind)
    decreases |s|
  {
    var closing := "\"" + behind;
    if s == "" {
      QuoteToggles(2 * pending, behind, quoted);
    } else if s[0] == '\\' {
      ScanProgramEscaped(s[1..], pending + 1, quoted, behind);
    } else if s[0] == '"' {
      ScanProgramEscaped(s[1..], 0, !quoted, behind);
      EscapedQuote(s, pending, closing);
      QuoteToggles(2 * pending + 1, Escaped(s[1..], 0) + closing, quoted);
    } else {
      ScanProgramEscaped(s[1..], 0, quoted, behind);
      EscapedOther(s, pending, closing);
      OtherPasses(pending, s[0], Escaped(s[1..], 0) + closing, quoted);
    }
  }

  lemma EscapedQuote(s: string, pending: nat, closing: string)
    requires s != "" && s[0] == '"'
    ensures Escaped(s, pending) + closing == Repeat('\\', 2 * pending + 1) + ("\"" + (Escaped(s[1..], 0) + closing))
  {}

  lemma EscapedOther(s: string, pending: nat, closing: string)
    requires s != "" && s[0] != '"' && s[0] != '\\' && closing != "" && closing[0] == '"'
    ensures Escaped(s, pending) + closing == Repeat('\\', pending) + ([s[0]] + (Escaped(s[1..], 0) + closing))
    ensures '"' in [s[0]] + (Escaped(s[1..], 0) + closing)
  {
    FourTogether(Repeat('\\', pending), [s[0]], Escaped(s[1..], 0), closing);
    Behind([s[0]], Escaped(s[1..], 0), closing);
  }

  lemma FourTogether(a: string, b: string, c: string, d: string)
    ensures a + b + c + d == a + (b + (c + d))
  {}

  lemma Behind(a: string, b: string, closing: string)
    requires closing != "" && closing[0] == '"'
    ensures '"' in a + (b + closing)
  {
    assert (a + (b + closing))[|a| + |b|] == '"';
  }

  lemma ScanProgramReach(application: string, behind: string)
    requires NeedsQuotes(application)
    ensures LeftAs(ReachOf(application, true), ScanProgram(Printed(application) + behind, false).rest, behind)
  {
    var tail := Escaped(application, 0) + ("\"" + behind);
    assert Printed(application) + behind == "\"" + tail;
    assert ("\"" + tail)[1..] == tail;
    ScanProgramEscaped(application, 0, true, behind);
  }

  lemma {:induction false} QuoteIsRead(s: string)
    requires '"' in s
    ensures ScanArguments(s) != []
    decreases |s|
  {
    if IsDelimiter(s[0]) {
      QuoteIsRead(s[1..]);
    }
  }

  lemma NoQuoteReaches(application: string, quoted: bool)
    requires '"' !in application && quoted
    ensures ReachOf(application, quoted) == Closed
  {
    if application != "" {
      NoQuoteReaches(application[1..], quoted);
    }
  }

  /** Behind such a name every argument comes back, whatever mix of backslashes, quotes and blanks it holds. */
  lemma ArgumentsComeBack(application: string, arguments: seq<string>)
    requires ArgumentsSurvive(application)
    ensures ArgumentsRead(application, arguments) == arguments
  {
    PrintedAfterIsAppend(Printed(application), arguments);
    ScanBlanked(arguments);
    var behind := Blanked(arguments);
    if NeedsQuotes(application) {
      ScanProgramReach(application, behind);
    } else {
      ScanProgramText(application, false, behind);
    }
    assert ScanProgram(behind, false) == Scanned("", behind);
  }

  /** Behind any other name some argument list does not: none at all, or one plain word. */
  lemma ArgumentsAreLost(application: string)
    requires !ArgumentsSurvive(application)
    ensures ArgumentsRead(application, []) != [] || ArgumentsRead(application, ["x"]) != ["x"]
  {
    PrintedAfterIsAppend(Printed(application), []);
    ScanProgramReach(application, "");
    if ReachOf(application, true) == Broken {
      assert Printed(application) + "" == PrintedAfter(Printed(application), []);
      QuoteIsRead(ScanProgram(Printed(application), false).rest);
    } else {
      PrintedAfterIsAppend(Printed(application), ["x"]);
      OneWordIsSwallowed();
      ScanProgramReach(application, Blanked(["x"]));
    }
  }

  lemma OneWordIsSwallowed()
    ensures ScanProgram(Blanked(["x"]), true).rest == ""
  {
    assert Blanked(["x"]) == " x" by {
      assert ["x"][1..] == [];
      assert Printed("x") == "x";
    }
    assert " x"[1..] == "x" && "x"[1..] == "";
  }

  /**
   * The round trip, exactly: all argument lists come back if and only if the program name
   * is plain or its quotes are balanced with every blank inside them.
   */
  lemma ArgumentsRoundTrip(application: string)
    ensures (forall arguments :: ArgumentsRead(application, arguments) == arguments) <==> ArgumentsSurvive(application)
    ensures '"' !in application ==> ArgumentsSurvive(application)
  {
    if ArgumentsSurvive(application) {
      forall arguments ensures ArgumentsRead(application, arguments) == arguments {
        ArgumentsComeBack(application, arguments);
      }
    } else {
      ArgumentsAreLost(application);
    }
    if '"' !in application {
      NoQuoteReaches(application, true);
    }
  }

  lemma WholeLineComesBack(application: string, arguments: seq<string>)
    requires '"' !in application
    ensures ParseCommandLine(PrintedAfter(Printed(application), arguments)) == [ProgramView(application)] + arguments
  {
    PrintedAfterIsAppend(Printed(application), arguments);
    ScanProgramPrinted(application, Blanked(arguments));
    ScanBlanked(arguments);
  }

  /** The program name comes back exactly when `ProgramSurvives` says so. */
  lemma ProgramRoundTrip(application: string, arguments: seq<string>)
    ensures ParseCommandLine(PrintedAfter(Printed(application), arguments))[0] == application
       <==> ProgramSurvives(application)
    ensures ProgramSurvives(application) ==>
              ParseCommandLine(PrintedAfter(Printed(application), arguments)) == [application] + arguments
  {
    if '"' in application {
      ProgramHasNoQuote(PrintedAfter(Printed(application), arguments), false);
    } else {
      WholeLineComesBack(application, arguments);
      NoSlashes(TrailingSlashes(application));
      assert EndsWith(application, "\\") <==> TrailingSlashes(application) > 0;
      assert Repeat('\\', 0) == "" && application + "" == application;
    }
  }

  // ----- the one command line of DefenderControl -----

  const BACKEND_WORDS := ["--config", "secapp-empty.config.yaml", "--nocolor", "query", "--format", "jsonl",
                          "--timeout", "15"]

  predicate Plain(word: string) { word != "" && ' ' !in word && '\t' !in word && '"' !in word }

  /** Words written bare, each behind a blank, and then `last`. */
  function Bare(words: seq<string>, last: string): string {
    if words == [] then last else " " + words[0] + Bare(words[1..], last)
  }

  /** `DefenderControl.Collect` writes the fixed words bare and quotes the query. */
  function BackendCommand(query: string): string {
    "velociraptor" + Bare(BACKEND_WORDS, " " + QuotedForm(query))
  }

  lemma ScanWord(word: string, rest: string)
    requires Plain(word) && rest != "" && rest[0] == ' '
    ensures ScanArguments(" " + word + rest) == [word] + ScanArguments(rest)
  {
    assert (" " + word + rest)[1..] == word + rest;
    ScanPlain(word, 0, rest);
    assert Repeat('\\', 0) + word == word;
    assert !IsDelimiter((word + rest)[0]);
  }

  lemma BareStarts(words: seq<string>, last: string)
    requires last != "" && last[0] == ' '
    ensures Bare(words, last) != "" && Bare(words, last)[0] == ' '
  {}

  lemma {:induction false} ScanBare(words: seq<string>, last: string)
    requires forall i | 0 <= i < |words| :: Plain(words[i])
    requires last != "" && last[0] == ' '
    ensures ScanArguments(Bare(words, last)) == words + ScanArguments(last)
    decreases |words|
  {
    if words == [] {
      assert words + ScanArguments(last) == ScanArguments(last);
    } else {
      var word, rest := words[0], Bare(words[1..], last);
      ScanBare(words[1..], last);
      BareStarts(words[1..], last);
      ScanWord(word, rest);
      assert [word] + (words[1..] + ScanArguments(last)) == words + ScanArguments(last);
    }
  }

  lemma ScanBareLine(program: string, words: seq<string>, query: string)
    requires Plain(program)
    requires forall i | 0 <= i < |words| :: Plain(words[i])
    ensures ParseCommandLine(program + Bare(words, " " + QuotedForm(query))) == [program] + (words + [query])
  {
    var last := " " + QuotedForm(query);
    assert last[1..] == QuotedForm(query);
    PrintersAgree(query);
    ScanBare(words, last);
    BareStarts(words, last);
    var rest := Bare(words, last);
    ScanProgramText(program, false, rest);
    assert ScanProgram(rest, false) == Scanned("", rest);
    assert program + "" == program;
  }

  lemma ConfigWordsArePlain()
    ensures Plain("velociraptor") && forall i | 0 <= i < 2 :: Plain(BACKEND_WORDS[i])
  {}

  lemma QueryWordsArePlain()
    ensures forall i | 2 <= i < 8 :: Plain(BACKEND_WORDS[i])
  {}

  /** Whatever the query, the backend receives the fixed words and then exactly the query. */
  lemma BackendCommandParses(query: string)
    ensures ParseCommandLine(BackendCommand(query)) == ["velociraptor"] + (BACKEND_WORDS + [query])
  {
    ConfigWordsArePlain();
    QueryWordsArePlain();
    ScanBareLine("velociraptor", BACKEND_WORDS, query);
  }
}
