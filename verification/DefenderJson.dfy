/**
 * The result text read as what it claims to be: one flat JSON object (RFC 8259) of twelve
 * members, whose strings need no escapes.
 */
module DefenderJson {
  import opened Common
  import opened Base64
  import opened DefenderRecord

  /** `value` is the text of the value, with the quotes of a string. */
  datatype Member = Member(name: string, value: string)

  function Quoted(t: string): string { "\"" + t + "\"" }

  // ----- the reader -----

  /** How long the value at the start of `s` is: a string to its closing quote, anything else up to what ends a member. */
  function ValueLength(s: string): (n: nat)
    ensures n <= |s|
  {
    if s != "" && s[0] == '"' then
      var close := Find(s[1..], '"');
      if close == |s| - 1 then |s| else close + 2
    else
      var comma, brace := Find(s, ','), Find(s, '}');
      if comma < brace then comma else brace
  }

  /** The members from here to the brace and the newline that end the text. */
  function ReadMembers(s: string): Option<seq<Member>>
    decreases |s|
  {
    if s == "" || s[0] != '"' then None
    else
      var close := Find(s[1..], '"');
      if close + 2 >= |s| || s[close + 2] != ':' then None
      else
        var name, after := s[1..close + 1], s[close + 3..];
        var n := ValueLength(after);
        var member, rest := Member(name, after[..n]), after[n..];
        if rest == "}\n" then Some([member])
        else if rest == "" || rest[0] != ',' then None
        else
          match ReadMembers(rest[1..])
          case None => None
          case Some(members) => Some([member] + members)
  }

  function ReadObject(s: string): Option<seq<Member>> {
    if s == "" || s[0] != '{' then None else ReadMembers(s[1..])
  }

  // ----- the printer -----

  function MembersText(members: seq<Member>): string {
    if members == [] then ""
    else
      var m := members[0];
      "\"" + m.name + "\":" + (m.value + if |members| == 1 then "}\n" else "," + MembersText(members[1..]))
  }

  /** A string without quotes in it, or a bare word. */
  predicate Plain(value: string) {
    || (|value| >= 2 && value[0] == '"' && value[|value| - 1] == '"' && '"' !in value[1..|value| - 1])
    || (value != "" && '"' !in value && ',' !in value && '}' !in value)
  }

  lemma ValueEnds(value: string, rest: string)
    requires Plain(value) && rest != "" && (rest[0] == ',' || rest[0] == '}')
    ensures ValueLength(value + rest) == |value|
  {
    var s := value + rest;
    if value[0] == '"' {
      var t := value[1..|value| - 1];
      assert s[1..] == t + "\"" + rest;
      FindIs(s[1..], '"', t, rest);
    } else {
      assert s == value + [rest[0]] + rest[1..];
      FindIs(s, rest[0], value, rest[1..]);
      var other := if rest[0] == ',' then '}' else ',';
      assert forall k | 0 <= k < |value| :: value[k] in value && s[k] == value[k];
      assert Find(s, other) >= |value|;
    }
  }

  lemma ReadMember(name: string, value: string, rest: string)
    requires '"' !in name && Plain(value) && rest != "" && (rest[0] == ',' || rest[0] == '}')
    ensures ReadMembers("\"" + name + "\":" + (value + rest)) ==
              if rest == "}\n" then Some([Member(name, value)])
              else if rest[0] != ',' then None
              else match ReadMembers(rest[1..])
                case None => None
                case Some(members) => Some([Member(name, value)] + members)
  {
    var s, after := "\"" + name + "\":" + (value + rest), value + rest;
    assert s[1..] == name + "\"" + (":" + after);
    FindIs(s[1..], '"', name, ":" + after);
    assert s[|name| + 2] == ':' && s[1..|name| + 1] == name && s[|name| + 3..] == after;
    ValueEnds(value, rest);
    assert after[..|value|] == value && after[|value|..] == rest;
  }

  /** What was printed is read back. */
  lemma {:induction false} MembersReadBack(members: seq<Member>)
    requires members != []
    requires forall i | 0 <= i < |members| :: '"' !in members[i].name && Plain(members[i].value)
    ensures ReadMembers(MembersText(members)) == Some(members)
    decreases |members|
  {
    var m := members[0];
    assert members == [m] + members[1..];
    if |members| == 1 {
      assert members == [m];
      ReadMember(m.name, m.value, "}\n");
    } else {
      var rest := "," + MembersText(members[1..]);
      MembersReadBack(members[1..]);
      assert rest[1..] == MembersText(members[1..]);
      ReadMember(m.name, m.value, rest);
    }
  }

  // ----- the record -----

  /** What each member of the text is to say. */
  function Members(r: Record): seq<Member> {
    [Member("kind", Quoted("SecAppDefenderControlV1"))] + Rest(r)
  }

  function Rest(r: Record): seq<Member> {
    [Member("run_id", Quoted(r.runId)),
     Member("outcome", Quoted(if r.Completed() then "Completed" else "Failed")),
     Member("error", Quoted(r.error.Name())),
     Member("backend_created", if r.created then "true" else "false"),
     Member("backend_resumed", if r.resumed then "true" else "false"),
     Member("backend_exit", match r.exitCode case None => "null" case Some(code) => Decimal(code)),
     Member("root_exited", if r.exited then "true" else "false"),
     Member("job_empty", if r.empty then "true" else "false"),
     Member("pipes_closed", if r.pipes then "true" else "false"),
     Member("elapsed_ms", Decimal(r.elapsed)),
     Member("stdout_base64", Quoted(if r.Completed() then r.output else ""))]
  }

  lemma Push4(a: string, b: string, c: string, d: string, rest: string)
    ensures a + b + c + d + rest == a + (b + (c + (d + rest)))
  {
    assert a + b + c + d + rest == a + b + c + (d + rest);
    assert a + b + c + (d + rest) == a + b + (c + (d + rest));
  }

  /** Left to right or right to left: the same text. */
  lemma PushMiddle(error: string, created: string, resumed: string, exit: string, exited: string, empty: string,
                   pipes: string, rest: string)
    ensures Middle(error, created, resumed, exit, exited, empty, pipes) + rest ==
              ERROR + (error + (CREATED + (created + (RESUMED + (resumed + (EXIT + (exit
              + (EXITED + (exited + (EMPTY + (empty + (PIPES + (pipes + (ELAPSED + rest))))))))))))))
  {
    var first := ERROR + error + CREATED + created;
    var second := first + RESUMED + resumed + EXIT + exit;
    var third := second + EXITED + exited + EMPTY + empty;
    Push4(third, PIPES, pipes, ELAPSED, rest);
    var r3 := PIPES + (pipes + (ELAPSED + rest));
    Push5(second, EXITED, exited, EMPTY, empty, r3);
    var r2 := EXITED + (exited + (EMPTY + (empty + r3)));
    Push5(first, RESUMED, resumed, EXIT, exit, r2);
    Push4(ERROR, error, CREATED, created, RESUMED + (resumed + (EXIT + (exit + r2))));
  }

  lemma Push5(a: string, b: string, c: string, d: string, e: string, rest: string)
    ensures a + b + c + d + e + rest == a + (b + (c + (d + (e + rest))))
  {
    Push4(a, b, c, d, e + rest);
    assert a + b + c + d + e + rest == a + b + c + d + (e + rest);
  }

  /** The constant between a bare value, or a string, and the next bare value, or string. */
  predicate BareToBare(constant: string, name: string) { constant == ",\"" + name + "\":" }

  predicate StringToBare(constant: string, name: string) { constant == "\",\"" + name + "\":" }

  predicate StringToString(constant: string, name: string) { constant == "\",\"" + name + "\":\"" }

  predicate BareToString(constant: string, name: string) { constant == ",\"" + name + "\":\"" }

  lemma FlagConstants()
    ensures BareToBare(PIPES, "pipes_closed") && BareToBare(EMPTY, "job_empty") && BareToBare(EXITED, "root_exited")
  {}

  lemma OtherConstants()
    ensures BareToBare(EXIT, "backend_exit") && BareToBare(RESUMED, "backend_resumed")
    ensures BareToBare(ELAPSED, "elapsed_ms")
  {}

  lemma StringConstants()
    ensures StringToBare(CREATED, "backend_created") && StringToString(ERROR, "error")
    ensures StringToString(OUTCOME, "outcome") && BareToString(STDOUT, "stdout_base64")
  {}

  function MemberText(name: string, value: string, rest: string): string { "\"" + name + "\":" + (value + rest) }

  /** A bare value behind a member that ends like `before`. */
  lemma Bare(constant: string, name: string, value: string, rest: string)
    requires BareToBare(constant, name)
    ensures constant + (value + rest) == "," + MemberText(name, value, rest)
  {
    assert constant == "," + ("\"" + name + "\":");
  }

  /** The first bare value behind a string. */
  lemma BareAfterString(constant: string, name: string, value: string, rest: string)
    requires StringToBare(constant, name)
    ensures constant + (value + rest) == "\"" + ("," + MemberText(name, value, rest))
  {
    assert constant == "\"," + ("\"" + name + "\":");
  }

  /** A string, with what ends the string before it. */
  lemma StringAfterString(constant: string, name: string, t: string, rest: string)
    requires StringToString(constant, name)
    ensures constant + (t + ("\"" + rest)) == "\"" + ("," + MemberText(name, Quoted(t), rest))
  {
    assert constant == "\"" + ("," + ("\"" + name + "\":" + "\""));
    assert Quoted(t) + rest == "\"" + (t + ("\"" + rest));
  }

  lemma StringAfterBare(constant: string, name: string, t: string, rest: string)
    requires BareToString(constant, name)
    ensures constant + (t + ("\"" + rest)) == "," + MemberText(name, Quoted(t), rest)
  {
    assert constant == "," + ("\"" + name + "\":" + "\"");
    assert Quoted(t) + rest == "\"" + (t + ("\"" + rest));
  }

  lemma TextFrom(members: seq<Member>, k: nat)
    requires k < |members|
    ensures MembersText(members[k..]) ==
              MemberText(members[k].name, members[k].value,
                         if k + 1 == |members| then "}\n" else "," + MembersText(members[k + 1..]))
  {
    assert members[k..][0] == members[k] && members[k..][1..] == members[k + 1..];
  }

  /** From the elapsed time to the end. */
  lemma EndOfText(members: seq<Member>, elapsed: string, output: string)
    requires |members| == 12
    requires members[10] == Member("elapsed_ms", elapsed) && members[11] == Member("stdout_base64", Quoted(output))
    ensures ELAPSED + (elapsed + (STDOUT + output + END)) == "," + MembersText(members[10..])
  {
    hide MembersText, BareToBare, BareToString, MemberText;
    OtherConstants();
    StringConstants();
    TextFrom(members, 10);
    TextFrom(members, 11);
    assert END == "\"" + "}\n";
    assert STDOUT + output + END == STDOUT + (output + ("\"" + "}\n"));
    StringAfterBare(STDOUT, "stdout_base64", output, "}\n");
    Bare(ELAPSED, "elapsed_ms", elapsed, "," + MembersText(members[11..]));
  }

  lemma BareMember(members: seq<Member>, k: nat, constant: string, name: string, value: string)
    requires k + 1 < |members| && members[k] == Member(name, value) && BareToBare(constant, name)
    ensures constant + (value + ("," + MembersText(members[k + 1..]))) == "," + MembersText(members[k..])
  {
    hide MembersText;
    TextFrom(members, k);
    Bare(constant, name, value, "," + MembersText(members[k + 1..]));
  }

  lemma StringMember(members: seq<Member>, k: nat, constant: string, name: string, t: string)
    requires k + 1 < |members| && members[k] == Member(name, Quoted(t)) && StringToString(constant, name)
    ensures constant + (t + ("\"" + ("," + MembersText(members[k + 1..])))) == "\"" + ("," + MembersText(members[k..]))
  {
    hide MembersText;
    TextFrom(members, k);
    StringAfterString(constant, name, t, "," + MembersText(members[k + 1..]));
  }

  /** The observations, behind the error. */
  lemma MiddleOfText(members: seq<Member>, error: string, created: string, resumed: string, exit: string, exited: string,
                     empty: string, pipes: string, elapsed: string, output: string)
    requires |members| == 12
    requires members[3] == Member("error", Quoted(error)) && members[4] == Member("backend_created", created)
    requires members[5] == Member("backend_resumed", resumed) && members[6] == Member("backend_exit", exit)
    requires members[7] == Member("root_exited", exited) && members[8] == Member("job_empty", empty)
    requires members[9] == Member("pipes_closed", pipes) && members[10] == Member("elapsed_ms", elapsed)
    requires members[11] == Member("stdout_base64", Quoted(output))
    ensures Middle(error, created, resumed, exit, exited, empty, pipes) + (elapsed + (STDOUT + output + END)) ==
              "\"" + ("," + MembersText(members[3..]))
  {
    hide MembersText, Middle, MemberText, BareToBare, StringToBare, StringToString;
    FlagConstants();
    OtherConstants();
    StringConstants();
    PushMiddle(error, created, resumed, exit, exited, empty, pipes, elapsed + (STDOUT + output + END));
    EndOfText(members, elapsed, output);
    BareMember(members, 9, PIPES, "pipes_closed", pipes);
    BareMember(members, 8, EMPTY, "job_empty", empty);
    BareMember(members, 7, EXITED, "root_exited", exited);
    BareMember(members, 6, EXIT, "backend_exit", exit);
    BareMember(members, 5, RESUMED, "backend_resumed", resumed);
    TextFrom(members, 4);
    BareAfterString(CREATED, "backend_created", created, "," + MembersText(members[5..]));
    StringMember(members, 3, ERROR, "error", error);
  }

  lemma RunIdConstant()
    ensures StringToString("\",\"run_id\":\"", "run_id")
  {}

  lemma HeadOfText(members: seq<Member>, id: string, outcome: string, rest: string)
    requires |members| == 12 && rest == "\"" + ("," + MembersText(members[3..]))
    requires members[0] == Member("kind", Quoted("SecAppDefenderControlV1"))
    requires members[1] == Member("run_id", Quoted(id)) && members[2] == Member("outcome", Quoted(outcome))
    ensures KIND + id + OUTCOME + outcome + rest == "{" + MembersText(members[0..])
  {
    hide MembersText, MemberText, StringToString;
    StringConstants();
    RunIdConstant();
    Push4(KIND, id, OUTCOME, outcome, rest);
    StringMember(members, 2, OUTCOME, "outcome", outcome);
    var runId := "\",\"run_id\":\"";
    StringMember(members, 1, runId, "run_id", id);
    TextFrom(members, 0);
    KindFirst(runId, id + ("\"" + ("," + MembersText(members[2..]))), "," + MembersText(members[1..]));
  }

  lemma KindFirst(runId: string, x: string, rest: string)
    requires runId == "\",\"run_id\":\"" && runId + x == "\"" + rest
    ensures KIND + x == "{" + MemberText("kind", Quoted("SecAppDefenderControlV1"), rest)
  {
    hide MemberText, Quoted;
    KindIs(runId);
    BehindKind("{\"kind\":\"", "SecAppDefenderControlV1", runId, x, rest);
    KindMember("{\"kind\":\"", "SecAppDefenderControlV1", rest);
  }

  lemma KindMember(opening: string, kind: string, rest: string)
    requires opening == "{\"kind\":\""
    ensures opening + (kind + ("\"" + rest)) == "{" + MemberText("kind", Quoted(kind), rest)
  {
    OpeningIs();
    assert "{" + ("\"" + "kind" + "\":" + (("\"" + kind + "\"") + rest))
        == ("{" + "\"" + "kind" + "\":" + "\"") + (kind + ("\"" + rest));
  }

  lemma KindIs(runId: string)
    requires runId == "\",\"run_id\":\""
    ensures KIND == "{\"kind\":\"" + "SecAppDefenderControlV1" + runId
  {}

  lemma OpeningIs()
    ensures "{" + "\"" + "kind" + "\":" + "\"" == "{\"kind\":\""
  {}

  lemma BehindKind(opening: string, kind: string, runId: string, x: string, rest: string)
    requires runId + x == "\"" + rest
    ensures opening + kind + runId + x == opening + (kind + ("\"" + rest))
  {
    assert opening + kind + runId + x == opening + (kind + (runId + x));
  }

  lemma TextIsItsMembers(members: seq<Member>, id: string, outcome: string, error: string, created: string, resumed: string,
                         exit: string, exited: string, empty: string, pipes: string, elapsed: string, output: string)
    requires |members| == 12
    requires members[0] == Member("kind", Quoted("SecAppDefenderControlV1"))
    requires members[1] == Member("run_id", Quoted(id)) && members[2] == Member("outcome", Quoted(outcome))
    requires members[3] == Member("error", Quoted(error)) && members[4] == Member("backend_created", created)
    requires members[5] == Member("backend_resumed", resumed) && members[6] == Member("backend_exit", exit)
    requires members[7] == Member("root_exited", exited) && members[8] == Member("job_empty", empty)
    requires members[9] == Member("pipes_closed", pipes) && members[10] == Member("elapsed_ms", elapsed)
    requires members[11] == Member("stdout_base64", Quoted(output))
    ensures Text4(id, outcome, Middle(error, created, resumed, exit, exited, empty, pipes), elapsed, output) ==
              "{" + MembersText(members)
  {
    hide MembersText, Middle, MemberText, Quoted;
    var middle := Middle(error, created, resumed, exit, exited, empty, pipes);
    var end := elapsed + (STDOUT + output + END);
    MiddleOfText(members, error, created, resumed, exit, exited, empty, pipes, elapsed, output);
    HeadOfText(members, id, outcome, middle + end);
    assert members[0..] == members;
    Regroup(KIND + id + OUTCOME + outcome, middle, end);
  }

  lemma Regroup(a: string, b: string, c: string)
    ensures a + b + c == a + (b + c)
  {}

  lemma JsonIsItsMembers(r: Record, members: seq<Member>)
    requires members == Members(r)
    ensures Json(r) == "{" + MembersText(members)
  {
    hide MembersText, Middle, Text4, Decimal, Quoted, MemberText, Code.Name;
    TextIsItsMembers(members, r.runId, if r.Completed() then "Completed" else "Failed", r.error.Name(), Flag(r.created),
                     Flag(r.resumed), ExitText(r.exitCode), Flag(r.exited), Flag(r.empty), Flag(r.pipes),
                     Decimal(r.elapsed), Embedded(r));
  }

  predicate Unquoted(t: string) { '"' !in t }

  lemma QuotedIsPlain(t: string)
    requires Unquoted(t)
    ensures Plain(Quoted(t))
  {
    assert Quoted(t)[1..|Quoted(t)| - 1] == t;
  }

  predicate OfPipesAndJob(code: Code) {
    || code.JobCreate? || code.JobLimits? || code.JobQuery? || code.JobMembership? || code.JobTerminate?
    || code.PipeCreate? || code.PipeInherit? || code.PipePeek? || code.PipeRead?
  }

  predicate OfLaunch(code: Code) {
    || code.AttributeSize? || code.AttributeInit? || code.AttributeUpdate? || code.ProcessCreate? || code.ProcessResume?
    || code.IdentityOpen? || code.IdentitySize? || code.IdentityQuery? || code.ChildIdentity? || code.ProcessWait?
  }

  lemma PipeAndJobNamesAreUnquoted(code: Code)
    requires OfPipesAndJob(code)
    ensures Unquoted(code.Name())
  {}

  lemma LaunchNamesAreUnquoted(code: Code)
    requires OfLaunch(code)
    ensures Unquoted(code.Name())
  {}

  lemma OtherNamesAreUnquoted(code: Code)
    requires !OfLaunch(code) && !OfPipesAndJob(code)
    ensures Unquoted(code.Name())
  {}

  lemma CodeNamesAreUnquoted(code: Code)
    ensures Unquoted(code.Name())
  {
    hide Unquoted, OfLaunch, OfPipesAndJob;
    if OfLaunch(code) {
      LaunchNamesAreUnquoted(code);
    } else if OfPipesAndJob(code) {
      PipeAndJobNamesAreUnquoted(code);
    } else {
      OtherNamesAreUnquoted(code);
    }
  }

  lemma NumbersArePlain(n: nat)
    ensures Plain(Decimal(n))
  {
    DecimalFacts(n);
    assert forall c | c in Decimal(n) :: DecimalDigit(c);
  }

  lemma OutputIsUnquoted(bytes: seq<byte>)
    ensures Unquoted(Encode(bytes))
  {
    EncodedText(bytes);
    var s := Encode(bytes);
    var n: nat :| TextSplit(s, |s|, n);
    forall i | 0 <= i < |s| ensures s[i] != '"' {
      assert i < n ==> DigitValue(s[i]).Some?;
    }
  }

  lemma FirstNamesAreUnquoted(r: Record)
    ensures forall i | 0 <= i < 4 :: Unquoted(Members(r)[i].name)
  {
    hide Quoted, Decimal, Code.Name;
  }

  lemma NextNamesAreUnquoted(r: Record)
    ensures forall i | 4 <= i < 6 :: Unquoted(Members(r)[i].name)
  {
    hide Quoted, Decimal, Code.Name;
  }

  lemma MiddleNamesAreUnquoted(r: Record)
    ensures forall i | 6 <= i < 8 :: Unquoted(Members(r)[i].name)
  {
    hide Quoted, Decimal, Code.Name;
  }

  lemma LastNamesAreUnquoted(r: Record)
    ensures forall i | 8 <= i < 12 :: Unquoted(Members(r)[i].name)
  {
    hide Quoted, Decimal, Code.Name;
  }

  lemma FlagsArePlain()
    ensures Plain("true") && Plain("false") && Plain("null")
    ensures Unquoted("SecAppDefenderControlV1") && Unquoted("Completed") && Unquoted("Failed") && Unquoted("")
  {}

  lemma FirstValuesArePlain(r: Record, members: seq<Member>)
    requires members == Members(r) && IsRunId(r.runId)
    ensures Plain(members[0].value) && Plain(members[1].value) && Plain(members[2].value) && Plain(members[3].value)
    ensures Plain(members[4].value) && Plain(members[5].value)
  {
    hide Plain, Unquoted, Quoted;
    RunIdIsUnquoted(r.runId);
    CodeNamesAreUnquoted(r.error);
    FlagsArePlain();
    QuotedIsPlain("SecAppDefenderControlV1");
    QuotedIsPlain(r.runId);
    QuotedIsPlain(if r.Completed() then "Completed" else "Failed");
    QuotedIsPlain(r.error.Name());
  }

  lemma LastValuesArePlain(r: Record, bytes: seq<byte>, members: seq<Member>)
    requires members == Members(r) && Collected(r, bytes)
    ensures Plain(members[6].value) && Plain(members[7].value) && Plain(members[8].value) && Plain(members[9].value)
    ensures Plain(members[10].value) && Plain(members[11].value)
  {
    hide Plain, Unquoted, Quoted;
    FlagsArePlain();
    OutputIsUnquoted(bytes);
    NumbersArePlain(r.elapsed);
    if r.exitCode.Some? { NumbersArePlain(r.exitCode.value); }
    QuotedIsPlain(if r.Completed() then r.output else "");
  }

  lemma ValuesArePlain(r: Record, bytes: seq<byte>, members: seq<Member>)
    requires members == Members(r) && IsRunId(r.runId) && Collected(r, bytes)
    ensures forall i | 0 <= i < 12 :: Plain(members[i].value)
  {
    hide Plain, Members, Collected;
    FirstValuesArePlain(r, members);
    LastValuesArePlain(r, bytes, members);
    assert |members| == 12 by { Twelve(r); }
    forall i | 0 <= i < 12 ensures Plain(members[i].value) {
      assert i == 0 || i == 1 || i == 2 || i == 3 || i == 4 || i == 5 || i == 6 || i == 7 || i == 8 || i == 9 || i == 10 || i == 11;
    }
  }

  lemma Twelve(r: Record)
    ensures |Members(r)| == 12
  {}

  lemma RunIdIsUnquoted(id: string)
    requires IsRunId(id)
    ensures Unquoted(id)
  {}

  lemma MembersArePlain(r: Record, bytes: seq<byte>)
    requires IsRunId(r.runId) && Collected(r, bytes)
    ensures forall i | 0 <= i < |Members(r)| :: '"' !in Members(r)[i].name && Plain(Members(r)[i].value)
  {
    ValuesArePlain(r, bytes, Members(r));
    FirstNamesAreUnquoted(r);
    NextNamesAreUnquoted(r);
    MiddleNamesAreUnquoted(r);
    LastNamesAreUnquoted(r);
  }

  /** The text of every record `Collect` can leave is one JSON object that says, member by member, what the record holds. */
  lemma JsonReadsBack(r: Record, bytes: seq<byte>)
    requires IsRunId(r.runId) && Collected(r, bytes)
    ensures ReadObject(Json(r)) == Some(Members(r))
  {
    hide MembersText;
    var members := Members(r);
    JsonIsItsMembers(r, members);
    MembersArePlain(r, bytes);
    MembersReadBack(members);
    assert ("{" + MembersText(members))[1..] == MembersText(members);
  }

  // ----- and nothing is lost -----

  lemma PipeAndJobNamesDiffer(c: Code, d: Code)
    requires OfPipesAndJob(c)
    ensures c.Name() == d.Name() ==> c == d
  {}

  lemma LaunchNamesDiffer(c: Code, d: Code)
    requires OfLaunch(c)
    ensures c.Name() == d.Name() ==> c == d
  {}

  lemma OtherNamesDiffer(c: Code, d: Code)
    requires !OfLaunch(c) && !OfPipesAndJob(c)
    ensures c.Name() == d.Name() ==> c == d
  {}

  lemma NamesDiffer(c: Code, d: Code)
    ensures c.Name() == d.Name() ==> c == d
  {
    hide OfLaunch, OfPipesAndJob, Code.Name;
    if OfLaunch(c) {
      LaunchNamesDiffer(c, d);
    } else if OfPipesAndJob(c) {
      PipeAndJobNamesDiffer(c, d);
    } else {
      OtherNamesDiffer(c, d);
    }
  }

  lemma QuotedSame(a: string, b: string)
    ensures Quoted(a) == Quoted(b) ==> a == b
  {
    if Quoted(a) == Quoted(b) {
      assert a == Quoted(a)[1..|a| + 1] && b == Quoted(b)[1..|b| + 1];
    }
  }

  lemma DecimalSame(a: nat, b: nat)
    ensures Decimal(a) == Decimal(b) ==> a == b
    ensures Decimal(a) != "null"
  {
    DecimalFacts(a);
    DecimalFacts(b);
    var word := "null";
    assert word[0] == 'n' && !DecimalDigit('n');
  }

  lemma FlagSame(a: bool, b: bool)
    ensures (if a then "true" else "false") == (if b then "true" else "false") ==> a == b
  {}

  lemma OutcomeSame(r: Record, s: Record)
    requires Members(r) == Members(s)
    ensures r.Completed() <==> s.Completed()
  {
    hide Decimal, Quoted, Code.Name;
    assert Members(r)[2] == Members(s)[2];
    QuotedSame(if r.Completed() then "Completed" else "Failed", if s.Completed() then "Completed" else "Failed");
  }

  lemma StringsSame(r: Record, s: Record)
    requires Members(r) == Members(s)
    ensures r.runId == s.runId && r.error == s.error && (r.Completed() <==> s.Completed())
    ensures r.Completed() ==> r.output == s.output
  {
    hide Decimal, Quoted, Code.Name;
    assert Members(r)[1] == Members(s)[1] && Members(r)[3] == Members(s)[3] && Members(r)[11] == Members(s)[11];
    OutcomeSame(r, s);
    QuotedSame(r.runId, s.runId);
    QuotedSame(r.error.Name(), s.error.Name());
    NamesDiffer(r.error, s.error);
    if r.Completed() {
      QuotedSame(r.output, s.output);
    }
  }

  lemma FlagsSame(r: Record, s: Record)
    requires Members(r) == Members(s)
    ensures r.created == s.created && r.resumed == s.resumed
    ensures r.exited == s.exited && r.empty == s.empty && r.pipes == s.pipes
  {
    hide Decimal, Quoted, Code.Name;
    assert Members(r)[4] == Members(s)[4] && Members(r)[5] == Members(s)[5];
    assert Members(r)[7] == Members(s)[7] && Members(r)[8] == Members(s)[8] && Members(r)[9] == Members(s)[9];
    FlagSame(r.created, s.created);
    FlagSame(r.resumed, s.resumed);
    FlagSame(r.exited, s.exited);
    FlagSame(r.empty, s.empty);
    FlagSame(r.pipes, s.pipes);
  }

  lemma NumbersSame(r: Record, s: Record)
    requires Members(r) == Members(s)
    ensures r.exitCode == s.exitCode && r.elapsed == s.elapsed
  {
    hide Decimal, Quoted, Code.Name;
    assert Members(r)[6] == Members(s)[6] && Members(r)[10] == Members(s)[10];
    DecimalSame(r.elapsed, s.elapsed);
    if r.exitCode.Some? {
      DecimalSame(r.exitCode.value, if s.exitCode.Some? then s.exitCode.value else 0);
    } else if s.exitCode.Some? {
      DecimalSame(s.exitCode.value, 0);
    }
  }

  /** Two records `Collect` can leave have the same text only if they are the same. */
  lemma JsonTellsAll(r: Record, bytes: seq<byte>, s: Record, others: seq<byte>)
    requires IsRunId(r.runId) && Collected(r, bytes) && IsRunId(s.runId) && Collected(s, others)
    requires Json(r) == Json(s)
    ensures r == s
  {
    hide Members, ReadObject, Json;
    JsonReadsBack(r, bytes);
    JsonReadsBack(s, others);
    StringsSame(r, s);
    FlagsSame(r, s);
    NumbersSame(r, s);
  }
}
