/**
 * The result record of DefenderControl.cs, the text it is written as, and the receipt
 * test that the controller script applies to that text.
 */
module DefenderRecord {
  import opened Common
  import opened Base64

  /** Every code `Collect` can put into a record, and the two it raises before there is one. */
  datatype Code =
    | NoError | CollectionError | CleanupIncomplete
    | JobCreate | JobLimits | JobQuery | JobMembership | JobTerminate
    | PipeCreate | PipeInherit | PipePeek | PipeRead
    | AttributeSize | AttributeInit | AttributeUpdate
    | Timeout | ControllerExited | Cancelled | ProcessWait | ProcessCreate | ProcessResume
    | IdentityOpen | IdentitySize | IdentityQuery | ChildIdentity
    | BackendStderr | StdoutLimit | ExitQuery | BackendExit
  {
    function Name(): string {
      match this
      case NoError => "NONE"
      case CollectionError => "COLLECTION_ERROR"
      case CleanupIncomplete => "CLEANUP_INCOMPLETE"
      case JobCreate => "JOB_CREATE"
      case JobLimits => "JOB_LIMITS"
      case JobQuery => "JOB_QUERY"
      case JobMembership => "JOB_MEMBERSHIP"
      case JobTerminate => "JOB_TERMINATE"
      case PipeCreate => "PIPE_CREATE"
      case PipeInherit => "PIPE_INHERIT"
      case PipePeek => "PIPE_PEEK"
      case PipeRead => "PIPE_READ"
      case AttributeSize => "ATTRIBUTE_SIZE"
      case AttributeInit => "ATTRIBUTE_INIT"
      case AttributeUpdate => "ATTRIBUTE_UPDATE"
      case Timeout => "TIMEOUT"
      case ControllerExited => "CONTROLLER_EXITED"
      case Cancelled => "CANCELLED"
      case ProcessWait => "PROCESS_WAIT"
      case ProcessCreate => "PROCESS_CREATE"
      case ProcessResume => "PROCESS_RESUME"
      case IdentityOpen => "IDENTITY_OPEN"
      case IdentitySize => "IDENTITY_SIZE"
      case IdentityQuery => "IDENTITY_QUERY"
      case ChildIdentity => "CHILD_IDENTITY"
      case BackendStderr => "BACKEND_STDERR"
      case StdoutLimit => "STDOUT_LIMIT"
      case ExitQuery => "EXIT_QUERY"
      case BackendExit => "BACKEND_EXIT"
    }
  }

  datatype Record = Record(
    runId: string,
    error: Code,
    created: bool, resumed: bool, exited: bool, empty: bool, pipes: bool,
    exitCode: Option<nat>,
    elapsed: nat,
    output: string)
  {
    predicate Completed() {
      error == NoError && created && resumed && exited && empty && pipes && exitCode == Some(0)
    }
  }

  predicate LowerHex(c: char) { '0' <= c <= '9' || 'a' <= c <= 'f' }

  predicate IsRunId(s: string) { |s| == 32 && forall i | 0 <= i < |s| :: LowerHex(s[i]) }

  // ----- the text -----

  function Flag(b: bool): string { if b then "true" else "false" }

  const KIND := "{\"kind\":\"SecAppDefenderControlV1\",\"run_id\":\""
  const OUTCOME := "\",\"outcome\":\""
  const ERROR := "\",\"error\":\""
  const CREATED := "\",\"backend_created\":"
  const RESUMED := ",\"backend_resumed\":"
  const EXIT := ",\"backend_exit\":"
  const EXITED := ",\"root_exited\":"
  const EMPTY := ",\"job_empty\":"
  const PIPES := ",\"pipes_closed\":"
  const ELAPSED := ",\"elapsed_ms\":"
  const STDOUT := ",\"stdout_base64\":\""
  const END := "\"}\n"

  /** From the error to the elapsed time, all but the values being fixed. */
  function Middle(error: string, created: string, resumed: string, exit: string, exited: string, empty: string,
                  pipes: string): string {
    ERROR + error + CREATED + created + RESUMED + resumed + EXIT + exit + EXITED + exited + EMPTY + empty
    + PIPES + pipes + ELAPSED
  }

  function Text4(runId: string, outcome: string, middle: string, elapsed: string, output: string): string {
    KIND + runId + OUTCOME + outcome + middle + (elapsed + (STDOUT + output + END))
  }

  function ExitText(code: Option<nat>): string {
    if code.Some? then Decimal(code.value) else "null"
  }

  function MiddleOf(r: Record): string {
    Middle(r.error.Name(), Flag(r.created), Flag(r.resumed), ExitText(r.exitCode), Flag(r.exited), Flag(r.empty),
           Flag(r.pipes))
  }

  function Embedded(r: Record): string { if r.Completed() then r.output else "" }

  /** `Result.Json`. */
  function Json(r: Record): string {
    Text4(r.runId, if r.Completed() then "Completed" else "Failed", MiddleOf(r), Decimal(r.elapsed), Embedded(r))
  }

  // ----- it always fits -----

  function Utf8Size(c: char): nat {
    if c < 0x80 as char then 1 else if c < 0x800 as char then 2 else if c as int < 0x1_0000 then 3 else 4
  }

  /** `Encoding.UTF8.GetBytes(s).Length`. */
  function Utf8Length(s: string): nat {
    if s == "" then 0 else Utf8Size(s[0]) + Utf8Length(s[1..])
  }

  predicate AllAscii(s: string) { forall i | 0 <= i < |s| :: s[i] < 0x80 as char }

  lemma {:induction false} AsciiIsOneByte(s: string)
    requires AllAscii(s)
    ensures Utf8Length(s) == |s|
  {
    if s != "" { AsciiIsOneByte(s[1..]); }
  }

  lemma {:induction false} Utf8Concat(a: string, b: string)
    ensures Utf8Length(a + b) == Utf8Length(a) + Utf8Length(b)
  {
    if a == "" {
      assert a + b == b;
    } else {
      Utf8Concat(a[1..], b);
      assert (a + b)[1..] == a[1..] + b;
    }
  }

  lemma {:induction false} Utf8AtMostFour(s: string)
    ensures Utf8Length(s) <= 4 * |s|
  {
    if s != "" { Utf8AtMostFour(s[1..]); }
  }

  /** What `Main` and `Collect` make true of every record they write. */
  predicate Writable(r: Record) {
    && IsRunId(r.runId)
    && r.elapsed < 0x8000_0000_0000_0000
    && (r.exitCode.Some? ==> r.exitCode.value < 0x1_0000_0000)
    && |r.output| <= 5464 && AllAscii(r.output)
  }

  lemma NamesAreShort(code: Code)
    ensures |code.Name()| <= 18
  {}

  lemma Powers()
    ensures Pow10(10) == 100_0000_0000 && Pow10(19) == 1000_0000_0000_0000_0000
    ensures Pow10(5) == 10_0000
  {
    assert Pow10(5) == 10_0000;
    assert Pow10(10) == 100_0000_0000;
    assert Pow10(15) == 1000_0000_0000_0000;
  }

  lemma MiddleFits(r: Record)
    requires r.exitCode.Some? ==> r.exitCode.value < 0x1_0000_0000
    ensures |MiddleOf(r)| <= 200
  {
    NamesAreShort(r.error);
    Powers();
    if r.exitCode.Some? { DecimalLength(r.exitCode.value, 10); }
  }

  lemma MixedLength(head: string, ascii: string, end: string)
    requires AllAscii(ascii)
    ensures Utf8Length(head + (ascii + end)) <= 4 * |head| + |ascii| + 4 * |end|
  {
    Utf8Concat(head, ascii + end);
    Utf8Concat(ascii, end);
    Utf8AtMostFour(head);
    Utf8AtMostFour(end);
    AsciiIsOneByte(ascii);
  }

  function TextHead(r: Record): string {
    KIND + r.runId + OUTCOME + (if r.Completed() then "Completed" else "Failed") + MiddleOf(r)
    + (Decimal(r.elapsed) + STDOUT)
  }

  lemma HeadFits(r: Record)
    requires Writable(r)
    ensures |TextHead(r)| <= 400
  {
    MiddleFits(r);
    Powers();
    DecimalLength(r.elapsed, 19);
  }

  lemma JsonSplits(r: Record)
    ensures Json(r) == TextHead(r) + (Embedded(r) + END)
  {
    var front := KIND + r.runId + OUTCOME + (if r.Completed() then "Completed" else "Failed") + MiddleOf(r);
    var elapsed, output := Decimal(r.elapsed), Embedded(r);
    assert front + (elapsed + (STDOUT + output + END)) == front + (elapsed + STDOUT) + (output + END);
  }

  /** RESULT_LIMIT cannot be raised: the UTF-8 text of every record is below 8192 bytes. */
  lemma JsonFits(r: Record)
    requires Writable(r)
    ensures |Json(r)| <= Utf8Length(Json(r)) <= 8192
  {
    HeadFits(r);
    JsonSplits(r);
    MixedLength(TextHead(r), Embedded(r), END);
    Utf8AtLeastOne(Json(r));
  }

  lemma {:induction false} Utf8AtLeastOne(s: string)
    ensures |s| <= Utf8Length(s)
  {
    if s != "" { Utf8AtLeastOne(s[1..]); }
  }

  // ----- what the controller reads out of it -----

  const MAX_OUTPUT := 4096

  /** `(0|[1-9][0-9]{0,4})`, its value being below 40000. */
  ghost predicate ElapsedText(s: string) {
    && 1 <= |s| <= 5
    && (forall i | 0 <= i < |s| :: DecimalDigit(s[i]))
    && (s[0] == '0' ==> |s| == 1)
    && DecimalValue(s) < 40000
  }

  /** The base64 text of at most 4096 bytes, in its only accepted spelling. */
  ghost predicate StdoutText(s: string) {
    && Text(s, 5464)
    && Decode(s).Some? && |Decode(s).value| <= MAX_OUTPUT && Encode(Decode(s).value) == s
  }

  function SuccessMiddle(): string { Middle("NONE", "true", "true", "0", "true", "true", "true") }

  ghost predicate ReceiptIs(text: string, id: string, elapsed: string, output: string) {
    && text == Text4(id, "Completed", SuccessMiddle(), elapsed, output)
    && ElapsedText(elapsed)
    && StdoutText(output)
  }

  /** `Test-CompletedReceipt` of the controller script. */
  ghost predicate CompletedReceipt(text: string, id: string) {
    && |text| <= 8192
    && IsRunId(id)
    && exists elapsed: string, output: string :: ReceiptIs(text, id, elapsed, output)
  }

  lemma NotLonger(a: string, b: string, x: string, y: string)
    requires forall i | 0 <= i < |b| :: DecimalDigit(b[i])
    requires x != "" && !DecimalDigit(x[0]) && a + x == b + y
    ensures |b| <= |a|
  {
    assert (a + x)[|a|] == x[0];
    if |a| < |b| { assert false; }
  }

  lemma DigitsEnd(a: string, b: string, x: string, y: string)
    requires forall i | 0 <= i < |a| :: DecimalDigit(a[i])
    requires forall i | 0 <= i < |b| :: DecimalDigit(b[i])
    requires x != "" && !DecimalDigit(x[0]) && y != "" && !DecimalDigit(y[0])
    requires a + x == b + y
    ensures a == b && x == y
  {
    NotLonger(a, b, x, y);
    NotLonger(b, a, y, x);
    assert a == (a + x)[..|a|] && b == (b + y)[..|b|];
    assert x == (a + x)[|a|..] && y == (b + y)[|b|..];
  }

  /** Texts with ids of one length agree only if id and outcome do, as far as the outcome reaches. */
  lemma TextStart(a: string, outcome: string, m: string, e: string, o: string,
                  b: string, outcome': string, m': string, e': string, o': string)
    requires |a| == |b| && outcome != "" && outcome' != ""
    requires Text4(a, outcome, m, e, o) == Text4(b, outcome', m', e', o')
    ensures a == b && outcome[0] == outcome'[0]
  {
    var s, t := Text4(a, outcome, m, e, o), Text4(b, outcome', m', e', o');
    var k := |KIND|;
    assert a == s[k..k + |a|] && b == t[k..k + |a|];
    var n := k + |a| + |OUTCOME|;
    assert s[n] == outcome[0] && t[n] == outcome'[0];
  }

  lemma TextEnd(id: string, outcome: string, m: string, e: string, o: string, e': string, o': string)
    requires Text4(id, outcome, m, e, o) == Text4(id, outcome, m, e', o')
    requires forall i | 0 <= i < |e| :: DecimalDigit(e[i])
    requires forall i | 0 <= i < |e'| :: DecimalDigit(e'[i])
    ensures e == e' && o == o'
  {
    var head := KIND + id + OUTCOME + outcome + m;
    var x, y := STDOUT + o + END, STDOUT + o' + END;
    assert Text4(id, outcome, m, e, o) == head + (e + x);
    assert Text4(id, outcome, m, e', o') == head + (e' + y);
    assert (head + (e + x))[|head|..] == e + x && (head + (e' + y))[|head|..] == e' + y;
    DigitsEnd(e, e', x, y);
    assert o == x[|STDOUT|..|x| - |END|] && o' == y[|STDOUT|..|y| - |END|];
  }

  lemma CompletedMiddle(r: Record)
    requires r.Completed()
    ensures MiddleOf(r) == SuccessMiddle()
  {
    assert Decimal(0) == "0";
  }

  /** The records `Collect` leaves: output only with success, and then the text of some bytes. */
  ghost predicate Collected(r: Record, bytes: seq<byte>) {
    |bytes| <= MAX_OUTPUT && r.output == if r.Completed() then Encode(bytes) else ""
  }

  lemma CollectedIsWritable(r: Record, bytes: seq<byte>)
    requires Collected(r, bytes)
    ensures |r.output| <= 5464 && AllAscii(r.output)
  {
    EncodedLength(bytes);
    EncodedText(bytes);
    if r.Completed() {
      var n: nat :| TextSplit(r.output, |r.output|, n);
      forall i | 0 <= i < |r.output| ensures r.output[i] < 0x80 as char {
        assert i < n ==> DigitValue(r.output[i]).Some?;
      }
    }
  }

  lemma CompletedIsAccepted(r: Record, bytes: seq<byte>)
    requires Writable(r) && Collected(r, bytes) && r.Completed() && r.elapsed < 40000
    ensures ReceiptIs(Json(r), r.runId, Decimal(r.elapsed), r.output)
  {
    CompletedMiddle(r);
    DecimalFacts(r.elapsed);
    Powers();
    DecimalLength(r.elapsed, 5);
    RoundTrip(bytes);
    EncodedLength(bytes);
    EncodedText(bytes);
    var n: nat :| TextSplit(r.output, |r.output|, n);
    assert TextSplit(r.output, 5464, n);
  }

  lemma AcceptedIsCompleted(r: Record, bytes: seq<byte>, id: string, elapsed: string, output: string)
    requires Writable(r) && Collected(r, bytes) && IsRunId(id) && ReceiptIs(Json(r), id, elapsed, output)
    ensures r.Completed() && r.runId == id && r.elapsed < 40000
    ensures Decode(output) == Some(bytes) && DecimalValue(elapsed) == r.elapsed
  {
    TextStart(r.runId, if r.Completed() then "Completed" else "Failed", MiddleOf(r), Decimal(r.elapsed), Embedded(r),
              id, "Completed", SuccessMiddle(), elapsed, output);
    CompletedMiddle(r);
    DecimalFacts(r.elapsed);
    RoundTrip(bytes);
    TextEnd(id, "Completed", SuccessMiddle(), Decimal(r.elapsed), Embedded(r), elapsed, output);
  }

  /**
   * The controller accepts the text of a record exactly when the run completed within its
   * 40 seconds under that id; and the bytes it then decodes are the child's output.
   */
  lemma ReceiptExact(r: Record, bytes: seq<byte>, id: string)
    requires Writable(r) && Collected(r, bytes) && IsRunId(id)
    ensures CompletedReceipt(Json(r), id) <==> r.Completed() && r.runId == id && r.elapsed < 40000
    ensures forall elapsed: string, output: string | ReceiptIs(Json(r), id, elapsed, output) ::
              Decode(output) == Some(bytes) && DecimalValue(elapsed) == r.elapsed
  {
    hide Json, Decimal, DecimalValue, Decode, Text4, SuccessMiddle, StdoutText, IsRunId, Writable, Collected;
    JsonFits(r);
    if r.Completed() && r.runId == id && r.elapsed < 40000 {
      CompletedIsAccepted(r, bytes);
    }
    forall elapsed: string, output: string | ReceiptIs(Json(r), id, elapsed, output)
      ensures r.Completed() && r.runId == id && r.elapsed < 40000
      ensures Decode(output) == Some(bytes) && DecimalValue(elapsed) == r.elapsed
    {
      AcceptedIsCompleted(r, bytes, id, elapsed, output);
    }
  }

  /** The embedded text gives back the bytes if and only if the run completed, or there were none. */
  lemma EmbeddedDecodes(r: Record, bytes: seq<byte>)
    requires Collected(r, bytes)
    ensures Decode(Embedded(r)) == Some(bytes) <==> r.Completed() || bytes == []
  {
    RoundTrip(bytes);
  }
}
