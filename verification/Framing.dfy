/**
 * The line frames of NativeBoundaryHarness.cs: what the parent sends, what the worker
 * reads, the first line that comes back, and the one-shot challenge.
 */
module Framing {
  import opened Common
  import opened LaunchWorld
  import opened SyntheticPipe

  const NEWLINE: byte := 10
  const FRAME_LIMIT := 256
  const LINE_DEADLINE := 5000

  datatype FrameError =
    | FrameBound | PipeWrite | FrameRead | FrameAscii | FrameOversize
    | Pipe(trouble: Trouble) | OutputBound | EarlyPipeClose | FrameTimeout
    | JobQuery | ExitQuery | ChildResult | FinishTimeout | ChallengeFormat

  /** `Encoding.ASCII.GetBytes`: what is not ASCII becomes a question mark. */
  function AsciiBytes(s: string): (b: seq<byte>)
    ensures |b| == |s|
  {
    seq(|s|, i requires 0 <= i < |s| => if s[i] as int < 0x80 then s[i] as int else '?' as int)
  }

  /** `Child.Send`, when the write goes through: the bytes the worker will find in its pipe. */
  function Send(frame: string): Result<seq<byte>, FrameError> {
    var bytes := AsciiBytes(frame + "\n");
    if |bytes| <= FRAME_LIMIT then Ok(bytes) else Err(FrameBound)
  }

  predicate Printable(b: byte) { 32 <= b <= 126 }

  /** What a frame is on the wire: printable characters and the newline that ends them. */
  ghost predicate Frames(input: seq<byte>, n: nat) {
    n < |input| && input[n] == NEWLINE && forall i | 0 <= i < n :: Printable(input[i])
  }

  /** `Entry.ReadFrame`: `input` is all there will ever be in the pipe. */
  method ReadFrame(input: seq<byte>) returns (r: Result<string, FrameError>)
    ensures r.Ok? <==> exists n: nat :: n < FRAME_LIMIT && Frames(input, n)
    ensures forall n: nat | n < FRAME_LIMIT && Frames(input, n) :: r == Ok(AsciiText(input[..n]))
  {
    var s := "";
    while |s| < FRAME_LIMIT
      invariant |s| <= |input| && |s| <= FRAME_LIMIT && s == AsciiText(input[..|s|])
      invariant forall i | 0 <= i < |s| :: Printable(input[i])
      invariant forall n: nat | Frames(input, n) :: |s| <= n
    {
      if |s| == |input| {
        return Err(FrameRead);
      }
      var b := input[|s|];
      if b == NEWLINE {
        assert Frames(input, |s|);
        return Ok(s);
      }
      if !Printable(b) {
        return Err(FrameAscii);
      }
      s := s + [b as char];
    }
    return Err(FrameOversize);
  }

  /** A frame can be sent and comes back as it was. */
  ghost predicate Survives(frame: string, r: Result<string, FrameError>) {
    Send(frame).Ok? && r == Ok(frame)
  }

  predicate PrintableText(frame: string) {
    forall i | 0 <= i < |frame| :: 32 <= frame[i] as int <= 126
  }

  /** Parent to worker: `Send`, whatever follows it in the pipe, and `ReadFrame`. */
  method Exchange(frame: string, later: seq<byte>) returns (r: Result<string, FrameError>)
    ensures Survives(frame, r) <==> PrintableText(frame) && |frame| <= 255
    ensures Send(frame).Ok? <==> |frame| <= 255
  {
    var sent := Send(frame);
    if sent.Err? {
      return Err(sent.error);
    }
    var input := sent.value + later;
    r := ReadFrame(input);
    assert input[|frame|] == NEWLINE;
    if PrintableText(frame) {
      assert Frames(input, |frame|);
      assert AsciiText(input[..|frame|]) == frame;
    } else if r.Ok? {
      ghost var n: nat :| n < FRAME_LIMIT && Frames(input, n);
      ReadsPrintable(input, n);
    }
  }

  lemma ReadsPrintable(input: seq<byte>, n: nat)
    requires Frames(input, n)
    ensures PrintableText(AsciiText(input[..n]))
  {}

  // ----- the first line that comes back -----

  /** The first line of a whole stream. */
  function FirstLineOf(all: seq<byte>): Option<string> {
    var text := AsciiText(all);
    var end := Find(text, '\n');
    if end == |text| then None else Some(text[..end])
  }

  /** More bytes never change the first line once it is there. */
  lemma FirstLineStays(seen: seq<byte>, all: seq<byte>)
    requires seen <= all && FirstLineOf(seen).Some?
    ensures FirstLineOf(all) == FirstLineOf(seen)
  {
    var text, whole := AsciiText(seen), AsciiText(all);
    var end := Find(text, '\n');
    assert whole == text[..end] + "\n" + whole[end + 1..] by {
      assert whole[..end] == text[..end];
      assert whole[end] == '\n';
    }
    FindIs(whole, '\n', text[..end], whole[end + 1..]);
    assert whole[..end] == text[..end];
  }

  /** What an error says: a call that failed, too much output, a stream without a line, a wrong end, or too little time. */
  ghost predicate ErrorTrue(e: FrameError, w: World, start: nat, expected: uint) {
    match e
    case Pipe(_) => w.notes.faulted
    case JobQuery => w.notes.faulted
    case ExitQuery => w.notes.faulted
    case PipeWrite => w.notes.faulted
    case OutputBound => |w.out.consumed| > LIMIT || |w.err.consumed| > LIMIT
    case EarlyPipeClose => w.out.Ended() && FirstLineOf(w.out.Written()).None?
    case ChildResult => w.exited && w.members == {} && (w.exitCode != expected || w.err.Written() != [])
    case FrameTimeout => w.clock >= start + LINE_DEADLINE
    case FinishTimeout => w.clock >= start + LINE_DEADLINE
    case _ => false
  }

  /** `Child.Drain`: both pipes, and neither may have let bytes go. */
  method DrainBoth(os: Os, output: PipeBuffer, error: PipeBuffer) returns (r: Result<(), FrameError>)
    requires output.os == os && error.os == os && output.which == Stdout && error.which == Stderr
    requires output.Valid() && error.Valid() && output.scratch != error.scratch
    modifies os, output, error, output.scratch, error.scratch
    ensures output.Valid() && error.Valid() && Onward(old(os.w), os.w)
    ensures r.Ok? ==> !output.exceeded && !error.exceeded && BothReadOn(old(os.w), os.w, PIECES)
    ensures r.Err? ==> (r.error.Pipe? && os.w.notes.faulted)
                       || (r.error.OutputBound? && (|os.w.out.consumed| > LIMIT || |os.w.err.consumed| > LIMIT))
  {
    hide Reads, Onward, Later, ClosedAsTold, Kept, Drained, ReadOn, BothReadOn;
    ghost var before := os.w;
    var first := output.Drain();
    ghost var between := os.w;
    OnlyReads(Stdout, before, between);
    OtherUntouched(Stdout, Stderr, error.closed, before, between, first.Ok?);
    OneDrained(Stdout, before.notes, between.notes, first.Ok?);
    if first.Err? {
      return Err(Pipe(first.error));
    }
    var second := error.Drain();
    OnlyReads(Stderr, between, os.w);
    OtherUntouched(Stderr, Stdout, output.closed, between, os.w, second.Ok?);
    OneDrained(Stderr, between.notes, os.w.notes, second.Ok?);
    OnwardComposes(before, between, os.w);
    if second.Err? {
      return Err(Pipe(second.error));
    }
    ReadBothInTurn(before, between, os.w, PIECES);
    r := if output.exceeded || error.exceeded then Err(OutputBound) else Ok(());
  }

  /** One turn of the loop in `FirstLine`. */
  method LookForLine(os: Os, output: PipeBuffer, error: PipeBuffer) returns (r: Result<Option<string>, FrameError>)
    requires output.os == os && error.os == os && output.which == Stdout && error.which == Stderr
    requires output.Valid() && error.Valid() && output.scratch != error.scratch
    modifies os, output, error, output.scratch, error.scratch
    ensures output.Valid() && error.Valid() && Onward(old(os.w), os.w)
    ensures r.Ok? ==> FirstLineOf(os.w.out.consumed) == r.value && BothReadOn(old(os.w), os.w, PIECES)
    ensures r.Err? ==> !r.error.FrameTimeout? && forall start: nat, expected: uint :: ErrorTrue(r.error, os.w, start, expected)
  {
    hide Onward, Later, BothReadOn;
    var drained := DrainBoth(os, output, error);
    if drained.Err? {
      return Err(drained.error);
    }
    var text := output.Text();
    var end := Find(text, '\n');
    if end < |text| {
      return Ok(Some(text[..end]));
    }
    assert os.w.out.Ended() ==> os.w.out.Written() == os.w.out.consumed;
    r := if output.closed then Err(EarlyPipeClose) else Ok(None);
  }

  /**
   * `Child.FirstLine`. However the stream was cut into reads, what is returned is the first
   * line of everything the child has written or ever will.
   */
  method FirstLine(os: Os, output: PipeBuffer, error: PipeBuffer) returns (r: Result<string, FrameError>)
    requires output.os == os && error.os == os && output.which == Stdout && error.which == Stderr
    requires output.Valid() && error.Valid() && output.scratch != error.scratch
    modifies os, output, error, output.scratch, error.scratch
    ensures output.Valid() && error.Valid() && old(os.w).clock <= os.w.clock
    ensures r.Ok? ==> forall all: seq<byte> | os.w.out.consumed <= all :: FirstLineOf(all) == Some(r.value)
    ensures r.Err? ==> ErrorTrue(r.error, os.w, old(os.w).clock, 0)
  {
    hide FirstLineOf;
    ghost var first := os.w;
    var start := os.Milliseconds();
    while true
      invariant output.Valid() && error.Valid() && first.clock <= start <= os.w.clock
      decreases start + LINE_DEADLINE - os.w.clock
    {
      var look := LineInTime(os, output, error, start);
      if look.Err? {
        TimedOutSince(look.error, os.w, start, first.clock, 0);
        return Err(look.error);
      }
      if look.value.Some? {
        forall all: seq<byte> | os.w.out.consumed <= all ensures FirstLineOf(all) == look.value {
          FirstLineStays(os.w.out.consumed, all);
        }
        return Ok(look.value.value);
      }
    }
  }

  /** A look for the line while there is time, and the pause behind it. */
  method LineInTime(os: Os, output: PipeBuffer, error: PipeBuffer, start: nat) returns (r: Result<Option<string>, FrameError>)
    requires output.os == os && error.os == os && output.which == Stdout && error.which == Stderr
    requires output.Valid() && error.Valid() && output.scratch != error.scratch
    modifies os, output, error, output.scratch, error.scratch
    ensures output.Valid() && error.Valid() && old(os.w).clock <= os.w.clock
    ensures r.Ok? ==> FirstLineOf(os.w.out.consumed) == r.value && BothReadOn(old(os.w), os.w, PIECES)
    ensures r == Ok(None) ==> old(os.w).clock < start + LINE_DEADLINE && old(os.w).clock < os.w.clock
    ensures r.Err? ==> ErrorTrue(r.error, os.w, start, 0)
  {
    hide Onward, Later, ErrorTrue, FirstLineOf, BothReadOn;
    ghost var first := os.w;
    ghost var before := os.w;
    var now := os.Milliseconds();
    OnwardIsLater(before, os.w);
    if now - start >= LINE_DEADLINE {
      TimedOut(os.w, start, 0);
      return Err(FrameTimeout);
    }
    before := os.w;
    r := LookForLine(os, output, error);
    ghost var looked := os.w;
    OnwardIsLater(before, looked);
    if r == Ok(None) {
      os.Sleep(5);
      OnwardIsLater(looked, os.w);
    }
    if r.Ok? {
      BothReadOnWithin(first, before, looked, os.w, PIECES);
    }
  }

  lemma TimedOut(w: World, start: nat, expected: uint)
    requires w.clock >= start + LINE_DEADLINE
    ensures ErrorTrue(FrameTimeout, w, start, expected) && ErrorTrue(FinishTimeout, w, start, expected)
  {}

  // ----- the end of the child -----

  /** The child is gone, its job empty, and what was kept is all it ever wrote; on stderr that is nothing. */
  ghost predicate Finished(w: World, text: string, expected: uint) {
    && w.exited && w.exitCode == expected && w.members == {}
    && w.out.Ended() && w.err.Ended()
    && text == AsciiText(w.out.Written()) && w.err.Written() == []
  }

  lemma StillExited(w: World, next: World)
    requires Onward(w, next)
    ensures w.exited ==> next.exited && next.exitCode == w.exitCode
    ensures w.members == {} ==> next.members == {}
  {}

  /** The condition of the loop in `Finish`, tested in this order. */
  method HasEnded(os: Os, output: PipeBuffer, error: PipeBuffer) returns (r: Result<bool, FrameError>)
    requires output.os == os && error.os == os && output.which == Stdout && error.which == Stderr
    requires output.Valid() && error.Valid()
    modifies os
    ensures Evolves(old(os.w), os.w)
    ensures r == Ok(true) ==> os.w.exited && os.w.members == {} && output.closed && error.closed
    ensures r.Err? ==> r.error.JobQuery? && os.w.notes.faulted
    ensures r == Ok(false) && !os.w.notes.faulted ==>
              !old(os.w).exited || os.w.members != {} || !output.closed || !error.closed
  {
    hide Onward, Later, Evolves, ClosedAsTold;
    ghost var first := os.w;
    var waited, exited := os.Exited();
    ghost var second := os.w;
    EvolvesOn(first, first, second);
    StillExited(first, second);
    StillAsTold(output.closed, Stdout, first, second);
    StillAsTold(error.closed, Stderr, first, second);
    if !waited || !exited {
      return Ok(false);
    }
    var asked, active := os.ActiveProcesses();
    EvolvesOn(first, second, os.w);
    StillExited(second, os.w);
    StillAsTold(output.closed, Stdout, second, os.w);
    StillAsTold(error.closed, Stderr, second, os.w);
    if !asked {
      return Err(JobQuery);
    }
    r := Ok(active == 0 && output.closed && error.closed);
  }

  /** What `Finish` checks of a child that has ended. */
  method CheckEnd(os: Os, output: PipeBuffer, error: PipeBuffer, expected: uint) returns (r: Result<(), FrameError>)
    requires output.os == os && error.os == os && output.which == Stdout && error.which == Stderr
    requires output.Valid() && error.Valid() && !output.exceeded && !error.exceeded
    requires os.w.exited && os.w.members == {} && output.closed && error.closed
    modifies os
    ensures Evolves(old(os.w), os.w)
    ensures r.Ok? ==> Finished(os.w, output.Text(), expected)
    ensures r.Err? ==> !r.error.FinishTimeout? && forall start: nat :: ErrorTrue(r.error, os.w, start, expected)
  {
    var asked, code := os.GetExitCode();
    if !asked {
      return Err(ExitQuery);
    }
    if code != expected || error.Text() != "" {
      return Err(ChildResult);
    }
    assert os.w.out.Written() == os.w.out.consumed && os.w.err.Written() == os.w.err.consumed;
    return Ok(());
  }

  /** `Child.Finish`. */
  method Finish(os: Os, output: PipeBuffer, error: PipeBuffer, expected: uint) returns (r: Result<(), FrameError>)
    requires output.os == os && error.os == os && output.which == Stdout && error.which == Stderr
    requires output.Valid() && error.Valid() && output.scratch != error.scratch
    modifies os, output, error, output.scratch, error.scratch
    ensures output.Valid() && error.Valid()
    ensures r.Ok? ==> Finished(os.w, output.Text(), expected)
    ensures r.Err? ==> ErrorTrue(r.error, os.w, old(os.w).clock, expected)
  {
    ghost var first := os.w;
    var start := os.Milliseconds();
    while true
      invariant output.Valid() && error.Valid() && first.clock <= start <= os.w.clock
      decreases start + LINE_DEADLINE - os.w.clock
    {
      var turn := FinishInTime(os, output, error, expected, start);
      if turn.Err? {
        TimedOutSince(turn.error, os.w, start, first.clock, expected);
        return Err(turn.error);
      }
      if turn.value {
        return Ok(());
      }
    }
  }

  lemma TimedOutSince(e: FrameError, w: World, start: nat, first: nat, expected: uint)
    requires ErrorTrue(e, w, start, expected) && first <= start
    ensures ErrorTrue(e, w, first, expected)
  {}

  /** A turn while there is time, and the pause behind it. */
  method FinishInTime(os: Os, output: PipeBuffer, error: PipeBuffer, expected: uint, start: nat) returns (r: Result<bool, FrameError>)
    requires output.os == os && error.os == os && output.which == Stdout && error.which == Stderr
    requires output.Valid() && error.Valid() && output.scratch != error.scratch
    modifies os, output, error, output.scratch, error.scratch
    ensures output.Valid() && error.Valid() && old(os.w).clock <= os.w.clock
    ensures r == Ok(true) ==> Finished(os.w, output.Text(), expected)
    ensures r == Ok(false) ==> old(os.w).clock < start + LINE_DEADLINE && old(os.w).clock < os.w.clock
    ensures r.Ok? ==> BothReadOn(old(os.w), os.w, PIECES)
    ensures r.Err? ==> ErrorTrue(r.error, os.w, start, expected)
  {
    hide Onward, Later, ErrorTrue, Finished, BothReadOn;
    ghost var first := os.w;
    ghost var before := os.w;
    var now := os.Milliseconds();
    OnwardIsLater(before, os.w);
    if now - start >= LINE_DEADLINE {
      TimedOut(os.w, start, expected);
      return Err(FinishTimeout);
    }
    before := os.w;
    r := FinishTurn(os, output, error, expected);
    ghost var turned := os.w;
    if r == Ok(false) {
      os.Sleep(5);
      OnwardIsLater(turned, os.w);
    }
    if r.Ok? {
      BothReadOnWithin(first, before, turned, os.w, PIECES);
    }
  }

  method FinishTurn(os: Os, output: PipeBuffer, error: PipeBuffer, expected: uint) returns (r: Result<bool, FrameError>)
    requires output.os == os && error.os == os && output.which == Stdout && error.which == Stderr
    requires output.Valid() && error.Valid() && output.scratch != error.scratch
    modifies os, output, error, output.scratch, error.scratch
    ensures output.Valid() && error.Valid() && old(os.w).clock <= os.w.clock
    ensures r == Ok(true) ==> Finished(os.w, output.Text(), expected)
    ensures r.Ok? ==> BothReadOn(old(os.w), os.w, PIECES)
    ensures r.Err? ==> forall start: nat :: ErrorTrue(r.error, os.w, start, expected)
  {
    hide Onward, Later, Finished, BothReadOn;
    ghost var first := os.w;
    var drained := DrainBoth(os, output, error);
    ghost var second := os.w;
    OnwardIsLater(first, second);
    if drained.Err? {
      return Err(drained.error);
    }
    r := HasEnded(os, output, error);
    ghost var third := os.w;
    OnwardIsLater(second, third);
    if r == Ok(true) {
      var checked := CheckEnd(os, output, error, expected);
      OnwardIsLater(third, os.w);
      BothReadOnWithin(first, first, second, third, PIECES);
      BothReadOnWithin(first, first, third, os.w, PIECES);
      if checked.Err? {
        r := Err(checked.error);
      }
    } else if r.Ok? {
      BothReadOnWithin(first, first, second, third, PIECES);
    }
  }

  // ----- the one-shot challenge -----

  class Challenge {
    const nonce: string
    var used: bool

    constructor (nonce: string)
      ensures this.nonce == nonce && !used
    {
      this.nonce := nonce;
      used := false;
    }

    /** `Entry.Accept`. */
    method Accept(frame: string) returns (accepted: bool)
      modifies this
      ensures accepted == (!old(used) && frame == "ACK:" + nonce)
      ensures used == (old(used) || accepted)
    {
      if used || frame != "ACK:" + nonce {
        return false;
      }
      used := true;
      return true;
    }

    /** Any sequence of frames: only the first that answers the challenge is admitted. */
    method AcceptEach(frames: seq<string>) returns (admitted: seq<bool>)
      requires !used
      modifies this
      ensures |admitted| == |frames|
      ensures forall i | 0 <= i < |frames| ::
                admitted[i] <==> frames[i] == "ACK:" + nonce && "ACK:" + nonce !in frames[..i]
      ensures used <==> "ACK:" + nonce in frames
    {
      admitted := [];
      for index := 0 to |frames|
        invariant |admitted| == index && (used <==> "ACK:" + nonce in frames[..index])
        invariant forall i | 0 <= i < index ::
                    admitted[i] <==> frames[i] == "ACK:" + nonce && "ACK:" + nonce !in frames[..i]
      {
        assert frames[..index + 1] == frames[..index] + [frames[index]];
        var accepted := Accept(frames[index]);
        admitted := admitted + [accepted];
      }
      assert frames[..|frames|] == frames;
    }
  }

  // ----- case NB-006 -----

  datatype Mode = Echo | EchoWrong | EchoReplay

  predicate IsHex(s: string) {
    forall i | 0 <= i < |s| :: ('0' <= s[i] <= '9') || ('a' <= s[i] <= 'f')
  }

  /** What the worker says to a challenge, or `None` when it refuses the frame. */
  function Reply(mode: Mode, s: string): Option<string> {
    if |s| != 32 || !IsHex(s) then None else
      var said := if mode.EchoWrong? then [if s[0] == '0' then '1' else '0'] + s[1..] else s;
      Some("ACK:" + said + "\n" + if mode.EchoReplay? then "ACK:" + said + "\n" else "")
  }

  /** `Split('\n')`. */
  function SplitLines(text: string): (lines: seq<string>)
    ensures lines != []
    decreases |text|
  {
    var end := Find(text, '\n');
    if end == |text| then [text] else [text[..end]] + SplitLines(text[end + 1..])
  }

  lemma SplitLine(line: string, rest: string)
    requires '\n' !in line
    ensures SplitLines(line + "\n" + rest) == [line] + SplitLines(rest)
  {
    var text := line + "\n" + rest;
    FindIs(text, '\n', line, rest);
    assert text[..|line|] == line && text[|line| + 1..] == rest;
  }

  /** The worker of the case: the frame it reads, and what it says to it. */
  method EchoWorker(mode: Mode, input: seq<byte>) returns (r: Result<string, FrameError>)
    ensures forall n: nat | n < FRAME_LIMIT && Frames(input, n) ::
              r == match Reply(mode, AsciiText(input[..n])) { case None => Err(ChallengeFormat) case Some(said) => Ok(said) }
  {
    var frame := ReadFrame(input);
    if frame.Err? {
      return Err(frame.error);
    }
    var said := Reply(mode, frame.value);
    r := if said.None? then Err(ChallengeFormat) else Ok(said.value);
  }

  /** The worker that is sent a nonce says the reply to that nonce. */
  lemma NonceArrives(nonce: string, later: seq<byte>)
    requires |nonce| == 32 && IsHex(nonce)
    ensures Send(nonce).Ok? && Frames(Send(nonce).value + later, 32)
    ensures AsciiText((Send(nonce).value + later)[..32]) == nonce
  {
    var input := Send(nonce).value + later;
    assert input[32] == NEWLINE;
    assert AsciiText(input[..32]) == nonce;
  }

  /** The lines each mode must come back with. */
  predicate Answers(mode: Mode, lines: seq<string>, nonce: string) {
    match mode
    case Echo => |lines| == 2 && lines[1] == "" && lines[0] == "ACK:" + nonce
    case EchoWrong => |lines| == 2 && lines[1] == "" && lines[0] != "ACK:" + nonce
    case EchoReplay => |lines| == 3 && lines[2] == "" && lines[0] == "ACK:" + nonce
  }

  /** The parent's checks on all that came back. */
  method CheckReplies(mode: Mode, text: string, challenge: Challenge) returns (passed: bool)
    requires !challenge.used
    modifies challenge
    ensures passed <==> Answers(mode, SplitLines(text), challenge.nonce)
    ensures passed ==> challenge.used == !mode.EchoWrong?
  {
    var frames := SplitLines(text);
    if |frames| != (if mode.EchoReplay? then 3 else 2) || frames[|frames| - 1] != "" {
      return false;
    }
    var accepted := challenge.Accept(frames[0]);
    if mode.EchoWrong? {
      return !accepted && !challenge.used;
    }
    if !accepted {
      return false;
    }
    passed := true;
    if mode.EchoReplay? {
      var replayed := challenge.Accept(frames[1]);
      passed := !replayed;
    }
  }

  /**
   * One mode of the case. When it gets to its verdict, that is a verdict on everything the
   * child wrote before it ended; and a child that wrote the reply to the nonce passes.
   */
  method RunChallenge(os: Os, output: PipeBuffer, error: PipeBuffer, mode: Mode, nonce: string)
    returns (r: Result<bool, FrameError>)
    requires output.os == os && error.os == os && output.which == Stdout && error.which == Stderr
    requires output.Valid() && error.Valid() && output.scratch != error.scratch
    requires |nonce| == 32 && IsHex(nonce)
    modifies os, output, error, output.scratch, error.scratch
    ensures r.Ok? ==> Finished(os.w, AsciiText(os.w.out.Written()), 0)
    ensures r.Err? ==> ErrorTrue(r.error, os.w, old(os.w).clock, 0)
    ensures r.Ok? ==> (r.value <==> Answers(mode, SplitLines(AsciiText(os.w.out.Written())), nonce))
    ensures r.Ok? && AsciiText(os.w.out.Written()) == Reply(mode, nonce).value ==> r.value
  {
    NonceArrives(nonce, []);
    var written := os.Attempt();
    if !written {
      return Err(PipeWrite);
    }
    var first := FirstLine(os, output, error);
    if first.Err? {
      return Err(first.error);
    }
    var finished := Finish(os, output, error, 0);
    if finished.Err? {
      return Err(finished.error);
    }
    var challenge := new Challenge(nonce);
    var passed := CheckReplies(mode, output.Text(), challenge);
    RepliesSplit(mode, nonce);
    r := Ok(passed);
  }

  lemma RepliesSplit(mode: Mode, nonce: string)
    requires |nonce| == 32 && IsHex(nonce)
    ensures Answers(mode, SplitLines(Reply(mode, nonce).value), nonce)
  {
    var said := if mode.EchoWrong? then [if nonce[0] == '0' then '1' else '0'] + nonce[1..] else nonce;
    var line := "ACK:" + said;
    assert line[4] == said[0] && ("ACK:" + nonce)[4] == nonce[0];
    AnswerLine(said, "");
    if mode.EchoReplay? {
      AnswerLine(said, line + "\n");
    }
  }

  lemma AnswerLine(said: string, rest: string)
    requires '\n' !in said
    ensures SplitLines("ACK:" + said + "\n" + rest) == ["ACK:" + said] + SplitLines(rest)
    ensures SplitLines("ACK:" + said + "\n") == ["ACK:" + said, ""]
  {
    SplitLine("ACK:" + said, rest);
    SplitLine("ACK:" + said, "");
    assert "ACK:" + said + "\n" + "" == "ACK:" + said + "\n";
  }
}
