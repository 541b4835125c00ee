/**
 * `Program.Run` of SyntheticLaunchHarness.cs: one synthetic child run to an outcome and
 * cleaned up, with the verdict whether the outcome is the expected one.
 */
module SyntheticLaunch {
  import opened Common
  import opened LaunchWorld
  import opened SyntheticPipe

  datatype Outcome =
    | Error | CancelledBeforeCreate | InjectedBeforeResume
    | StdoutLimit | StderrLimit | Cancelled | Timeout
    | DescendantsAfterParentExit | Completed | NonZeroExit | OutputMismatch
    | CleanupFailed

  datatype Report = Report(
    outcome: Outcome,
    created: bool, resumed: bool, effectiveStandard: bool,
    rootExited: bool, jobEmpty: bool, pipesClosed: bool, bounded: bool,
    treeObserved: bool, passed: bool,
    exitCode: Option<uint>)

  const INITIAL := Report(Error, false, false, false, false, false, false, true, false, false, None)

  class Run {
    var r: Report

    constructor ()
      ensures r == INITIAL
    {
      r := INITIAL;
    }
  }

  const DEADLINE := 4000
  const READY_GRACE := 300
  const CLEANUP := 3000

  const CHECKED_LAUNCH := [Created, Membership(true), Identity(true), Resumed]

  datatype Mode = Normal | NonZero | FloodOut | FloodErr | TimeoutTree | CancelTree | LeaveTree {
    /** `mode.EndsWith("tree")` */
    predicate IsTree() { TimeoutTree? || CancelTree? || LeaveTree? }
  }

  /** The lines that the harness and its child have agreed on. */
  datatype Lines = Lines(ready: string, leaf: string, out: string, err: string)

  const CHILD_LINES := Lines("READY\n", "LEAF\n", "OUT\n", "ERR\n")

  predicate Shows(b: seq<byte>, line: string) { Occurs(AsciiText(Kept(b)), line) }

  /** The line is somewhere in the first 4096 bytes. */
  ghost predicate SaidWithin(b: seq<byte>, line: string, at: nat) {
    at + |line| <= |b| && at + |line| <= 4096 && Says(b[at..at + |line|], line)
  }

  lemma ShowsExact(b: seq<byte>, line: string)
    requires PlainAscii(line)
    ensures Shows(b, line) <==> exists at: nat | at <= |b| :: SaidWithin(b, line, at)
  {
    var kept := Kept(b);
    forall at: nat | at <= |b| ensures SaidWithin(b, line, at) <==> OccursAt(AsciiText(kept), line, at) {
      if at + |line| <= |kept| {
        assert AsciiText(kept)[at..at + |line|] == AsciiText(b[at..at + |line|]);
        AsciiTextExact(b[at..at + |line|], line);
      }
    }
  }

  lemma ChildLinesArePlain()
    ensures PlainAscii(CHILD_LINES.ready) && PlainAscii(CHILD_LINES.leaf)
    ensures PlainAscii(CHILD_LINES.out) && PlainAscii(CHILD_LINES.err)
  {}

  // ----- what an outcome says about the child -----

  /** Some job count showed two processes, or one although the root has exited. */
  ghost predicate Crowded(w: World) {
    exists k | 0 <= k < |w.notes.polled| :: w.notes.polled[k] >= 2 || (w.notes.polled[k] == 1 && w.exited)
  }

  /** The tree handshake really came from the child's output, and the job really had another process. */
  ghost predicate TreeTrue(tree: bool, w: World, lines: Lines) {
    tree ==> Shows(w.out.consumed, lines.ready) && Shows(w.out.consumed, lines.leaf) && Crowded(w)
  }

  ghost predicate FlagsTrue(r: Report, w: World, lines: Lines) {
    && TreeTrue(r.treeObserved, w, lines)
    && (r.exitCode.Some? ==> w.exited && w.exitCode == r.exitCode.value)
    && (r.rootExited ==> w.exited)
    && (r.jobEmpty ==> w.members == {})
    && (r.pipesClosed ==> w.out.Ended() && w.err.Ended())
  }

  /** The line had been read when the launcher looked at the clock, at least so long ago. */
  ghost predicate ShownFor(w: World, line: string, milliseconds: nat) {
    exists reading | reading in w.notes.readings :: Shows(reading.seen, line) && w.clock >= reading.clock + milliseconds
  }

  /** READY had been read at that reading of the clock. */
  ghost predicate ShownAt(w: World, line: string, clock: int) {
    exists reading | reading in w.notes.readings :: Shows(reading.seen, line) && reading.clock == clock
  }

  /** A poll outcome is a fact about the child, the streams or the time since the child was resumed. */
  ghost predicate Truthful(outcome: Outcome, mode: Mode, lines: Lines, tree: bool, w: World) {
    match outcome
    case StdoutLimit => |w.out.consumed| > LIMIT
    case StderrLimit => |w.err.consumed| > LIMIT
    case Cancelled => mode == CancelTree && tree
    case Timeout => w.clock >= w.resumedAt + DEADLINE || (mode == TimeoutTree && ShownFor(w, lines.ready, READY_GRACE))
    case DescendantsAfterParentExit => w.exited && LeftBehind(w) && (mode != LeaveTree || tree)
    case Completed =>
      && EndedCleanly(w) && LeftAlone(mode, tree, w) && w.exitCode == 0
      && (mode == Normal ==> AsciiText(w.out.Written()) == lines.out && AsciiText(w.err.Written()) == lines.err)
    case NonZeroExit =>
      && EndedCleanly(w) && LeftAlone(mode, tree, w) && w.exitCode != 0
      && (mode == Normal ==> AsciiText(w.out.Written()) == lines.out && AsciiText(w.err.Written()) == lines.err)
    case OutputMismatch =>
      && EndedCleanly(w) && LeftAlone(mode, tree, w) && mode == Normal
      && (AsciiText(w.out.Written()) != lines.out || AsciiText(w.err.Written()) != lines.err)
    case _ => true
  }

  ghost predicate EndedCleanly(w: World) {
    w.exited && w.out.Ended() && w.err.Ended() && |w.out.Written()| <= LIMIT && |w.err.Written()| <= LIMIT
  }

  /** The job had no process left at the last count before the stop, or a tree that had yet to be seen. */
  ghost predicate LeftAlone(mode: Mode, tree: bool, w: World) {
    w.notes.LastCount() == Some(0) || (mode == LeaveTree && !tree)
  }

  /** It still had one. */
  ghost predicate LeftBehind(w: World) { w.notes.LastCount().Some? && w.notes.LastCount().value > 0 }

  lemma ShowsMore(b: seq<byte>, more: seq<byte>, line: string)
    requires b <= more && Shows(b, line)
    ensures Shows(more, line)
  {
    var s, t := AsciiText(Kept(b)), AsciiText(Kept(more));
    assert Kept(b) <= Kept(more);
    assert s == t[..|s|];
    var at: nat :| at <= |s| && OccursAt(s, line, at);
    assert t[at..at + |line|] == s[at..at + |line|];
    assert OccursAt(t, line, at);
  }

  lemma StillShown(tree: bool, w: World, next: World, lines: Lines)
    requires Later(w, next) && TreeTrue(tree, w, lines)
    ensures TreeTrue(tree, next, lines)
  {
    if tree {
      ShowsMore(w.out.consumed, next.out.consumed, lines.ready);
      ShowsMore(w.out.consumed, next.out.consumed, lines.leaf);
      var k :| 0 <= k < |w.notes.polled| && (w.notes.polled[k] >= 2 || (w.notes.polled[k] == 1 && w.exited));
      assert next.notes.polled[k] == w.notes.polled[k];
    }
  }

  lemma StillTruthful(outcome: Outcome, mode: Mode, lines: Lines, tree: bool, w: World, next: World)
    requires Truthful(outcome, mode, lines, tree, w) && Later(w, next) && next.notes.polled == w.notes.polled
    ensures Truthful(outcome, mode, lines, tree, next)
  {
    if outcome == Timeout && ShownFor(w, lines.ready, READY_GRACE) {
      var reading :| reading in w.notes.readings && Shows(reading.seen, lines.ready) && w.clock >= reading.clock + READY_GRACE;
      assert reading in next.notes.readings;
    }
  }

  // ----- the calls -----

  /** How the guarded part ends: normally, at the injected fault, or at any other. */
  datatype Status = Fine | Injected | Failed {
    predicate IsFailure() { !Fine? }

    function PropagateFailure(): Status
      requires IsFailure()
    {
      this
    }
  }

  function Check(ok: bool): Status { if ok then Fine else Failed }

  ghost predicate Paired(os: Os, output: PipeBuffer, error: PipeBuffer) {
    && output != error && output.os == error.os == os && output.which == Stdout && error.which == Stderr
    && output.scratch != error.scratch
  }

  method DrainBoth(os: Os, output: PipeBuffer, error: PipeBuffer) returns (st: Status)
    requires Paired(os, output, error) && output.Valid() && error.Valid()
    modifies os, output, error, output.scratch, error.scratch
    ensures output.Valid() && error.Valid()
    ensures Onward(old(os.w), os.w) && PipesNoted(old(os.w).notes, os.w.notes, st.Fine?)
    ensures st.Fine? ==> BothReadOn(old(os.w), os.w, PIECES)
    ensures !st.Injected?
  {
    hide Reads, Onward, Later, ClosedAsTold, Kept, Drained, PipesNoted, ReadOn, BothReadOn;
    ghost var before := os.w;
    var first := output.Drain();
    OnlyReads(Stdout, before, os.w);
    if first.Err? {
      OtherUntouched(Stdout, Stderr, error.closed, before, os.w, false);
      OneDrained(Stdout, before.notes, os.w.notes, false);
      return Failed;
    }
    ghost var between := os.w;
    OtherUntouched(Stdout, Stderr, error.closed, before, between, true);
    var second := error.Drain();
    OnlyReads(Stderr, between, os.w);
    OtherUntouched(Stderr, Stdout, output.closed, between, os.w, second.Ok?);
    BothDrained(before.notes, between.notes, os.w.notes, second.Ok?);
    OnwardComposes(before, between, os.w);
    if second.Ok? {
      ReadBothInTurn(before, between, os.w, PIECES);
    }
    st := Check(second.Ok?);
  }

  /** Job first, then root: the order of this harness. */
  method Sample(os: Os) returns (st: Status, active: nat, exited: bool)
    modifies os
    ensures Evolves(old(os.w), os.w)
    ensures st.Fine? ==> exited == os.w.exited && os.w.notes == old(os.w).notes.Counted(active).(rootEnded := exited)
    ensures st.Fine? && active == 0 ==> os.w.members == {}
    ensures st.Failed? ==> os.w.notes.faulted
    ensures !st.Injected?
  {
    st, active, exited := Fine, 0, false;
    var ok;
    ok, active := os.ActiveProcesses();
    if !ok {
      return Failed, active, false;
    }
    ok, exited := os.Exited();
    st := Check(ok);
  }

  /** The three pipes and the two buffers. */
  method OpenPipes(os: Os) returns (st: Status, output: PipeBuffer?, error: PipeBuffer?)
    requires os.w.out.consumed == [] && os.w.err.consumed == [] && os.w.notes.broken == {}
    modifies os
    ensures Evolves(old(os.w), os.w)
    ensures st.Fine? <==> output != null
    ensures st.Fine? <==> error != null
    ensures os.w.notes == old(os.w).notes.Fail(st.Fine?)
    ensures st.Fine? || st.Failed?
    ensures st.Fine? ==> fresh({output, error, output.scratch, error.scratch})
    ensures st.Fine? ==> Paired(os, output, error) && output.Valid() && error.Valid() && !output.closed && !error.closed
  {
    st, output, error := Fine, null, null;
    var made := os.Attempt();
    :- Check(made);
    output := new PipeBuffer(os, Stdout);
    error := new PipeBuffer(os, Stderr);
  }

  /** A call failed, or the child was not the one that was wanted. */
  predicate Refused(w: World) {
    w.notes.faulted || Membership(false) in w.trace || Identity(false) in w.trace
  }

  /** From the creation of the suspended child to its resumption. */
  method Launch(os: Os, run: Run, injected: bool) returns (st: Status, process: bool)
    requires os.w.trace == [] && os.w.members == {} && run.r == INITIAL
    modifies os, run
    ensures old(os.w).clock <= os.w.clock
    ensures os.w.out.consumed == old(os.w).out.consumed && os.w.err.consumed == old(os.w).err.consumed
    ensures run.r == INITIAL.(created := process, resumed := st.Fine?, effectiveStandard := run.r.effectiveStandard)
    ensures run.r.effectiveStandard <==> Identity(true) in os.w.trace
    ensures os.w.notes.broken == old(os.w).notes.broken && (old(os.w).notes.Calm() ==> os.w.notes.Calm())
    ensures st.Failed? ==> Refused(os.w)
    ensures process <==> Created in os.w.trace
    ensures st.Fine? ==> process && !injected && os.w.inJob && os.w.trace == CHECKED_LAUNCH && run.r.effectiveStandard
    ensures st.Fine? ==> os.w.resumedAt <= os.w.clock
    ensures !st.Fine? ==> Resumed !in os.w.trace
    ensures st.Injected? ==> injected && process && os.w.trace == CHECKED_LAUNCH[..3] && os.w.inJob
  {
    st, process := Fine, false;
    var prepared := os.Attempt();
    :- Check(prepared);
    var created := os.CreateProcess();
    :- Check(created);
    process := true;
    run.r := run.r.(created := true);
    st := Approve(os, run, injected);
  }

  /** The checks of the suspended child, and its resumption. */
  method Approve(os: Os, run: Run, injected: bool) returns (st: Status)
    requires os.w.trace == [Created] && run.r == INITIAL.(created := true)
    modifies os, run
    ensures old(os.w).clock <= os.w.clock
    ensures os.w.out.consumed == old(os.w).out.consumed && os.w.err.consumed == old(os.w).err.consumed
    ensures run.r == INITIAL.(created := true, resumed := st.Fine?, effectiveStandard := run.r.effectiveStandard)
    ensures run.r.effectiveStandard <==> Identity(true) in os.w.trace
    ensures os.w.notes.broken == old(os.w).notes.broken && (old(os.w).notes.Calm() ==> os.w.notes.Calm())
    ensures Created in os.w.trace
    ensures st.Failed? ==> Refused(os.w)
    ensures st.Fine? ==> !injected && os.w.inJob && os.w.trace == CHECKED_LAUNCH && os.w.resumedAt <= os.w.clock
    ensures !st.Fine? ==> Resumed !in os.w.trace
    ensures st.Injected? ==> injected && os.w.trace == CHECKED_LAUNCH[..3] && os.w.inJob
  {
    st := Fine;
    var ok, inJob := os.IsProcessInJob();
    :- Check(ok && inJob);
    var read, accepted := os.CheckIdentity();
    :- Check(read);
    run.r := run.r.(effectiveStandard := accepted);
    :- Check(accepted);
    if injected {
      st := Injected;
      return;
    }
    var resumed := os.ResumeThread();
    :- Check(resumed);
    run.r := run.r.(resumed := true);
  }

  // ----- the poll -----

  /** What one turn saw. */
  datatype Seen = Seen(active: nat, exited: bool, ready: bool, leaf: bool) {
    ghost predicate True(w: World, lines: Lines) {
      && (exited ==> w.exited) && w.notes.LastCount() == Some(active)
      && (ready ==> Shows(w.out.consumed, lines.ready))
      && (leaf ==> Shows(w.out.consumed, lines.leaf))
    }

    /** A Job count alone may include other processes; the leaf's own line must be there. */
    predicate Tree() { ready && leaf && (active >= 2 || (exited && active >= 1)) }
  }

  method Look(os: Os, lines: Lines, output: PipeBuffer, error: PipeBuffer) returns (st: Status, seen: Seen)
    requires Paired(os, output, error) && output.Valid() && error.Valid()
    modifies os, output, error, output.scratch, error.scratch
    ensures output.Valid() && error.Valid()
    ensures Onward(old(os.w), os.w)
    ensures st.Fine? && old(os.w).notes.Calm() ==> seen.True(os.w, lines) && seen.exited == os.w.exited
    ensures seen.ready <==> Shows(os.w.out.consumed, lines.ready)
    ensures seen.leaf <==> Shows(os.w.out.consumed, lines.leaf)
    ensures st.Fine? ==> BothReadOn(old(os.w), os.w, PIECES)
    ensures st.Failed? ==> os.w.notes.faulted
    ensures !st.Injected?
  {
    hide Onward, Later, BothReadOn;
    ghost var before := os.w;
    var active, exited := 0, false;
    st := DrainBoth(os, output, error);
    ghost var drained := os.w;
    if st.Fine? {
      st, active, exited := Sample(os);
      BothReadOnWithin(before, before, drained, os.w, PIECES);
      OnwardComposes(before, drained, os.w);
      OnwardIsLater(drained, os.w);
    }
    seen := Seen(active, exited, Occurs(output.Text(), lines.ready), Occurs(output.Text(), lines.leaf));
  }

  /** The two clock readings of the time test: the deadline, or the grace after READY. */
  method TimeUp(os: Os, mode: Mode, lines: Lines, start: nat, readyAt: int) returns (up: bool)
    requires os.w.resumedAt <= start <= os.w.clock
    requires readyAt >= 0 ==> ShownAt(os.w, lines.ready, start + readyAt)
    modifies os
    ensures Evolves(old(os.w), os.w) && os.w.notes.polled == old(os.w).notes.polled
    ensures up ==> os.w.clock >= os.w.resumedAt + DEADLINE || (mode == TimeoutTree && ShownFor(os.w, lines.ready, READY_GRACE))
    ensures !up ==> old(os.w).clock < start + DEADLINE
    ensures !up && mode == TimeoutTree && readyAt >= 0 ==> old(os.w).clock < start + readyAt + READY_GRACE
  {
    var elapsed := os.Milliseconds();
    up := elapsed - start >= DEADLINE;
    if !up && mode == TimeoutTree && readyAt >= 0 {
      elapsed := os.Milliseconds();
      up := elapsed - start - readyAt >= READY_GRACE;
      if up {
        GraceIsOver(old(os.w), os.w, lines.ready, start + readyAt);
      }
    }
  }

  lemma GraceIsOver(before: World, w: World, line: string, shown: int)
    requires ShownAt(before, line, shown) && before.notes.readings <= w.notes.readings && w.clock >= shown + READY_GRACE
    ensures ShownFor(w, line, READY_GRACE)
  {
    var reading :| reading in before.notes.readings && Shows(reading.seen, line) && reading.clock == shown;
    assert reading in w.notes.readings;
  }

  /** The outcome of a child that has exited, if it has one yet. */
  function AtExit(mode: Mode, lines: Lines, seen: Seen, tree: bool, closed: bool, code: uint, out: string, err: string)
    : Option<Outcome>
  {
    if seen.active > 0 && (mode != LeaveTree || tree) then Some(DescendantsAfterParentExit)
    else if !closed then None
    else if mode == Normal && (out != lines.out || err != lines.err) then Some(OutputMismatch)
    else Some(if code == 0 then Completed else NonZeroExit)
  }

  /** An outcome of a child that has exited by itself. */
  predicate EndOutcome(outcome: Outcome) {
    outcome in {DescendantsAfterParentExit, Completed, NonZeroExit, OutputMismatch}
  }

  predicate PollOutcome(outcome: Outcome) {
    outcome !in {Error, CancelledBeforeCreate, InjectedBeforeResume, CleanupFailed}
  }

  /** The exit code of a child that has exited, and the outcome it leads to. */
  method DecideAtExit(os: Os, mode: Mode, lines: Lines, output: PipeBuffer, error: PipeBuffer, seen: Seen, tree: bool)
    returns (st: Status, outcome: Option<Outcome>, exitCode: Option<uint>)
    requires Paired(os, output, error) && output.Valid() && error.Valid()
    requires !output.exceeded && !error.exceeded && seen.exited && seen.True(os.w, lines)
    modifies os
    ensures Evolves(old(os.w), os.w)
    ensures exitCode.Some? ==> os.w.exited && os.w.exitCode == exitCode.value
    ensures st.Fine? ==> exitCode.Some?
    ensures outcome.Some? ==> st.Fine? && EndOutcome(outcome.value) && Truthful(outcome.value, mode, lines, tree, os.w)
    // A child that is left with other processes, or that has closed both pipes, is not polled on.
    ensures st.Fine? && outcome.None? ==> LeftAlone(mode, tree, os.w) && !(output.closed && error.closed)
    ensures st.Failed? ==> os.w.notes.faulted
    ensures !st.Injected?
  {
    st, outcome, exitCode := Fine, None, None;
    var ok, code := os.GetExitCode();
    if !ok {
      st := Failed;
    } else {
      exitCode := Some(code);
      assert output.closed ==> Kept(os.w.out.consumed) == os.w.out.Written();
      assert error.closed ==> Kept(os.w.err.consumed) == os.w.err.Written();
      outcome := AtExit(mode, lines, seen, tree, output.closed && error.closed, code, output.Text(), error.Text());
    }
  }

  /** The tests of one turn, in order; `None` goes on polling. */
  method Decide(os: Os, mode: Mode, lines: Lines, output: PipeBuffer, error: PipeBuffer,
                start: nat, seen: Seen, readyAt: int, cancelled: bool, tree: bool)
    returns (st: Status, outcome: Option<Outcome>, exitCode: Option<uint>)
    requires Paired(os, output, error) && output.Valid() && error.Valid()
    requires os.w.resumedAt <= start <= os.w.clock && seen.True(os.w, lines)
    requires readyAt >= 0 ==> ShownAt(os.w, lines.ready, start + readyAt)
    requires cancelled ==> mode == CancelTree && tree
    modifies os
    ensures Evolves(old(os.w), os.w)
    ensures exitCode.Some? ==> os.w.exited && os.w.exitCode == exitCode.value
    ensures st.Fine? && outcome.None? ==> old(os.w).clock < start + DEADLINE
    ensures st.Fine? && outcome.Some? ==> PollOutcome(outcome.value) && Truthful(outcome.value, mode, lines, tree, os.w)
    ensures st.Fine? && outcome.Some? && EndOutcome(outcome.value) ==> exitCode.Some?
    // The order of the tests.
    ensures |os.w.out.consumed| > LIMIT ==> st.Fine? && outcome == Some(StdoutLimit)
    ensures |os.w.out.consumed| <= LIMIT < |os.w.err.consumed| ==> st.Fine? && outcome == Some(StderrLimit)
    ensures |os.w.out.consumed| <= LIMIT && |os.w.err.consumed| <= LIMIT ==>
              outcome != Some(StdoutLimit) && outcome != Some(StderrLimit) && (cancelled <==> outcome == Some(Cancelled))
    ensures st.Fine? && outcome.None? && seen.exited ==> LeftAlone(mode, tree, os.w) && !(output.closed && error.closed)
    ensures st.Failed? ==> os.w.notes.faulted
    ensures !st.Injected?
  {
    hide Later, Shows, ShownFor, ShownAt, TreeTrue;
    NothingHappened(os.w);
    st, outcome, exitCode := Fine, None, None;
    if output.exceeded {
      outcome := Some(StdoutLimit);
    } else if error.exceeded {
      outcome := Some(StderrLimit);
    } else if cancelled {
      outcome := Some(Cancelled);
    } else {
      st, outcome, exitCode := DecideByTime(os, mode, lines, output, error, start, seen, readyAt, tree);
    }
  }

  /** The test of the time, and for a child that has exited of its end. */
  method DecideByTime(os: Os, mode: Mode, lines: Lines, output: PipeBuffer, error: PipeBuffer,
                      start: nat, seen: Seen, readyAt: int, tree: bool)
    returns (st: Status, outcome: Option<Outcome>, exitCode: Option<uint>)
    requires Paired(os, output, error) && output.Valid() && error.Valid() && !output.exceeded && !error.exceeded
    requires os.w.resumedAt <= start <= os.w.clock && seen.True(os.w, lines)
    requires readyAt >= 0 ==> ShownAt(os.w, lines.ready, start + readyAt)
    modifies os
    ensures Evolves(old(os.w), os.w)
    ensures exitCode.Some? ==> os.w.exited && os.w.exitCode == exitCode.value
    ensures st.Fine? && outcome.None? ==> old(os.w).clock < start + DEADLINE
    ensures outcome.Some? ==> st.Fine? && Truthful(outcome.value, mode, lines, tree, os.w)
    ensures outcome.Some? ==> outcome.value == Timeout || EndOutcome(outcome.value)
    ensures outcome.Some? && EndOutcome(outcome.value) ==> exitCode.Some?
    ensures st.Fine? && outcome.None? && seen.exited ==> LeftAlone(mode, tree, os.w) && !(output.closed && error.closed)
    ensures st.Failed? ==> os.w.notes.faulted
    ensures !st.Injected?
  {
    hide Later, Onward, Evolves, ClosedAsTold, Shows, ShownAt;
    st, outcome, exitCode := Fine, None, None;
    ghost var first := os.w;
    var up := TimeUp(os, mode, lines, start, readyAt);
    ghost var timed := os.w;
    StillAsTold(output.closed, Stdout, first, timed);
    StillAsTold(error.closed, Stderr, first, timed);
    StillSeen(seen, first, timed, lines);
    if up {
      outcome := Some(Timeout);
    } else if seen.exited {
      st, outcome, exitCode := DecideAtExit(os, mode, lines, output, error, seen, tree);
      EvolvesComposes(first, timed, os.w);
    }
  }

  lemma StillSeen(seen: Seen, w: World, next: World, lines: Lines)
    requires seen.True(w, lines) && Evolves(w, next) && next.notes.polled == w.notes.polled
    ensures seen.True(next, lines)
  {
    hide Shows;
  }

  /** What the poll carries from turn to turn. */
  datatype Poll = Poll(tree: bool, readyAt: int, cancelled: bool, exitCode: Option<uint>) {
    ghost predicate True(mode: Mode, lines: Lines, w: World, start: nat) {
      && TreeTrue(tree, w, lines)
      && (readyAt >= 0 ==> ShownAt(w, lines.ready, start + readyAt))
      && (cancelled ==> mode == CancelTree && tree)
      && (exitCode.Some? ==> w.exited && w.exitCode == exitCode.value)
    }
  }

  lemma StillPolling(p: Poll, mode: Mode, lines: Lines, w: World, next: World, start: nat)
    requires p.True(mode, lines, w, start) && Later(w, next)
    ensures p.True(mode, lines, next, start)
  {
    StillShown(p.tree, w, next, lines);
    if p.readyAt >= 0 {
      var reading :| reading in w.notes.readings && Shows(reading.seen, lines.ready) && reading.clock == start + p.readyAt;
      assert reading in next.notes.readings;
    }
  }

  /** The time of the first READY, by the launcher's own reading of the clock. */
  method NoteReady(os: Os, mode: Mode, lines: Lines, start: nat, before: Poll) returns (p: Poll)
    requires before.True(mode, lines, os.w, start) && start <= os.w.clock
    requires before.readyAt < 0 && Shows(os.w.out.consumed, lines.ready)
    modifies os
    ensures Evolves(old(os.w), os.w) && os.w.notes.polled == old(os.w).notes.polled
    ensures p.True(mode, lines, os.w, start) && p == before.(readyAt := p.readyAt) && p.readyAt >= 0
  {
    var now := os.Milliseconds();
    p := before.(readyAt := now - start);
    assert Reading(now, os.w.out.consumed) in os.w.notes.readings;
  }

  /** The first half of a turn: drain, sample, and note the handshake. */
  method Notice(os: Os, mode: Mode, lines: Lines, output: PipeBuffer, error: PipeBuffer, start: nat, before: Poll)
    returns (st: Status, p: Poll, seen: Seen)
    requires Paired(os, output, error) && output.Valid() && error.Valid()
    requires before.True(mode, lines, os.w, start) && os.w.resumedAt <= start <= os.w.clock && os.w.notes.Calm()
    modifies os, output, error, output.scratch, error.scratch
    ensures output.Valid() && error.Valid()
    ensures Onward(old(os.w), os.w)
    ensures p.True(mode, lines, os.w, start)
    ensures st.Fine? ==> seen.True(os.w, lines) && Noted(before, p, seen, mode)
    ensures st.Fine? ==> BothReadOn(old(os.w), os.w, PIECES)
    ensures st.Failed? ==> os.w.notes.faulted
    ensures !st.Injected?
  {
    hide Onward, Later, Shows, BothReadOn;
    p := before;
    ghost var first := os.w;
    st, seen := Look(os, lines, output, error);
    ghost var looked := os.w;
    OnwardIsLater(first, looked);
    StillPolling(p, mode, lines, first, looked, start);
    if st.Fine? {
      p := Note(os, mode, lines, start, seen, p);
      BothReadOnWithin(first, first, looked, os.w, PIECES);
      OnwardComposes(first, looked, os.w);
      OnwardIsLater(looked, os.w);
    }
  }

  /** The handshake, the time of the first READY and a cancellation are kept from the turn in which they were seen. */
  predicate Noted(before: Poll, p: Poll, seen: Seen, mode: Mode) {
    && p.tree == (before.tree || seen.Tree())
    && (p.readyAt >= 0 <==> before.readyAt >= 0 || seen.ready)
    && (before.readyAt >= 0 ==> p.readyAt == before.readyAt)
    && p.cancelled == (before.cancelled || (mode == CancelTree && seen.ready && p.tree))
    && p.exitCode == before.exitCode
  }

  /** What a turn notes of the handshake. */
  method Note(os: Os, mode: Mode, lines: Lines, start: nat, seen: Seen, before: Poll) returns (p: Poll)
    requires before.True(mode, lines, os.w, start) && start <= os.w.clock && seen.True(os.w, lines)
    modifies os
    ensures Evolves(old(os.w), os.w) && p.True(mode, lines, os.w, start) && seen.True(os.w, lines)
    ensures Noted(before, p, seen, mode)
  {
    p := before.(tree := before.tree || seen.Tree());
    if seen.Tree() {
      assert os.w.notes.polled[|os.w.notes.polled| - 1] == seen.active;
      assert Crowded(os.w);
    }
    if seen.ready && p.readyAt < 0 {
      p := NoteReady(os, mode, lines, start, p);
    }
    if mode == CancelTree && seen.ready && p.tree {
      p := p.(cancelled := true);
    }
  }

  method Turn(os: Os, mode: Mode, lines: Lines, output: PipeBuffer, error: PipeBuffer, start: nat, before: Poll)
    returns (st: Status, p: Poll, outcome: Option<Outcome>)
    requires Paired(os, output, error) && output.Valid() && error.Valid()
    requires before.True(mode, lines, os.w, start) && os.w.resumedAt <= start <= os.w.clock && os.w.notes.Calm()
    modifies os, output, error, output.scratch, error.scratch
    ensures output.Valid() && error.Valid()
    ensures Onward(old(os.w), os.w)
    ensures p.True(mode, lines, os.w, start)
    ensures st.Fine? && outcome.None? ==> old(os.w).clock < start + DEADLINE
    ensures st.Fine? && outcome.Some? ==> PollOutcome(outcome.value) && Truthful(outcome.value, mode, lines, p.tree, os.w)
    ensures st.Fine? && outcome.Some? && EndOutcome(outcome.value) ==> p.exitCode.Some?
    ensures st.Fine? ==> BothReadOn(old(os.w), os.w, PIECES)
    ensures st.Failed? ==> os.w.notes.faulted
    ensures !st.Injected?
  {
    hide Onward, Later, Shows, Truthful, BothReadOn;
    var seen;
    outcome := None;
    ghost var first := os.w;
    st, p, seen := Notice(os, mode, lines, output, error, start, before);
    ghost var noticed := os.w;
    OnwardIsLater(first, noticed);
    if st.Fine? {
      st, p, outcome := Conclude(os, mode, lines, output, error, start, seen, p);
      BothReadOnWithin(first, first, noticed, os.w, PIECES);
      OnwardComposes(first, noticed, os.w);
      OnwardIsLater(noticed, os.w);
    }
  }

  /** The second half of a turn; the exit code is kept whenever it was read. */
  method Conclude(os: Os, mode: Mode, lines: Lines, output: PipeBuffer, error: PipeBuffer,
                  start: nat, seen: Seen, noted: Poll)
    returns (st: Status, p: Poll, outcome: Option<Outcome>)
    requires Paired(os, output, error) && output.Valid() && error.Valid()
    requires noted.True(mode, lines, os.w, start) && os.w.resumedAt <= start <= os.w.clock && seen.True(os.w, lines)
    modifies os
    ensures Evolves(old(os.w), os.w) && p.True(mode, lines, os.w, start)
    ensures st.Fine? && outcome.None? ==> old(os.w).clock < start + DEADLINE
    ensures st.Fine? && outcome.Some? ==> PollOutcome(outcome.value) && Truthful(outcome.value, mode, lines, p.tree, os.w)
    ensures st.Fine? && outcome.Some? && EndOutcome(outcome.value) ==> p.exitCode.Some?
    ensures st.Failed? ==> os.w.notes.faulted
    ensures !st.Injected?
  {
    var code;
    st, outcome, code := Decide(os, mode, lines, output, error, start, seen, noted.readyAt, noted.cancelled, noted.tree);
    p := if code.Some? then noted.(exitCode := code) else noted;
  }

  /** A turn, and the pause behind it when nothing was decided. */
  method TurnAndPause(os: Os, mode: Mode, lines: Lines, output: PipeBuffer, error: PipeBuffer, start: nat, before: Poll)
    returns (st: Status, p: Poll, outcome: Option<Outcome>)
    requires Paired(os, output, error) && output.Valid() && error.Valid()
    requires before.True(mode, lines, os.w, start) && os.w.resumedAt <= start <= os.w.clock && os.w.notes.Calm()
    modifies os, output, error, output.scratch, error.scratch
    ensures output.Valid() && error.Valid()
    ensures Onward(old(os.w), os.w)
    ensures p.True(mode, lines, os.w, start)
    ensures st.Fine? && outcome.None? ==> old(os.w).clock < start + DEADLINE && old(os.w).clock < os.w.clock
    ensures st.Fine? && outcome.Some? ==> PollOutcome(outcome.value) && Truthful(outcome.value, mode, lines, p.tree, os.w)
    ensures st.Fine? && outcome.Some? && EndOutcome(outcome.value) ==> p.exitCode.Some?
    ensures st.Failed? ==> os.w.notes.faulted
    ensures !st.Injected?
  {
    hide Onward, Later, Shows, Truthful;
    ghost var first := os.w;
    st, p, outcome := Turn(os, mode, lines, output, error, start, before);
    ghost var turned := os.w;
    OnwardIsLater(first, turned);
    if st.Fine? && outcome.None? {
      os.Sleep(5);
      OnwardIsLater(turned, os.w);
      StillPolling(p, mode, lines, turned, os.w, start);
      OnwardIsLater(turned, os.w);
      OnwardComposes(first, turned, os.w);
    }
  }

  /** The loop: it always leaves with an outcome or a fault, by its 4000 ms measure. */
  method RunPoll(os: Os, mode: Mode, lines: Lines, output: PipeBuffer, error: PipeBuffer)
    returns (st: Status, outcome: Outcome, p: Poll)
    requires Paired(os, output, error) && output.Valid() && error.Valid()
    requires os.w.resumedAt <= os.w.clock && os.w.notes.Calm()
    modifies os, output, error, output.scratch, error.scratch
    ensures output.Valid() && error.Valid()
    ensures Onward(old(os.w), os.w)
    ensures TreeTrue(p.tree, os.w, lines)
    ensures p.exitCode.Some? ==> os.w.exited && os.w.exitCode == p.exitCode.value
    ensures st.Fine? ==> PollOutcome(outcome) && Truthful(outcome, mode, lines, p.tree, os.w)
    ensures st.Fine? && EndOutcome(outcome) ==> p.exitCode.Some?
    ensures st.Failed? ==> os.w.notes.faulted
    ensures !st.Injected?
  {
    hide Onward, Later, Shows, Truthful;
    outcome := Error;
    st, p := Fine, Poll(false, -1, false, None);
    ghost var first := os.w;
    var start := os.Milliseconds();
    OnwardIsLater(first, os.w);
    var decided := None;
    while st.Fine? && decided.None?
      invariant output.Valid() && error.Valid() && !st.Injected?
      invariant Onward(first, os.w) && start <= os.w.clock && os.w.notes.Calm()
      invariant p.True(mode, lines, os.w, start) && os.w.resumedAt <= start
      invariant st.Fine? && decided.Some? ==> PollOutcome(decided.value) && Truthful(decided.value, mode, lines, p.tree, os.w)
      invariant st.Fine? && decided.Some? && EndOutcome(decided.value) ==> p.exitCode.Some?
      invariant st.Failed? ==> os.w.notes.faulted
      decreases st.Fine? && decided.None?, start + DEADLINE - os.w.clock
    {
      ghost var before := os.w;
      st, p, decided := TurnAndPause(os, mode, lines, output, error, start, p);
      OnwardIsLater(before, os.w);
      OnwardComposes(first, before, os.w);
    }
    if decided.Some? {
      outcome := decided.value;
    }
  }

  // ----- cleanup and verdict -----

  /** The three cleanup flags; a failed query leaves the later ones as they were. */
  datatype End = End(rootExited: bool, jobEmpty: bool, pipesClosed: bool) {
    predicate Complete() { rootExited && jobEmpty && pipesClosed }

    ghost predicate True(w: World) {
      && (rootExited ==> w.exited)
      && (jobEmpty ==> w.members == {})
      && (pipesClosed ==> w.out.Ended() && w.err.Ended())
    }
  }

  method SampleEnd(os: Os, closed: bool, before: End) returns (st: Status, end: End)
    requires closed ==> os.w.out.Ended() && os.w.err.Ended()
    requires before.True(os.w) && os.w.notes.stopped && !os.w.notes.unclean
    modifies os
    ensures Evolves(old(os.w), os.w)
    ensures end.True(os.w)
    ensures os.w.notes.stopped && os.w.notes.stoppedAt == old(os.w).notes.stoppedAt
    ensures st.Failed? <==> os.w.notes.unclean
    ensures st.Fine? ==> end == End(os.w.notes.rootEnded, os.w.notes.jobEmpty, closed)
    ensures !st.Injected?
  {
    hide Onward, Later, Evolves;
    st, end := Failed, before;
    ghost var first := os.w;
    var ok, exited := os.Exited();
    ghost var second := os.w;
    EvolvesOn(first, first, second);
    StillEnded(before, first, second);
    if ok {
      end := end.(rootExited := exited);
      var active;
      ok, active := os.ActiveProcesses();
      EvolvesOn(first, second, os.w);
      StillEnded(end, second, os.w);
      if ok {
        end := end.(jobEmpty := active == 0);
        end := end.(pipesClosed := closed);
        st := Fine;
      }
    }
  }

  /** The launcher has told the job to stop, at that time, and no query has failed since. */
  predicate Stopping(w: World, since: nat) { w.notes.stopped && w.notes.stoppedAt == since && !w.notes.unclean }

  /** The flags are the last answers. */
  predicate Answered(end: End, w: World) {
    end == End(w.notes.rootEnded, w.notes.jobEmpty, w.notes.broken == {Stdout, Stderr})
  }

  lemma BothClosed(os: Os, output: PipeBuffer, error: PipeBuffer)
    requires Paired(os, output, error) && output.Valid() && error.Valid()
    ensures output.closed && error.closed <==> os.w.notes.broken == {Stdout, Stderr}
  {
    assert os.w.notes.broken <= {Stdout, Stderr} by {
      forall which | which in os.w.notes.broken ensures which in {Stdout, Stderr} {
        assert which.Stdout? || which.Stderr?;
      }
    }
  }

  method CleanTurn(os: Os, output: PipeBuffer, error: PipeBuffer, before: End, ghost since: nat) returns (st: Status, end: End)
    requires Paired(os, output, error) && output.Valid() && error.Valid() && before.True(os.w) && Stopping(os.w, since)
    modifies os, output, error, output.scratch, error.scratch
    ensures output.Valid() && error.Valid()
    ensures Onward(old(os.w), os.w)
    ensures end.True(os.w)
    ensures os.w.notes.stopped && os.w.notes.stoppedAt == since && (st.Failed? <==> os.w.notes.unclean)
    ensures st.Fine? ==> Answered(end, os.w) && BothReadOn(old(os.w), os.w, PIECES)
    ensures !st.Injected?
  {
    hide Onward, Later, BothReadOn;
    ghost var first := os.w;
    end := before;
    st := DrainBoth(os, output, error);
    ghost var drained := os.w;
    StillEnded(end, first, drained);
    if st.Fine? {
      st, end := SampleEnd(os, output.closed && error.closed, end);
      BothReadOnWithin(first, first, drained, os.w, PIECES);
      OnwardComposes(first, drained, os.w);
      OnwardIsLater(drained, os.w);
      BothClosed(os, output, error);
    }
  }

  lemma StillEnded(end: End, w: World, next: World)
    requires Onward(w, next) && end.True(w)
    ensures end.True(next)
  {}

  /** The `finally` loop: until everything has ended, or the cleanup deadline. */
  method CleanUp(os: Os, output: PipeBuffer, error: PipeBuffer) returns (st: Status, end: End)
    requires Paired(os, output, error) && output.Valid() && error.Valid()
    requires Stopping(os.w, os.w.notes.stoppedAt) && os.w.notes.stoppedAt <= os.w.clock
    modifies os, output, error, output.scratch, error.scratch
    ensures output.Valid() && error.Valid()
    ensures Onward(old(os.w), os.w)
    ensures end.True(os.w)
    ensures st.Fine? <==> !os.w.notes.unclean
    ensures st.Fine? ==> Answered(end, os.w) && (end.Complete() || Waited(os.w, CLEANUP))
  {
    hide Onward, Later;
    st, end := Fine, End(false, false, false);
    ghost var first, since := os.w, os.w.notes.stoppedAt;
    var cleanup := os.Milliseconds();
    OnwardIsLater(first, os.w);
    var now := cleanup;
    while now - cleanup < CLEANUP
      invariant output.Valid() && error.Valid()
      invariant Onward(first, os.w)
      invariant end.True(os.w) && since <= cleanup <= now <= os.w.clock
      invariant st.Fine? && Stopping(os.w, since)
      invariant now > cleanup ==> Answered(end, os.w) && Reading(now, os.w.out.consumed) in os.w.notes.readings
      decreases cleanup + CLEANUP - now
    {
      ghost var before := os.w;
      st, end := CleanTurn(os, output, error, end, since);
      ghost var turned := os.w;
      OnwardIsLater(before, turned);
      OnwardComposes(first, before, turned);
      if !st.Fine? || end.Complete() {
        break;
      }
      now := Pause(os);
      StillEnded(end, turned, os.w);
      OnwardIsLater(turned, os.w);
      OnwardComposes(first, turned, os.w);
    }
  }

  method Pause(os: Os) returns (now: nat)
    modifies os
    ensures Evolves(old(os.w), os.w) && old(os.w).clock < now <= os.w.clock
    ensures os.w.notes == old(os.w).notes.(readings := old(os.w).notes.readings + {Reading(now, os.w.out.consumed)})
  {
    os.Sleep(5);
    now := os.Milliseconds();
  }

  /** Between the two the launcher did nothing but terminate, and did so at least once. */
  predicate Stopped(before: World, w: World) {
    && |before.trace| < |w.trace| <= |before.trace| + 2
    && w.trace[..|before.trace|] == before.trace
    && forall i | |before.trace| <= i < |w.trace| :: w.trace[i] == Terminated
  }

  lemma ToldAgain(a: World, b: World, c: World, d: World)
    requires Evolves(a.(trace := b.trace, notes := b.notes), b) && a.notes.Grows(b.notes)
    requires Evolves(b, c)
    requires d == c || (Evolves(c.(trace := d.trace, notes := d.notes), d) && c.notes.Grows(d.notes))
    ensures Evolves(a.(trace := d.trace, notes := d.notes), d) && a.notes.Grows(d.notes)
    ensures b.exited ==> d.exited
  {}

  /** The job is told to stop, and the root too if it is still there. */
  method Stop(os: Os) returns (ok: bool)
    modifies os
    ensures Evolves(old(os.w).(trace := os.w.trace, notes := os.w.notes), os.w)
    ensures Stopped(old(os.w), os.w)
    ensures ok && !os.w.exited ==> |os.w.trace| == |old(os.w).trace| + 2
    ensures old(os.w).notes.Calm() ==> os.w.notes.stopped && os.w.notes.stoppedAt == old(os.w).clock && (ok <==> !os.w.notes.unclean)
    ensures os.w.notes.broken == old(os.w).notes.broken && os.w.notes.polled == old(os.w).notes.polled
    ensures old(os.w).notes.Grows(os.w.notes)
  {
    hide Later;
    ghost var first := os.w;
    var _ := os.Terminate();
    ghost var told := os.w;
    var exited;
    ok, exited := os.Exited();
    ghost var asked := os.w;
    ToldAgain(first, told, asked, asked);
    if ok && !exited {
      var _ := os.Terminate();
      ToldAgain(first, told, asked, os.w);
    }
  }

  lemma StoppedIsLater(w: World, next: World)
    requires Evolves(w.(trace := next.trace, notes := next.notes), next) && w.notes.Grows(next.notes)
    ensures Later(w, next) && w.clock <= next.clock
    ensures next.out.consumed == w.out.consumed && next.err.consumed == w.err.consumed
    ensures (w.out.Ended() ==> next.out.Ended()) && (w.err.Ended() ==> next.err.Ended())
  {}

  /** The `finally` block for a child that was created. */
  method Finally(os: Os, output: PipeBuffer, error: PipeBuffer) returns (failed: bool, end: End)
    requires Paired(os, output, error) && output.Valid() && error.Valid() && os.w.notes.Calm()
    modifies os, output, error, output.scratch, error.scratch
    ensures output.Valid() && error.Valid()
    ensures Later(old(os.w), os.w) && os.w.notes.polled == old(os.w).notes.polled
    ensures Stopped(old(os.w), os.w)
    ensures end.True(os.w)
    ensures CleanupIs(failed, end, os.w)
  {
    hide Later, Evolves;
    failed, end := true, End(false, false, false);
    ghost var before := os.w;
    var ok := Stop(os);
    ghost var stopped := os.w;
    StoppedIsLater(before, stopped);
    if ok {
      var st;
      st, end := CleanUp(os, output, error);
      OnwardIsLater(stopped, os.w);
      LaterComposes(before, stopped, os.w);
      failed := !st.Fine? || !end.Complete();
    }
  }

  /** Cleanup has failed if and only if a query failed or something had not ended at the last look, with no time left. */
  ghost predicate CleanupIs(failed: bool, end: End, w: World) {
    && w.notes.stopped
    && (failed <==> w.notes.unclean || !end.Complete())
    && (!w.notes.unclean ==> Answered(end, w) && (end.Complete() || Waited(w, CLEANUP)))
  }

  lemma VerdictIsRecorded(r: Report, passed: bool, w: World, mode: Mode, lines: Lines, expected: Outcome,
                          injected: bool)
    requires Settled(r, w, mode, lines, injected)
    requires passed ==> Verdict(r, expected, mode, injected)
    ensures
      var final := r.(passed := passed);
      && Settled(final, w, mode, lines, injected)
      && (Verdict(final, expected, mode, injected) <==> Verdict(r, expected, mode, injected))
      && (passed ==> Earned(final, w, mode, lines, expected, injected))
  {}

  predicate Verdict(r: Report, expected: Outcome, mode: Mode, injected: bool) {
    && r.outcome == expected && r.created && r.effectiveStandard
    && r.rootExited && r.jobEmpty && r.pipesClosed && r.bounded
    && (if injected then !r.resumed else r.resumed)
    && (mode.IsTree() ==> r.treeObserved)
    && (mode == NonZero ==> r.exitCode == Some(17))
  }

  /** What holds of the report whenever `Run` returns. */
  ghost predicate Settled(r: Report, w: World, mode: Mode, lines: Lines, injected: bool) {
    && FlagsTrue(r, w, lines)
    && (r.created <==> Created in w.trace)
    && (r.resumed <==> Resumed in w.trace)
    && (r.resumed ==> CHECKED_LAUNCH <= w.trace && w.inJob && !injected)
    && (r.effectiveStandard <==> Identity(true) in w.trace)
    // No child is left behind silently, and none is said to be that has ended.
    && (r.created ==> Terminated in w.trace)
    && (r.created && r.outcome != CleanupFailed ==>
          w.exited && w.members == {} && w.out.Ended() && w.err.Ended())
    && (r.created ==> CleanupIs(r.outcome == CleanupFailed, End(r.rootExited, r.jobEmpty, r.pipesClosed), w))
    && (r.outcome == CleanupFailed ==> r.created)
    // A poll outcome is true of the child, and an error has a cause.
    && (PollOutcome(r.outcome) ==> r.resumed && Truthful(r.outcome, mode, lines, r.treeObserved, w))
    && (EndOutcome(r.outcome) ==> r.exitCode.Some?)
    && (r.outcome == Error ==> Refused(w))
    && r.bounded
    && (r.outcome == InjectedBeforeResume ==> injected && r.created && !r.resumed)
  }

  /** A verdict on a created child is earned. */
  ghost predicate Earned(r: Report, w: World, mode: Mode, lines: Lines, expected: Outcome, injected: bool) {
    && r.outcome == expected
    && w.exited && w.members == {} && w.out.Ended() && w.err.Ended()
    && (injected ==> Resumed !in w.trace)
    && (!injected ==> CHECKED_LAUNCH <= w.trace && w.inJob)
    && (PollOutcome(expected) ==> Truthful(expected, mode, lines, r.treeObserved, w))
    && (mode.IsTree() ==> Shows(w.out.consumed, lines.ready) && Shows(w.out.consumed, lines.leaf))
    && (mode == NonZero ==> w.exitCode == 17)
  }

  /** What is certain of the report when the guarded part ends, before any cleanup. */
  ghost predicate Tried(r: Report, w: World, mode: Mode, lines: Lines, injected: bool, process: bool) {
    && FlagsTrue(r, w, lines)
    && r.created == process && (process <==> Created in w.trace)
    && (r.resumed <==> Resumed in w.trace)
    && (r.resumed ==> CHECKED_LAUNCH == w.trace && w.inJob && !injected)
    && (r.effectiveStandard <==> Identity(true) in w.trace)
    && (PollOutcome(r.outcome) ==> r.resumed && Truthful(r.outcome, mode, lines, r.treeObserved, w))
    && (EndOutcome(r.outcome) ==> r.exitCode.Some?)
    && (r.outcome == Error ==> Refused(w))
    && w.notes.Calm()
    && (r.outcome == InjectedBeforeResume ==> injected && r.created && !r.resumed)
    && r.outcome != CleanupFailed
    && r.bounded && !r.passed && !r.rootExited && !r.jobEmpty && !r.pipesClosed
  }

  /** The poll writes only the outcome, the tree flag and the exit code. */
  predicate SameButPolled(a: Report, b: Report) {
    && a.created == b.created && a.resumed == b.resumed && a.effectiveStandard == b.effectiveStandard
    && a.rootExited == b.rootExited && a.jobEmpty == b.jobEmpty && a.pipesClosed == b.pipesClosed
    && a.bounded == b.bounded && a.passed == b.passed
  }

  /** The poll, and what it leaves in the report. */
  method PollInto(os: Os, run: Run, mode: Mode, lines: Lines, output: PipeBuffer, error: PipeBuffer) returns (st: Status)
    requires Paired(os, output, error) && output.Valid() && error.Valid()
    requires os.w.resumedAt <= os.w.clock && os.w.notes.Calm()
    modifies os, run, output, error, output.scratch, error.scratch
    ensures output.Valid() && error.Valid()
    ensures Onward(old(os.w), os.w)
    ensures TreeTrue(run.r.treeObserved, os.w, lines)
    ensures run.r.exitCode.Some? ==> os.w.exited && os.w.exitCode == run.r.exitCode.value
    ensures SameButPolled(old(run.r), run.r)
    ensures if st.Fine? then PollOutcome(run.r.outcome) && Truthful(run.r.outcome, mode, lines, run.r.treeObserved, os.w)
            else st.Failed? && run.r.outcome == old(run.r).outcome && os.w.notes.faulted
    ensures st.Fine? && EndOutcome(run.r.outcome) ==> run.r.exitCode.Some?
  {
    var outcome, p;
    st, outcome, p := RunPoll(os, mode, lines, output, error);
    run.r := run.r.(treeObserved := p.tree, exitCode := p.exitCode);
    if st.Fine? {
      run.r := run.r.(outcome := outcome);
    }
  }

  /** The `try` block and its `catch` clauses. */
  method Guarded(os: Os, run: Run, mode: Mode, lines: Lines, injected: bool)
    returns (process: bool, output: PipeBuffer?, error: PipeBuffer?)
    requires os.w.trace == [] && os.w.members == {} && os.w.out.consumed == [] && os.w.err.consumed == []
    requires os.w.notes.Calm() && os.w.notes.broken == {}
    requires run.r == INITIAL
    modifies os, run
    ensures Tried(run.r, os.w, mode, lines, injected, process)
    ensures process ==> output != null && error != null && fresh({output, error, output.scratch, error.scratch})
    ensures process ==> Paired(os, output, error) && output.Valid() && error.Valid()
  {
    hide Later, Truthful, Shows;
    process := false;
    ghost var first := os.w;
    var st;
    st, output, error := OpenPipes(os);
    OnwardIsLater(first, os.w);
    NoProcessMade(first, os.w);
    if st.Fine? {
      st, process := GuardedLaunch(os, run, mode, lines, output, error, injected);
    }
    if !st.Fine? {
      run.r := run.r.(outcome := if st.Injected? then InjectedBeforeResume else Error);
    }
  }

  lemma NoProcessMade(w: World, next: World)
    requires Evolves(w, next) && w.members == {}
    ensures next.members == {}
  {}

  /** All but the outcome of a run that was stopped by a fault. */
  ghost predicate Half(st: Status, r: Report, w: World, mode: Mode, lines: Lines, injected: bool, process: bool) {
    && (st.Fine? ==> Tried(r, w, mode, lines, injected, process))
    && (st.Injected? ==> Tried(r.(outcome := InjectedBeforeResume), w, mode, lines, injected, process))
    && (st.Failed? ==> Tried(r.(outcome := Error), w, mode, lines, injected, process))
  }

  lemma NotLaunched(r: Report, w: World, st: Status, mode: Mode, lines: Lines, injected: bool, process: bool)
    requires r == INITIAL.(created := process, effectiveStandard := r.effectiveStandard) && !st.Fine?
    requires (r.effectiveStandard <==> Identity(true) in w.trace) && w.notes.Calm()
    requires (process <==> Created in w.trace) && Resumed !in w.trace
    requires (st.Failed? ==> Refused(w)) && (st.Injected? ==> injected && process)
    ensures Half(st, r, w, mode, lines, injected, process)
  {
    hide Refused;
  }

  lemma PolledIsTried(r: Report, launched: World, st: Status, now: Report, w: World, mode: Mode, lines: Lines, injected: bool)
    requires r == INITIAL.(created := true, resumed := true, effectiveStandard := true)
    requires launched.trace == CHECKED_LAUNCH && launched.inJob && launched.notes.Calm() && !injected
    requires Onward(launched, w) && w.inJob == launched.inJob && SameButPolled(r, now)
    requires TreeTrue(now.treeObserved, w, lines)
    requires now.exitCode.Some? ==> w.exited && w.exitCode == now.exitCode.value
    requires if st.Fine? then PollOutcome(now.outcome) && Truthful(now.outcome, mode, lines, now.treeObserved, w)
             else st.Failed? && now.outcome == r.outcome && w.notes.faulted
    requires st.Fine? && EndOutcome(now.outcome) ==> now.exitCode.Some?
    ensures Half(st, now, w, mode, lines, injected, true)
  {
    hide Later, Truthful, TreeTrue;
  }

  /** The launch, and for a child that runs the poll. */
  method GuardedLaunch(os: Os, run: Run, mode: Mode, lines: Lines, output: PipeBuffer, error: PipeBuffer, injected: bool)
    returns (st: Status, process: bool)
    requires os.w.trace == [] && os.w.members == {} && run.r == INITIAL && os.w.notes.Calm()
    requires Paired(os, output, error) && output.Valid() && error.Valid() && !output.closed && !error.closed
    modifies os, run, output, error, output.scratch, error.scratch
    ensures Half(st, run.r, os.w, mode, lines, injected, process)
    ensures output.Valid() && error.Valid()
  {
    hide Later, Onward, Truthful, Shows, TreeTrue, Half;
    st, process := Launch(os, run, injected);
    ghost var r, launched := run.r, os.w;
    if st.Fine? {
      st := PollInto(os, run, mode, lines, output, error);
      StillInJob(launched, os.w);
      PolledIsTried(r, launched, st, run.r, os.w, mode, lines, injected);
    } else {
      NotLaunched(r, launched, st, mode, lines, injected, process);
    }
  }

  lemma StillInJob(w: World, next: World)
    requires Onward(w, next)
    ensures next.inJob == w.inJob
  {}

  lemma FinishedIsSettled(r: Report, final: Report, before: World, w: World, end: End, failed: bool,
                          mode: Mode, lines: Lines, injected: bool, process: bool)
    requires Tried(r, before, mode, lines, injected, process) && Later(before, w) && process
    requires Stopped(before, w) && w.notes.polled == before.notes.polled
    requires end.True(w) && CleanupIs(failed, end, w)
    requires final == r.(rootExited := end.rootExited, jobEmpty := end.jobEmpty, pipesClosed := end.pipesClosed,
                         outcome := if failed then CleanupFailed else r.outcome)
    ensures Settled(final, w, mode, lines, injected)
  {
    hide Truthful, TreeTrue;
    StillShown(r.treeObserved, before, w, lines);
    if PollOutcome(r.outcome) {
      StillTruthful(r.outcome, mode, lines, r.treeObserved, before, w);
    }
    assert w.trace[|before.trace|] == Terminated;
    assert forall e: Event | e != Terminated :: e in w.trace <==> e in w.trace[..|before.trace|];
  }

  lemma NothingToClean(r: Report, w: World, mode: Mode, lines: Lines, injected: bool)
    requires Tried(r, w, mode, lines, injected, false)
    ensures Settled(r, w, mode, lines, injected)
  {}

  /** The `try` and `finally` blocks of a run that is not cancelled before it starts. */
  method Perform(os: Os, run: Run, mode: Mode, lines: Lines, injected: bool)
    requires os.w.trace == [] && os.w.members == {} && os.w.out.consumed == [] && os.w.err.consumed == []
    requires os.w.notes.Calm() && os.w.notes.broken == {}
    requires run.r == INITIAL
    modifies os, run
    ensures Settled(run.r, os.w, mode, lines, injected)
    ensures !run.r.passed
  {
    hide Later, Truthful, TreeTrue, Settled;
    var process, output, error;
    process, output, error := Guarded(os, run, mode, lines, injected);
    if process {
      ghost var before, r := os.w, run.r;
      var failed, end := Finally(os, output, error);
      run.r := run.r.(rootExited := end.rootExited, jobEmpty := end.jobEmpty, pipesClosed := end.pipesClosed);
      run.r := run.r.(bounded := |output.retained| <= LIMIT && |error.retained| <= LIMIT);
      if failed {
        run.r := run.r.(outcome := CleanupFailed);
      }
      FinishedIsSettled(r, run.r, before, os.w, end, failed, mode, lines, injected, process);
    } else {
      NothingToClean(run.r, os.w, mode, lines, injected);
    }
  }

  /** `Program.Run`; the harness and its child use `CHILD_LINES`. */
  method RunCase(os: Os, mode: Mode, lines: Lines, expected: Outcome, preCancelled: bool, injected: bool)
    returns (run: Run)
    requires os.w.trace == [] && os.w.members == {} && os.w.out.consumed == [] && os.w.err.consumed == []
    requires os.w.notes.Calm() && os.w.notes.broken == {}
    modifies os
    ensures Settled(run.r, os.w, mode, lines, injected)
    ensures preCancelled ==> !run.r.created && (run.r.passed <==> expected == CancelledBeforeCreate)
    ensures !preCancelled ==> (run.r.passed <==> Verdict(run.r, expected, mode, injected))
    ensures run.r.passed && run.r.created ==> Earned(run.r, os.w, mode, lines, expected, injected)
    ensures injected ==> Resumed !in os.w.trace
  {
    run := new Run();
    if preCancelled {
      run.r := run.r.(outcome := CancelledBeforeCreate);
      run.r := run.r.(passed := expected == run.r.outcome && !run.r.created);
      return;
    }
    Perform(os, run, mode, lines, injected);
    var passed := Verdict(run.r, expected, mode, injected);
    VerdictIsRecorded(run.r, passed, os.w, mode, lines, expected, injected);
    run.r := run.r.(passed := passed);
  }
}
