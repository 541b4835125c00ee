/**
 * `Program.Collect` of DefenderControl.cs: one child, created suspended inside a job,
 * checked, resumed, polled to its end or stopped, and reaped whatever happened.
 */
module DefenderControl {
  import opened Common
  import opened Base64
  import opened DefenderRecord
  import opened LaunchWorld
  import opened DefenderPipe

  const DEADLINE := 30000
  const GRACE := 3000

  class Result {
    var r: Record

    constructor (runId: string)
      ensures r == Record(runId, NoError, false, false, false, false, false, None, 0, "")
    {
      r := Record(runId, NoError, false, false, false, false, false, None, 0, "");
    }
  }

  /** What the launcher must have done, in this order, to a child it lets run. */
  const CHECKED_LAUNCH := [Created, Membership(true), Identity(true), Resumed]

  /** The flags of a record are the last answers, and never claim more than is true. */
  ghost predicate FlagsTrue(r: Record, w: World) {
    && (r.exited ==> w.exited) && (r.exited <==> w.notes.rootEnded)
    && (r.empty ==> w.members == {}) && (r.empty <==> w.notes.jobEmpty)
    && (r.pipes ==> w.out.Ended() && w.err.Ended())
  }

  /** Only the three observations differ. */
  predicate SameButFlags(a: Record, b: Record) {
    && a.runId == b.runId && a.error == b.error && a.created == b.created && a.resumed == b.resumed
    && a.exitCode == b.exitCode && a.elapsed == b.elapsed && a.output == b.output
  }

  /** What a completed record says about the child, the job and the pipes. */
  ghost predicate Sound(r: Record, w: World) {
    && CHECKED_LAUNCH <= w.trace
    && w.inJob
    && w.exited && w.exitCode == 0
    && w.members == {}
    && w.out.Ended() && w.err.Ended()
    && w.err.Written() == []
    && |w.out.Written()| <= MAX_OUTPUT
    && r.output == Encode(w.out.Written())
  }

  // ----- what an error says -----

  /** Time is left, the controller is there, and nobody has cancelled. */
  predicate MayGoOn(w: World, start: nat) {
    w.clock < start + DEADLINE && !w.controllerExited && !w.cancelRequested
  }

  /** Each code is a fact about the run: its time, its controller, the child, the streams, or a call that failed. */
  ghost predicate CodeTrue(code: Code, w: World, start: nat) {
    match code
    case Timeout => w.clock >= start + DEADLINE
    case ControllerExited => w.controllerExited
    case Cancelled => w.cancelRequested
    case JobMembership => w.notes.faulted || !w.inJob
    case ChildIdentity => Identity(false) in w.trace
    case BackendStderr => w.err.consumed != []
    case StdoutLimit => |w.out.consumed| > MAX_OUTPUT
    case BackendExit => w.exited && w.exitCode != 0
    case PipeRead => w.notes.faulted || w.notes.broken != {}
    case CleanupIncomplete => false
    case NoError => false
    case _ => w.notes.faulted
  }

  ghost predicate Blamed(st: Status, w: World, start: nat) {
    match st
    case Fine => false
    case Raised(code) => CodeTrue(code, w, start)
    case Crashed => w.notes.faulted
  }

  lemma StillBlamed(st: Status, w: World, next: World, start: nat)
    requires Blamed(st, w, start) && Later(w, next) && w.trace <= next.trace
    ensures Blamed(st, next, start)
  {}

  // ----- the calls -----

  method Exited(os: Os) returns (st: Status, exited: bool)
    modifies os
    ensures Evolves(old(os.w), os.w)
    ensures st.Fine? ==> exited == os.w.exited
    ensures os.w.notes == if st.Fine? then old(os.w).notes.(rootEnded := exited) else old(os.w).notes.Fault()
    ensures !st.Fine? ==> st == Raised(ProcessWait)
  {
    var ok;
    ok, exited := os.Exited();
    st := Require(ok, ProcessWait);
  }

  method Active(os: Os) returns (st: Status, active: nat)
    modifies os
    ensures Evolves(old(os.w), os.w)
    ensures st.Fine? ==> active == |os.w.members|
    ensures os.w.notes == if st.Fine? then old(os.w).notes.Counted(active) else old(os.w).notes.Fault()
    ensures !st.Fine? ==> st == Raised(JobQuery)
  {
    var ok;
    ok, active := os.ActiveProcesses();
    st := Require(ok, JobQuery);
  }

  /** `CheckStop`: out of time, left by the controller, or cancelled, in this order. */
  method CheckStop(os: Os, start: nat) returns (st: Status)
    requires start <= os.w.clock
    modifies os
    ensures Evolves(old(os.w), os.w) && SameAnswers(old(os.w).notes, os.w.notes)
    ensures st.Fine? ==> MayGoOn(old(os.w), start)
    ensures !st.Fine? ==> st in {Raised(Timeout), Raised(ProcessWait), Raised(ControllerExited), Raised(Cancelled)}
    ensures !st.Fine? ==> Blamed(st, os.w, start)
    ensures old(os.w).clock >= start + DEADLINE ==> st == Raised(Timeout)
  {
    var now := os.Milliseconds();
    st := Require(now - start < DEADLINE, Timeout);
    if st.Fine? {
      st := CheckController(os, start);
    }
  }

  method CheckController(os: Os, ghost start: nat) returns (st: Status)
    modifies os
    ensures Evolves(old(os.w), os.w) && SameAnswers(old(os.w).notes, os.w.notes)
    ensures st.Fine? ==> !old(os.w).controllerExited && !old(os.w).cancelRequested
    ensures !st.Fine? ==> st in {Raised(ProcessWait), Raised(ControllerExited), Raised(Cancelled)}
    ensures !st.Fine? ==> Blamed(st, os.w, start)
    ensures old(os.w).controllerExited ==> st == Raised(ProcessWait) || st == Raised(ControllerExited)
  {
    var waited, exited := os.ControllerExited();
    :- Require(waited, ProcessWait);
    :- Require(!exited, ControllerExited);
    var requested := os.CancelRequested();
    st := Require(!requested, Cancelled);
  }

  /** A call that tells nothing but whether it worked. */
  method Call(os: Os, code: FailureCode) returns (st: Status)
    modifies os
    ensures Evolves(old(os.w), os.w) && SameAnswers(old(os.w).notes, os.w.notes)
    ensures !st.Fine? ==> st == Raised(code) && os.w.notes.faulted
  {
    hide Evolves;
    var ok := os.Attempt();
    st := Require(ok, code);
  }

  method Pipe(os: Os) returns (st: Status)
    modifies os
    ensures Evolves(old(os.w), os.w) && SameAnswers(old(os.w).notes, os.w.notes)
    ensures !st.Fine? ==> st in {Raised(PipeCreate), Raised(PipeInherit)} && os.w.notes.faulted
  {
    hide Evolves;
    ghost var first := os.w;
    st := Call(os, PipeCreate);
    ghost var created := os.w;
    if st.Fine? {
      st := Call(os, PipeInherit);
      EvolvesComposes(first, created, os.w);
    }
  }

  method ThreePipes(os: Os) returns (st: Status)
    modifies os
    ensures Evolves(old(os.w), os.w) && SameAnswers(old(os.w).notes, os.w.notes)
    ensures !st.Fine? ==> st in {Raised(PipeCreate), Raised(PipeInherit)} && os.w.notes.faulted
  {
    hide Evolves;
    ghost var first := os.w;
    st := Pipe(os);
    ghost var second := os.w;
    if st.Fine? {
      st := Pipe(os);
      EvolvesComposes(first, second, os.w);
      second := os.w;
      if st.Fine? {
        st := Pipe(os);
        EvolvesComposes(first, second, os.w);
      }
    }
  }

  /** The handle list and the environment block; either may also fail without a code. */
  method Prepare(os: Os) returns (st: Status)
    modifies os
    ensures Evolves(old(os.w), os.w) && SameAnswers(old(os.w).notes, os.w.notes)
    ensures !st.Fine? ==> st in {Raised(AttributeSize), Raised(AttributeInit), Raised(AttributeUpdate), Crashed}
    ensures !st.Fine? ==> os.w.notes.faulted
  {
    hide Evolves;
    ghost var first := os.w;
    st := Attributes(os);
    ghost var listed := os.w;
    if st.Fine? {
      var allocated_ := os.Attempt();
      st := if allocated_ then Fine else Crashed;
      EvolvesComposes(first, listed, os.w);
    }
  }

  method Attributes(os: Os) returns (st: Status)
    modifies os
    ensures Evolves(old(os.w), os.w) && SameAnswers(old(os.w).notes, os.w.notes)
    ensures !st.Fine? ==> st in {Raised(AttributeSize), Raised(AttributeInit), Raised(AttributeUpdate)}
    ensures !st.Fine? ==> os.w.notes.faulted
  {
    hide Evolves;
    ghost var first := os.w;
    st := Call(os, AttributeSize);
    ghost var second := os.w;
    if st.Fine? {
      st := Call(os, AttributeInit);
      EvolvesComposes(first, second, os.w);
      second := os.w;
      if st.Fine? {
        st := Call(os, AttributeUpdate);
        EvolvesComposes(first, second, os.w);
      }
    }
  }

  /** The three pipes and the two buffers. */
  method OpenPipes(os: Os) returns (st: Status, output: PipeBuffer?, error: PipeBuffer?)
    requires os.w.out.consumed == [] && os.w.err.consumed == [] && os.w.notes.broken == {}
    modifies os
    ensures Evolves(old(os.w), os.w) && SameAnswers(old(os.w).notes, os.w.notes)
    ensures st.Fine? <==> output != null
    ensures st.Fine? <==> error != null
    ensures !st.Fine? ==> st in {Raised(PipeCreate), Raised(PipeInherit)} && os.w.notes.faulted
    ensures st.Fine? ==> fresh({output, error, output.bytes, output.scratch, error.bytes, error.scratch})
    ensures st.Fine? ==> Paired(os, output, error) && output.Valid() && error.Valid() && !output.closed && !error.closed
  {
    st, output, error := Fine, null, null;
    :- ThreePipes(os);
    output := new PipeBuffer(os, Stdout);
    error := new PipeBuffer(os, Stderr);
  }

  /** The two buffers are those of the two pipes, and share nothing. */
  ghost predicate Paired(os: Os, output: PipeBuffer, error: PipeBuffer) {
    && output.os == error.os == os && output.which == Stdout && error.which == Stderr
    && output.bytes != error.bytes && output.bytes != error.scratch
    && output.scratch != error.bytes && output.scratch != error.scratch
  }

  /** How far a launch had come when it failed: what each failure says about the child. */
  ghost predicate FailedAt(st: Status, trace: seq<Event>) {
    match st
    case Fine => false
    case Crashed => trace == [] || trace == [Created, Membership(true)]
    case Raised(code) =>
      match code
      case JobMembership => trace == [Created] || trace == [Created, Membership(false)]
      case IdentityOpen => trace == [Created, Membership(true)]
      case IdentitySize => trace == [Created, Membership(true)]
      case IdentityQuery => trace == [Created, Membership(true)]
      case ChildIdentity => trace == [Created, Membership(true), Identity(false)]
      case ProcessResume => trace == [Created, Membership(true), Identity(true)]
      case Timeout => trace == [] || trace == [Created, Membership(true), Identity(true)]
      case ProcessWait => trace == [] || trace == [Created, Membership(true), Identity(true)]
      case ControllerExited => trace == [] || trace == [Created, Membership(true), Identity(true)]
      case Cancelled => trace == [] || trace == [Created, Membership(true), Identity(true)]
      case ProcessCreate => trace == []
      case AttributeSize => trace == []
      case AttributeInit => trace == []
      case AttributeUpdate => trace == []
      case _ => false
  }

  /** Up to the resumed child. Each failure leaves behind how far the launch had come. */
  method Launch(os: Os, result: Result, start: nat) returns (st: Status, process: bool)
    requires start <= os.w.clock && os.w.trace == [] && os.w.members == {}
    modifies os, result
    ensures start <= os.w.clock
    ensures os.w.out.consumed == old(os.w).out.consumed && os.w.err.consumed == old(os.w).err.consumed
    ensures result.r == old(result.r).(created := if process then true else old(result.r).created,
                                       resumed := if st.Fine? then true else old(result.r).resumed)
    ensures st.Fine? ==> process && os.w.inJob && os.w.trace == CHECKED_LAUNCH
    ensures !st.Fine? ==> FailedAt(st, os.w.trace)
    ensures process <==> Created in os.w.trace
    ensures SameAnswers(old(os.w).notes, os.w.notes) && os.w.notes.broken == old(os.w).notes.broken
    ensures old(os.w).notes.Calm() ==> os.w.notes.Calm()
    ensures !st.Fine? ==> Blamed(st, os.w, start)
  {
    st := CreateSuspended(os, start);
    process := st.Fine?;
    if process {
      result.r := result.r.(created := true);
      st := Approve(os, start);
      if st.Fine? {
        result.r := result.r.(resumed := true);
      }
    }
  }

  method CreateSuspended(os: Os, start: nat) returns (st: Status)
    requires start <= os.w.clock && os.w.trace == [] && os.w.members == {}
    modifies os
    ensures start <= os.w.clock
    ensures os.w.out.consumed == old(os.w).out.consumed && os.w.err.consumed == old(os.w).err.consumed
    ensures os.w.trace == if st.Fine? then [Created] else []
    ensures !st.Fine? ==> FailedAt(st, [])
    ensures SameAnswers(old(os.w).notes, os.w.notes) && os.w.notes.broken == old(os.w).notes.broken
    ensures old(os.w).notes.Calm() ==> os.w.notes.Calm()
    ensures !st.Fine? ==> Blamed(st, os.w, start)
    ensures st.Fine? ==> !old(os.w).controllerExited && !old(os.w).cancelRequested
  {
    hide Later, Onward, Evolves;
    ghost var first := os.w;
    st := Prepare(os);
    ghost var prepared := os.w;
    Undisturbed(first, prepared);
    if st.Fine? {
      st := CheckStop(os, start);
      ghost var checked := os.w;
      Undisturbed(prepared, checked);
      if st.Fine? {
        var created := os.CreateProcess();
        st := Require(created, ProcessCreate);
        if !created {
          Undisturbed(checked, os.w);
        }
      }
    }
  }

  lemma Undisturbed(w: World, next: World)
    requires Evolves(w, next)
    ensures w.clock <= next.clock && next.trace == w.trace && (w.members == {} ==> next.members == {})
    ensures next.out.consumed == w.out.consumed && next.err.consumed == w.err.consumed
    ensures next.notes.broken == w.notes.broken && (w.notes.Calm() ==> next.notes.Calm())
    ensures (w.controllerExited ==> next.controllerExited) && (w.cancelRequested ==> next.cancelRequested)
  {}

  /** The checks of the suspended child, and its resumption. */
  method Approve(os: Os, start: nat) returns (st: Status)
    requires start <= os.w.clock && os.w.trace == [Created]
    modifies os
    ensures start <= os.w.clock
    ensures os.w.out.consumed == old(os.w).out.consumed && os.w.err.consumed == old(os.w).err.consumed
    ensures st.Fine? ==> os.w.inJob && os.w.trace == CHECKED_LAUNCH
    ensures !st.Fine? ==> FailedAt(st, os.w.trace)
    ensures Created in os.w.trace
    ensures SameAnswers(old(os.w).notes, os.w.notes) && os.w.notes.broken == old(os.w).notes.broken
    ensures old(os.w).notes.Calm() ==> os.w.notes.Calm()
    ensures !st.Fine? ==> Blamed(st, os.w, start)
    ensures st.Fine? ==> !old(os.w).controllerExited && !old(os.w).cancelRequested
  {
    st := CheckChild(os, start);
    if st.Fine? {
      st := Release(os, start);
    }
  }

  /** Membership, then identity. */
  method CheckChild(os: Os, ghost start: nat) returns (st: Status)
    requires start <= os.w.clock && os.w.trace == [Created]
    modifies os
    ensures Evolves(old(os.w).(trace := os.w.trace), os.w) && SameAnswers(old(os.w).notes, os.w.notes)
    ensures st.Fine? ==> os.w.inJob && os.w.trace == CHECKED_LAUNCH[..3]
    ensures !st.Fine? ==> FailedAt(st, os.w.trace) && Created in os.w.trace && Blamed(st, os.w, start)
  {
    hide Evolves;
    ghost var first := os.w;
    st := CheckMembership(os, start);
    ghost var second := os.w;
    if st.Fine? {
      st := CheckIdentity(os, start);
      TracedOn(first, second, os.w);
    }
  }

  /** What was added to the trace aside. */
  lemma TracedOn(a: World, b: World, c: World)
    requires Evolves(a.(trace := b.trace), b) && Evolves(b.(trace := c.trace), c)
    ensures Evolves(a.(trace := c.trace), c) && (b.inJob <==> c.inJob)
  {}

  method CheckMembership(os: Os, ghost start: nat) returns (st: Status)
    requires os.w.trace == [Created]
    modifies os
    ensures Evolves(old(os.w).(trace := os.w.trace), os.w) && SameAnswers(old(os.w).notes, os.w.notes)
    ensures st.Fine? ==> os.w.inJob && os.w.trace == [Created, Membership(true)]
    ensures !st.Fine? ==> FailedAt(st, os.w.trace) && Created in os.w.trace && Blamed(st, os.w, start)
  {
    hide Evolves;
    var ok, inJob := os.IsProcessInJob();
    st := Require(ok && inJob, JobMembership);
  }

  method CheckIdentity(os: Os, ghost start: nat) returns (st: Status)
    requires os.w.trace == [Created, Membership(true)]
    modifies os
    ensures Evolves(old(os.w).(trace := os.w.trace), os.w) && SameAnswers(old(os.w).notes, os.w.notes)
    ensures st.Fine? ==> os.w.trace == CHECKED_LAUNCH[..3]
    ensures !st.Fine? ==> FailedAt(st, os.w.trace) && Created in os.w.trace && Blamed(st, os.w, start)
  {
    hide Evolves;
    var read, accepted := os.CheckIdentity();
    if !read {
      var code: Code :| code in {IdentityOpen, IdentitySize, IdentityQuery, CollectionError};
      return if code == CollectionError then Crashed else Raised(code);
    }
    st := Require(accepted, ChildIdentity);
  }

  /** The last look at time, controller and cancellation, and the resumption. */
  method Release(os: Os, start: nat) returns (st: Status)
    requires start <= os.w.clock && os.w.trace == CHECKED_LAUNCH[..3]
    modifies os
    ensures Evolves(old(os.w).(trace := os.w.trace, resumedAt := os.w.resumedAt), os.w)
    ensures SameAnswers(old(os.w).notes, os.w.notes)
    ensures st.Fine? ==> os.w.trace == CHECKED_LAUNCH && MayGoOn(old(os.w), start)
    ensures !st.Fine? ==> os.w.trace == CHECKED_LAUNCH[..3] && FailedAt(st, os.w.trace) && Blamed(st, os.w, start)
  {
    st := CheckStop(os, start);
    if st.Fine? {
      var resumed := os.ResumeThread();
      st := Require(resumed, ProcessResume);
    }
  }

  /** A failed query, and what it is noted as. */
  predicate Queried(st: Status, before: Notes, after: Notes) {
    && after.stopped == before.stopped && after.stoppedAt == before.stoppedAt && after.stopFailed == before.stopFailed
    && (st.Fine? ==> after.unclean == before.unclean)
    && (!st.Fine? ==> after.faulted && (before.stopped ==> after.unclean))
  }

  method SampleRoot(os: Os, result: Result) returns (st: Status)
    requires FlagsTrue(result.r, os.w)
    modifies os, result
    ensures Evolves(old(os.w), os.w) && Queried(st, old(os.w).notes, os.w.notes)
    ensures result.r == old(result.r).(exited := result.r.exited)
    ensures FlagsTrue(result.r, os.w)
    ensures st.Fine? || st == Raised(ProcessWait)
  {
    hide Onward, Later, Evolves, FlagsTrue;
    ghost var r, first := result.r, os.w;
    var exited;
    st, exited := Exited(os);
    RootAnswered(r, first, os.w);
    if st.Fine? {
      result.r := result.r.(exited := exited);
    }
  }

  method SampleJob(os: Os, result: Result) returns (st: Status)
    requires FlagsTrue(result.r, os.w)
    modifies os, result
    ensures Evolves(old(os.w), os.w) && Queried(st, old(os.w).notes, os.w.notes)
    ensures result.r == old(result.r).(empty := result.r.empty)
    ensures FlagsTrue(result.r, os.w)
    ensures st.Fine? ==> (result.r.empty <==> os.w.members == {})
    ensures st.Fine? || st == Raised(JobQuery)
  {
    hide Onward, Later, Evolves, FlagsTrue;
    ghost var r, first := result.r, os.w;
    var active;
    st, active := Active(os);
    JobAnswered(r, first, os.w);
    if st.Fine? {
      result.r := result.r.(empty := active == 0);
    }
  }

  /** Root first, then job: the two samples both loops take. The later one is still exact at the end. */
  method Sample(os: Os, result: Result) returns (st: Status)
    requires FlagsTrue(result.r, os.w)
    modifies os, result
    ensures Evolves(old(os.w), os.w) && Queried(st, old(os.w).notes, os.w.notes)
    ensures SameButFlags(old(result.r), result.r) && result.r.pipes == old(result.r).pipes
    ensures FlagsTrue(result.r, os.w)
    ensures st.Fine? ==> (result.r.empty <==> os.w.members == {})
    ensures st.Fine? || st == Raised(ProcessWait) || st == Raised(JobQuery)
  {
    hide Onward, Later, FlagsTrue;
    ghost var first := os.w;
    st := SampleRoot(os, result);
    ghost var second := os.w;
    if st.Fine? {
      st := SampleJob(os, result);
      EvolvesComposes(first, second, os.w);
    }
  }

  lemma RootAnswered(r: Record, w: World, next: World)
    requires FlagsTrue(r, w) && Evolves(w, next) && next.notes.jobEmpty == w.notes.jobEmpty
    requires next.notes.rootEnded ==> next.notes.rootEnded == w.notes.rootEnded || next.exited
    ensures FlagsTrue(r.(exited := next.notes.rootEnded), next)
    ensures next.notes.rootEnded == w.notes.rootEnded ==> FlagsTrue(r, next)
  {}

  lemma JobAnswered(r: Record, w: World, next: World)
    requires FlagsTrue(r, w) && Evolves(w, next) && next.notes.rootEnded == w.notes.rootEnded
    requires next.notes.jobEmpty ==> next.notes.jobEmpty == w.notes.jobEmpty || next.members == {}
    ensures FlagsTrue(r.(empty := next.notes.jobEmpty), next)
    ensures next.notes.jobEmpty == w.notes.jobEmpty ==> FlagsTrue(r, next)
  {}

  lemma DrainBlamed(st: Status, which: Which, w: World, start: nat)
    requires st in {Raised(PipePeek), Raised(PipeRead), Raised(BackendStderr), Raised(StdoutLimit)}
    requires Unread(st, which, w.notes) ==> w.notes.faulted
    requires st == Raised(BackendStderr) ==> w.err.consumed != []
    requires st == Raised(StdoutLimit) ==> |w.out.consumed| > MAX_OUTPUT
    ensures Blamed(st, w, start)
  {}

  method DrainBoth(os: Os, output: PipeBuffer, error: PipeBuffer, ghost start: nat) returns (st: Status)
    requires Paired(os, output, error) && output.Valid() && error.Valid()
    modifies os, output, error, output.bytes, output.scratch, error.bytes, error.scratch
    ensures Onward(old(os.w), os.w) && SameAnswers(old(os.w).notes, os.w.notes)
    ensures st.Fine? ==> output.Valid() && error.Valid() && BothReadOn(old(os.w), os.w, 1)
    ensures !st.Fine? ==> Blamed(st, os.w, start)
  {
    hide Reads, Onward, Later, ClosedAsTold, Drained, Blamed, ReadOn, BothReadOn;
    ghost var first := os.w;
    st := output.Drain();
    ghost var between := os.w;
    OnlyReads(Stdout, first, between);
    OneDrained(Stdout, first.notes, between.notes, !Unread(st, Stdout, between.notes));
    if !st.Fine? {
      DrainBlamed(st, Stdout, between, start);
    } else {
      OtherUntouched(Stdout, Stderr, error.closed, first, between, true);
      st := error.Drain();
      OnlyReads(Stderr, between, os.w);
      OtherUntouched(Stderr, Stdout, output.closed, between, os.w, !Unread(st, Stderr, os.w.notes));
      OneDrained(Stderr, between.notes, os.w.notes, !Unread(st, Stderr, os.w.notes));
      if st.Fine? {
        ReadBothInTurn(first, between, os.w, 1);
      } else {
        DrainBlamed(st, Stderr, os.w, start);
      }
      OnwardComposes(first, between, os.w);
    }
  }

  /** What every turn of the poll does before it looks at root and job. */
  method Watch(os: Os, start: nat, output: PipeBuffer, error: PipeBuffer) returns (st: Status)
    requires start <= os.w.clock && Paired(os, output, error) && output.Valid() && error.Valid()
    modifies os, output, error, output.bytes, output.scratch, error.bytes, error.scratch
    ensures Onward(old(os.w), os.w) && SameAnswers(old(os.w).notes, os.w.notes)
    ensures st.Fine? ==> output.Valid() && error.Valid() && MayGoOn(old(os.w), start) && BothReadOn(old(os.w), os.w, 1)
    ensures !st.Fine? ==> Blamed(st, os.w, start)
  {
    hide Onward, Later, BothReadOn;
    ghost var first := os.w;
    st := CheckStop(os, start);
    ghost var checked := os.w;
    OnwardIsLater(first, checked);
    if st.Fine? {
      st := DrainBoth(os, output, error, start);
      if st.Fine? {
        BothReadOnWithin(first, checked, os.w, os.w, 1);
      }
      OnwardComposes(first, checked, os.w);
    }
  }

  /** The three flags of a turn. */
  method Observe(os: Os, result: Result, output: PipeBuffer, error: PipeBuffer, ghost start: nat) returns (st: Status)
    requires FlagsTrue(result.r, os.w) && Paired(os, output, error) && output.Valid() && error.Valid()
    modifies os, result
    ensures Evolves(old(os.w), os.w)
    ensures SameButFlags(old(result.r), result.r)
    ensures FlagsTrue(result.r, os.w)
    ensures st.Fine? ==> Seen(result.r, os.w)
    ensures !st.Fine? ==> Blamed(st, os.w, start)
  {
    st := Sample(os, result);
    if st.Fine? {
      result.r := result.r.(pipes := output.closed && error.closed);
      BothClosed(os.w.notes.broken);
    }
  }

  lemma BothClosed(broken: set<Which>)
    ensures Stdout in broken && Stderr in broken <==> broken == {Stdout, Stderr}
  {
    assert broken <= {Stdout, Stderr} by {
      forall which | which in broken ensures which in {Stdout, Stderr} {
        assert which.Stdout? || which.Stderr?;
      }
    }
  }

  /** What a turn that was not stopped has found out. */
  predicate Seen(r: Record, w: World) {
    (r.empty <==> w.members == {}) && (r.pipes <==> w.notes.broken == {Stdout, Stderr})
  }

  lemma FlagsStay(r: Record, w: World, next: World)
    requires FlagsTrue(r, w) && Onward(w, next) && SameAnswers(w.notes, next.notes)
    ensures FlagsTrue(r, next)
  {}

  /** One turn of the poll. */
  method Turn(os: Os, result: Result, start: nat, output: PipeBuffer, error: PipeBuffer) returns (st: Status)
    requires start <= os.w.clock && Paired(os, output, error) && output.Valid() && error.Valid()
    requires FlagsTrue(result.r, os.w)
    modifies os, result, output, error, output.bytes, output.scratch, error.bytes, error.scratch
    ensures Onward(old(os.w), os.w)
    ensures SameButFlags(old(result.r), result.r)
    ensures FlagsTrue(result.r, os.w)
    ensures st.Fine? ==> output.Valid() && error.Valid() && MayGoOn(old(os.w), start)
    ensures st.Fine? ==> Seen(result.r, os.w) && BothReadOn(old(os.w), os.w, 1)
    ensures !st.Fine? ==> Blamed(st, os.w, start)
  {
    hide Onward, Later, FlagsTrue, BothReadOn;
    ghost var first := os.w;
    st := Watch(os, start, output, error);
    ghost var watched := os.w;
    FlagsStay(result.r, first, watched);
    if st.Fine? {
      st := Observe(os, result, output, error, start);
      BothReadOnWithin(first, first, watched, os.w, 1);
      OnwardComposes(first, watched, os.w);
      OnwardIsLater(watched, os.w);
    }
  }

  predicate Ended(r: Record) { r.exited && r.empty && r.pipes }

  /** A turn, and the pause behind it while something has not ended. */
  method TurnAndPause(os: Os, result: Result, start: nat, output: PipeBuffer, error: PipeBuffer) returns (st: Status)
    requires start <= os.w.clock && Paired(os, output, error) && output.Valid() && error.Valid()
    requires FlagsTrue(result.r, os.w)
    modifies os, result, output, error, output.bytes, output.scratch, error.bytes, error.scratch
    ensures Onward(old(os.w), os.w)
    ensures SameButFlags(old(result.r), result.r)
    ensures FlagsTrue(result.r, os.w)
    ensures st.Fine? ==> output.Valid() && error.Valid() && MayGoOn(old(os.w), start)
    ensures st.Fine? && !Ended(result.r) ==> old(os.w).clock < os.w.clock
    ensures !st.Fine? ==> Blamed(st, os.w, start)
  {
    hide Onward, Later, FlagsTrue;
    ghost var first := os.w;
    st := Turn(os, result, start, output, error);
    ghost var turned := os.w;
    OnwardIsLater(first, turned);
    if st.Fine? && !Ended(result.r) {
      os.Sleep(10);
      FlagsStay(result.r, turned, os.w);
      OnwardComposes(first, turned, os.w);
      OnwardIsLater(turned, os.w);
    }
  }

  /** Until root, job and pipes have all ended, or something stops it. */
  method Poll(os: Os, result: Result, start: nat, output: PipeBuffer, error: PipeBuffer) returns (st: Status)
    requires start <= os.w.clock && Paired(os, output, error) && output.Valid() && error.Valid()
    requires FlagsTrue(result.r, os.w)
    modifies os, result, output, error, output.bytes, output.scratch, error.bytes, error.scratch
    ensures Onward(old(os.w), os.w)
    ensures SameButFlags(old(result.r), result.r)
    ensures FlagsTrue(result.r, os.w)
    ensures st.Fine? ==> output.Valid() && error.Valid() && Ended(result.r)
    ensures !st.Fine? ==> Blamed(st, os.w, start)
  {
    hide Onward, Later, FlagsTrue;
    st := Fine;
    var going := true;
    ghost var first := os.w;
    NothingHappened(first);
    while going
      invariant Onward(first, os.w) && start <= os.w.clock
      invariant SameButFlags(old(result.r), result.r) && FlagsTrue(result.r, os.w)
      invariant st.Fine? ==> output.Valid() && error.Valid()
      invariant !st.Fine? ==> Blamed(st, os.w, start)
      invariant going || !st.Fine? || Ended(result.r)
      invariant going ==> st.Fine?
      decreases going, start + DEADLINE - os.w.clock
    {
      ghost var before := os.w;
      st := TurnAndPause(os, result, start, output, error);
      going := st.Fine? && !Ended(result.r);
      OnwardComposes(first, before, os.w);
      OnwardIsLater(before, os.w);
    }
  }

  /** The exit code, and the output while the buffer still holds it. */
  method Finish(os: Os, result: Result, output: PipeBuffer) returns (st: Status)
    requires output.os == os && output.which == Stdout && output.Valid() && os.w.exited && os.w.out.Ended()
    modifies os, result
    ensures Evolves(old(os.w), os.w) && SameAnswers(old(os.w).notes, os.w.notes)
    ensures result.r == old(result.r).(exitCode := result.r.exitCode, output := result.r.output)
    ensures st.Fine? ==> result.r.exitCode == Some(0) && os.w.exitCode == 0 && result.r.output == Encode(os.w.out.Written())
    ensures !st.Fine? ==> result.r.output == old(result.r).output && st in {Raised(ExitQuery), Raised(BackendExit)}
    ensures st == Raised(ExitQuery) ==> os.w.notes.faulted
    ensures st == Raised(BackendExit) ==> os.w.exited && os.w.exitCode != 0
    ensures old(result.r).exitCode.None? && result.r.exitCode.Some? ==> result.r.exitCode.value < 0x1_0000_0000
  {
    var ok, code := os.GetExitCode();
    :- Require(ok, ExitQuery);
    result.r := result.r.(exitCode := Some(code));
    :- Require(code == 0, BackendExit);
    assert os.w.out.Written() == os.w.out.consumed;
    result.r := result.r.(output := Encode(output.bytes[..output.length]));
    return Fine;
  }

  /** The job was told to stop at that time, and since then nothing has failed. */
  predicate Stopping(w: World, since: nat) {
    w.notes.stopped && w.notes.stoppedAt == since && !w.notes.stopFailed && !w.notes.unclean
  }

  /** The grace period after the job was told to stop; it looks at least once. */
  method Await(os: Os, result: Result) returns (st: Status)
    requires FlagsTrue(result.r, os.w) && Stopping(os.w, os.w.notes.stoppedAt) && os.w.notes.stoppedAt <= os.w.clock
    modifies os, result
    ensures Evolves(old(os.w), os.w)
    ensures SameButFlags(old(result.r), result.r) && result.r.pipes == old(result.r).pipes
    ensures FlagsTrue(result.r, os.w)
    ensures os.w.notes.stopped && !os.w.notes.stopFailed
    ensures st.Fine? <==> !os.w.notes.unclean && result.r.exited && result.r.empty
    ensures !st.Fine? ==> os.w.notes.unclean || Waited(os.w, GRACE)
  {
    hide Onward, Later, FlagsTrue;
    ghost var first, since := os.w, os.w.notes.stoppedAt;
    var grace := os.Milliseconds();
    FlagsStay(result.r, first, os.w);
    OnwardIsLater(first, os.w);
    var waiting := true;
    st := Fine;
    while waiting && st.Fine?
      invariant Evolves(first, os.w) && since <= grace <= os.w.clock
      invariant SameButFlags(old(result.r), result.r) && result.r.pipes == old(result.r).pipes
      invariant FlagsTrue(result.r, os.w)
      invariant os.w.notes.stopped && os.w.notes.stoppedAt == since && !os.w.notes.stopFailed
      invariant st.Fine? <==> !os.w.notes.unclean
      invariant waiting || !st.Fine? || (result.r.exited && result.r.empty) || Waited(os.w, GRACE)
      decreases waiting && st.Fine?, grace + GRACE - os.w.clock
    {
      ghost var before := os.w;
      st, waiting := AwaitTurn(os, result, grace, since);
      EvolvesComposes(first, before, os.w);
    }
    if st.Fine? {
      st := Require(result.r.exited && result.r.empty, CleanupIncomplete);
    }
  }

  /** One look, and the pause behind it unless both have ended; `waiting` while there is grace left. */
  method AwaitTurn(os: Os, result: Result, grace: nat, ghost since: nat) returns (st: Status, waiting: bool)
    requires FlagsTrue(result.r, os.w) && since <= grace <= os.w.clock && Stopping(os.w, since)
    modifies os, result
    ensures Evolves(old(os.w), os.w)
    ensures SameButFlags(old(result.r), result.r) && result.r.pipes == old(result.r).pipes
    ensures FlagsTrue(result.r, os.w)
    ensures os.w.notes.stopped && os.w.notes.stoppedAt == since && !os.w.notes.stopFailed
    ensures st.Fine? <==> !os.w.notes.unclean
    ensures waiting ==> old(os.w).clock < os.w.clock && old(os.w).clock < grace + GRACE
    ensures waiting || !st.Fine? || (result.r.exited && result.r.empty) || Waited(os.w, GRACE)
  {
    hide Onward, Later, FlagsTrue;
    waiting := false;
    ghost var first := os.w;
    st := Sample(os, result);
    ghost var looked := os.w;
    OnwardIsLater(first, looked);
    if st.Fine? && !(result.r.exited && result.r.empty) {
      os.Sleep(10);
      ghost var slept := os.w;
      var now := os.Milliseconds();
      EvolvesComposes(looked, slept, os.w);
      EvolvesComposes(first, looked, os.w);
      FlagsStay(result.r, looked, os.w);
      waiting := now - grace < GRACE;
    }
  }

  /** The stop itself failed, or a query after it, or the last answers leave root or job alive. */
  predicate Incomplete(w: World) {
    w.notes.stopFailed || w.notes.unclean || (w.notes.stopped && !(w.notes.rootEnded && w.notes.jobEmpty))
  }

  /** The `finally` block's stop of a job that has not ended by itself. */
  method Reap(os: Os, result: Result) returns (st: Status)
    requires FlagsTrue(result.r, os.w) && os.w.notes.Calm()
    modifies os, result
    ensures Later(old(os.w), os.w)
    ensures os.w.trace == old(os.w).trace
              + if old(result.r).exited && old(result.r).empty then [] else [Terminated]
    ensures SameButFlags(old(result.r), result.r) && result.r.pipes == old(result.r).pipes
    ensures FlagsTrue(result.r, os.w)
    ensures st.Fine? <==> !Incomplete(os.w)
    ensures Patient(os.w)
    ensures st.Fine? ==> result.r.exited && result.r.empty
    ensures os.w.notes.stopped <==> !(old(result.r).exited && old(result.r).empty)
    ensures old(result.r).exited && old(result.r).empty ==> os.w == old(os.w) && result.r == old(result.r)
  {
    if result.r.exited && result.r.empty {
      return Fine;
    }
    st := StopAndAwait(os, result);
  }

  method StopAndAwait(os: Os, result: Result) returns (st: Status)
    requires FlagsTrue(result.r, os.w) && os.w.notes.Calm()
    modifies os, result
    ensures Later(old(os.w), os.w) && os.w.trace == old(os.w).trace + [Terminated]
    ensures SameButFlags(old(result.r), result.r) && result.r.pipes == old(result.r).pipes
    ensures FlagsTrue(result.r, os.w)
    ensures st.Fine? <==> !Incomplete(os.w)
    ensures Patient(os.w) && os.w.notes.stopped
    ensures st.Fine? ==> result.r.exited && result.r.empty
  {
    hide Onward, Later, FlagsTrue, Evolves;
    ghost var first := os.w;
    var terminated := os.Terminate();
    ghost var told := os.w;
    ToldIsLater(result.r, first, told);
    st := Require(terminated, JobTerminate);
    if terminated {
      st := Await(os, result);
      FlagsAreAnswers(result.r, os.w);
      EvolvesIsLater(told, os.w);
      LaterComposes(first, told, os.w);
    }
  }

  lemma ToldIsLater(r: Record, w: World, next: World)
    requires Evolves(w.(trace := next.trace, notes := next.notes), next) && w.notes.Grows(next.notes)
    requires w.notes.rootEnded == next.notes.rootEnded && w.notes.jobEmpty == next.notes.jobEmpty
    ensures Later(w, next) && w.clock <= next.clock
    ensures FlagsTrue(r, w) ==> FlagsTrue(r, next)
  {}

  lemma EvolvesIsLater(w: World, next: World)
    requires Evolves(w, next)
    ensures Later(w, next) && next.trace == w.trace
  {}

  lemma FlagsAreAnswers(r: Record, w: World)
    requires FlagsTrue(r, w)
    ensures r.exited == w.notes.rootEnded && r.empty == w.notes.jobEmpty
  {}

  /** A stop that worked, with queries that worked, is only given up after the grace period. */
  ghost predicate Patient(w: World) {
    Incomplete(w) && !w.notes.stopFailed && !w.notes.unclean ==> Waited(w, GRACE)
  }

  /** How far the guarded part came, and what is certain then. */
  ghost predicate Progress(r: Record, w: World, st: Status, process: bool, start: nat) {
    && FlagsTrue(r, w)
    && w.notes.Calm() && Terminated !in w.trace
    && (!st.Fine? ==> Blamed(st, w, start))
    && r.error == NoError
    && r.created == process && (process <==> Created in w.trace)
    && (r.resumed <==> Resumed in w.trace)
    && (r.resumed ==> w.trace == CHECKED_LAUNCH && w.inJob)
    && (st.Fine? ==> r.Completed() && Sound(r, w))
    && (!st.Fine? ==> r.output == "")
    && (r.exitCode.Some? ==> r.exitCode.value < 0x1_0000_0000)
  }

  predicate Initial(r: Record) {
    r == Record(r.runId, NoError, false, false, false, false, false, None, 0, "")
  }

  /** A child that runs, and so far looks alive. */
  ghost predicate Running(r: Record, w: World) {
    && FlagsTrue(r, w) && w.notes.Calm() && w.trace == CHECKED_LAUNCH && w.inJob
    && r == Record(r.runId, NoError, true, true, false, false, false, None, 0, "")
  }

  /** The poll, and the end of a run that reaches it. */
  method TryRunning(os: Os, result: Result, start: nat, output: PipeBuffer, error: PipeBuffer) returns (st: Status)
    requires start <= os.w.clock && Paired(os, output, error) && output.Valid() && error.Valid() && Running(result.r, os.w)
    modifies os, result, output, error, output.bytes, output.scratch, error.bytes, error.scratch
    ensures Progress(result.r, os.w, st, true, start)
    ensures result.r.runId == old(result.r).runId && result.r.elapsed == 0
  {
    hide Blamed, Progress;
    ghost var r, first := result.r, os.w;
    st := Poll(os, result, start, output, error);
    ghost var polled, seen := os.w, result.r;
    if !st.Fine? {
      PollStopped(r, seen, first, polled, st, start);
    } else {
      st := Finish(os, result, output);
      RunIsOver(r, seen, first, polled, result.r, os.w, st, start);
    }
  }

  lemma PollStopped(r: Record, seen: Record, w: World, next: World, st: Status, start: nat)
    requires Running(r, w) && Onward(w, next) && SameButFlags(r, seen) && FlagsTrue(seen, next)
    requires !st.Fine? && Blamed(st, next, start)
    ensures Progress(seen, next, st, true, start)
  {
    hide Blamed, Later;
    StillInJob(w, next);
  }

  lemma StillInJob(w: World, next: World)
    requires Onward(w, next)
    ensures next.inJob == w.inJob
  {}

  lemma RunIsOver(r: Record, seen: Record, first: World, polled: World, last: Record, w: World, st: Status, start: nat)
    requires Running(r, first) && Onward(first, polled) && SameButFlags(r, seen) && FlagsTrue(seen, polled) && Ended(seen)
    requires |polled.out.consumed| <= MAX_OUTPUT && polled.err.consumed == []
    requires Evolves(polled, w) && SameAnswers(polled.notes, w.notes)
    requires last == seen.(exitCode := last.exitCode, output := last.output)
    requires st.Fine? ==> last.exitCode == Some(0) && w.exitCode == 0 && last.output == Encode(w.out.Written())
    requires !st.Fine? ==> last.output == "" && st in {Raised(ExitQuery), Raised(BackendExit)}
    requires st == Raised(ExitQuery) ==> w.notes.faulted
    requires st == Raised(BackendExit) ==> w.exited && w.exitCode != 0
    requires last.exitCode.Some? ==> last.exitCode.value < 0x1_0000_0000
    ensures Progress(last, w, st, true, start)
  {
    FlagsStay(seen, polled, w);
    assert w.out == polled.out && w.err == polled.err;
    assert polled.out.Written() == polled.out.consumed && polled.err.Written() == polled.err.consumed;
  }

  lemma LaunchStopped(r: Record, now: Record, notes: Notes, w: World, st: Status, process: bool, start: nat)
    requires Initial(r) && now == r.(created := if process then true else r.created)
    requires !st.Fine? && FailedAt(st, w.trace) && Blamed(st, w, start) && (process <==> Created in w.trace)
    requires SameAnswers(notes, w.notes) && !notes.rootEnded && !notes.jobEmpty && w.notes.Calm()
    ensures Progress(now, w, st, process, start)
  {
    hide Blamed;
  }

  /** The try block behind the pipes. */
  method TryLaunched(os: Os, result: Result, start: nat, output: PipeBuffer, error: PipeBuffer)
    returns (st: Status, process: bool)
    requires start <= os.w.clock && Paired(os, output, error) && output.Valid() && error.Valid() && Initial(result.r)
    requires os.w.trace == [] && os.w.members == {} && FlagsTrue(result.r, os.w) && os.w.notes.Calm()
    requires !output.closed && !error.closed
    modifies os, result, output, error, output.bytes, output.scratch, error.bytes, error.scratch
    ensures Progress(result.r, os.w, st, process, start)
    ensures result.r.runId == old(result.r).runId && result.r.elapsed == 0
  {
    hide Later, Blamed, FailedAt;
    ghost var r, first := result.r, os.w;
    st, process := Launch(os, result, start);
    if !st.Fine? {
      LaunchStopped(r, result.r, first.notes, os.w, st, process, start);
    } else {
      st := TryRunning(os, result, start, output, error);
    }
  }

  lemma NothingLaunched(r: Record, w: World, next: World, st: Status, start: nat)
    requires Initial(r) && w.trace == [] && w.members == {} && w.notes == NOTHING_NOTED
    requires Evolves(w, next) && SameAnswers(w.notes, next.notes)
    requires !st.Fine? ==> st in {Raised(PipeCreate), Raised(PipeInherit)} && next.notes.faulted
    ensures next.trace == [] && next.members == {} && FlagsTrue(r, next) && next.notes.Calm() && w.clock <= next.clock
    ensures !st.Fine? ==> Progress(r, next, st, false, start)
  {}

  /** The `try` block of `Collect`. */
  method Try(os: Os, result: Result, start: nat)
    returns (st: Status, process: bool, output: PipeBuffer?, error: PipeBuffer?)
    requires start <= os.w.clock && Initial(result.r)
    requires os.w.trace == [] && os.w.members == {} && os.w.out.consumed == [] && os.w.err.consumed == []
    requires os.w.notes == NOTHING_NOTED
    modifies os, result
    ensures Progress(result.r, os.w, st, process, start)
    ensures result.r.runId == old(result.r).runId && result.r.elapsed == 0
    ensures output == null <==> error == null
    ensures process ==> output != null
    ensures output != null ==> fresh({output, error, output.bytes, output.scratch, error.bytes, error.scratch})
    ensures output != null ==> Paired(os, output, error)
  {
    hide Later, Progress;
    process := false;
    ghost var first := os.w;
    st, output, error := OpenPipes(os);
    NothingLaunched(result.r, first, os.w, st, start);
    if st.Fine? {
      st, process := TryLaunched(os, result, start, output, error);
    }
  }

  /** The code a guarded part that ended like this leaves. */
  function ErrorOf(body: Status): Code {
    match body
    case Fine => NoError
    case Raised(code) => code
    case Crashed => CollectionError
  }

  /** The `catch` clauses. */
  function Caught(r: Record, body: Status): Record { r.(error := if body.Fine? then r.error else ErrorOf(body)) }

  /** What holds whenever `Collect` returns. */
  ghost predicate Settled(r: Record, w: World, body: Status, start: nat) {
    // Success is sound and exact.
    && (r.error == NoError <==> r.Completed())
    && (body.Fine? <==> r.Completed())
    && (r.Completed() ==> Sound(r, w))
    // No child is left behind silently.
    && (r.created <==> Created in w.trace)
    && (r.created && r.error != CleanupIncomplete ==> w.exited && w.members == {})
    // No child runs unchecked.
    && (r.resumed <==> Resumed in w.trace)
    && (r.resumed ==> CHECKED_LAUNCH <= w.trace && w.inJob)
    // An error is the true one, unless the cleanup was incomplete.
    && (!body.Fine? ==> Blamed(body, w, start))
    && CleanupIs(r, w, body)
    // The flags and the text are fit to be written down.
    && FlagsTrue(r, w)
    && Collected(r, if r.Completed() then w.out.Written() else [])
    && (r.exitCode.Some? ==> r.exitCode.value < 0x1_0000_0000)
  }

  /** The last word of the cleanup: when it is CLEANUP_INCOMPLETE, and when the error of the guarded part stands. */
  ghost predicate CleanupIs(r: Record, w: World, body: Status) {
    && (w.notes.stopped <==> Terminated in w.trace)
    && (r.error == CleanupIncomplete <==> Incomplete(w))
    && (r.error != CleanupIncomplete ==> r.error == ErrorOf(body))
    && Patient(w)
  }

  lemma ReapedIsSettled(first: Record, caught: Record, before: World, flagged: Record, r: Record, w: World, body: Status,
                        reaped: Status, start: nat)
    requires Progress(first, before, body, true, start) && caught == Caught(first, body)
    requires SameButFlags(caught, flagged) && caught.pipes == flagged.pipes && FlagsTrue(flagged, w)
    requires Later(before, w)
    requires w.trace == before.trace + if caught.exited && caught.empty then [] else [Terminated]
    requires caught.exited && caught.empty ==> w == before && flagged == caught
    requires w.notes.stopped <==> !(caught.exited && caught.empty)
    requires (reaped.Fine? <==> !Incomplete(w)) && Patient(w) && (reaped.Fine? ==> flagged.exited && flagged.empty)
    requires r == if reaped.Fine? then flagged else flagged.(error := CleanupIncomplete)
    ensures Settled(r, w, body, start)
  {
    if !body.Fine? {
      StillBlamed(body, before, w, start);
    }
    assert forall e: Event | e != Terminated :: e in w.trace <==> e in before.trace;
  }

  method CatchAndReap(os: Os, result: Result, body: Status, process: bool, ghost start: nat)
    requires Progress(result.r, os.w, body, process, start)
    modifies os, result
    ensures Settled(result.r, os.w, body, start)
    ensures result.r.runId == old(result.r).runId && result.r.elapsed == old(result.r).elapsed
    ensures result.r.created == process
  {
    result.r := Caught(result.r, body);
    if process {
      ghost var r, before := result.r, os.w;
      var reaped := Reap(os, result);
      ghost var flagged := result.r;
      if !reaped.Fine? {
        result.r := result.r.(error := CleanupIncomplete);
      }
      ReapedIsSettled(old(result.r), r, before, flagged, result.r, os.w, body, reaped, start);
    }
  }

  /** `Collect`. `body` is how the guarded part ended before the cleanup. */
  method Collect(os: Os, result: Result, start: nat)
    returns (thrown: Status, ghost body: Status, buffers: seq<PipeBuffer>)
    requires start <= os.w.clock && Initial(result.r)
    requires os.w.trace == [] && os.w.members == {} && os.w.out.consumed == [] && os.w.err.consumed == []
    requires os.w.notes == NOTHING_NOTED
    modifies os, result
    ensures thrown in {Fine, Raised(JobCreate), Raised(JobLimits)}
    ensures !thrown.Fine? ==> result.r == old(result.r) && os.w.trace == []
    ensures thrown.Fine? ==> Settled(result.r, os.w, body, start)
    ensures thrown.Fine? ==> os.w.trace != [] && os.w.trace[|os.w.trace| - 1] == JobClosed
    ensures result.r.runId == old(result.r).runId && result.r.elapsed == 0
    // Nothing of the child stays in either buffer.
    ensures buffers == [] || |buffers| == 2
    ensures result.r.created ==> |buffers| == 2
    ensures |buffers| == 2 ==> fresh(buffers[0]) && fresh(buffers[1]) && Paired(os, buffers[0], buffers[1])
    ensures |buffers| == 2 ==> buffers[0].Blank() && buffers[1].Blank()
  {
    hide Settled, Progress, Later, FlagsTrue;
    thrown, body, buffers := Fine, Fine, [];
    ghost var first := os.w;
    var made := os.Attempt();
    Undisturbed(first, os.w);
    if !made {
      thrown := Raised(JobCreate);
      return;
    }
    ghost var created := os.w;
    var limited := os.Attempt();
    Undisturbed(created, os.w);
    if !limited {
      thrown := Raised(JobLimits);
      return;
    }
    var st, process, output, error := Try(os, result, start);
    body := st;
    CatchAndReap(os, result, st, process, start);
    if output != null {
      output.Clear();
      error.Clear();
      buffers := [output, error];
    }
    ghost var before := os.w;
    os.CloseJob();
    StillSettled(result.r, before, os.w, body, start);
  }

  lemma StillSettled(r: Record, w: World, next: World, body: Status, start: nat)
    requires Settled(r, w, body, start)
    requires Evolves(w.(trace := next.trace), next) && next.notes == w.notes && next.trace == w.trace + [JobClosed]
    ensures Settled(r, next, body, start)
  {
    assert forall e: Event | e != JobClosed :: e in next.trace <==> e in w.trace;
    if !body.Fine? {
      StillBlamed(body, w, next, start);
    }
  }

  /**
   * From the text on disk back to the child: what the controller accepts as a receipt is
   * the record of a checked, finished, contained child, and what it decodes is exactly
   * everything that child wrote. Every text it could read fits its bound.
   */
  lemma ReceiptMeansChild(r: Record, w: World, body: Status, start: nat, elapsed: nat, id: string)
    requires Settled(r, w, body, start) && IsRunId(r.runId) && IsRunId(id) && elapsed < 0x8000_0000_0000_0000
    ensures
      var written := r.(elapsed := elapsed);
      && Utf8Length(Json(written)) <= 8192
      && (CompletedReceipt(Json(written), id) <==> body.Fine? && r.runId == id && elapsed < 40000)
      && (CompletedReceipt(Json(written), id) ==> Sound(r, w))
      && forall e: string, output: string | ReceiptIs(Json(written), id, e, output) ::
           Decode(output) == Some(w.out.Written())
  {
    var written := r.(elapsed := elapsed);
    var bytes := if r.Completed() then w.out.Written() else [];
    assert written.Completed() <==> r.Completed();
    CollectedIsWritable(written, bytes);
    JsonFits(written);
    ReceiptExact(written, bytes, id);
    forall e: string, output: string | ReceiptIs(Json(written), id, e, output)
      ensures Decode(output) == Some(w.out.Written())
    {
      AcceptedIsCompleted(written, bytes, id, e, output);
    }
  }
}
