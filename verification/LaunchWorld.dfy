/**
 * The operating system as the launchers see it: one root process, the job that holds it,
 * its two output pipes and a clock. Between any two calls the world may move on in every
 * way that `Evolves` allows; each call answers truthfully about the moment it is made, or
 * fails. Nothing here decides which failures, delays or interleavings happen.
 */
module LaunchWorld {
  import opened Common

  /** A pipe: the bytes already read, those waiting, and whether a writer is left. */
  datatype Stream = Stream(consumed: seq<byte>, queue: seq<byte>, open: bool) {
    /** Every byte the writers have produced so far. */
    function Written(): seq<byte> { consumed + queue }

    /** With the first `n` bytes of the queue read. */
    function Taken(n: nat): Stream
      requires n <= |queue|
    {
      Stream(consumed + queue[..n], queue[n..], open)
    }

    /** What is read was written before, and from an ended pipe nothing is. */
    lemma TakingKeepsWritten(n: nat)
      requires n <= |queue|
      ensures Taken(n).Written() == Written() && consumed <= Taken(n).consumed
      ensures Ended() ==> Taken(n) == this
    {
      assert consumed + queue[..n] + queue[n..] == consumed + queue;
    }

    /** What broken-pipe means: nothing left to read and nobody left to write. */
    predicate Ended() { !open && queue == [] }

    /** Bytes are appended in order, and only while a writer is there. */
    predicate Appends(next: Stream) {
      && next.consumed == consumed
      && queue <= next.queue
      && (!open ==> !next.open && next.queue == queue)
    }
  }

  datatype Which = Stdout | Stderr

  /** What the launcher did to the root process, in order. */
  datatype Event =
    | Created
    | Membership(inJob: bool)
    | Identity(accepted: bool)
    | Resumed
    | Terminated
    | JobClosed

  /** One reading of the clock, with what had been read of the child's output by then. */
  datatype Reading = Reading(clock: nat, seen: seq<byte>)

  const BROKEN_PIPE := 109

  /** What the launcher has been told so far, by the calls it made. */
  datatype Notes = Notes(
    readings: set<Reading>,  // of the clock
    broken: set<Which>,      // the pipes it was told are broken
    idle: bool,              // some read of a pipe gave nothing
    rootEnded: bool,         // the last answer about the root process
    jobEmpty: bool,          // the last answer about the job
    polled: seq<nat>,        // how many processes the job had, at each answer before it was told to stop
    faulted: bool,           // some call failed
    stopped: bool,           // the job was told to stop,
    stoppedAt: nat,          // at that time,
    stopFailed: bool,        // such a call failed,
    unclean: bool)           // or another one since then
  {
    /** A call failed. */
    function Fault(): Notes { this.(faulted := true, unclean := unclean || stopped) }

    function Fail(ok: bool): Notes { if ok then this else Fault() }

    function Told(clock: nat, ok: bool): Notes {
      this.(stopped := true, stoppedAt := if stopped then stoppedAt else clock, stopFailed := stopFailed || !ok)
    }

    function Counted(active: nat): Notes {
      this.(jobEmpty := active == 0, polled := if stopped then polled else polled + [active])
    }

    /** The answer of a call on a pipe. */
    function Answered(which: Which, ok: bool, error: nat): Notes {
      if ok then this else if error == BROKEN_PIPE then this.(broken := broken + {which}) else Fault()
    }

    function Read(read: nat): Notes { this.(idle := idle || read == 0) }

    /** No stop so far. */
    predicate Calm() { !stopped && !stopFailed && !unclean }

    /** Nothing is taken back, and no sample of the job counts as taken before a stop that came earlier. */
    predicate Grows(next: Notes) {
      && readings <= next.readings && broken <= next.broken && polled <= next.polled
      && (faulted ==> next.faulted) && (idle ==> next.idle) && (stopFailed ==> next.stopFailed) && (unclean ==> next.unclean)
      && (stopped ==> next.stopped && next.stoppedAt == stoppedAt && next.polled == polled)
    }

    /** The last job count before the stop. */
    function LastCount(): Option<nat> { if polled == [] then None else Some(polled[|polled| - 1]) }
  }

  /** A launcher that has not asked or done anything yet. */
  const NOTHING_NOTED := Notes({}, {}, false, false, false, [], false, false, 0, false, false)

  /** Nothing was heard of root or job. */
  predicate SameAnswers(before: Notes, after: Notes) {
    after.rootEnded == before.rootEnded && after.jobEmpty == before.jobEmpty && after.polled == before.polled
  }

  /** Only about the pipes, and a failure, something was noted. */
  predicate PipesNoted(before: Notes, after: Notes, ok: bool) {
    after == before.Fail(ok).(broken := after.broken, idle := after.idle) && (before.idle ==> after.idle)
  }

  /** What reading from one pipe may add to the notes. */
  predicate Drained(which: Which, before: Notes, after: Notes, ok: bool) {
    && PipesNoted(before, after, ok)
    && (after.broken == before.broken || after.broken == before.broken + {which})
  }

  lemma BothDrained(a: Notes, b: Notes, c: Notes, ok: bool)
    requires Drained(Stdout, a, b, true) && Drained(Stderr, b, c, ok)
    ensures PipesNoted(a, c, ok)
  {}

  lemma OneDrained(which: Which, a: Notes, b: Notes, ok: bool)
    requires Drained(which, a, b, ok)
    ensures PipesNoted(a, b, ok) && SameAnswers(a, b)
    ensures !ok ==> b.faulted
  {}

  datatype World = World(
    clock: nat,
    resumedAt: nat,        // the clock when the root process was resumed
    notes: Notes,
    controllerExited: bool,
    cancelRequested: bool,
    exited: bool,          // the root process has exited
    exitCode: uint,
    inJob: bool,           // the root process was created inside the job
    members: set<nat>,     // live processes of the job
    out: Stream,
    err: Stream,
    trace: seq<Event>)
  {
    function On(which: Which): Stream { if which.Stdout? then out else err }

    function Put(which: Which, s: Stream): World {
      if which.Stdout? then this.(out := s) else this.(err := s)
    }
  }

  /** Exit is final, only a member can make a member, what is written, read or noted stays, an ended pipe stays ended, time only passes. */
  predicate Later(w: World, next: World) {
    && w.clock <= next.clock
    && (w.exited ==> next.exited && next.exitCode == w.exitCode)
    && next.inJob == w.inJob && next.resumedAt == w.resumedAt && w.notes.Grows(next.notes)
    && (w.controllerExited ==> next.controllerExited) && (w.cancelRequested ==> next.cancelRequested)
    && w.out.consumed <= next.out.consumed && w.err.consumed <= next.err.consumed
    && w.out.Written() <= next.out.Written() && w.err.Written() <= next.err.Written()
    && (w.members == {} ==> next.members == {})
    && (w.out.Ended() ==> next.out == w.out)
    && (w.err.Ended() ==> next.err == w.err)
  }

  /** The launcher looks on, and does nothing to the child. */
  predicate Onward(w: World, next: World) {
    Later(w, next) && next.trace == w.trace && (w.notes.Calm() ==> next.notes.Calm())
  }

  /** What happens by itself: nobody but the launcher reads its pipes or acts for it. */
  predicate Evolves(w: World, next: World) {
    && Onward(w, next)
    && next.out.consumed == w.out.consumed && next.err.consumed == w.err.consumed
    && next.notes.broken == w.notes.broken
  }

  lemma OnwardIsLater(w: World, next: World)
    requires Onward(w, next)
    ensures Later(w, next) && w.clock <= next.clock && w.resumedAt == next.resumedAt && w.notes.Grows(next.notes)
    ensures (w.out.Ended() ==> next.out.Ended()) && (w.err.Ended() ==> next.err.Ended())
  {}

  /** The launcher looked at the clock so long after the stop. */
  ghost predicate Waited(w: World, milliseconds: nat) {
    exists reading | reading in w.notes.readings :: reading.clock >= w.notes.stoppedAt + milliseconds
  }

  lemma LaterComposes(a: World, b: World, c: World)
    requires Later(a, b) && Later(b, c)
    ensures Later(a, c)
  {}

  /** The launcher read from one of its pipes, and did nothing else. */
  predicate Reads(which: Which, w: World, next: World) {
    && Onward(w, next)
    && (which.Stdout? ==> next.err.consumed == w.err.consumed)
    && (which.Stderr? ==> next.out.consumed == w.out.consumed)
  }

  lemma OnwardComposes(a: World, b: World, c: World)
    requires Onward(a, b) && Onward(b, c)
    ensures Onward(a, c) && b.clock <= c.clock
    ensures (b.out.Ended() ==> c.out.Ended()) && (b.err.Ended() ==> c.err.Ended())
  {
    LaterComposes(a, b, c);
  }

  lemma NothingHappened(w: World)
    ensures Evolves(w, w)
  {}

  lemma EvolvesComposes(a: World, b: World, c: World)
    requires Evolves(a, b) && Evolves(b, c)
    ensures Evolves(a, c) && b.clock <= c.clock
  {
    OnwardComposes(a, b, c);
  }

  /** What a call made on the way to `c` leaves for the next one. */
  lemma EvolvesOn(a: World, b: World, c: World)
    requires (a == b || Evolves(a, b)) && Evolves(b, c)
    ensures Evolves(a, c) && Onward(b, c)
    ensures (a.out.Ended() ==> c.out.Ended()) && (a.err.Ended() ==> c.err.Ended())
  {
    if a != b {
      EvolvesComposes(a, b, c);
    }
  }

  lemma ReadsCompose(which: Which, a: World, b: World, c: World)
    requires Reads(which, a, b) && Reads(which, b, c)
    ensures Reads(which, a, c)
    ensures a.On(which).consumed <= c.On(which).consumed && a.On(which).Written() <= b.On(which).Written()
    ensures b.On(which).Written() <= c.On(which).consumed ==> a.On(which).Written() <= c.On(which).consumed
  {
    OnwardComposes(a, b, c);
  }

  lemma SameReadsNothing(which: Which, w: World)
    ensures Reads(which, w, w)
    ensures w.On(which).Ended() ==> w.On(which).Written() <= w.On(which).consumed
  {}

  lemma OnlyReads(which: Which, w: World, next: World)
    requires Reads(which, w, next)
    ensures Onward(w, next)
    ensures which.Stdout? ==> next.err.consumed == w.err.consumed && (w.err.Ended() ==> next.err == w.err)
    ensures which.Stderr? ==> next.out.consumed == w.out.consumed && (w.out.Ended() ==> next.out == w.out)
  {}

  /** A buffer is closed if and only if its pipe was said to be broken, which is only said at its end. */
  predicate ClosedAsTold(closed: bool, which: Which, w: World) {
    (closed ==> w.On(which).Ended()) && (closed <==> which in w.notes.broken)
  }

  /** Reading one pipe changes nothing about the other. */
  lemma OtherUntouched(which: Which, other: Which, closed: bool, w: World, next: World, ok: bool)
    requires which != other && Reads(which, w, next) && Drained(which, w.notes, next.notes, ok)
    requires ClosedAsTold(closed, other, w)
    ensures ClosedAsTold(closed, other, next) && next.On(other).consumed == w.On(other).consumed
  {}

  /** Nor does what happens by itself. */
  lemma StillAsTold(closed: bool, which: Which, w: World, next: World)
    requires Evolves(w, next) && ClosedAsTold(closed, which, w)
    ensures ClosedAsTold(closed, which, next) && next.On(which).consumed == w.On(which).consumed
  {}

  /** With nothing left to read, all that was there before has been read. */
  lemma AllRead(which: Which, w: World, next: World)
    requires Reads(which, w, next) && next.On(which).queue == []
    ensures w.On(which).Written() <= next.On(which).consumed
  {
    assert next.On(which).Written() == next.On(which).consumed;
  }

  /** What is noted of an answer does not change the world. */
  lemma NotedOnTop(w: World, next: World, notes: Notes)
    requires Evolves(w, next) && next.notes == w.notes && w.notes.Grows(notes)
    requires (w.notes.Calm() ==> notes.Calm()) && notes.broken == w.notes.broken
    ensures Evolves(w, next.(notes := notes))
  {}

  lemma AnsweredOnTop(which: Which, w: World, next: World)
    requires PipesNoted(w.notes, next.notes, true) || PipesNoted(w.notes, next.notes, false)
    requires w.notes.broken <= next.notes.broken
    requires Evolves(w, next.(notes := w.notes))
    ensures Onward(w, next)
  {}

  lemma TakingIsOnward(w: World, which: Which, n: nat)
    requires n <= |w.On(which).queue|
    ensures Onward(w, w.Put(which, w.On(which).Taken(n)).(notes := w.notes.Read(n)))
  {
    hide Stream.Written, Stream.Ended, Stream.Taken;
    w.On(which).TakingKeepsWritten(n);
    if which.Stdout? {
      assert w.On(which) == w.out;
    } else {
      assert w.On(which) == w.err;
    }
  }

  /** All that was there before has been read, or at least so many bytes more. */
  predicate Advanced(before: Stream, after: Stream, bytes: nat) {
    before.Written() <= after.consumed || |after.consumed| >= |before.consumed| + bytes
  }

  /** The launcher has gone on reading this pipe, unless some read of a pipe gave nothing. */
  predicate ReadOn(which: Which, w: World, next: World, bytes: nat) {
    next.notes.idle || Advanced(w.On(which), next.On(which), bytes)
  }

  /** And so it has over any longer stretch of the run. */
  lemma ReadOnWithin(which: Which, a: World, b: World, c: World, d: World, bytes: nat)
    requires (a == b || Onward(a, b)) && ReadOn(which, b, c, bytes) && (c == d || Onward(c, d))
    ensures ReadOn(which, a, d, bytes)
  {
    hide Stream.Written;
  }

  /** Both pipes, one after the other. */
  predicate BothReadOn(w: World, next: World, bytes: nat) {
    ReadOn(Stdout, w, next, bytes) && ReadOn(Stderr, w, next, bytes)
  }

  lemma BothReadOnWithin(a: World, b: World, c: World, d: World, bytes: nat)
    requires (a == b || Onward(a, b)) && BothReadOn(b, c, bytes) && (c == d || Onward(c, d))
    ensures BothReadOn(a, d, bytes)
  {
    hide Onward, Later, ReadOn;
    ReadOnWithin(Stdout, a, b, c, d, bytes);
    ReadOnWithin(Stderr, a, b, c, d, bytes);
  }

  lemma ReadBothInTurn(a: World, b: World, c: World, bytes: nat)
    requires Onward(a, b) && Onward(b, c) && ReadOn(Stdout, a, b, bytes) && ReadOn(Stderr, b, c, bytes)
    ensures BothReadOn(a, c, bytes)
  {
    hide Onward, Later, ReadOn;
    ReadOnWithin(Stdout, a, a, b, c, bytes);
    ReadOnWithin(Stderr, a, b, c, c, bytes);
  }

  class Os {
    var w: World

    constructor ()
      ensures w.trace == [] && w.members == {} && w.out == w.err == Stream([], [], true) && w.notes == NOTHING_NOTED
    {
      w := World(0, 0, NOTHING_NOTED, false, false, false, 0, false, {}, Stream([], [], true), Stream([], [], true), []);
    }

    /** Time passes and other processes run. */
    method Evolve()
      modifies this
      ensures Evolves(old(w), w) && w.notes == old(w).notes
    {
      var next: World := *;
      if Evolves(w, next) && next.notes == w.notes && w.out.Appends(next.out) && w.err.Appends(next.err) {
        w := next;
      }
    }

    /** A call that may fail and tells nothing about the root process. */
    method Attempt() returns (ok: bool)
      modifies this
      ensures Evolves(old(w), w) && w.notes == old(w).notes.Fail(ok)
    {
      Evolve();
      ok := *;
      Note(ok);
    }

    /** A call that was made is noted when it failed. */
    method Note(ok: bool)
      modifies this
      ensures w == old(w).(notes := old(w).notes.Fail(ok))
    {
      w := w.(notes := w.notes.Fail(ok));
    }

    method Milliseconds() returns (now: nat)
      modifies this
      ensures Evolves(old(w), w) && now == w.clock
      ensures w.notes == old(w).notes.(readings := old(w).notes.readings + {Reading(now, w.out.consumed)})
    {
      Evolve();
      now := w.clock;
      w := w.(notes := w.notes.(readings := w.notes.readings + {Reading(now, w.out.consumed)}));
    }

    method Sleep(milliseconds: nat)
      requires milliseconds > 0
      modifies this
      ensures Evolves(old(w), w) && w.clock > old(w).clock && w.notes == old(w).notes
    {
      w := w.(clock := w.clock + milliseconds);
      Evolve();
    }

    /** The root process is created suspended inside the job, or nothing happens. */
    method CreateProcess() returns (ok: bool)
      requires w.members == {} && w.trace == []
      modifies this
      ensures ok ==> w.clock >= old(w).clock && w.trace == [Created] && (w.inJob <==> w.members != {})
                     && w.out.consumed == old(w).out.consumed && w.err.consumed == old(w).err.consumed
      ensures !ok ==> Evolves(old(w), w)
      ensures w.notes == old(w).notes.Fail(ok)
    {
      Evolve();
      ok := *;
      Note(ok);
      if ok {
        var inJob: bool := *;
        w := w.(trace := [Created], exited := false, inJob := inJob, members := if inJob then {0} else {});
      }
    }

    /** `IsProcessInJob`. */
    method IsProcessInJob() returns (ok: bool, inJob: bool)
      modifies this
      ensures Evolves(old(w).(trace := w.trace), w)
      ensures w.trace == old(w).trace + if ok then [Membership(inJob)] else []
      ensures ok ==> inJob == w.inJob
      ensures w.notes == old(w).notes.Fail(ok)
    {
      Evolve();
      ok := *;
      Note(ok);
      inJob := w.inJob;
      if ok {
        w := w.(trace := w.trace + [Membership(inJob)]);
      }
    }

    /** The token query and the comparison that follows it. */
    method CheckIdentity() returns (ok: bool, accepted: bool)
      modifies this
      ensures Evolves(old(w).(trace := w.trace), w)
      ensures w.trace == old(w).trace + if ok then [Identity(accepted)] else []
      ensures w.notes == old(w).notes.Fail(ok)
    {
      Evolve();
      ok := *;
      Note(ok);
      accepted := *;
      if ok {
        w := w.(trace := w.trace + [Identity(accepted)]);
      }
    }

    method ResumeThread() returns (ok: bool)
      modifies this
      ensures Evolves(old(w).(trace := w.trace, resumedAt := w.resumedAt), w)
      ensures w.trace == old(w).trace + if ok then [Resumed] else []
      ensures ok ==> old(w).clock <= w.resumedAt <= w.clock
      ensures w.notes == old(w).notes.Fail(ok)
    {
      Evolve();
      ok := *;
      Note(ok);
      if ok {
        w := w.(trace := w.trace + [Resumed], resumedAt := w.clock);
      }
    }

    /** `WaitForSingleObject(process, 0)`. */
    method Exited() returns (ok: bool, exited: bool)
      modifies this
      ensures Evolves(old(w), w)
      ensures ok ==> exited == w.exited
      ensures w.notes == if ok then old(w).notes.(rootEnded := exited) else old(w).notes.Fault()
    {
      hide Evolves;
      Evolve();
      ok := *;
      exited := w.exited;
      ghost var next, notes := w, if ok then w.notes.(rootEnded := exited) else w.notes.Fault();
      NotedOnTop(old(w), next, notes);
      Note(ok);
      if ok {
        w := w.(notes := w.notes.(rootEnded := exited));
      }
    }

    /** The same of the process that started the launcher. */
    method ControllerExited() returns (ok: bool, exited: bool)
      modifies this
      ensures Evolves(old(w), w)
      ensures ok ==> exited == w.controllerExited
      ensures w.notes == old(w).notes.Fail(ok)
    {
      Evolve();
      ok := *;
      exited := w.controllerExited;
      Note(ok);
    }

    /** `File.Exists`, which cannot fail. */
    method CancelRequested() returns (requested: bool)
      modifies this
      ensures Evolves(old(w), w) && requested == w.cancelRequested && w.notes == old(w).notes
    {
      Evolve();
      requested := w.cancelRequested;
    }

    /** `QueryInformationJobObject`. */
    method ActiveProcesses() returns (ok: bool, active: nat)
      modifies this
      ensures Evolves(old(w), w)
      ensures ok ==> active == |w.members| && (active == 0 <==> w.members == {})
      ensures w.notes == if ok then old(w).notes.Counted(active) else old(w).notes.Fault()
    {
      hide Evolves;
      Evolve();
      ok := *;
      active := |w.members|;
      ghost var next, notes := w, if ok then w.notes.Counted(active) else w.notes.Fault();
      NotedOnTop(old(w), next, notes);
      Note(ok);
      if ok {
        w := w.(notes := w.notes.Counted(active));
      }
    }

    method GetExitCode() returns (ok: bool, code: uint)
      modifies this
      ensures Evolves(old(w), w)
      ensures ok && w.exited ==> code == w.exitCode
      ensures w.notes == old(w).notes.Fail(ok)
    {
      Evolve();
      ok := *;
      Note(ok);
      code := w.exitCode;
    }

    method Terminate() returns (ok: bool)
      modifies this
      ensures Evolves(old(w).(trace := w.trace, notes := w.notes), w)
      ensures w.trace == old(w).trace + [Terminated]
      ensures w.notes == old(w).notes.Told(old(w).clock, ok)
    {
      ok := *;
      w := w.(trace := w.trace + [Terminated], notes := w.notes.Told(w.clock, ok));
      Evolve();
    }

    method CloseJob()
      modifies this
      ensures Evolves(old(w).(trace := w.trace), w)
      ensures w.trace == old(w).trace + [JobClosed] && w.notes == old(w).notes
    {
      w := w.(trace := w.trace + [JobClosed]);
      Evolve();
    }

    /** What a call on a pipe answers: broken only when there is no more to come. */
    method Answer(which: Which, ok: bool) returns (error: nat)
      modifies this
      ensures w == old(w).(notes := old(w).notes.Answered(which, ok, error))
      ensures error == BROKEN_PIPE ==> w.On(which).Ended()
    {
      error := *;
      if !w.On(which).Ended() && error == BROKEN_PIPE {
        error := 0;
      }
      w := w.(notes := w.notes.Answered(which, ok, error));
    }

    /** `PeekNamedPipe`: how much there is to read now. */
    method Peek(which: Which) returns (ok: bool, error: nat, available: nat)
      modifies this
      ensures Reads(which, old(w), w) && w.On(which).consumed == old(w).On(which).consumed
      ensures ok ==> available == |w.On(which).queue|
      ensures !ok && error == BROKEN_PIPE ==> w.On(which).Ended()
      ensures w.notes == old(w).notes.Answered(which, ok, error)
    {
      Evolve();
      ok := *;
      error := Answer(which, ok);
      available := |w.On(which).queue|;
    }

    static method Fill(chunk: array<byte>, piece: seq<byte>)
      requires |piece| <= chunk.Length
      modifies chunk
      ensures chunk[..|piece|] == piece
    {
      for i := 0 to |piece|
        invariant chunk[..i] == piece[..i]
      {
        chunk[i] := piece[i];
      }
    }

    /** The next `n` bytes of a pipe go to the launcher. */
    method Take(which: Which, n: nat) returns (piece: seq<byte>)
      requires n <= |w.On(which).queue|
      modifies this
      ensures |piece| == n && w.On(which).consumed == old(w).On(which).consumed + piece
      ensures Onward(old(w), w) && w.notes == old(w).notes.Read(n)
      ensures which.Stdout? ==> w.err == old(w).err
      ensures which.Stderr? ==> w.out == old(w).out
    {
      hide Onward, Later;
      piece := w.On(which).queue[..n];
      ghost var before := w;
      w := w.Put(which, w.On(which).Taken(n)).(notes := w.notes.Read(n));
      TakingIsOnward(before, which, n);
    }

    /** `ReadFile`: some of the waiting bytes, at most `wanted`, moved into `chunk`. */
    method Read(which: Which, chunk: array<byte>, wanted: nat) returns (ok: bool, error: nat, read: nat)
      requires wanted <= chunk.Length
      modifies this, chunk
      ensures Reads(which, old(w), w)
      ensures ok ==> read <= wanted && w.On(which).consumed == old(w).On(which).consumed + chunk[..read]
      ensures !ok ==> w.On(which).consumed == old(w).On(which).consumed
      ensures !ok && error == BROKEN_PIPE ==> w.On(which).Ended()
      ensures w.notes == if ok then old(w).notes.Read(read) else old(w).notes.Answered(which, ok, error)
    {
      hide Later;
      Evolve();
      ok := *;
      error := Answer(which, ok);
      AnsweredOnTop(which, old(w), w);
      var n: int := *;
      read := if 0 <= n <= wanted && n <= |w.On(which).queue| then n else 0;
      if ok {
        ghost var before := w;
        var piece := Take(which, read);
        OnwardComposes(old(w), before, w);
        Fill(chunk, piece);
      }
    }
  }
}
