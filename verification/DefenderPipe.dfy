/** `PipeBuffer` of DefenderControl.cs: a fixed buffer that holds a pipe's bytes or fails. */
module DefenderPipe {
  import opened Common
  import opened DefenderRecord
  import opened LaunchWorld

  /** `NONE` is what a record starts with; no failure carries it. */
  type FailureCode = c: Code | c != NoError witness CollectionError

  /** How a piece of code ends: normally, with a coded `Failure`, or with anything else. */
  datatype Status = Fine | Raised(code: FailureCode) | Crashed {
    predicate IsFailure() { !Fine? }

    function PropagateFailure(): Status
      requires IsFailure()
    {
      this
    }
  }

  /** `Program.Require`. */
  function Require(ok: bool, code: FailureCode): Status { if ok then Fine else Raised(code) }

  /** A call on the pipe failed; a pipe that breaks between peek and read is reported as such a failure. */
  predicate Unread(r: Status, which: Which, notes: Notes) {
    r == Raised(PipePeek) || (r == Raised(PipeRead) && which !in notes.broken)
  }

  class PipeBuffer {
    const os: Os
    const which: Which
    const bytes: array<byte>
    const scratch: array<byte>
    var length: nat
    var closed: bool

    /** The buffer is the consumed part of the stream; closed is the truth about its end. */
    ghost predicate Valid()
      reads this, os, bytes, scratch
    {
      && bytes.Length == scratch.Length == MAX_OUTPUT && bytes != scratch
      && length <= MAX_OUTPUT
      && bytes[..length] == os.w.On(which).consumed
      && (which.Stderr? ==> length == 0)
      && ClosedAsTold(closed, which, os.w)
    }

    constructor (os: Os, which: Which)
      requires os.w.On(which).consumed == [] && which !in os.w.notes.broken
      ensures this.os == os && this.which == which && Valid() && !closed
      ensures fresh(bytes) && fresh(scratch)
    {
      this.os := os;
      this.which := which;
      bytes := new byte[MAX_OUTPUT];
      scratch := new byte[MAX_OUTPUT];
      length := 0;
      closed := false;
    }

    /**
     * Reads at most one piece. Either the buffer again holds everything consumed, or a
     * failure tells why it cannot: no byte is dropped silently.
     */
    method Drain() returns (r: Status)
      requires Valid()
      modifies this, os, bytes, scratch
      ensures Reads(which, old(os.w), os.w)
      ensures Drained(which, old(os.w).notes, os.w.notes, !Unread(r, which, os.w.notes))
      ensures bytes.Length == MAX_OUTPUT
      ensures r.Fine? ==> Valid()
      ensures !r.Fine? ==> r in {Raised(PipePeek), Raised(PipeRead), Raised(BackendStderr), Raised(StdoutLimit)}
      ensures r == Raised(BackendStderr) ==> which.Stderr? && os.w.err.consumed != []
      ensures r == Raised(StdoutLimit) ==> which.Stdout? && |os.w.out.consumed| > MAX_OUTPUT
      ensures r.Fine? ==> ReadOn(which, old(os.w), os.w, 1)
    {
      hide Reads, Onward, Later;
      ghost var first := os.w;
      SameReadsNothing(which, first);
      if closed {
        return Fine;
      }
      var peeked, error, available := os.Peek(which);
      ghost var before := os.w;
      if !peeked {
        if error == BROKEN_PIPE {
          closed := true;
          AllRead(which, first, before);
          return Fine;
        }
        return Raised(PipePeek);
      }
      if available == 0 {
        AllRead(which, first, before);
        return Fine;
      }
      r := ReadPiece(available);
      ReadsCompose(which, first, before, os.w);
    }

    /** The read behind a successful peek. */
    method ReadPiece(available: nat) returns (r: Status)
      requires Valid() && !closed
      modifies this, os, bytes, scratch
      ensures Reads(which, old(os.w), os.w)
      ensures Drained(which, old(os.w).notes, os.w.notes, !Unread(r, which, os.w.notes))
      ensures bytes.Length == MAX_OUTPUT
      ensures r.Fine? ==> Valid()
      ensures !r.Fine? ==> r in {Raised(PipeRead), Raised(BackendStderr), Raised(StdoutLimit)}
      ensures r == Raised(BackendStderr) ==> which.Stderr? && os.w.err.consumed != []
      ensures r == Raised(StdoutLimit) ==> which.Stdout? && |os.w.out.consumed| > MAX_OUTPUT
      ensures r.Fine? && !os.w.notes.idle ==> |os.w.On(which).consumed| > |old(os.w).On(which).consumed|
    {
      hide Reads, Onward, Later;
      ghost var kept := os.w.On(which).consumed;
      var ok, error, read := os.Read(which, scratch, if available < scratch.Length then available else scratch.Length);
      r := Require(ok, PipeRead);
      if r.Fine? {
        r := Take(read, kept);
      }
    }

    /** What is done with a piece of `read` bytes behind those kept so far. */
    method Take(read: nat, ghost kept: seq<byte>) returns (r: Status)
      requires bytes.Length == scratch.Length == MAX_OUTPUT && bytes != scratch && length <= MAX_OUTPUT
      requires read <= scratch.Length && bytes[..length] == kept && !closed && (which.Stderr? ==> length == 0)
      requires os.w.On(which).consumed == kept + scratch[..read] && which !in os.w.notes.broken
      modifies this`length, bytes, scratch
      ensures r.Fine? ==> Valid()
      ensures !r.Fine? ==> r in {Raised(BackendStderr), Raised(StdoutLimit)}
      ensures r == Raised(BackendStderr) ==> which.Stderr? && os.w.err.consumed != []
      ensures r == Raised(StdoutLimit) ==> which.Stdout? && |os.w.out.consumed| > MAX_OUTPUT
    {
      r := Require(which.Stdout? || read == 0, BackendStderr);
      if r.Fine? {
        r := Require(read <= bytes.Length - length, StdoutLimit);
        if r.Fine? {
          Keep(read);
        }
      }
    }

    /** `Buffer.BlockCopy` of the piece behind what is there, and `Array.Clear` of the scratch. */
    method Keep(read: nat)
      requires read <= scratch.Length && read <= bytes.Length - length && bytes != scratch
      modifies this`length, bytes, scratch
      ensures length == old(length) + read
      ensures bytes[..length] == old(bytes[..length]) + old(scratch[..read])
      ensures forall i | 0 <= i < scratch.Length :: scratch[i] == 0
    {
      CopyBehind(read);
      length := length + read;
      forall i | 0 <= i < scratch.Length {
        scratch[i] := 0;
      }
    }

    method CopyBehind(read: nat)
      requires read <= scratch.Length && read <= bytes.Length - length && bytes != scratch
      modifies bytes
      ensures bytes[..length + read] == old(bytes[..length]) + scratch[..read]
    {
      forall i | 0 <= i < read {
        bytes[length + i] := scratch[i];
      }
    }

    predicate Blank()
      reads this, bytes, scratch
    {
      && length == 0
      && (forall i | 0 <= i < bytes.Length :: bytes[i] == 0)
      && (forall i | 0 <= i < scratch.Length :: scratch[i] == 0)
    }

    /** Nothing read from the child stays behind. */
    method Clear()
      modifies this`length, bytes, scratch
      ensures Blank()
    {
      forall i | 0 <= i < bytes.Length {
        bytes[i] := 0;
      }
      forall i | 0 <= i < scratch.Length {
        scratch[i] := 0;
      }
      length := 0;
    }
  }
}
