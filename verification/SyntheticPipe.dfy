/** `PipeBuffer` of SyntheticLaunchHarness.cs: keeps the first 4096 bytes and goes on draining. */
module SyntheticPipe {
  import opened Common
  import opened LaunchWorld

  const LIMIT := 4096

  /** How many pieces one call reads at most. */
  const PIECES := 2

  datatype Trouble = PipePeek | PipeRead

  function Kept(consumed: seq<byte>): seq<byte> {
    if |consumed| <= LIMIT then consumed else consumed[..LIMIT]
  }

  /** `Encoding.ASCII.GetString`: a byte outside ASCII becomes a question mark. */
  function AsciiText(b: seq<byte>): (s: string)
    ensures |s| == |b|
  {
    seq(|b|, i requires 0 <= i < |b| => if b[i] < 0x80 then b[i] as char else '?')
  }

  /** The bytes are the ASCII codes of the text. */
  predicate Says(b: seq<byte>, text: string) {
    |b| == |text| && forall i | 0 <= i < |b| :: b[i] == text[i] as int
  }

  /** Text that has no substitute in it. */
  predicate PlainAscii(text: string) { forall i | 0 <= i < |text| :: text[i] < 0x80 as char && text[i] != '?' }

  /** For such a text, being read as it is being it. */
  lemma AsciiTextExact(b: seq<byte>, text: string)
    requires PlainAscii(text)
    ensures AsciiText(b) == text <==> Says(b, text)
  {
    var read := AsciiText(b);
    if read == text {
      forall i | 0 <= i < |b| ensures b[i] == text[i] as int {
        assert read[i] == text[i];
      }
    }
  }

  class PipeBuffer {
    const os: Os
    const which: Which
    const scratch: array<byte>
    var retained: seq<byte>
    var closed: bool
    var exceeded: bool

    /** The kept bytes are the first of those consumed, and `exceeded` tells if any were let go. */
    ghost predicate Valid()
      reads this, os
    {
      && scratch.Length == LIMIT
      && retained == Kept(os.w.On(which).consumed)
      && (exceeded <==> |os.w.On(which).consumed| > LIMIT)
      && ClosedAsTold(closed, which, os.w)
    }

    constructor (os: Os, which: Which)
      requires os.w.On(which).consumed == [] && which !in os.w.notes.broken
      ensures this.os == os && this.which == which && Valid() && !closed
      ensures fresh(scratch)
    {
      this.os := os;
      this.which := which;
      scratch := new byte[LIMIT];
      retained := [];
      closed, exceeded := false, false;
    }

    function Text(): string
      reads this
    {
      AsciiText(retained)
    }

    /** At most two pieces; whatever happens, the buffer stays a faithful prefix. */
    method Drain() returns (r: Result<(), Trouble>)
      requires Valid()
      modifies this, os, scratch
      ensures Valid() && Reads(which, old(os.w), os.w)
      ensures Drained(which, old(os.w).notes, os.w.notes, r.Ok?)
      ensures |os.w.On(which).consumed| <= |old(os.w).On(which).consumed| + PIECES * LIMIT
      ensures old(retained) <= retained
      ensures r.Ok? ==> ReadOn(which, old(os.w), os.w, PIECES)
    {
      hide Reads, Onward, Later;
      SameReadsNothing(which, os.w);
      if closed {
        return Ok(());
      }
      for i := 0 to PIECES
        invariant Valid() && !closed && Reads(which, old(os.w), os.w)
        invariant os.w.notes == old(os.w).notes && old(os.w).On(which).consumed <= os.w.On(which).consumed
        invariant |old(os.w).On(which).consumed| + i <= |os.w.On(which).consumed| <= |old(os.w).On(which).consumed| + i * LIMIT
      {
        ghost var before := os.w;
        var more;
        r, more := ReadPiece();
        ReadsCompose(which, old(os.w), before, os.w);
        if r.Err? || !more {
          return;
        }
      }
      return Ok(());
    }

    /** One turn of the loop in `Drain`: `more` when it goes on. */
    method ReadPiece() returns (r: Result<(), Trouble>, more: bool)
      requires Valid() && !closed
      modifies this, os, scratch
      ensures Valid() && Reads(which, old(os.w), os.w)
      ensures Drained(which, old(os.w).notes, os.w.notes, r.Ok?)
      ensures |os.w.On(which).consumed| <= |old(os.w).On(which).consumed| + LIMIT
      ensures more ==> r.Ok? && !closed && os.w.notes == old(os.w).notes
      ensures more ==> |os.w.On(which).consumed| > |old(os.w).On(which).consumed|
      ensures r.Ok? && !os.w.notes.idle && !more ==> old(os.w).On(which).Written() <= os.w.On(which).consumed
    {
      hide Reads, Onward, Later;
      more := false;
      var peeked, error, available := os.Peek(which);
      ghost var before := os.w;
      if !peeked {
        if error == BROKEN_PIPE {
          closed := true;
          AllRead(which, old(os.w), os.w);
          return Ok(()), false;
        }
        return Err(PipePeek), false;
      }
      if available == 0 {
        AllRead(which, old(os.w), os.w);
        return Ok(()), false;
      }
      r, more := ReadSome(available);
      ReadsCompose(which, old(os.w), before, os.w);
      if os.w.On(which).queue == [] {
        AllRead(which, old(os.w), os.w);
      }
    }

    /** The read behind a successful peek. */
    method ReadSome(available: nat) returns (r: Result<(), Trouble>, more: bool)
      requires Valid() && !closed
      modifies this, os, scratch
      ensures Valid() && Reads(which, old(os.w), os.w)
      ensures Drained(which, old(os.w).notes, os.w.notes, r.Ok?)
      ensures |os.w.On(which).consumed| <= |old(os.w).On(which).consumed| + LIMIT
      ensures more ==> r.Ok? && !closed && os.w.notes == old(os.w).notes
      ensures more ==> |os.w.On(which).consumed| > |old(os.w).On(which).consumed|
      ensures r.Ok? && !os.w.notes.idle && !more ==> os.w.On(which).Ended()
    {
      hide Reads, Onward, Later;
      var ok, error, read := os.Read(which, scratch, if available < scratch.Length then available else scratch.Length);
      if !ok {
        if error == BROKEN_PIPE {
          closed := true;
          return Ok(()), false;
        }
        return Err(PipeRead), false;
      }
      if read == 0 {
        return Ok(()), false;
      }
      Retain(read);
      return Ok(()), true;
    }

    /** Of a piece of `read` bytes, what fits is kept. */
    method Retain(read: nat)
      requires scratch.Length == LIMIT && read <= LIMIT && |os.w.On(which).consumed| >= read
      requires var before := os.w.On(which).consumed[..|os.w.On(which).consumed| - read];
               retained == Kept(before) && (exceeded <==> |before| > LIMIT)
      requires os.w.On(which).consumed[|os.w.On(which).consumed| - read..] == scratch[..read]
      modifies this`retained, this`exceeded
      ensures retained == Kept(os.w.On(which).consumed) && (exceeded <==> |os.w.On(which).consumed| > LIMIT)
    {
      var keep := if read < LIMIT - |retained| then read else LIMIT - |retained|;
      if keep < read {
        exceeded := true;
      }
      retained := retained + scratch[..keep];
    }
  }
}
