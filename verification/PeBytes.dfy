/**
 * Bounds-checked little-endian reads, after the helpers of `PeParser` in
 * TrustLaunchProbe.cs. `checked(...)` of the source is a precondition here: a proof
 * that the operation cannot overflow, so that no OverflowException can be raised.
 */
module PeBytes {
  import opened Common

  datatype Code =
    | SizeOutOfRange | SeekFailed | ReadFailed | UnexpectedEof | ResetFailed
    | DosSignatureInvalid | BoundsRejected | SignatureInvalid | LayoutUnsupported | NotPe32Plus
    | ImportDirectoryAbsent | ImportNameMissing | ImportNameInvalid
    | RvaNotFileBacked | RvaAmbiguous | RvaUnmapped | AsciiNameInvalid | AsciiNameUnterminated

  const MAX_SIZE := 256 * 1024 * 1024

  type Image = b: seq<byte> | |b| <= MAX_SIZE witness []

  /** `checked` arithmetic in `int`. */
  function Checked(x: int): (r: int)
    requires -0x8000_0000 <= x < 0x8000_0000
  {
    x
  }

  /** `checked((uint)x)`. */
  function CheckedUnsigned(x: int): (r: nat)
    requires 0 <= x < 0x1_0000_0000
  {
    x
  }

  /** `CheckedOffset`: `size` bytes from `offset` lie inside `length`. */
  function CheckedOffset(offset: nat, size: nat, length: nat): (r: Result<nat, Code>)
    requires offset < 0x1_0000_0000 && length <= MAX_SIZE
    ensures r.Ok? <==> offset + size <= length
    ensures r.Ok? ==> r.value == offset
    ensures r.Err? ==> r.error == BoundsRejected
  {
    if offset + size > length then Err(BoundsRejected) else Ok(Checked(offset))
  }

  // ----- the source's `|` and `<<` on non-negative 32-bit patterns -----

  function BitOr(a: nat, b: nat): nat {
    if a == 0 && b == 0 then 0
    else 2 * BitOr(a / 2, b / 2) + (if a % 2 == 1 || b % 2 == 1 then 1 else 0)
  }

  function ShiftLeft(a: nat, n: nat): nat {
    if n == 0 then a else 2 * ShiftLeft(a, n - 1)
  }

  /** Where the bits do not meet, `|` adds. */
  lemma {:induction false} OrAdds(a: nat, b: nat, n: nat)
    requires a < ShiftLeft(1, n)
    ensures BitOr(a, ShiftLeft(b, n)) == a + ShiftLeft(b, n)
  {
    if n == 0 {
      OrZero(b);
    } else {
      OrAdds(a / 2, b, n - 1);
    }
  }

  lemma {:induction false} OrZero(b: nat)
    ensures BitOr(0, b) == b
  {
    if b != 0 { OrZero(b / 2); }
  }

  lemma {:induction false} ShiftsMultiply(a: nat, n: nat)
    ensures ShiftLeft(a, n) == a * ShiftLeft(1, n)
  {
    if n > 0 { ShiftsMultiply(a, n - 1); }
  }

  lemma ByteShifts(a: nat)
    ensures ShiftLeft(1, 8) == 0x100 && ShiftLeft(1, 16) == 0x1_0000 && ShiftLeft(1, 24) == 0x100_0000
    ensures ShiftLeft(a, 8) == 0x100 * a && ShiftLeft(a, 16) == 0x1_0000 * a && ShiftLeft(a, 24) == 0x100_0000 * a
  {
    ShiftsMultiply(a, 8);
    ShiftsMultiply(a, 16);
    ShiftsMultiply(a, 24);
    assert ShiftLeft(1, 4) == 16;
    assert ShiftLeft(1, 8) == 0x100;
    assert ShiftLeft(1, 12) == 0x1000;
    assert ShiftLeft(1, 16) == 0x1_0000;
    assert ShiftLeft(1, 20) == 0x10_0000;
  }

  /** The number whose base-256 digits, least significant first, are `b`. */
  function LittleEndian(b: seq<byte>): nat {
    if b == [] then 0 else b[0] + 256 * LittleEndian(b[1..])
  }

  function U16(b: Image, at: nat): (r: nat)
    requires at + 2 <= |b|
  {
    LittleEndian(b[at..at + 2])
  }

  function U32(b: Image, at: nat): (r: nat)
    requires at + 4 <= |b|
  {
    LittleEndian(b[at..at + 4])
  }

  function Sum2(b0: nat, b1: nat): nat { b0 + 0x100 * b1 }

  function Sum3(b0: nat, b1: nat, b2: nat): nat { Sum2(b0, b1) + 0x1_0000 * b2 }

  function Sum4(b0: nat, b1: nat, b2: nat, b3: nat): nat { Sum3(b0, b1, b2) + 0x100_0000 * b3 }

  lemma Digits(b: Image, at: nat)
    ensures at + 2 <= |b| ==> U16(b, at) == Sum2(b[at], b[at + 1]) < 0x1_0000
    ensures at + 4 <= |b| ==> U32(b, at) == Sum4(b[at], b[at + 1], b[at + 2], b[at + 3]) < 0x1_0000_0000
  {
    if at + 2 <= |b| {
      var s := b[at..at + 2];
      assert s[1..][1..] == [];
      assert LittleEndian(s[1..]) == s[1];
    }
    if at + 4 <= |b| {
      var s := b[at..at + 4];
      assert s[1..][1..] == s[2..] && s[2..][1..] == s[3..] && s[3..][1..] == [];
      assert LittleEndian(s[3..]) == s[3];
      assert LittleEndian(s[2..]) == Sum2(s[2], s[3]);
      assert LittleEndian(s[1..]) == Sum3(s[1], s[2], s[3]);
      assert LittleEndian(s) == Sum4(s[0], s[1], s[2], s[3]);
    }
  }

  lemma JoinedBytes(b0: nat, b1: nat, b2: nat, b3: nat)
    requires b0 < 256 && b1 < 256 && b2 < 256 && b3 < 256
    ensures BitOr(b0, ShiftLeft(b1, 8)) == Sum2(b0, b1)
    ensures BitOr(BitOr(BitOr(b0, ShiftLeft(b1, 8)), ShiftLeft(b2, 16)), ShiftLeft(b3, 24)) == Sum4(b0, b1, b2, b3)
  {
    ByteShifts(b1);
    ByteShifts(b2);
    ByteShifts(b3);
    OrAdds(b0, b1, 8);
    OrAdds(Sum2(b0, b1), b2, 16);
    OrAdds(Sum3(b0, b1, b2), b3, 24);
  }

  function ReadU16(bytes: Image, offset: nat): (r: Result<nat, Code>)
    requires offset < 0x8000_0000
    ensures r == if offset + 2 <= |bytes| then Ok(U16(bytes, offset)) else Err(BoundsRejected)
    ensures r.Ok? ==> r.value < 0x1_0000
  {
    var at :- CheckedOffset(CheckedUnsigned(offset), 2, |bytes|);
    Digits(bytes, at);
    JoinedBytes(bytes[at], bytes[at + 1], 0, 0);
    Ok(BitOr(bytes[at], ShiftLeft(bytes[at + 1], 8)))
  }

  function ReadU32(bytes: Image, offset: nat): (r: Result<nat, Code>)
    requires offset < 0x8000_0000
    ensures r == if offset + 4 <= |bytes| then Ok(U32(bytes, offset)) else Err(BoundsRejected)
    ensures r.Ok? ==> r.value < 0x1_0000_0000
  {
    var at :- CheckedOffset(CheckedUnsigned(offset), 4, |bytes|);
    Digits(bytes, at);
    JoinedBytes(bytes[at], bytes[at + 1], bytes[at + 2], bytes[at + 3]);
    Ok(BitOr(BitOr(BitOr(bytes[at], ShiftLeft(bytes[at + 1], 8)), ShiftLeft(bytes[at + 2], 16)),
             ShiftLeft(bytes[at + 3], 24)))
  }
}
