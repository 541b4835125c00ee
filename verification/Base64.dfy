/** The base64 text of section 4 of RFC 4648, and decimal numerals, both read back exactly. */
module Base64 {
  import opened Common

  /** Table 1 of section 4 of RFC 4648. */
  function Digit(v: nat): char
    requires v < 64
  {
    if v < 26 then ('A' as int + v) as char
    else if v < 52 then ('a' as int + (v - 26)) as char
    else if v < 62 then ('0' as int + (v - 52)) as char
    else if v == 62 then '+' else '/'
  }

  function DigitValue(c: char): (r: Option<nat>)
    ensures r.Some? ==> r.value < 64
  {
    if 'A' <= c <= 'Z' then Some(c as int - 'A' as int)
    else if 'a' <= c <= 'z' then Some(c as int - 'a' as int + 26)
    else if '0' <= c <= '9' then Some(c as int - '0' as int + 52)
    else if c == '+' then Some(62)
    else if c == '/' then Some(63)
    else None
  }

  /** `Convert.ToBase64String`. */
  function Encode(b: seq<byte>): string {
    if |b| == 0 then ""
    else if |b| == 1 then [Digit(b[0] / 4), Digit(b[0] % 4 * 16), '=', '=']
    else if |b| == 2 then
      [Digit(b[0] / 4), Digit(b[0] % 4 * 16 + b[1] / 16), Digit(b[1] % 16 * 4), '=']
    else
      [Digit(b[0] / 4), Digit(b[0] % 4 * 16 + b[1] / 16), Digit(b[1] % 16 * 4 + b[2] / 64), Digit(b[2] % 64)]
      + Encode(b[3..])
  }

  function FirstByte(v0: nat, v1: nat): byte
    requires v0 < 64 && v1 < 64
  {
    v0 * 4 + v1 / 16
  }

  function SecondByte(v1: nat, v2: nat): byte
    requires v1 < 64 && v2 < 64
  {
    v1 % 16 * 16 + v2 / 4
  }

  function ThirdByte(v2: nat, v3: nat): byte
    requires v2 < 64 && v3 < 64
  {
    v2 % 4 * 64 + v3
  }

  /** `Convert.FromBase64String` on text without blanks: groups of four, padding only at the end. */
  function Decode(s: string): Option<seq<byte>> {
    if s == "" then Some([])
    else if |s| < 4 then None
    else
      var v0, v1, v2, v3 := DigitValue(s[0]), DigitValue(s[1]), DigitValue(s[2]), DigitValue(s[3]);
      if v0.None? || v1.None? then None
      else if |s| == 4 && s[2] == '=' && s[3] == '=' then Some([FirstByte(v0.value, v1.value)])
      else if v2.None? then None
      else if |s| == 4 && s[3] == '=' then Some([FirstByte(v0.value, v1.value), SecondByte(v1.value, v2.value)])
      else if v3.None? then None
      else
        var rest := Decode(s[4..]);
        if rest.None? then None
        else Some([FirstByte(v0.value, v1.value), SecondByte(v1.value, v2.value), ThirdByte(v2.value, v3.value)]
                  + rest.value)
  }

  lemma DigitRoundTrip(v: nat)
    requires v < 64
    ensures DigitValue(Digit(v)) == Some(v) && Digit(v) != '=' && Digit(v) != '"' && Digit(v) < 128 as char
  {}

  lemma GroupRoundTrip(b0: byte, b1: byte, b2: byte)
    ensures FirstByte(b0 / 4, b0 % 4 * 16 + b1 / 16) == b0 == FirstByte(b0 / 4, b0 % 4 * 16)
    ensures SecondByte(b0 % 4 * 16 + b1 / 16, b1 % 16 * 4 + b2 / 64) == b1
         == SecondByte(b0 % 4 * 16 + b1 / 16, b1 % 16 * 4)
    ensures ThirdByte(b1 % 16 * 4 + b2 / 64, b2 % 64) == b2
  {}

  /** Four digits before any rest are read as one group of three bytes. */
  lemma DecodeGroup(v0: nat, v1: nat, v2: nat, v3: nat, rest: string, tail: seq<byte>)
    requires v0 < 64 && v1 < 64 && v2 < 64 && v3 < 64 && Decode(rest) == Some(tail)
    ensures Decode([Digit(v0), Digit(v1), Digit(v2), Digit(v3)] + rest)
         == Some([FirstByte(v0, v1), SecondByte(v1, v2), ThirdByte(v2, v3)] + tail)
  {
    DigitRoundTrip(v0);
    DigitRoundTrip(v1);
    DigitRoundTrip(v2);
    DigitRoundTrip(v3);
    assert ([Digit(v0), Digit(v1), Digit(v2), Digit(v3)] + rest)[4..] == rest;
  }

  lemma DecodePadded(v0: nat, v1: nat, v2: nat)
    requires v0 < 64 && v1 < 64 && v2 < 64
    ensures Decode([Digit(v0), Digit(v1), '=', '=']) == Some([FirstByte(v0, v1)])
    ensures Decode([Digit(v0), Digit(v1), Digit(v2), '=']) == Some([FirstByte(v0, v1), SecondByte(v1, v2)])
  {
    DigitRoundTrip(v0);
    DigitRoundTrip(v1);
    DigitRoundTrip(v2);
  }

  lemma {:induction false} RoundTrip(b: seq<byte>)
    ensures Decode(Encode(b)) == Some(b)
    decreases |b|
  {
    if |b| == 0 {
    } else if |b| < 3 {
      EndRoundTrip(b);
    } else {
      RoundTrip(b[3..]);
      StartRoundTrip(b);
    }
  }

  lemma EndRoundTrip(b: seq<byte>)
    requires 0 < |b| < 3
    ensures Decode(Encode(b)) == Some(b)
  {
    hide Decode, FirstByte, SecondByte, ThirdByte, Digit;
    if |b| == 1 {
      GroupRoundTrip(b[0], 0, 0);
      OneByteReads(b, b[0] / 4, b[0] % 4 * 16);
    } else {
      GroupRoundTrip(b[0], b[1], 0);
      TwoBytesRead(b, b[0] / 4, b[0] % 4 * 16 + b[1] / 16, b[1] % 16 * 4);
    }
  }

  lemma OneByteReads(b: seq<byte>, v0: nat, v1: nat)
    requires |b| == 1 && v0 < 64 && v1 < 64 && Encode(b) == [Digit(v0), Digit(v1), '=', '=']
    requires FirstByte(v0, v1) == b[0]
    ensures Decode(Encode(b)) == Some(b)
  {
    DecodePadded(v0, v1, 0);
    assert b == [b[0]];
  }

  lemma TwoBytesRead(b: seq<byte>, v0: nat, v1: nat, v2: nat)
    requires |b| == 2 && v0 < 64 && v1 < 64 && v2 < 64 && Encode(b) == [Digit(v0), Digit(v1), Digit(v2), '=']
    requires FirstByte(v0, v1) == b[0] && SecondByte(v1, v2) == b[1]
    ensures Decode(Encode(b)) == Some(b)
  {
    DecodePadded(v0, v1, v2);
    assert b == [b[0], b[1]];
  }

  lemma StartRoundTrip(b: seq<byte>)
    requires |b| >= 3 && Decode(Encode(b[3..])) == Some(b[3..])
    ensures Decode(Encode(b)) == Some(b)
  {
    GroupRoundTrip(b[0], b[1], b[2]);
    GroupReads(b, Encode(b[3..]), b[0] / 4, b[0] % 4 * 16 + b[1] / 16, b[1] % 16 * 4 + b[2] / 64, b[2] % 64);
  }

  lemma GroupReads(b: seq<byte>, rest: string, v0: nat, v1: nat, v2: nat, v3: nat)
    requires |b| >= 3 && Decode(rest) == Some(b[3..])
    requires v0 < 64 && v1 < 64 && v2 < 64 && v3 < 64
    requires FirstByte(v0, v1) == b[0] && SecondByte(v1, v2) == b[1] && ThirdByte(v2, v3) == b[2]
    ensures Decode([Digit(v0), Digit(v1), Digit(v2), Digit(v3)] + rest) == Some(b)
  {
    DecodeGroup(v0, v1, v2, v3, rest, b[3..]);
    ThreeAndRest(b, FirstByte(v0, v1), SecondByte(v1, v2), ThirdByte(v2, v3));
  }

  lemma ThreeAndRest(b: seq<byte>, b0: byte, b1: byte, b2: byte)
    requires |b| >= 3 && b[0] == b0 && b[1] == b1 && b[2] == b2
    ensures [b0, b1, b2] + b[3..] == b
  {}

  lemma {:induction false} EncodedLength(b: seq<byte>)
    ensures |Encode(b)| == (|b| + 2) / 3 * 4
    decreases |b|
  {
    if |b| > 2 {
      EncodedLength(b[3..]);
      assert (|b| + 2) / 3 == (|b[3..]| + 2) / 3 + 1;
    }
  }

  /** `[A-Za-z0-9+/]{0,limit}={0,2}` */
  ghost predicate Text(s: string, limit: nat) {
    exists n: nat :: TextSplit(s, limit, n)
  }

  ghost predicate TextSplit(s: string, limit: nat, n: nat) {
    && n <= limit && n <= |s| <= n + 2
    && (forall i | 0 <= i < n :: DigitValue(s[i]).Some?)
    && (forall i | n <= i < |s| :: s[i] == '=')
  }

  lemma TextGroup(v0: nat, v1: nat, v2: nat, v3: nat, rest: string)
    requires v0 < 64 && v1 < 64 && v2 < 64 && v3 < 64 && Text(rest, |rest|)
    ensures var s := [Digit(v0), Digit(v1), Digit(v2), Digit(v3)] + rest; Text(s, |s|)
  {
    var s := [Digit(v0), Digit(v1), Digit(v2), Digit(v3)] + rest;
    DigitRoundTrip(v0);
    DigitRoundTrip(v1);
    DigitRoundTrip(v2);
    DigitRoundTrip(v3);
    var n: nat :| TextSplit(rest, |rest|, n);
    assert forall i | 4 <= i < |s| :: s[i] == rest[i - 4];
    assert TextSplit(s, |s|, n + 4);
  }

  lemma TextPadded(v0: nat, v1: nat, v2: nat)
    requires v0 < 64 && v1 < 64 && v2 < 64
    ensures Text([Digit(v0), Digit(v1), '=', '='], 4) && Text([Digit(v0), Digit(v1), Digit(v2), '='], 4)
  {
    DigitRoundTrip(v0);
    DigitRoundTrip(v1);
    DigitRoundTrip(v2);
    assert TextSplit([Digit(v0), Digit(v1), '=', '='], 4, 2);
    assert TextSplit([Digit(v0), Digit(v1), Digit(v2), '='], 4, 3);
  }

  lemma {:induction false} EncodedText(b: seq<byte>)
    ensures Text(Encode(b), |Encode(b)|)
    decreases |b|
  {
    if |b| == 0 {
      assert TextSplit("", 0, 0);
    } else if |b| == 1 {
      TextPadded(b[0] / 4, b[0] % 4 * 16, 0);
    } else if |b| == 2 {
      TextPadded(b[0] / 4, b[0] % 4 * 16 + b[1] / 16, b[1] % 16 * 4);
    } else {
      EncodedText(b[3..]);
      TextGroup(b[0] / 4, b[0] % 4 * 16 + b[1] / 16, b[1] % 16 * 4 + b[2] / 64, b[2] % 64, Encode(b[3..]));
    }
  }

  // ----- what an encoding is, by the alphabet and the bits -----

  const CAPITALS := "ABCDEFGHIJKLMNOPQRSTUVWXYZ"
  const SMALL := "abcdefghijklmnopqrstuvwxyz"
  const FIGURES := "0123456789"

  /** Character `v` of the base64 alphabet. */
  function Letter(v: nat): char
    requires v < 64
  {
    if v < 26 then CAPITALS[v] else if v < 52 then SMALL[v - 26] else if v < 62 then FIGURES[v - 52] else "+/"[v - 62]
  }

  lemma DigitIsLetter(v: nat)
    requires v < 64
    ensures Digit(v) == Letter(v)
  {}

  /** Three bytes are 24 bits, most significant first, cut into four letters. */
  lemma EncodedGroup(b: seq<byte>, n: nat)
    requires |b| >= 3 && n == 0x1_0000 * (b[0] as int) + 0x100 * (b[1] as int) + b[2] as int
    ensures |Encode(b)| >= 4 && Encode(b)[4..] == Encode(b[3..])
    ensures Encode(b)[0] == Letter(n / 0x4_0000) && Encode(b)[1] == Letter(n / 0x1000 % 64)
    ensures Encode(b)[2] == Letter(n / 64 % 64) && Encode(b)[3] == Letter(n % 64)
  {
    GroupBits(b[0], b[1], b[2], n);
    DigitIsLetter(b[0] / 4);
    DigitIsLetter(b[0] % 4 * 16 + b[1] / 16);
    DigitIsLetter(b[1] % 16 * 4 + b[2] / 64);
    DigitIsLetter(b[2] % 64);
  }

  lemma GroupBits(b0: byte, b1: byte, b2: byte, n: nat)
    requires n == 0x1_0000 * (b0 as int) + 0x100 * (b1 as int) + b2 as int
    ensures n / 0x4_0000 == b0 / 4 && n / 0x1000 % 64 == b0 % 4 * 16 + b1 / 16
    ensures n / 64 % 64 == b1 % 16 * 4 + b2 / 64 && n % 64 == b2 % 64
  {
    assert n / 64 == 1024 * (b0 as int) + 4 * (b1 as int) + b2 as int / 64;
    assert n / 0x1000 == 16 * (b0 as int) + b1 as int / 16;
    assert n / 0x4_0000 == b0 / 4;
  }

  /** One or two bytes at the end are the same with zeros behind them, and padding for what is not there. */
  lemma EncodedEnd(b: seq<byte>, zeros: seq<byte>)
    requires 0 < |b| < 3 && zeros == b + (if |b| == 1 then [0, 0] else [0])
    ensures Encode(b) == Encode(zeros)[..|b| + 1] + if |b| == 1 then "==" else "="
  {
    assert zeros[3..] == [];
    var group := [Digit(zeros[0] / 4), Digit(zeros[0] % 4 * 16 + zeros[1] / 16), Digit(zeros[1] % 16 * 4 + zeros[2] / 64),
                  Digit(zeros[2] % 64)];
    assert Encode(zeros) == group + Encode([]) == group;
  }

  // ----- decimal numerals -----

  predicate DecimalDigit(c: char) { '0' <= c <= '9' }

  function DigitChar(n: nat): char
    requires n < 10
  {
    ('0' as int + n) as char
  }

  /** `ToString(CultureInfo.InvariantCulture)` of a non-negative number. */
  function Decimal(n: nat): string {
    if n < 10 then [DigitChar(n)] else Decimal(n / 10) + [DigitChar(n % 10)]
  }

  function DecimalValue(s: string): nat
    requires forall i | 0 <= i < |s| :: DecimalDigit(s[i])
  {
    if s == "" then 0
    else
      assert DecimalDigit(s[|s| - 1]);
      10 * DecimalValue(s[..|s| - 1]) + (s[|s| - 1] as int - '0' as int)
  }

  function Pow10(k: nat): nat {
    if k == 0 then 1 else 10 * Pow10(k - 1)
  }

  lemma {:induction false} DecimalFacts(n: nat)
    ensures Decimal(n) != "" && forall i | 0 <= i < |Decimal(n)| :: DecimalDigit(Decimal(n)[i])
    ensures Decimal(n)[0] == '0' <==> n == 0
    ensures n == 0 ==> |Decimal(n)| == 1
    ensures DecimalValue(Decimal(n)) == n
  {
    var s := Decimal(n);
    if n >= 10 {
      DecimalFacts(n / 10);
      assert s[..|s| - 1] == Decimal(n / 10);
      assert s[0] == Decimal(n / 10)[0];
      assert forall i | 0 <= i < |s| - 1 :: s[i] == Decimal(n / 10)[i];
    } else {
      assert s[..0] == "";
    }
  }

  lemma {:induction false} DecimalLength(n: nat, k: nat)
    requires k > 0
    ensures n < Pow10(k) <==> |Decimal(n)| <= k
  {
    if n >= 10 && k > 1 {
      DecimalLength(n / 10, k - 1);
    } else if n < 10 {
      Pow10Grows(k);
    } else {
      DecimalFacts(n / 10);
    }
  }

  lemma {:induction false} Pow10Grows(k: nat)
    requires k > 0
    ensures Pow10(k) >= 10
  {
    if k > 1 { Pow10Grows(k - 1); }
  }
}
