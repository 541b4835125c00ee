/** Vocabulary shared by every module: results, bytes and plain string facts. */
module Common {
  datatype Option<+T> = None | Some(value: T)

  /** The source throws; the model returns. `Err` carries what was thrown. */
  datatype Result<+T, +E> = Ok(value: T) | Err(error: E) {
    predicate IsFailure() { Err? }

    function PropagateFailure<U>(): Result<U, E>
      requires Err?
    {
      Err(error)
    }

    function Extract(): T
      requires Ok?
    {
      value
    }
  }

  type byte = x: int | 0 <= x < 256

  type uint = x: int | 0 <= x < 0x1_0000_0000

  const NUL := 0 as char

  function Repeat(c: char, n: nat): (r: string) {
    if n == 0 then "" else [c] + Repeat(c, n - 1)
  }

  lemma {:induction false} RepeatSnoc(c: char, n: nat)
    ensures Repeat(c, n) + [c] == Repeat(c, n + 1)
  {
    if n > 0 {
      RepeatSnoc(c, n - 1);
      assert Repeat(c, n) + [c] == [c] + (Repeat(c, n - 1) + [c]);
    }
  }

  lemma {:induction false} RepeatAdd(c: char, m: nat, n: nat)
    ensures Repeat(c, m) + Repeat(c, n) == Repeat(c, m + n)
  {
    if m > 0 {
      RepeatAdd(c, m - 1, n);
      assert Repeat(c, m) + Repeat(c, n) == [c] + (Repeat(c, m - 1) + Repeat(c, n));
    }
  }

  /** `OrdinalIgnoreCase` folds each character to upper case; ASCII letters are modelled. */
  function UpperChar(c: char): char {
    if 'a' <= c <= 'z' then (c as int - 32) as char else c
  }

  function Upper(s: string): (r: string)
    ensures |r| == |s|
  {
    seq(|s|, i requires 0 <= i < |s| => UpperChar(s[i]))
  }

  predicate SameIgnoringCase(a: string, b: string) { Upper(a) == Upper(b) }

  /** `capital` is the ASCII letter `small` in the other case. */
  predicate Capital(small: char, capital: char) {
    'a' <= small <= 'z' && 'A' <= capital <= 'Z' && small as int - 'a' as int == capital as int - 'A' as int
  }

  /** The same character, or the same letter in the other case. */
  predicate SameButCase(a: char, b: char) { a == b || Capital(a, b) || Capital(b, a) }

  /** Text that differs in nothing but the case of its letters. */
  predicate SameLetters(a: string, b: string) {
    |a| == |b| && forall i | 0 <= i < |a| :: SameButCase(a[i], b[i])
  }

  lemma SameIgnoringCaseExact(a: string, b: string)
    ensures SameIgnoringCase(a, b) <==> SameLetters(a, b)
  {
    var u, v := Upper(a), Upper(b);
    if SameIgnoringCase(a, b) {
      forall i | 0 <= i < |a| ensures SameButCase(a[i], b[i]) {
        assert u[i] == v[i];
      }
    }
  }

  /** Folding gives the one text that differs in case only and has no small letter. */
  lemma UpperExact(s: string, u: string)
    ensures u == Upper(s) <==> SameLetters(u, s) && forall i | 0 <= i < |u| :: !('a' <= u[i] <= 'z')
  {
    var v := Upper(s);
    if SameLetters(u, s) && forall i | 0 <= i < |u| :: !('a' <= u[i] <= 'z') {
      assert forall i | 0 <= i < |u| :: SameButCase(u[i], s[i]) && u[i] == v[i];
    }
  }

  lemma UpperConcat(a: string, b: string)
    ensures Upper(a + b) == Upper(a) + Upper(b)
  {}

  predicate StartsWith(s: string, prefix: string) { prefix <= s }

  predicate StartsWithIgnoringCase(s: string, prefix: string) {
    |prefix| <= |s| && SameIgnoringCase(s[..|prefix|], prefix)
  }

  predicate EndsWith(s: string, suffix: string) {
    |suffix| <= |s| && s[|s| - |suffix|..] == suffix
  }

  predicate OccursAt<T(==)>(haystack: seq<T>, needle: seq<T>, at: nat) {
    at + |needle| <= |haystack| && haystack[at..at + |needle|] == needle
  }

  /** `needle` is a contiguous subsequence of `haystack`. */
  predicate Occurs<T(==)>(haystack: seq<T>, needle: seq<T>) {
    exists at: nat | at <= |haystack| :: OccursAt(haystack, needle, at)
  }

  /** `IndexOf`, with the length for "not found". */
  function Find(s: string, c: char): (i: nat)
    ensures i <= |s|
    ensures c !in s[..i]
    ensures i < |s| ==> s[i] == c
  {
    if s == "" || s[0] == c then 0 else
      var i := 1 + Find(s[1..], c);
      assert s[..i] == [s[0]] + s[1..][..i - 1];
      i
  }

  lemma FindIs(s: string, c: char, t: string, u: string)
    requires s == t + [c] + u && c !in t
    ensures Find(s, c) == |t|
  {
    assert s[|t|] == c;
    assert forall k | 0 <= k < |t| :: s[k] == t[k] && t[k] in t;
  }
}
