/**
 * Path containment by string prefix, and the private leaf names, after
 * `RaceWorker.IsWithinScope`, `RaceWorker.IsPermittedScope` and `FileOperations.Hex`
 * of TrustLaunchProbe.cs.
 */
module Paths {
  import opened Common

  predicate Separator(c: char) { c == '\\' || c == '/' }

  /** `TrimEnd(DirectorySeparatorChar, AltDirectorySeparatorChar)` */
  function TrimEnd(s: string): string {
    if s != "" && Separator(s[|s| - 1]) then TrimEnd(s[..|s| - 1]) else s
  }

  /** What is left is all up to the separators at the end. */
  lemma {:induction false} TrimEndExact(s: string, t: string)
    ensures TrimEnd(s) == t <==>
              && t <= s
              && (forall i | |t| <= i < |s| :: s[i] == '\\' || s[i] == '/')
              && (t != "" ==> t[|t| - 1] != '\\' && t[|t| - 1] != '/')
  {
    if s != "" && Separator(s[|s| - 1]) {
      TrimEndExact(s[..|s| - 1], t);
      assert |t| < |s| && t <= s ==> t <= s[..|s| - 1];
    }
  }

  predicate IsWithinScope(scopeRoot: string, path: string) {
    var root, candidate := TrimEnd(scopeRoot), TrimEnd(path);
    SameIgnoringCase(root, candidate) || StartsWithIgnoringCase(candidate, root + "\\")
  }

  // ----- components -----

  /** A component of a normalised path: something, without a separator. */
  predicate Component(s: string) { s != "" && forall i | 0 <= i < |s| :: !Separator(s[i]) }

  predicate Components(p: seq<string>) { p != [] && forall i | 0 <= i < |p| :: Component(p[i]) }

  function Tail(p: seq<string>): string {
    if p == [] then "" else "\\" + p[0] + Tail(p[1..])
  }

  /** A normalised path as text. */
  function Render(p: seq<string>): string
    requires p != []
  {
    p[0] + Tail(p[1..])
  }

  function UpperAll(p: seq<string>): (u: seq<string>)
    ensures |u| == |p|
  {
    seq(|p|, i requires 0 <= i < |p| => Upper(p[i]))
  }

  /** The components of `a` are, ignoring case, the first components of `b`. */
  predicate Contains(a: seq<string>, b: seq<string>) {
    |a| <= |b| && forall i | 0 <= i < |a| :: SameLetters(a[i], b[i])
  }

  lemma UpperComponents(p: seq<string>)
    requires forall i | 0 <= i < |p| :: Component(p[i])
    ensures forall i | 0 <= i < |p| :: Component(UpperAll(p)[i])
  {}

  lemma {:induction false} UpperTail(p: seq<string>)
    ensures Upper(Tail(p)) == Tail(UpperAll(p))
  {
    if p != [] {
      UpperTail(p[1..]);
      assert UpperAll(p)[1..] == UpperAll(p[1..]);
      UpperConcat("\\" + p[0], Tail(p[1..]));
      UpperConcat("\\", p[0]);
      assert Upper("\\") == "\\";
    }
  }

  lemma UpperRender(p: seq<string>)
    requires p != []
    ensures Upper(Render(p)) == Render(UpperAll(p))
  {
    UpperConcat(p[0], Tail(p[1..]));
    UpperTail(p[1..]);
    assert UpperAll(p)[1..] == UpperAll(p[1..]);
  }

  predicate Opens(s: string) { s == "" || s[0] == '\\' }

  /** The first separator ends the first component. */
  lemma FirstComponent(x: string, s: string, y: string, t: string)
    requires Component(x) && Component(y) && Opens(s) && Opens(t)
    requires x + s == y + t
    ensures x == y && s == t
  {
    NotLonger(x, s, y, t);
    NotLonger(y, t, x, s);
    assert x == (x + s)[..|x|] && y == (y + t)[..|y|];
    assert s == (x + s)[|x|..] && t == (y + t)[|y|..];
  }

  lemma NotLonger(x: string, s: string, y: string, t: string)
    requires Component(y) && Opens(s) && x + s == y + t
    ensures |y| <= |x|
  {
    if s != "" {
      assert (x + s)[|x|] == '\\';
      if |x| < |y| { assert false; }
    }
  }

  /** `a` is `b`, or `b` goes on behind a separator. */
  predicate Leads(a: string, b: string) { a == b || a + "\\" <= b }

  lemma LeadsStep(x: string, s: string, y: string, t: string)
    requires Component(x) && Component(y) && Opens(s) && Opens(t)
    ensures Leads(x + s, y + t) <==> x == y && Leads(s, t)
  {
    assert x + (s + "\\") == x + s + "\\";
    if x + s == y + t {
      FirstComponent(x, s, y, t);
    } else if x + s + "\\" <= y + t {
      var rest := (y + t)[|x + s| + 1..];
      assert y + t == x + (s + "\\" + rest);
      FirstComponent(x, s + "\\" + rest, y, t);
    }
  }

  lemma LeadsBehindSeparator(s: string, t: string)
    ensures Leads("\\" + s, "\\" + t) <==> Leads(s, t)
  {
    var a, b := "\\" + s, "\\" + t;
    assert a[1..] == s && b[1..] == t;
    assert a + "\\" == "\\" + (s + "\\");
    if a + "\\" <= b {
      assert s + "\\" == (a + "\\")[1..] && (a + "\\")[1..] <= b[1..];
    }
  }

  lemma {:induction false} TailPrefix(u: seq<string>, v: seq<string>)
    requires forall i | 0 <= i < |u| :: Component(u[i])
    requires forall i | 0 <= i < |v| :: Component(v[i])
    ensures Leads(Tail(u), Tail(v)) <==> u <= v
    decreases |u|
  {
    if u == [] {
      if v != [] { assert Tail(v)[0] == '\\'; }
    } else if v != [] {
      var s, t := Tail(u[1..]), Tail(v[1..]);
      TailPrefix(u[1..], v[1..]);
      LeadsStep(u[0], s, v[0], t);
      LeadsBehindSeparator(u[0] + s, v[0] + t);
      assert Tail(u) == "\\" + (u[0] + s) && Tail(v) == "\\" + (v[0] + t);
      assert u <= v <==> u[0] == v[0] && u[1..] <= v[1..];
    }
  }

  lemma RenderPrefix(u: seq<string>, v: seq<string>)
    requires Components(u) && Components(v)
    ensures Leads(Render(u), Render(v)) <==> u <= v
  {
    TailPrefix(u[1..], v[1..]);
    LeadsStep(u[0], Tail(u[1..]), v[0], Tail(v[1..]));
    assert u <= v <==> u[0] == v[0] && u[1..] <= v[1..];
  }

  lemma TrimRendered(p: seq<string>)
    requires Components(p)
    ensures TrimEnd(Render(p)) == Render(p) == TrimEnd(Render(p) + "\\")
  {
    LastCharacter(p);
    var s := Render(p) + "\\";
    assert s[..|s| - 1] == Render(p);
  }

  lemma {:induction false} LastCharacter(p: seq<string>)
    requires Components(p)
    ensures Render(p) != "" && !Separator(Render(p)[|Render(p)| - 1])
    decreases |p|
  {
    if |p| == 1 {
      assert Render(p) == p[0];
    } else {
      LastCharacter(p[1..]);
      RenderTail(p);
    }
  }

  lemma RenderTail(p: seq<string>)
    requires |p| > 1
    ensures Render(p) == p[0] + "\\" + Render(p[1..])
  {}

  lemma {:induction false} TailSnoc(p: seq<string>, last: string)
    ensures Tail(p + [last]) == Tail(p) + "\\" + last
  {
    if p == [] {
      assert p + [last] == [last];
      assert Tail([last]) == "\\" + last + Tail([]);
    } else {
      TailSnoc(p[1..], last);
      assert (p + [last])[1..] == p[1..] + [last];
    }
  }

  lemma RenderSnoc(p: seq<string>, last: string)
    requires p != []
    ensures Render(p + [last]) == Render(p) + "\\" + last
  {
    TailSnoc(p[1..], last);
    assert (p + [last])[1..] == p[1..] + [last];
  }

  /** A path as `Path.GetFullPath` gives it: its components, with or without a final separator. */
  predicate Normalised(s: string, p: seq<string>) {
    Components(p) && (s == Render(p) || s == Render(p) + "\\")
  }

  /**
   * Containment by string prefix is containment by component: on normalised paths the
   * test holds if and only if the root's components are, ignoring case, a prefix of the
   * candidate's.
   */
  lemma WithinScopeIsContainment(root: string, a: seq<string>, path: string, b: seq<string>)
    requires Normalised(root, a) && Normalised(path, b)
    ensures IsWithinScope(root, path) <==> Contains(a, b)
  {
    TrimRendered(a);
    TrimRendered(b);
    var u, v := UpperAll(a), UpperAll(b);
    UpperComponents(a);
    UpperComponents(b);
    UpperRender(a);
    UpperRender(b);
    RenderPrefix(u, v);
    IgnoringCaseLeads(Render(a), Render(b));
    UpperPrefix(a, b);
  }

  lemma IgnoringCaseLeads(r: string, c: string)
    ensures SameIgnoringCase(r, c) || StartsWithIgnoringCase(c, r + "\\") <==> Leads(Upper(r), Upper(c))
  {
    UpperConcat(r, "\\");
    assert Upper("\\") == "\\";
    if |r| + 1 <= |c| {
      assert Upper(c[..|r| + 1]) == Upper(c)[..|r| + 1];
    }
  }

  lemma UpperPrefix(a: seq<string>, b: seq<string>)
    ensures UpperAll(a) <= UpperAll(b) <==> Contains(a, b)
  {
    var u, v := UpperAll(a), UpperAll(b);
    if u <= v {
      forall i | 0 <= i < |a| ensures SameLetters(a[i], b[i]) {
        assert u[i] == v[i];
        SameIgnoringCaseExact(a[i], b[i]);
      }
    }
    if Contains(a, b) {
      forall i | 0 <= i < |a| ensures u[i] == v[i] {
        SameIgnoringCaseExact(a[i], b[i]);
      }
    }
  }

  /** So it is a preorder, */
  lemma WithinScopePreorder(root: string, a: seq<string>, middle: string, b: seq<string>, path: string, c: seq<string>)
    requires Normalised(root, a) && Normalised(middle, b) && Normalised(path, c)
    ensures IsWithinScope(root, root)
    ensures IsWithinScope(root, middle) && IsWithinScope(middle, path) ==> IsWithinScope(root, path)
  {
    WithinScopeIsContainment(root, a, root, a);
    WithinScopeIsContainment(root, a, middle, b);
    WithinScopeIsContainment(middle, b, path, c);
    WithinScopeIsContainment(root, a, path, c);
  }

  /**
   * and below the same parent it lets nothing in but what is below a name that differs in
   * letter case at most: a sibling that shares a prefix, or has the same length, is outside.
   */
  lemma SiblingExcluded(parent: seq<string>, name: string, other: string, below: seq<string>)
    requires Components(parent + [name]) && Components(parent + [other] + below)
    ensures IsWithinScope(Render(parent + [name]), Render(parent + [other] + below)) <==> SameLetters(name, other)
  {
    var a, b := parent + [name], parent + [other] + below;
    WithinScopeIsContainment(Render(a), a, Render(b), b);
    assert a[|parent|] == name && b[|parent|] == other;
    assert forall i | 0 <= i < |parent| :: a[i] == parent[i] == b[i];
  }

  // ----- equality ignoring case -----

  /** The same components but for the case of letters. */
  predicate SameNames(p: seq<string>, q: seq<string>) {
    |p| == |q| && forall i | 0 <= i < |p| :: SameLetters(p[i], q[i])
  }

  /** Text that folds like a normalised path is one, with components that differ in case only. */
  function Pieces(t: string, q: seq<string>): (p: seq<string>)
    requires q != [] && |t| == |Render(q)|
    ensures |p| == |q|
    decreases |q|
  {
    if |q| == 1 then [t]
    else
      RenderTail(q);
      [t[..|q[0]|]] + Pieces(t[|q[0]| + 1..], q[1..])
  }

  lemma {:induction false} PiecesAreComponents(t: string, q: seq<string>)
    requires Components(q) && SameLetters(t, Render(q))
    ensures Components(Pieces(t, q)) && Render(Pieces(t, q)) == t && SameNames(Pieces(t, q), q)
    decreases |q|
  {
    var p, n := Pieces(t, q), |q[0]|;
    if |q| > 1 {
      RenderTail(q);
      assert Render(q)[..n] == q[0] && Render(q)[n] == '\\' && Render(q)[n + 1..] == Render(q[1..]);
      forall i | 0 <= i < n ensures SameButCase(t[..n][i], q[0][i]) {
        assert t[..n][i] == t[i] && q[0][i] == Render(q)[i];
      }
      forall i | 0 <= i < |t| - n - 1 ensures SameButCase(t[n + 1..][i], Render(q[1..])[i]) {
        assert t[n + 1..][i] == t[n + 1 + i] && Render(q[1..])[i] == Render(q)[n + 1 + i];
      }
      PiecesAreComponents(t[n + 1..], q[1..]);
      RenderTail(p);
      assert p[1..] == Pieces(t[n + 1..], q[1..]);
      assert t == t[..n] + [t[n]] + t[n + 1..];
    } else {
      assert Render(q) == q[0] && Render(p) == t;
    }
  }

  /** Two normalised paths are equal ignoring case if and only if their components differ in letter case at most. */
  lemma SameRendered(p: seq<string>, q: seq<string>)
    requires Components(p) && Components(q)
    ensures SameIgnoringCase(Render(p), Render(q)) <==> SameNames(p, q)
  {
    UpperRender(p);
    UpperRender(q);
    if SameIgnoringCase(Render(p), Render(q)) {
      WithinScopeIsContainment(Render(p), p, Render(q), q);
      WithinScopeIsContainment(Render(q), q, Render(p), p);
      TrimRendered(p);
      TrimRendered(q);
    }
    if SameNames(p, q) {
      UpperPrefix(p, q);
      assert Contains(p, q);
      assert UpperAll(p) == UpperAll(q);
    }
  }

  // ----- leaf names -----

  function HexDigit(v: nat): char
    requires v < 16
  {
    if v < 10 then ('0' as int + v) as char else ('a' as int + (v - 10)) as char
  }

  function HexValue(c: char): (v: nat)
    requires LowerHexDigit(c)
    ensures v < 16
  {
    if c <= '9' then c as int - '0' as int else c as int - 'a' as int + 10
  }

  predicate LowerHexDigit(c: char) { ('0' <= c && c <= '9') || ('a' <= c && c <= 'f') }

  function HexOf(b: seq<byte>): string {
    if b == [] then "" else [HexDigit(b[0] / 16), HexDigit(b[0] % 16)] + HexOf(b[1..])
  }

  /** `FileOperations.Hex`. */
  method Hex(bytes: seq<byte>) returns (r: string)
    ensures r == HexOf(bytes)
  {
    var builder := "";
    for index := 0 to |bytes|
      invariant builder + HexOf(bytes[index..]) == HexOf(bytes)
    {
      assert bytes[index..][1..] == bytes[index + 1..];
      builder := builder + [HexDigit(bytes[index] / 16), HexDigit(bytes[index] % 16)];
    }
    return builder;
  }

  const PREFIX := "trust-launch-"

  ghost predicate PermittedName(name: string, prefix: string) {
    && prefix <= name && |name| == |prefix| + 32
    && forall i | |prefix| <= i < |name| :: LowerHexDigit(name[i])
  }

  /** The name test of `IsPermittedScope`; the source's `prefix` is `PREFIX`. */
  method IsPermittedName(name: string, prefix: string) returns (ok: bool)
    ensures ok <==> PermittedName(name, prefix)
  {
    if !StartsWith(name, prefix) || |name| != |prefix| + 32 {
      return false;
    }
    for index := |prefix| to |name|
      invariant forall i | |prefix| <= i < index :: LowerHexDigit(name[i])
    {
      var character := name[index];
      if !((character >= '0' && character <= '9') || (character >= 'a' && character <= 'f')) {
        return false;
      }
    }
    return true;
  }

  function UnHex(s: string): (b: seq<byte>)
    requires |s| % 2 == 0 && forall i | 0 <= i < |s| :: LowerHexDigit(s[i])
    ensures |b| == |s| / 2
  {
    if s == "" then [] else [(HexValue(s[0]) * 16 + HexValue(s[1])) as byte] + UnHex(s[2..])
  }

  const HEX_DIGITS := "0123456789abcdef"

  /** The two digits of byte `i`, by the place of each in the row of digits. */
  lemma {:induction false} HexDigitsAre(b: seq<byte>, i: nat)
    requires i < |b|
    ensures |HexOf(b)| == 2 * |b|
    ensures HexOf(b)[2 * i] == HEX_DIGITS[b[i] / 16] && HexOf(b)[2 * i + 1] == HEX_DIGITS[b[i] % 16]
  {
    HexLength(b);
    HexLength(b[1..]);
    if i > 0 {
      HexDigitsAre(b[1..], i - 1);
      assert HexOf(b)[2 * i] == HexOf(b[1..])[2 * (i - 1)] && HexOf(b)[2 * i + 1] == HexOf(b[1..])[2 * (i - 1) + 1];
      assert b[i] == b[1..][i - 1];
    } else {
      HexDigitIs(b[0] / 16);
      HexDigitIs(b[0] % 16);
    }
  }

  lemma HexDigitIs(v: nat)
    requires v < 16
    ensures HexDigit(v) == HEX_DIGITS[v]
  {}

  lemma {:induction false} HexLength(b: seq<byte>)
    ensures |HexOf(b)| == 2 * |b|
  {
    if b != [] {
      HexLength(b[1..]);
    }
  }

  lemma {:induction false} HexRoundTrip(b: seq<byte>)
    ensures |HexOf(b)| == 2 * |b|
    ensures forall i | 0 <= i < |HexOf(b)| :: LowerHexDigit(HexOf(b)[i])
    ensures UnHex(HexOf(b)) == b
  {
    if b != [] {
      HexRoundTrip(b[1..]);
      var s, rest := HexOf(b), HexOf(b[1..]);
      assert s[2..] == rest;
      assert forall i | 2 <= i < |s| :: s[i] == rest[i - 2];
      DigitValues(b[0]);
      assert b == [b[0]] + b[1..];
    }
  }

  lemma DigitValues(v: byte)
    ensures LowerHexDigit(HexDigit(v / 16)) && LowerHexDigit(HexDigit(v % 16))
    ensures HexValue(HexDigit(v / 16)) * 16 + HexValue(HexDigit(v % 16)) == v
  {}

  lemma {:induction false} UnHexRoundTrip(s: string)
    requires |s| % 2 == 0 && forall i | 0 <= i < |s| :: LowerHexDigit(s[i])
    ensures HexOf(UnHex(s)) == s
  {
    if s != "" {
      UnHexRoundTrip(s[2..]);
      TwoDigits(HexValue(s[0]), HexValue(s[1]));
      assert UnHex(s) == [HexValue(s[0]) * 16 + HexValue(s[1])] + UnHex(s[2..]);
      assert UnHex(s)[1..] == UnHex(s[2..]);
      assert s == [s[0], s[1]] + s[2..];
    }
  }

  lemma TwoDigits(high: nat, low: nat)
    requires high < 16 && low < 16
    ensures (high * 16 + low) / 16 == high && (high * 16 + low) % 16 == low
  {}

  /** The name test admits exactly the leaves `CreatePrivateRoot` can make, one for each 16 bytes. */
  lemma PermittedNamesAreLeaves(name: string, prefix: string)
    ensures PermittedName(name, prefix) <==> exists b: seq<byte> :: |b| == 16 && name == prefix + HexOf(b)
  {
    forall b: seq<byte> | |b| == 16 ensures PermittedName(prefix + HexOf(b), prefix) {
      HexRoundTrip(b);
      var s := prefix + HexOf(b);
      assert forall i | |prefix| <= i < |s| :: s[i] == HexOf(b)[i - |prefix|];
    }
    if PermittedName(name, prefix) {
      var hex := name[|prefix|..];
      assert forall i | 0 <= i < |hex| :: hex[i] == name[|prefix| + i];
      UnHexRoundTrip(hex);
      assert name == prefix + HexOf(UnHex(hex));
    }
  }

  lemma LeavesAreDistinct(b: seq<byte>, c: seq<byte>)
    requires |b| == |c| && PREFIX + HexOf(b) == PREFIX + HexOf(c)
    ensures b == c
  {
    assert HexOf(b) == (PREFIX + HexOf(b))[|PREFIX|..] == (PREFIX + HexOf(c))[|PREFIX|..] == HexOf(c);
    HexRoundTrip(b);
    HexRoundTrip(c);
  }
}
