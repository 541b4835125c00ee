/**
 * `EnvironmentWorker.Run` of TrustLaunchProbe.cs: the child's own check of the
 * environment it was given, reported as a mask.
 */
module EnvironmentWorker {
  import opened Common
  import opened EnvironmentMask
  import opened Paths

  /** The fixed names of the worker, upper-cased as every comparison ignores case. */
  datatype Policy = Policy(
    systemRoot: string, windir: string, temp: string, tmp: string, path: string,
    proxy: seq<string>,
    toolchain: seq<string>, toolchainPrefixes: seq<string>,
    credentialFragments: seq<string>,
    compatibility: string)
  {
    function Allowed(): seq<string> { [systemRoot, windir, temp, tmp, path] }

    predicate IsProxy(key: string) { key in proxy }

    predicate IsToolchain(key: string) {
      key in toolchain || exists i | 0 <= i < |toolchainPrefixes| :: toolchainPrefixes[i] <= key
    }

    predicate IsCredential(key: string) {
      exists i | 0 <= i < |credentialFragments| :: Occurs(key, credentialFragments[i])
    }
  }

  const POLICY := Policy(
    "SYSTEMROOT", "WINDIR", "TEMP", "TMP", "PATH",
    ["HTTP_PROXY", "HTTPS_PROXY", "ALL_PROXY", "NO_PROXY"],
    ["PYTHONPATH", "PYTHONHOME", "NODE_PATH", "NODE_OPTIONS", "CLASSPATH", "JAVA_TOOL_OPTIONS", "_JAVA_OPTIONS",
     "RUBYLIB", "PERL5LIB", "PSMODULEPATH", "BASH_ENV", "ENV", "INCLUDE", "LIB", "LIBPATH", "CL", "LINK"],
    ["DOTNET_", "COMPLUS_", "COR_", "NPM_", "GIT_", "GEM_"],
    ["TOKEN", "SECRET", "PASSWORD", "PASSWD", "CREDENTIAL", "API_KEY", "ACCESS_KEY", "PRIVATE_KEY"],
    "__COMPAT_LAYER")

  /** `Path.GetFullPath`, which may throw. */
  type FullPath = string -> Option<string>

  /** `SamePath`. */
  predicate SamePath(full: FullPath, first: string, second: string) {
    var a, b := full(first), full(second);
    a.Some? && b.Some? && SameIgnoringCase(TrimEnd(a.value), TrimEnd(b.value))
  }

  /** `Path.Combine` with a relative second part. */
  function Combine(first: string, second: string): string {
    if first == "" then second
    else if Separator(first[|first| - 1]) || first[|first| - 1] == ':' then first + second
    else first + "\\" + second
  }

  const SYSTEM32 := "System32"

  /** The full path of `text` has these components, but for the case of letters. */
  ghost predicate Resolves(full: FullPath, text: string, q: seq<string>) {
    && full(text).Some?
    && exists p :: Components(p) && TrimEnd(full(text).value) == Render(p) && SameNames(p, q)
  }

  /** Being the same path as one with known components. */
  lemma SamePathExact(full: FullPath, first: string, second: string, q: seq<string>)
    requires full(second).Some? && Normalised(full(second).value, q)
    ensures SamePath(full, first, second) <==> Resolves(full, first, q)
  {
    TrimRendered(q);
    if full(first).Some? {
      var t := TrimEnd(full(first).value);
      if SameIgnoringCase(t, Render(q)) {
        SameIgnoringCaseExact(t, Render(q));
        PiecesAreComponents(t, q);
      }
      forall p | Components(p) && t == Render(p) ensures SameIgnoringCase(t, Render(q)) <==> SameNames(p, q) {
        SameRendered(p, q);
      }
    }
  }

  /** The combined path is the component below, unless the first part ends like a bare drive. */
  lemma CombineExact(first: string, p: seq<string>, name: string)
    requires Normalised(first, p) && Component(name)
    ensures Combine(first, name) == Render(p + [name]) <==> first[|first| - 1] != ':'
  {
    LastCharacter(p);
    RenderSnoc(p, name);
  }

  /** When a PATH value is the System32 directory of a root, in terms of components alone. */
  lemma System32Exact(full: FullPath, path: string, root: string, r: seq<string>)
    requires Normalised(root, r) && root[|root| - 1] != ':'
    requires full(Render(r + [SYSTEM32])) == Some(Render(r + [SYSTEM32]))
    ensures SamePath(full, path, Combine(root, SYSTEM32)) <==> Resolves(full, path, r + ["System32"])
  {
    CombineExact(root, r, SYSTEM32);
    SamePathExact(full, path, Render(r + [SYSTEM32]), r + [SYSTEM32]);
  }

  /** The environment as enumerated: null keys and values are possible. */
  datatype Entry = Entry(key: Option<string>, value: Option<string>)

  predicate Sound(e: Entry) { e.key.Some? && e.value.Some? }

  function UpperKey(e: Entry): string
    requires e.key.Some?
  {
    Upper(e.key.value)
  }

  /** What the dictionary that ignores case can hold: nothing null, no name twice. */
  ghost predicate Clean(env: seq<Entry>) {
    && (forall i | 0 <= i < |env| :: Sound(env[i]))
    && (forall i, j | 0 <= i < j < |env| :: UpperKey(env[i]) != UpperKey(env[j]))
  }

  /** The values by upper-cased name. */
  type Table = map<string, string>

  ghost predicate Tabulates(t: Table, env: seq<Entry>)
    requires Clean(env)
  {
    && |t| == |env|
    && (forall i | 0 <= i < |env| :: UpperKey(env[i]) in t && t[UpperKey(env[i])] == env[i].value.value)
    && (forall k | k in t :: exists i | 0 <= i < |env| :: UpperKey(env[i]) == k)
  }

  // ----- what each flag means -----

  ghost predicate KeyRaises(flag: Flag, key: string, p: Policy) {
    match flag
    case UnexpectedVariable => key !in p.Allowed()
    case ProxyPresent => p.IsProxy(key)
    case ToolchainPresent => p.IsToolchain(key)
    case CredentialPresent => p.IsCredential(key)
    case CompatibilityPresent => key == p.compatibility
    case _ => false
  }

  ghost predicate SomeKeyRaises(flag: Flag, keys: set<string>, p: Policy) {
    exists k | k in keys :: KeyRaises(flag, k, p)
  }

  ghost predicate Holds(flag: Flag, t: Table, expectedTemp: string, full: FullPath, p: Policy) {
    match flag
    case SystemRootMissing => p.systemRoot !in t
    case WindirMissing => p.windir !in t
    case TempMissing => p.temp !in t
    case TmpMissing => p.tmp !in t
    case PathMissing => p.path !in t
    case UnexpectedVariable => |t| != 5 || SomeKeyRaises(flag, t.Keys, p)
    case PrivateTempMismatch => p.temp in t && p.tmp in t && !PrivateTemp(t, expectedTemp, full, p)
    case TrustedPathMismatch => p.systemRoot in t && p.path in t && !TrustedPath(t, full, p)
    case WindirMismatch => p.systemRoot in t && p.windir in t && !SameWindir(t, full, p)
    case _ => SomeKeyRaises(flag, t.Keys, p)
  }

  predicate PrivateTemp(t: Table, expectedTemp: string, full: FullPath, p: Policy) {
    p.temp in t && p.tmp in t && SamePath(full, t[p.temp], expectedTemp) && SamePath(full, t[p.tmp], expectedTemp)
  }

  predicate TrustedPath(t: Table, full: FullPath, p: Policy) {
    p.systemRoot in t && p.path in t && SamePath(full, t[p.path], Combine(t[p.systemRoot], SYSTEM32))
  }

  predicate SameWindir(t: Table, full: FullPath, p: Policy) {
    p.systemRoot in t && p.windir in t && SamePath(full, t[p.systemRoot], t[p.windir])
  }

  ghost function Raised(t: Table, expectedTemp: string, full: FullPath, p: Policy): set<Flag> {
    set flag: Flag | Holds(flag, t, expectedTemp, full, p)
  }

  // ----- the worker -----

  /** `if (condition) failures |= flag;` */
  method RaiseIf(m: bv32, ghost raised: set<Flag>, condition: bool, flag: Flag) returns (r: bv32, ghost now: set<Flag>)
    requires States(m, raised)
    ensures States(r, now) && now == raised + if condition then {flag} else {}
  {
    r, now := m, raised;
    if condition {
      Adding(m, raised, flag);
      r, now := m | flag.Bit(), raised + {flag};
    }
  }

  /** The dictionary, or `None` at the first null or repeated name. */
  method Collect(env: seq<Entry>) returns (r: Option<Table>)
    ensures r.Some? <==> Clean(env)
    ensures r.Some? ==> Tabulates(r.value, env)
  {
    var observed: Table := map[];
    for index := 0 to |env|
      invariant Clean(env[..index]) && Tabulates(observed, env[..index])
    {
      var entry := env[index];
      if !Sound(entry) {
        assert !Clean(env);
        return None;
      }
      var key := UpperKey(entry);
      if key in observed {
        Repeated(env, index, observed);
        return None;
      }
      CollectStep(env, index, observed);
      observed := observed[key := entry.value.value];
    }
    assert env[..|env|] == env;
    return Some(observed);
  }

  lemma CollectStep(env: seq<Entry>, index: nat, t: Table)
    requires index < |env| && Clean(env[..index]) && Tabulates(t, env[..index])
    requires Sound(env[index]) && UpperKey(env[index]) !in t
    ensures Clean(env[..index + 1])
    ensures Tabulates(t[UpperKey(env[index]) := env[index].value.value], env[..index + 1])
  {
    assert env[..index + 1] == env[..index] + [env[index]];
    CleanStep(env[..index], env[index], t);
    TabulatesStep(env[..index], env[index], t);
  }

  lemma Repeated(env: seq<Entry>, index: nat, t: Table)
    requires index < |env| && Clean(env[..index]) && Tabulates(t, env[..index])
    requires Sound(env[index]) && UpperKey(env[index]) in t
    ensures !Clean(env)
  {
    var i :| 0 <= i < index && UpperKey(env[..index][i]) == UpperKey(env[index]);
    assert env[i] == env[..index][i];
  }

  lemma CleanStep(before: seq<Entry>, e: Entry, t: Table)
    requires Clean(before) && Tabulates(t, before) && Sound(e) && UpperKey(e) !in t
    ensures Clean(before + [e])
  {
    forall i | 0 <= i < |before| ensures UpperKey(before[i]) != UpperKey(e) {
      assert UpperKey(before[i]) in t;
    }
  }

  lemma TabulatesStep(before: seq<Entry>, e: Entry, t: Table)
    requires Clean(before) && Tabulates(t, before) && Sound(e) && UpperKey(e) !in t && Clean(before + [e])
    ensures Tabulates(t[UpperKey(e) := e.value.value], before + [e])
  {
    var after, key := before + [e], UpperKey(e);
    var now := t[key := e.value.value];
    forall k | k in now ensures exists i | 0 <= i < |after| :: UpperKey(after[i]) == k {
      if k == key {
        assert after[|before|] == e;
      } else {
        var i :| 0 <= i < |before| && UpperKey(before[i]) == k;
        assert after[i] == before[i];
      }
    }
  }

  predicate PairFlag(flag: Flag) { flag in {PrivateTempMismatch, TrustedPathMismatch, WindirMismatch} }

  method RaiseMissing(t: Table, p: Policy) returns (m: bv32, ghost raised: set<Flag>)
    ensures States(m, raised)
    ensures raised == (if p.systemRoot in t then {} else {SystemRootMissing})
                    + (if p.windir in t then {} else {WindirMissing})
                    + (if p.temp in t then {} else {TempMissing})
                    + (if p.tmp in t then {} else {TmpMissing})
                    + (if p.path in t then {} else {PathMissing})
  {
    NoFlags();
    m, raised := 0, {};
    m, raised := RaiseIf(m, raised, p.systemRoot !in t, SystemRootMissing);
    m, raised := RaiseIf(m, raised, p.windir !in t, WindirMissing);
    m, raised := RaiseIf(m, raised, p.temp !in t, TempMissing);
    m, raised := RaiseIf(m, raised, p.tmp !in t, TmpMissing);
    m, raised := RaiseIf(m, raised, p.path !in t, PathMissing);
  }

  method IsAllowed(key: string, allowed: seq<string>) returns (found: bool)
    ensures found <==> key in allowed
  {
    found := false;
    for index := 0 to |allowed|
      invariant !found && key !in allowed[..index]
    {
      if key == allowed[index] {
        return true;
      }
    }
    assert allowed[..|allowed|] == allowed;
  }

  method RaiseForKey(m: bv32, ghost raised: set<Flag>, key: string, p: Policy) returns (r: bv32, ghost now: set<Flag>)
    requires States(m, raised)
    ensures States(r, now)
    ensures forall flag: Flag :: flag in now <==> flag in raised || KeyRaises(flag, key, p)
  {
    var allowedKey := IsAllowed(key, p.Allowed());
    r, now := RaiseIf(m, raised, !allowedKey, UnexpectedVariable);
    r, now := RaiseIf(r, now, p.IsProxy(key), ProxyPresent);
    r, now := RaiseIf(r, now, p.IsToolchain(key), ToolchainPresent);
    r, now := RaiseIf(r, now, p.IsCredential(key), CredentialPresent);
    r, now := RaiseIf(r, now, key == p.compatibility, CompatibilityPresent);
  }

  method RaiseForKeys(m: bv32, ghost raised: set<Flag>, keys: set<string>, p: Policy) returns (r: bv32, ghost now: set<Flag>)
    requires States(m, raised)
    ensures States(r, now)
    ensures forall flag: Flag :: flag in now <==> flag in raised || SomeKeyRaises(flag, keys, p)
  {
    r, now := m, raised;
    var left := keys;
    while left != {}
      invariant left <= keys && States(r, now)
      invariant forall flag: Flag :: flag in now <==> flag in raised || SomeKeyRaises(flag, keys - left, p)
      decreases |left|
    {
      var key :| key in left;
      ghost var before := now;
      r, now := RaiseForKey(r, now, key, p);
      forall flag: Flag
        ensures SomeKeyRaises(flag, keys - (left - {key}), p) <==> SomeKeyRaises(flag, keys - left, p) || KeyRaises(flag, key, p)
      {
        OneMoreKey(flag, keys - left, key, keys - (left - {key}), p);
      }
      left := left - {key};
    }
    assert keys - {} == keys;
  }

  lemma OneMoreKey(flag: Flag, seen: set<string>, key: string, now: set<string>, p: Policy)
    requires now == seen + {key}
    ensures SomeKeyRaises(flag, now, p) <==> SomeKeyRaises(flag, seen, p) || KeyRaises(flag, key, p)
  {
    if SomeKeyRaises(flag, seen, p) {
      var k :| k in seen && KeyRaises(flag, k, p);
      assert k in now;
    }
    if KeyRaises(flag, key, p) { assert key in now; }
  }

  method RaisePairs(m: bv32, ghost raised: set<Flag>, t: Table, expectedTemp: string, full: FullPath, p: Policy)
    returns (r: bv32, ghost now: set<Flag>)
    requires States(m, raised)
    ensures States(r, now)
    ensures forall flag: Flag :: flag in now <==>
              flag in raised || (PairFlag(flag) && Holds(flag, t, expectedTemp, full, p))
  {
    var tempBad := p.temp in t && p.tmp in t
                && (!SamePath(full, t[p.temp], expectedTemp) || !SamePath(full, t[p.tmp], expectedTemp));
    r, now := RaiseIf(m, raised, tempBad, PrivateTempMismatch);
    var pathBad := p.systemRoot in t && p.path in t && !SamePath(full, t[p.path], Combine(t[p.systemRoot], SYSTEM32));
    r, now := RaiseIf(r, now, pathBad, TrustedPathMismatch);
    var windirBad := p.systemRoot in t && p.windir in t && !SamePath(full, t[p.systemRoot], t[p.windir]);
    r, now := RaiseIf(r, now, windirBad, WindirMismatch);
  }

  /** What the worker reports on an environment: the flags of its table, or bit 5 alone when it has none. */
  ghost predicate Reports(env: seq<Entry>, m: bv32, expectedTemp: string, full: FullPath, p: Policy) {
    if Clean(env) then exists t: Table :: Tabulates(t, env) && States(m, Raised(t, expectedTemp, full, p))
    else m == UnexpectedVariable.Bit()
  }

  /** `EnvironmentWorker.Run` after the scope of `expectedTemp` was accepted; the source's policy is `POLICY`. */
  method Run(env: seq<Entry>, expectedTemp: string, full: FullPath, p: Policy) returns (m: bv32)
    ensures Reports(env, m, expectedTemp, full, p)
  {
    var observed := Collect(env);
    if observed.None? {
      return UnexpectedVariable.Bit();
    }
    var t := observed.value;
    ghost var raised;
    m, raised := RaiseMissing(t, p);
    ghost var missing := raised;
    m, raised := RaiseIf(m, raised, |t| != |p.Allowed()|, UnexpectedVariable);
    m, raised := RaiseForKeys(m, raised, t.Keys, p);
    m, raised := RaisePairs(m, raised, t, expectedTemp, full, p);
    assert raised == Raised(t, expectedTemp, full, p) by {
      forall flag: Flag ensures flag in raised <==> Holds(flag, t, expectedTemp, full, p) {
        AllFlags(flag, t, expectedTemp, full, p, missing, raised);
      }
    }
    assert Tabulates(t, env) && States(m, Raised(t, expectedTemp, full, p));
  }

  lemma AllFlags(flag: Flag, t: Table, expectedTemp: string, full: FullPath, p: Policy, missing: set<Flag>, raised: set<Flag>)
    requires missing == (if p.systemRoot in t then {} else {SystemRootMissing})
                      + (if p.windir in t then {} else {WindirMissing})
                      + (if p.temp in t then {} else {TempMissing})
                      + (if p.tmp in t then {} else {TmpMissing})
                      + (if p.path in t then {} else {PathMissing})
    requires flag in raised <==>
               || flag in missing || (flag == UnexpectedVariable && |t| != 5)
               || SomeKeyRaises(flag, t.Keys, p)
               || (PairFlag(flag) && Holds(flag, t, expectedTemp, full, p))
    ensures flag in raised <==> Holds(flag, t, expectedTemp, full, p)
  {}

  // ----- what the report proves -----

  predicate Distinct(s: seq<string>) { forall i, j | 0 <= i < j < |s| :: s[i] != s[j] }

  /** The five allowed names are different, and none of them is on a deny list. */
  ghost predicate Harmless(p: Policy) {
    && Distinct(p.Allowed())
    && forall key | key in p.Allowed() ::
         !p.IsProxy(key) && !p.IsToolchain(key) && !p.IsCredential(key) && key != p.compatibility
  }

  function SetOf(s: seq<string>): set<string> { set x | x in s }

  lemma {:induction false} DistinctCount(s: seq<string>)
    requires Distinct(s)
    ensures |SetOf(s)| == |s|
  {
    if s != [] {
      DistinctCount(s[1..]);
      assert s == [s[0]] + s[1..];
      assert SetOf(s) == {s[0]} + SetOf(s[1..]);
      assert s[0] !in SetOf(s[1..]);
    }
  }

  lemma SubsetOfSameSize(a: set<string>, b: set<string>)
    requires a <= b && |a| == |b|
    ensures a == b
  {
    assert b == a + (b - a);
    assert |b| == |a| + |b - a|;
  }

  /**
   * A clear allow-list bit settles eight others: five allowed, different names that fill
   * five places are all there, and then nothing on a deny list is.
   */
  lemma AllowlistSettles(t: Table, expectedTemp: string, full: FullPath, p: Policy)
    requires Harmless(p)
    ensures UnexpectedVariable !in Raised(t, expectedTemp, full, p) <==> t.Keys == SetOf(p.Allowed())
    ensures UnexpectedVariable !in Raised(t, expectedTemp, full, p) ==>
              forall flag | flag in Raised(t, expectedTemp, full, p) :: PairFlag(flag)
  {
    DistinctCount(p.Allowed());
    assert |t.Keys| == |t|;
    if UnexpectedVariable !in Raised(t, expectedTemp, full, p) {
      assert forall k | k in t.Keys :: !KeyRaises(UnexpectedVariable, k, p);
      SubsetOfSameSize(t.Keys, SetOf(p.Allowed()));
      forall flag | flag in Raised(t, expectedTemp, full, p) ensures PairFlag(flag) {
        AllowedPresent(t, p);
        assert Holds(flag, t, expectedTemp, full, p);
      }
    }
  }

  lemma AllowedPresent(t: Table, p: Policy)
    requires t.Keys == SetOf(p.Allowed())
    ensures p.systemRoot in t && p.windir in t && p.temp in t && p.tmp in t && p.path in t
  {
    assert p.Allowed()[0] == p.systemRoot && p.Allowed()[1] == p.windir && p.Allowed()[2] == p.temp;
    assert p.Allowed()[3] == p.tmp && p.Allowed()[4] == p.path;
  }

  /** The environment the worker accepts. */
  ghost predicate Accepted(t: Table, expectedTemp: string, full: FullPath, p: Policy) {
    && t.Keys == SetOf(p.Allowed())
    && PrivateTemp(t, expectedTemp, full, p) && TrustedPath(t, full, p) && SameWindir(t, full, p)
  }

  /** Exit code 0 means exactly the five names with matching paths. */
  lemma ZeroMeansAccepted(t: Table, expectedTemp: string, full: FullPath, p: Policy, m: bv32)
    requires Harmless(p) && States(m, Raised(t, expectedTemp, full, p))
    ensures m == 0 <==> Accepted(t, expectedTemp, full, p)
  {
    var raised := Raised(t, expectedTemp, full, p);
    ZeroIsClean(m, raised);
    AllowlistSettles(t, expectedTemp, full, p);
    if t.Keys == SetOf(p.Allowed()) {
      AllowedPresent(t, p);
      NoPairFlags(t, expectedTemp, full, p);
      assert raised == {} <==> Accepted(t, expectedTemp, full, p);
    }
  }

  lemma NoPairFlags(t: Table, expectedTemp: string, full: FullPath, p: Policy)
    requires p.systemRoot in t && p.windir in t && p.temp in t && p.tmp in t && p.path in t
    ensures PrivateTempMismatch in Raised(t, expectedTemp, full, p) <==> !PrivateTemp(t, expectedTemp, full, p)
    ensures TrustedPathMismatch in Raised(t, expectedTemp, full, p) <==> !TrustedPath(t, full, p)
    ensures WindirMismatch in Raised(t, expectedTemp, full, p) <==> !SameWindir(t, full, p)
  {}

  /** The observation read directly off the environment. */
  ghost function Direct(t: Table, expectedTemp: string, full: FullPath, p: Policy): Observation {
    Observation(
      p.systemRoot in t, p.windir in t, p.temp in t, p.tmp in t, p.path in t,
      |t| == 5 && forall k | k in t :: k in p.Allowed(),
      PrivateTemp(t, expectedTemp, full, p), TrustedPath(t, full, p),
      forall k | k in t :: !p.IsProxy(k),
      forall k | k in t :: !p.IsToolchain(k),
      forall k | k in t :: !p.IsCredential(k),
      p.compatibility !in t,
      SameWindir(t, full, p))
  }

  lemma KeyFlagsAreDirect(t: Table, p: Policy)
    ensures !SomeKeyRaises(UnexpectedVariable, t.Keys, p) <==> forall k | k in t :: k in p.Allowed()
    ensures !SomeKeyRaises(ProxyPresent, t.Keys, p) <==> forall k | k in t :: !p.IsProxy(k)
    ensures !SomeKeyRaises(ToolchainPresent, t.Keys, p) <==> forall k | k in t :: !p.IsToolchain(k)
    ensures !SomeKeyRaises(CredentialPresent, t.Keys, p) <==> forall k | k in t :: !p.IsCredential(k)
    ensures !SomeKeyRaises(CompatibilityPresent, t.Keys, p) <==> p.compatibility !in t
  {
    forall k | k in t
      ensures KeyRaises(UnexpectedVariable, k, p) <==> k !in p.Allowed()
      ensures KeyRaises(ProxyPresent, k, p) <==> p.IsProxy(k)
      ensures KeyRaises(ToolchainPresent, k, p) <==> p.IsToolchain(k)
      ensures KeyRaises(CredentialPresent, k, p) <==> p.IsCredential(k)
      ensures KeyRaises(CompatibilityPresent, k, p) <==> k == p.compatibility
    {}
  }

  lemma GroupsAreDirect(t: Table, expectedTemp: string, full: FullPath, p: Policy, raised: set<Flag>)
    requires raised == Raised(t, expectedTemp, full, p)
    ensures raised !! {TempMissing, TmpMissing, PrivateTempMismatch} <==> PrivateTemp(t, expectedTemp, full, p)
    ensures raised !! {SystemRootMissing, PathMissing, TrustedPathMismatch} <==> TrustedPath(t, full, p)
    ensures raised !! {SystemRootMissing, WindirMissing, WindirMismatch} <==> SameWindir(t, full, p)
  {
    DisjointFromThree(raised, TempMissing, TmpMissing, PrivateTempMismatch);
    DisjointFromThree(raised, SystemRootMissing, PathMissing, TrustedPathMismatch);
    DisjointFromThree(raised, SystemRootMissing, WindirMissing, WindirMismatch);
  }

  lemma DisjointFromThree(raised: set<Flag>, a: Flag, b: Flag, c: Flag)
    ensures raised !! {a, b, c} <==> a !in raised && b !in raised && c !in raised
  {}

  lemma PresenceIsDirect(t: Table, expectedTemp: string, full: FullPath, p: Policy, raised: set<Flag>)
    requires raised == Raised(t, expectedTemp, full, p)
    ensures SystemRootMissing !in raised <==> p.systemRoot in t
    ensures WindirMissing !in raised <==> p.windir in t
    ensures TempMissing !in raised <==> p.temp in t
    ensures TmpMissing !in raised <==> p.tmp in t
    ensures PathMissing !in raised <==> p.path in t
  {}

  lemma ListsAreDirect(t: Table, expectedTemp: string, full: FullPath, p: Policy, raised: set<Flag>)
    requires raised == Raised(t, expectedTemp, full, p)
    ensures UnexpectedVariable !in raised <==> |t| == 5 && forall k | k in t :: k in p.Allowed()
    ensures ProxyPresent !in raised <==> forall k | k in t :: !p.IsProxy(k)
    ensures ToolchainPresent !in raised <==> forall k | k in t :: !p.IsToolchain(k)
    ensures CredentialPresent !in raised <==> forall k | k in t :: !p.IsCredential(k)
    ensures CompatibilityPresent !in raised <==> p.compatibility !in t
  {
    KeyFlagsAreDirect(t, p);
    HeldFlags(t, expectedTemp, full, p);
  }

  /** What the five flags of the key loop stand for. */
  lemma HeldFlags(t: Table, expectedTemp: string, full: FullPath, p: Policy)
    ensures Holds(UnexpectedVariable, t, expectedTemp, full, p) <==>
              |t| != 5 || SomeKeyRaises(UnexpectedVariable, t.Keys, p)
    ensures Holds(ProxyPresent, t, expectedTemp, full, p) <==> SomeKeyRaises(ProxyPresent, t.Keys, p)
    ensures Holds(ToolchainPresent, t, expectedTemp, full, p) <==> SomeKeyRaises(ToolchainPresent, t.Keys, p)
    ensures Holds(CredentialPresent, t, expectedTemp, full, p) <==> SomeKeyRaises(CredentialPresent, t.Keys, p)
    ensures Holds(CompatibilityPresent, t, expectedTemp, full, p) <==> SomeKeyRaises(CompatibilityPresent, t.Keys, p)
  {}

  lemma ObservedIsDirect(t: Table, expectedTemp: string, full: FullPath, p: Policy)
    ensures Observed(Raised(t, expectedTemp, full, p)) == Direct(t, expectedTemp, full, p)
  {
    GroupsAreDirect(t, expectedTemp, full, p, Raised(t, expectedTemp, full, p));
    PresenceIsDirect(t, expectedTemp, full, p, Raised(t, expectedTemp, full, p));
    ListsAreDirect(t, expectedTemp, full, p, Raised(t, expectedTemp, full, p));
  }

  /**
   * Decoding is faithful for every environment without null or repeated names, although
   * the three comparison bits are only raised when both sides exist.
   */
  lemma DecodingIsFaithful(t: Table, expectedTemp: string, full: FullPath, p: Policy, m: bv32)
    requires States(m, Raised(t, expectedTemp, full, p))
    ensures FromExitCode(m) == Direct(t, expectedTemp, full, p)
    ensures m & INVALID == 0
  {
    Reading(m, Raised(t, expectedTemp, full, p));
    ObservedIsDirect(t, expectedTemp, full, p);
  }

  /** For any other environment the worker says one thing, and the decoding claims all the rest is in order. */
  lemma UncleanDecodesAsAllButAllowlist()
    ensures FromExitCode(UnexpectedVariable.Bit())
         == Observation(true, true, true, true, true, false, true, true, true, true, true, true, true)
  {
    OnlyUnexpected();
    Reading(UnexpectedVariable.Bit(), {UnexpectedVariable});
  }

  // ----- the source's own policy -----

  lemma NeedsCharacter(key: string, fragment: string, c: char)
    requires c in fragment && c !in key
    ensures !Occurs(key, fragment) && !(fragment <= key) && key != fragment
  {
    var i :| 0 <= i < |fragment| && fragment[i] == c;
    forall at: nat | at <= |key| ensures !OccursAt(key, fragment, at) {
      if at + |fragment| <= |key| {
        assert key[at..at + |fragment|][i] == key[at + i];
      }
    }
  }
}
