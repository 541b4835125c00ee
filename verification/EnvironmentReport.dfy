/**
 * How far the decoded report of the environment worker can be trusted: against a reading of
 * the environment itself, entry by entry, null and repeated names included.
 */
module EnvironmentReport {
  import opened Common
  import opened EnvironmentMask
  import opened EnvironmentWorker
  import opened Paths

  ghost predicate Named(e: Entry, name: string) { e.key.Some? && UpperKey(e) == name }

  ghost predicate Present(env: seq<Entry>, name: string) {
    exists i | 0 <= i < |env| :: Named(env[i], name)
  }

  ghost predicate HasValue(env: seq<Entry>, name: string, value: string) {
    exists i | 0 <= i < |env| :: Named(env[i], name) && env[i].value == Some(value)
  }

  /** Some entry of that name is the expected path. */
  ghost predicate PathIs(env: seq<Entry>, name: string, expected: string, full: FullPath) {
    exists value :: HasValue(env, name, value) && SamePath(full, value, expected)
  }

  ghost predicate PathIsSystem32(env: seq<Entry>, full: FullPath, p: Policy) {
    exists root, path :: HasValue(env, p.systemRoot, root) && HasValue(env, p.path, path)
                      && SamePath(full, path, Combine(root, SYSTEM32))
  }

  ghost predicate RootIsWindir(env: seq<Entry>, full: FullPath, p: Policy) {
    exists root, windir :: HasValue(env, p.systemRoot, root) && HasValue(env, p.windir, windir)
                        && SamePath(full, root, windir)
  }

  ghost predicate AllAllowed(env: seq<Entry>, p: Policy) {
    forall i | 0 <= i < |env| :: env[i].key.Some? && UpperKey(env[i]) in p.Allowed()
  }

  ghost predicate NoProxy(env: seq<Entry>, p: Policy) {
    forall i | 0 <= i < |env| && env[i].key.Some? :: !p.IsProxy(UpperKey(env[i]))
  }

  ghost predicate NoToolchain(env: seq<Entry>, p: Policy) {
    forall i | 0 <= i < |env| && env[i].key.Some? :: !p.IsToolchain(UpperKey(env[i]))
  }

  ghost predicate NoCredential(env: seq<Entry>, p: Policy) {
    forall i | 0 <= i < |env| && env[i].key.Some? :: !p.IsCredential(UpperKey(env[i]))
  }

  /** The facts the observation is about, read directly off the entries. */
  ghost function Direct(env: seq<Entry>, expectedTemp: string, full: FullPath, p: Policy): Observation {
    Observation(
      Present(env, p.systemRoot), Present(env, p.windir), Present(env, p.temp), Present(env, p.tmp), Present(env, p.path),
      Clean(env) && |env| == 5 && AllAllowed(env, p),
      PathIs(env, p.temp, expectedTemp, full) && PathIs(env, p.tmp, expectedTemp, full),
      PathIsSystem32(env, full, p),
      NoProxy(env, p), NoToolchain(env, p), NoCredential(env, p),
      !Present(env, p.compatibility),
      RootIsWindir(env, full, p))
  }

  // ----- clean environments: entries and table say the same -----

  lemma PresentInTable(env: seq<Entry>, t: Table, name: string)
    requires Clean(env) && Tabulates(t, env)
    ensures Present(env, name) <==> name in t
  {
    if name in t {
      var i :| 0 <= i < |env| && UpperKey(env[i]) == name;
      assert Named(env[i], name);
    }
  }

  lemma ValueInTable(env: seq<Entry>, t: Table, name: string, value: string)
    requires Clean(env) && Tabulates(t, env)
    ensures HasValue(env, name, value) <==> name in t && t[name] == value
  {
    if name in t && t[name] == value {
      var i :| 0 <= i < |env| && UpperKey(env[i]) == name;
      assert Sound(env[i]) && Named(env[i], name);
    }
  }

  lemma PathInTable(env: seq<Entry>, t: Table, name: string, expected: string, full: FullPath)
    requires Clean(env) && Tabulates(t, env)
    ensures PathIs(env, name, expected, full) <==> name in t && SamePath(full, t[name], expected)
  {
    forall value ensures HasValue(env, name, value) <==> name in t && t[name] == value {
      ValueInTable(env, t, name, value);
    }
  }

  lemma PairsInTable(env: seq<Entry>, t: Table, full: FullPath, p: Policy)
    requires Clean(env) && Tabulates(t, env)
    ensures PathIsSystem32(env, full, p) <==> TrustedPath(t, full, p)
    ensures RootIsWindir(env, full, p) <==> SameWindir(t, full, p)
  {
    forall name, value ensures HasValue(env, name, value) <==> name in t && t[name] == value {
      ValueInTable(env, t, name, value);
    }
    if TrustedPath(t, full, p) {
      assert HasValue(env, p.systemRoot, t[p.systemRoot]) && HasValue(env, p.path, t[p.path]);
    }
    if SameWindir(t, full, p) {
      assert HasValue(env, p.systemRoot, t[p.systemRoot]) && HasValue(env, p.windir, t[p.windir]);
    }
  }

  lemma KeysOfTable(env: seq<Entry>, t: Table)
    requires Clean(env) && Tabulates(t, env)
    ensures forall i | 0 <= i < |env| :: env[i].key.Some? && UpperKey(env[i]) in t
    ensures forall k | k in t :: exists i | 0 <= i < |env| :: env[i].key.Some? && UpperKey(env[i]) == k
  {
    forall i | 0 <= i < |env| ensures env[i].key.Some? && UpperKey(env[i]) in t {
      assert Sound(env[i]);
    }
    forall k | k in t ensures exists i | 0 <= i < |env| :: env[i].key.Some? && UpperKey(env[i]) == k {
      var i :| 0 <= i < |env| && UpperKey(env[i]) == k;
    }
  }

  lemma ListsInTable(env: seq<Entry>, t: Table, p: Policy)
    requires Clean(env) && Tabulates(t, env)
    ensures AllAllowed(env, p) <==> forall k | k in t :: k in p.Allowed()
    ensures NoProxy(env, p) <==> forall k | k in t :: !p.IsProxy(k)
    ensures NoToolchain(env, p) <==> forall k | k in t :: !p.IsToolchain(k)
    ensures NoCredential(env, p) <==> forall k | k in t :: !p.IsCredential(k)
  {
    KeysOfTable(env, t);
  }

  lemma PresenceReadsAlike(env: seq<Entry>, t: Table, p: Policy)
    requires Clean(env) && Tabulates(t, env)
    ensures Present(env, p.systemRoot) <==> p.systemRoot in t
    ensures Present(env, p.windir) <==> p.windir in t
    ensures Present(env, p.temp) <==> p.temp in t
    ensures Present(env, p.tmp) <==> p.tmp in t
    ensures Present(env, p.path) <==> p.path in t
    ensures Present(env, p.compatibility) <==> p.compatibility in t
  {
    PresentInTable(env, t, p.systemRoot);
    PresentInTable(env, t, p.windir);
    PresentInTable(env, t, p.temp);
    PresentInTable(env, t, p.tmp);
    PresentInTable(env, t, p.path);
    PresentInTable(env, t, p.compatibility);
  }

  lemma TempReadsAlike(env: seq<Entry>, t: Table, expectedTemp: string, full: FullPath, p: Policy)
    requires Clean(env) && Tabulates(t, env)
    ensures PathIs(env, p.temp, expectedTemp, full) && PathIs(env, p.tmp, expectedTemp, full)
       <==> PrivateTemp(t, expectedTemp, full, p)
  {
    PathInTable(env, t, p.temp, expectedTemp, full);
    PathInTable(env, t, p.tmp, expectedTemp, full);
  }

  lemma CleanReadsAlike(env: seq<Entry>, t: Table, expectedTemp: string, full: FullPath, p: Policy)
    requires Clean(env) && Tabulates(t, env)
    ensures Direct(env, expectedTemp, full, p) == EnvironmentWorker.Direct(t, expectedTemp, full, p)
  {
    PresenceReadsAlike(env, t, p);
    TempReadsAlike(env, t, expectedTemp, full, p);
    PairsInTable(env, t, full, p);
    ListsInTable(env, t, p);
  }

  // ----- exactly when the report can be trusted -----

  /**
   * Field by field: what is decoded is the fact itself if and only if the environment is
   * clean or the fact holds anyway; the allow-list field is always the fact itself.
   */
  ghost predicate FaithfulExactly(decoded: Observation, direct: Observation, clean: bool) {
    && (decoded.exactAllowlist <==> direct.exactAllowlist)
    && ((decoded.systemRootPresent <==> direct.systemRootPresent) <==> clean || direct.systemRootPresent)
    && ((decoded.windirPresent <==> direct.windirPresent) <==> clean || direct.windirPresent)
    && ((decoded.tempPresent <==> direct.tempPresent) <==> clean || direct.tempPresent)
    && ((decoded.tmpPresent <==> direct.tmpPresent) <==> clean || direct.tmpPresent)
    && ((decoded.pathPresent <==> direct.pathPresent) <==> clean || direct.pathPresent)
    && ((decoded.privateTemp <==> direct.privateTemp) <==> clean || direct.privateTemp)
    && ((decoded.trustedWindowsPath <==> direct.trustedWindowsPath) <==> clean || direct.trustedWindowsPath)
    && ((decoded.proxyAbsent <==> direct.proxyAbsent) <==> clean || direct.proxyAbsent)
    && ((decoded.toolchainAbsent <==> direct.toolchainAbsent) <==> clean || direct.toolchainAbsent)
    && ((decoded.credentialAbsent <==> direct.credentialAbsent) <==> clean || direct.credentialAbsent)
    && ((decoded.compatibilityAbsent <==> direct.compatibilityAbsent) <==> clean || direct.compatibilityAbsent)
    && ((decoded.windirMatches <==> direct.windirMatches) <==> clean || direct.windirMatches)
  }

  const ALL_BUT_ALLOWLIST :=
    Observation(true, true, true, true, true, false, true, true, true, true, true, true, true)

  lemma SameIsFaithful(o: Observation)
    ensures FaithfulExactly(o, o, true)
  {}

  lemma AllButAllowlistIsFaithfulWhereTrue(direct: Observation)
    requires !direct.exactAllowlist
    ensures FaithfulExactly(ALL_BUT_ALLOWLIST, direct, false)
  {}

  lemma ReportIsFaithfulExactly(env: seq<Entry>, m: bv32, expectedTemp: string, full: FullPath, p: Policy)
    requires Reports(env, m, expectedTemp, full, p)
    ensures FaithfulExactly(FromExitCode(m), Direct(env, expectedTemp, full, p), Clean(env))
    ensures Clear(m, INVALID)
  {
    if Clean(env) {
      var t: Table :| Tabulates(t, env) && States(m, Raised(t, expectedTemp, full, p));
      DecodingIsFaithful(t, expectedTemp, full, p, m);
      CleanReadsAlike(env, t, expectedTemp, full, p);
      SameIsFaithful(FromExitCode(m));
    } else {
      UncleanDecodesAsAllButAllowlist();
      OnlyUnexpected();
      AllButAllowlistIsFaithfulWhereTrue(Direct(env, expectedTemp, full, p));
    }
  }

  /** Some entry of that name has the components `q` as its full path, but for the case of letters. */
  ghost predicate ResolvesTo(env: seq<Entry>, name: string, full: FullPath, q: seq<string>) {
    exists i | 0 <= i < |env| ::
      && env[i].key.Some? && SameLetters(env[i].key.value, name)
      && env[i].value.Some? && Resolves(full, env[i].value.value, q)
  }

  lemma PathIsExact(env: seq<Entry>, name: string, expected: string, full: FullPath, q: seq<string>)
    requires full(expected).Some? && Normalised(full(expected).value, q) && Upper(name) == name
    ensures PathIs(env, name, expected, full) <==> ResolvesTo(env, name, full, q)
  {
    forall i | 0 <= i < |env| && env[i].key.Some?
      ensures Named(env[i], name) <==> SameLetters(env[i].key.value, name)
    {
      SameIgnoringCaseExact(env[i].key.value, name);
    }
    if PathIs(env, name, expected, full) {
      var value :| HasValue(env, name, value) && SamePath(full, value, expected);
      SamePathExact(full, value, expected, q);
      var i :| 0 <= i < |env| && Named(env[i], name) && env[i].value == Some(value);
    }
    if ResolvesTo(env, name, full, q) {
      var i :| 0 <= i < |env| && env[i].key.Some? && SameLetters(env[i].key.value, name)
               && env[i].value.Some? && Resolves(full, env[i].value.value, q);
      SamePathExact(full, env[i].value.value, expected, q);
      assert HasValue(env, name, env[i].value.value);
    }
  }

  ghost predicate IsPrivate(env: seq<Entry>, full: FullPath, p: Policy, q: seq<string>) {
    && Clean(env) && |env| == 5 && AllAllowed(env, p)
    && ResolvesTo(env, p.temp, full, q) && ResolvesTo(env, p.tmp, full, q)
    && PathIsSystem32(env, full, p) && RootIsWindir(env, full, p)
  }

  /**
   * A report of 0, read off the entries: exactly the five names, each once, TEMP and TMP both
   * resolving to the components of the expected directory, and the two pairs of Windows paths.
   */
  lemma ZeroMeansPrivateTemp(env: seq<Entry>, m: bv32, expectedTemp: string, full: FullPath, p: Policy, q: seq<string>)
    requires Reports(env, m, expectedTemp, full, p) && Harmless(p)
    requires full(expectedTemp).Some? && Normalised(full(expectedTemp).value, q)
    requires Upper(p.temp) == p.temp && Upper(p.tmp) == p.tmp
    ensures m == 0 <==> IsPrivate(env, full, p, q)
  {
    hide SamePath, Resolves, Normalised, Tabulates, States, Harmless, ResolvesTo, PathIs, PathIsSystem32, RootIsWindir;
    OnlyUnexpected();
    ZeroIsClean(UnexpectedVariable.Bit(), {UnexpectedVariable});
    if Clean(env) {
      var t: Table :| Tabulates(t, env) && States(m, Raised(t, expectedTemp, full, p));
      ZeroMeansAccepted(t, expectedTemp, full, p, m);
      AcceptedReadsAlike(env, t, expectedTemp, full, p);
      PathIsExact(env, p.temp, expectedTemp, full, q);
      PathIsExact(env, p.tmp, expectedTemp, full, q);
    }
  }

  lemma AcceptedReadsAlike(env: seq<Entry>, t: Table, expectedTemp: string, full: FullPath, p: Policy)
    requires Clean(env) && Tabulates(t, env) && Harmless(p)
    ensures Accepted(t, expectedTemp, full, p) <==>
              && |env| == 5 && AllAllowed(env, p)
              && PathIs(env, p.temp, expectedTemp, full) && PathIs(env, p.tmp, expectedTemp, full)
              && PathIsSystem32(env, full, p) && RootIsWindir(env, full, p)
  {
    CleanReadsAlike(env, t, expectedTemp, full, p);
    assert |t| == |env|;
    FiveAllowed(t, p);
  }

  lemma FiveAllowed(t: Table, p: Policy)
    requires Harmless(p)
    ensures t.Keys == SetOf(p.Allowed()) <==> |t| == 5 && forall k | k in t :: k in p.Allowed()
  {
    DistinctCount(p.Allowed());
    assert |t.Keys| == |t| && |SetOf(p.Allowed())| == 5;
    if |t| == 5 && forall k | k in t :: k in p.Allowed() {
      SubsetOfSameSize(t.Keys, SetOf(p.Allowed()));
    }
  }

  lemma CleanWhenZero(env: seq<Entry>, m: bv32, expectedTemp: string, full: FullPath, p: Policy)
    requires Reports(env, m, expectedTemp, full, p) && m == 0
    ensures Clean(env)
  {
    OnlyUnexpected();
    ZeroIsClean(UnexpectedVariable.Bit(), {UnexpectedVariable});
  }

  /** The child's report and the parent's decoding of it. */
  method Observe(env: seq<Entry>, expectedTemp: string, full: FullPath, p: Policy) returns (accepted: bool, seen: Observation)
    ensures FaithfulExactly(seen, Direct(env, expectedTemp, full, p), Clean(env))
    ensures accepted ==> Clean(env)
    ensures forall q | Harmless(p) && Upper(p.temp) == p.temp && Upper(p.tmp) == p.tmp
                       && full(expectedTemp).Some? && Normalised(full(expectedTemp).value, q) ::
              accepted <==> IsPrivate(env, full, p, q)
  {
    hide IsPrivate, Harmless, Normalised, Reports, Direct, FaithfulExactly, States;
    var exitCode := Run(env, expectedTemp, full, p);
    forall q | Harmless(p) && Upper(p.temp) == p.temp && Upper(p.tmp) == p.tmp
               && full(expectedTemp).Some? && Normalised(full(expectedTemp).value, q)
      ensures exitCode == 0 <==> IsPrivate(env, full, p, q)
    {
      ZeroMeansPrivateTemp(env, exitCode, expectedTemp, full, p, q);
    }
    if exitCode == 0 {
      CleanWhenZero(env, exitCode, expectedTemp, full, p);
    }
    ReportIsFaithfulExactly(env, exitCode, expectedTemp, full, p);
    accepted := exitCode == 0;
    seen := FromExitCode(exitCode);
  }

  /** Two names that differ in case only: whatever is run, the report claims a SystemRoot that is not there. */
  lemma RepeatedNameMisreports(env: seq<Entry>, m: bv32, expectedTemp: string, full: FullPath, p: Policy)
    requires env == [Entry(Some("A"), Some("")), Entry(Some("a"), Some(""))] && p.systemRoot == "SYSTEMROOT"
    requires Reports(env, m, expectedTemp, full, p)
    ensures FromExitCode(m).systemRootPresent && !Direct(env, expectedTemp, full, p).systemRootPresent
  {
    assert UpperKey(env[0]) == "A" && UpperKey(env[1]) == "A";
    ReportIsFaithfulExactly(env, m, expectedTemp, full, p);
    assert !Clean(env);
    UncleanDecodesAsAllButAllowlist();
  }
}
