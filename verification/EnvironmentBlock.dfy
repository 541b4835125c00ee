/**
 * `NativeMethods.BuildEnvironment` of TrustLaunchProbe.cs: the block handed to a child,
 * and what the child reads back out of it.
 */
module EnvironmentBlock {
  import opened Common
  import opened EnvironmentMask
  import opened EnvironmentPolicy
  import opened EnvironmentWorker
  import opened Paths

  datatype Pair = Pair(name: string, value: string)

  datatype BuildError = SystemRootInvalid | EnvironmentValueInvalid

  /** `Path.IsPathRooted`. */
  predicate IsPathRooted(path: string) {
    (|path| >= 1 && Separator(path[0])) || (|path| >= 2 && path[1] == ':')
  }

  /** The five pairs in the order of a dictionary sorted without regard to case. */
  function Pairs(systemRoot: string, privateTemp: string): seq<Pair> {
    [Pair("PATH", Combine(systemRoot, SYSTEM32)), Pair("SystemRoot", systemRoot),
     Pair("TEMP", privateTemp), Pair("TMP", privateTemp), Pair("WINDIR", systemRoot)]
  }

  function Line(pair: Pair): string { pair.name + "=" + pair.value + [NUL] }

  function Lines(pairs: seq<Pair>): string {
    if pairs == [] then "" else Line(pairs[0]) + Lines(pairs[1..])
  }

  lemma {:induction false} LinesSnoc(pairs: seq<Pair>, pair: Pair)
    ensures Lines(pairs + [pair]) == Lines(pairs) + Line(pair)
  {
    if pairs == [] {
      assert pairs + [pair] == [pair];
      assert Lines([pair][1..]) == "";
    } else {
      assert (pairs + [pair])[1..] == pairs[1..] + [pair];
      LinesSnoc(pairs[1..], pair);
    }
  }

  /** There is one, and it starts with a separator or with a drive. */
  predicate ValidRoot(systemRoot: Option<string>) {
    && systemRoot.Some? && systemRoot.value != ""
    && (systemRoot.value[0] == '\\' || systemRoot.value[0] == '/' || (|systemRoot.value| > 1 && systemRoot.value[1] == ':'))
  }

  method Build(systemRoot: Option<string>, privateTemp: string) returns (r: Result<string, BuildError>)
    ensures r == Err(SystemRootInvalid) <==> !ValidRoot(systemRoot)
    ensures r.Ok? <==> ValidRoot(systemRoot) && NUL !in systemRoot.value && NUL !in privateTemp
    ensures r.Ok? ==> r.value == Lines(Pairs(systemRoot.value, privateTemp)) + [NUL]
  {
    if systemRoot.None? || systemRoot.value == "" || !IsPathRooted(systemRoot.value) {
      return Err(SystemRootInvalid);
    }
    NulOnlyFromInputs(systemRoot.value, privateTemp);
    r := Print(Pairs(systemRoot.value, privateTemp));
  }

  method Print(environment: seq<Pair>) returns (r: Result<string, BuildError>)
    requires forall i | 0 <= i < |environment| :: Named(environment[i])
    ensures r.Ok? <==> forall i | 0 <= i < |environment| :: NUL !in environment[i].value
    ensures r == if r.Ok? then Ok(Lines(environment) + [NUL]) else Err(EnvironmentValueInvalid)
  {
    var builder := "";
    for i := 0 to |environment|
      invariant builder == Lines(environment[..i])
      invariant forall k | 0 <= k < i :: NUL !in environment[k].value
    {
      var item := environment[i];
      if '=' in item.name || NUL in item.value {
        return Err(EnvironmentValueInvalid);
      }
      assert environment[..i + 1] == environment[..i] + [item];
      LinesSnoc(environment[..i], item);
      builder := builder + item.name + "=" + item.value + [NUL];
    }
    assert environment[..|environment|] == environment;
    return Ok(builder + [NUL]);
  }

  /** The names are fixed and have no '='; a NUL can only come in with the two paths. */
  lemma NulOnlyFromInputs(systemRoot: string, privateTemp: string)
    ensures forall i | 0 <= i < 5 :: Named(Pairs(systemRoot, privateTemp)[i])
    ensures NUL !in systemRoot && NUL !in privateTemp <==>
              forall i | 0 <= i < 5 :: NUL !in Pairs(systemRoot, privateTemp)[i].value
  {
    var pairs := Pairs(systemRoot, privateTemp);
    assert pairs[1].value == systemRoot && pairs[2].value == privateTemp;
    assert NUL !in SYSTEM32 && NUL !in "\\";
  }

  /** A name an environment block can carry. */
  predicate Named(pair: Pair) { pair.name != "" && '=' !in pair.name && NUL !in pair.name }

  // ----- the reader: entries end in NUL, the block in an empty entry, names at the first '=' -----

  function Split(entry: string): Pair {
    var at := Find(entry, '=');
    if at == |entry| then Pair("", entry) else Pair(entry[..at], entry[at + 1..])
  }

  /** The entries of a block, or `None` when it runs off the end of its memory. */
  function ReadBlock(s: string): Option<seq<Pair>> {
    var at := Find(s, NUL);
    if at == |s| then None
    else if at == 0 then Some([])
    else
      match ReadBlock(s[at + 1..])
      case None => None
      case Some(rest) => Some([Split(s[..at])] + rest)
  }

  lemma SplitEntry(pair: Pair)
    requires Named(pair)
    ensures Split(pair.name + "=" + pair.value) == pair
  {
    var entry := pair.name + "=" + pair.value;
    FindIs(entry, '=', pair.name, pair.value);
    assert entry[..|pair.name|] == pair.name;
    assert entry[|pair.name| + 1..] == pair.value;
  }

  lemma ReadLine(entry: string, rest: string)
    requires entry != "" && NUL !in entry
    ensures ReadBlock(entry + [NUL] + rest) ==
              if ReadBlock(rest).None? then None else Some([Split(entry)] + ReadBlock(rest).value)
  {
    var s := entry + [NUL] + rest;
    FindIs(s, NUL, entry, rest);
    assert s[..|entry|] == entry;
    assert s[|entry| + 1..] == rest;
  }

  lemma ReadPrinted(pair: Pair, rest: string)
    requires Named(pair) && NUL !in pair.value
    ensures ReadBlock(pair.name + "=" + pair.value + [NUL] + rest) ==
              if ReadBlock(rest).None? then None else Some([pair] + ReadBlock(rest).value)
  {
    var entry := pair.name + "=" + pair.value;
    assert entry[|pair.name|] == '=';
    SplitEntry(pair);
    ReadLine(entry, rest);
  }

  lemma Regroup(entry: string, lines: string)
    ensures entry + [NUL] + lines + [NUL] == entry + [NUL] + (lines + [NUL])
  {}

  /** Whatever is printed is read back, values with '=' in them included. */
  lemma {:induction false} BlockRoundTrip(pairs: seq<Pair>)
    requires forall i | 0 <= i < |pairs| :: Named(pairs[i]) && NUL !in pairs[i].value
    ensures ReadBlock(Lines(pairs) + [NUL]) == Some(pairs)
  {
    if pairs == [] {
      FindIs(Lines(pairs) + [NUL], NUL, "", "");
    } else {
      var pair, rest := pairs[0], Lines(pairs[1..]) + [NUL];
      var entry := pair.name + "=" + pair.value;
      Regroup(entry, Lines(pairs[1..]));
      ReadPrinted(pair, rest);
      BlockRoundTrip(pairs[1..]);
      assert [pair] + pairs[1..] == pairs;
    }
  }

  // ----- the child's table -----

  function Listed(pair: Pair): Entry { Entry(Some(pair.name), Some(pair.value)) }

  function Listing(pairs: seq<Pair>): (e: seq<Entry>)
    ensures |e| == |pairs|
  {
    seq(|pairs|, i requires 0 <= i < |pairs| => Listed(pairs[i]))
  }

  lemma UpperNames()
    ensures Upper("PATH") == "PATH" && Upper("SystemRoot") == "SYSTEMROOT" && Upper("TEMP") == "TEMP"
    ensures Upper("TMP") == "TMP" && Upper("WINDIR") == "WINDIR"
  {}

  lemma {:induction false} CountOf(s: seq<Entry>, i: nat, j: nat)
    requires i < j < |s| && s[i] == s[j]
    ensures multiset(s)[s[i]] >= 2
  {
    assert s == s[..j] + s[j..];
    assert s[..j][i] == s[i] && s[j..][0] == s[i];
    assert multiset(s) == multiset(s[..j]) + multiset(s[j..]);
    assert s[i] in multiset(s[..j]) && s[i] in multiset(s[j..]);
  }

  /** A dictionary enumerates its entries in any order; that does not matter to what the worker collects. */
  lemma OrderDoesNotMatter(env: seq<Entry>, entries: seq<Entry>)
    requires Clean(entries) && multiset(env) == multiset(entries)
    ensures Clean(env)
  {
    forall i | 0 <= i < |env| ensures Sound(env[i]) {
      assert env[i] in multiset(env) && env[i] in multiset(entries) && env[i] in entries;
    }
    forall i, j | 0 <= i < j < |env| ensures UpperKey(env[i]) != UpperKey(env[j]) {
      assert env[i] in multiset(entries) && env[j] in multiset(entries);
      var a :| 0 <= a < |entries| && entries[a] == env[i];
      var b :| 0 <= b < |entries| && entries[b] == env[j];
      if a == b {
        CountOf(env, i, j);
        Once(entries, a);
      } else if a < b {
        assert UpperKey(entries[a]) != UpperKey(entries[b]);
      } else {
        assert UpperKey(entries[b]) != UpperKey(entries[a]);
      }
    }
  }

  lemma {:induction false} Once(entries: seq<Entry>, a: nat)
    requires a < |entries| && forall i, j | 0 <= i < j < |entries| :: entries[i] != entries[j]
    ensures multiset(entries)[entries[a]] == 1
  {
    var x := entries[a];
    assert entries == entries[..a] + [x] + entries[a + 1..];
    assert multiset(entries) == multiset(entries[..a]) + multiset([x]) + multiset(entries[a + 1..]);
    assert x !in entries[..a] && x !in entries[a + 1..];
  }

  lemma ListingIsClean(systemRoot: string, privateTemp: string)
    ensures Clean(Listing(Pairs(systemRoot, privateTemp)))
  {
    ListedAsBuilt(systemRoot, privateTemp);
  }

  /** What the child's dictionary holds, whatever the order it was filled in. */
  ghost predicate Holding(t: Table, systemRoot: string, privateTemp: string) {
    && t.Keys == {"PATH", "SYSTEMROOT", "TEMP", "TMP", "WINDIR"}
    && t["PATH"] == Combine(systemRoot, SYSTEM32)
    && t["SYSTEMROOT"] == systemRoot && t["WINDIR"] == systemRoot
    && t["TEMP"] == privateTemp && t["TMP"] == privateTemp
  }

  lemma Tabulated(t: Table, env: seq<Entry>, e: Entry)
    requires Clean(env) && Tabulates(t, env) && e in env
    ensures Sound(e) && UpperKey(e) in t && t[UpperKey(e)] == e.value.value
  {
    var i :| 0 <= i < |env| && env[i] == e;
    assert Sound(env[i]);
  }

  /** The table holds exactly these entries. */
  ghost predicate Matches(t: Table, entries: seq<Entry>) {
    && (forall i | 0 <= i < |entries| ::
          Sound(entries[i]) && UpperKey(entries[i]) in t && t[UpperKey(entries[i])] == entries[i].value.value)
    && (forall k | k in t :: exists i | 0 <= i < |entries| :: Sound(entries[i]) && UpperKey(entries[i]) == k)
  }

  lemma TabulatedInAnyOrder(env: seq<Entry>, entries: seq<Entry>, t: Table)
    requires multiset(env) == multiset(entries) && Clean(env) && Tabulates(t, env)
    ensures Matches(t, entries)
  {
    forall i | 0 <= i < |entries|
      ensures Sound(entries[i]) && UpperKey(entries[i]) in t && t[UpperKey(entries[i])] == entries[i].value.value
    {
      assert entries[i] in multiset(entries) && entries[i] in multiset(env);
      Tabulated(t, env, entries[i]);
    }
    forall k | k in t ensures exists i | 0 <= i < |entries| :: Sound(entries[i]) && UpperKey(entries[i]) == k {
      var j :| 0 <= j < |env| && UpperKey(env[j]) == k;
      assert env[j] in multiset(env) && env[j] in multiset(entries);
      var i :| 0 <= i < |entries| && entries[i] == env[j];
    }
  }

  ghost predicate AsBuilt(entries: seq<Entry>, systemRoot: string, privateTemp: string) {
    && |entries| == 5 && (forall i | 0 <= i < 5 :: Sound(entries[i]))
    && UpperKey(entries[0]) == "PATH" && entries[0].value.value == Combine(systemRoot, SYSTEM32)
    && UpperKey(entries[1]) == "SYSTEMROOT" && entries[1].value.value == systemRoot
    && UpperKey(entries[2]) == "TEMP" && entries[2].value.value == privateTemp
    && UpperKey(entries[3]) == "TMP" && entries[3].value.value == privateTemp
    && UpperKey(entries[4]) == "WINDIR" && entries[4].value.value == systemRoot
  }

  lemma ListedAsBuilt(systemRoot: string, privateTemp: string)
    ensures AsBuilt(Listing(Pairs(systemRoot, privateTemp)), systemRoot, privateTemp)
  {
    UpperNames();
  }

  lemma BuiltTable(systemRoot: string, privateTemp: string, entries: seq<Entry>, t: Table)
    requires AsBuilt(entries, systemRoot, privateTemp) && Matches(t, entries)
    ensures Holding(t, systemRoot, privateTemp)
  {
    assert Sound(entries[0]) && Sound(entries[1]) && Sound(entries[2]) && Sound(entries[3]) && Sound(entries[4]);
    forall k | k in t ensures k in {"PATH", "SYSTEMROOT", "TEMP", "TMP", "WINDIR"} {
      var i :| 0 <= i < 5 && UpperKey(entries[i]) == k;
      assert i == 0 || i == 1 || i == 2 || i == 3 || i == 4;
    }
  }

  /**
   * The printer satisfies its own checker: the child that reads the block reports 0 exactly
   * when its full paths resolve and the expected directory is the one that was printed.
   */
  lemma BuiltIsAccepted(systemRoot: string, privateTemp: string, expectedTemp: string, full: FullPath,
                        env: seq<Entry>, m: bv32)
    requires NUL !in systemRoot && NUL !in privateTemp
    requires multiset(env) == multiset(Listing(Pairs(systemRoot, privateTemp)))
    ensures ReadBlock(Lines(Pairs(systemRoot, privateTemp)) + [NUL]) == Some(Pairs(systemRoot, privateTemp))
    ensures Clean(env)
    ensures Reports(env, m, expectedTemp, full, POLICY) ==>
              (m == 0 <==>
                 && SamePath(full, privateTemp, expectedTemp)
                 && full(systemRoot).Some? && full(Combine(systemRoot, SYSTEM32)).Some?)
  {
    NulOnlyFromInputs(systemRoot, privateTemp);
    BlockRoundTrip(Pairs(systemRoot, privateTemp));
    ListingIsClean(systemRoot, privateTemp);
    OrderDoesNotMatter(env, Listing(Pairs(systemRoot, privateTemp)));
    if Reports(env, m, expectedTemp, full, POLICY) {
      var t: Table :| Tabulates(t, env) && States(m, Raised(t, expectedTemp, full, POLICY));
      ReportOfBuilt(systemRoot, privateTemp, expectedTemp, full, env, t, POLICY, m);
    }
  }

  lemma ReportOfBuilt(systemRoot: string, privateTemp: string, expectedTemp: string, full: FullPath,
                      env: seq<Entry>, t: Table, p: Policy, m: bv32)
    requires p == POLICY && multiset(env) == multiset(Listing(Pairs(systemRoot, privateTemp)))
    requires Clean(env) && Tabulates(t, env) && States(m, Raised(t, expectedTemp, full, p))
    ensures m == 0 <==>
              && SamePath(full, privateTemp, expectedTemp)
              && full(systemRoot).Some? && full(Combine(systemRoot, SYSTEM32)).Some?
  {
    TabulatedInAnyOrder(env, Listing(Pairs(systemRoot, privateTemp)), t);
    ListedAsBuilt(systemRoot, privateTemp);
    BuiltTable(systemRoot, privateTemp, Listing(Pairs(systemRoot, privateTemp)), t);
    PolicyIsHarmless(p);
    ZeroMeansAccepted(t, expectedTemp, full, p, m);
    HoldingIsAccepted(t, systemRoot, privateTemp, expectedTemp, full, p);
  }

  lemma HoldingIsAccepted(t: Table, systemRoot: string, privateTemp: string, expectedTemp: string, full: FullPath, p: Policy)
    requires Holding(t, systemRoot, privateTemp) && p == POLICY
    ensures Accepted(t, expectedTemp, full, p) <==>
              && SamePath(full, privateTemp, expectedTemp)
              && full(systemRoot).Some? && full(Combine(systemRoot, SYSTEM32)).Some?
  {
    assert p.Allowed() == ["SYSTEMROOT", "WINDIR", "TEMP", "TMP", "PATH"];
    assert SetOf(["SYSTEMROOT", "WINDIR", "TEMP", "TMP", "PATH"]) == {"PATH", "SYSTEMROOT", "TEMP", "TMP", "WINDIR"};
  }

  /** The caller passes its own full path of the directory, as `RunEnvironmentObservation` does. */
  lemma OwnFullPathAgrees(privateTemp: string, full: FullPath)
    requires full(privateTemp).Some? && full(full(privateTemp).value) == full(privateTemp)
    ensures SamePath(full, privateTemp, full(privateTemp).value)
  {}
}
