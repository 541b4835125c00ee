/**
 * The name/value option reader `Program.ParseOptions` and its one writer,
 * `ProbeSuite.InvokeRace`, which sends a worker its options as one argument string.
 */
module Options {
  import opened Common
  import opened CommandLine

  datatype OptionError = OptionValueRequired | InvalidOrDuplicateOption | NulInOption

  type Reading = Result<map<string, string>, OptionError>

  /** `ParseOptions`: pairs of a name and a value, from `start` to the end. */
  method ParseOptions(args: seq<string>, start: nat) returns (r: Reading)
    requires start <= |args|
    ensures r == ReadOptions(args[start..])
  {
    var result: map<string, string> := map[];
    if (|args| - start) % 2 != 0 {
      return Err(OptionValueRequired);
    }
    var index := start;
    while index < |args|
      invariant start <= index <= |args| && (|args| - index) % 2 == 0
      invariant ReadInto(args[index..], result) == ReadInto(args[start..], map[])
    {
      var name := args[index];
      var value := args[index + 1];
      assert args[index..][2..] == args[index + 2..];
      if !StartsWith(name, "--") || name in result {
        return Err(InvalidOrDuplicateOption);
      }
      if NUL in value {
        return Err(NulInOption);
      }
      result := result[name := value];
      index := index + 2;
    }
    return Ok(result);
  }

  function ReadOptions(words: seq<string>): Reading {
    if |words| % 2 != 0 then Err(OptionValueRequired) else ReadInto(words, map[])
  }

  function ReadInto(words: seq<string>, found: map<string, string>): Reading
    requires |words| % 2 == 0
    decreases |words|
  {
    if words == [] then Ok(found)
    else if !StartsWith(words[0], "--") || words[0] in found then Err(InvalidOrDuplicateOption)
    else if NUL in words[1] then Err(NulInOption)
    else ReadInto(words[2..], found[words[0] := words[1]])
  }

  // ----- what the reader accepts, said without reading -----

  function Name(words: seq<string>, k: nat): string
    requires 2 * k + 1 < |words|
  {
    words[2 * k]
  }

  function Value(words: seq<string>, k: nat): string
    requires 2 * k + 1 < |words|
  {
    words[2 * k + 1]
  }

  ghost predicate Acceptable(words: seq<string>, taken: set<string>) {
    && (forall k: nat | 2 * k + 1 < |words| ::
          StartsWith(Name(words, k), "--") && Name(words, k) !in taken && NUL !in Value(words, k))
    && (forall j: nat, k: nat | j < k && 2 * k + 1 < |words| :: Name(words, j) != Name(words, k))
  }

  ghost predicate Holds(words: seq<string>, found: map<string, string>, options: map<string, string>) {
    && (forall k: nat | 2 * k + 1 < |words| :: Name(words, k) in options && options[Name(words, k)] == Value(words, k))
    && (forall name | name in found :: name in options && options[name] == found[name])
    && (forall name | name in options ::
          name in found || exists k: nat | 2 * k + 1 < |words| :: name == Name(words, k))
  }

  lemma NameShift(words: seq<string>, k: nat)
    requires |words| >= 2 && 2 * k + 1 < |words| - 2
    ensures Name(words[2..], k) == Name(words, k + 1) && Value(words[2..], k) == Value(words, k + 1)
  {}

  lemma AcceptableStep(words: seq<string>, taken: set<string>)
    requires |words| % 2 == 0 && words != []
    ensures Acceptable(words, taken) <==>
            && StartsWith(words[0], "--") && words[0] !in taken && NUL !in words[1]
            && Acceptable(words[2..], taken + {words[0]})
  {
    var tail := words[2..];
    if Acceptable(words, taken) {
      assert StartsWith(Name(words, 0), "--") && NUL !in Value(words, 0);
      forall k: nat | 2 * k + 1 < |tail|
        ensures StartsWith(Name(tail, k), "--") && Name(tail, k) !in taken + {words[0]} && NUL !in Value(tail, k)
      {
        NameShift(words, k);
        assert Name(words, 0) != Name(words, k + 1);
      }
      forall j: nat, k: nat | j < k && 2 * k + 1 < |tail| ensures Name(tail, j) != Name(tail, k) {
        NameShift(words, j);
        NameShift(words, k);
      }
    } else if StartsWith(words[0], "--") && words[0] !in taken && NUL !in words[1]
           && Acceptable(tail, taken + {words[0]}) {
      forall k: nat | 2 * k + 1 < |words|
        ensures StartsWith(Name(words, k), "--") && Name(words, k) !in taken && NUL !in Value(words, k)
      {
        if k > 0 { NameShift(words, k - 1); }
      }
      forall j: nat, k: nat | j < k && 2 * k + 1 < |words| ensures Name(words, j) != Name(words, k) {
        NameShift(words, k - 1);
        if j > 0 { NameShift(words, j - 1); }
      }
      assert false;
    }
  }

  lemma HoldsStep(words: seq<string>, found: map<string, string>, options: map<string, string>)
    requires |words| % 2 == 0 && words != [] && words[0] !in found
    requires Holds(words[2..], found[words[0] := words[1]], options)
    ensures Holds(words, found, options)
  {
    var tail := words[2..];
    var more := found[words[0] := words[1]];
    assert words[0] in more;
    forall k: nat | 2 * k + 1 < |words|
      ensures Name(words, k) in options && options[Name(words, k)] == Value(words, k)
    {
      if k > 0 { NameShift(words, k - 1); }
    }
    forall name | name in found ensures name in options && options[name] == found[name] {
      assert name in more;
    }
    forall name | name in options && name !in found
      ensures exists k: nat | 2 * k + 1 < |words| :: name == Name(words, k)
    {
      if name in more {
        assert name == Name(words, 0);
      } else {
        var k: nat :| 2 * k + 1 < |tail| && name == Name(tail, k);
        NameShift(words, k);
        assert name == Name(words, k + 1);
      }
    }
  }

  lemma {:induction false} ReadIntoExact(words: seq<string>, found: map<string, string>)
    requires |words| % 2 == 0
    ensures ReadInto(words, found).Ok? <==> Acceptable(words, found.Keys)
    ensures ReadInto(words, found).Ok? ==> Holds(words, found, ReadInto(words, found).value)
    decreases |words|
  {
    if words != [] {
      AcceptableStep(words, found.Keys);
      if StartsWith(words[0], "--") && words[0] !in found && NUL !in words[1] {
        var more := found[words[0] := words[1]];
        assert more.Keys == found.Keys + {words[0]};
        ReadIntoExact(words[2..], more);
        if ReadInto(words, found).Ok? {
          HoldsStep(words, found, ReadInto(words, found).value);
        }
      }
    }
  }

  /**
   * The reader accepts exactly the even lists of distinct `--` names with NUL-free
   * values, and the dictionary it returns is exactly those pairs.
   */
  lemma ReadOptionsExact(words: seq<string>)
    ensures ReadOptions(words).Ok? <==> |words| % 2 == 0 && Acceptable(words, {})
    ensures ReadOptions(words).Ok? ==> Holds(words, map[], ReadOptions(words).value)
  {
    if |words| % 2 == 0 {
      ReadIntoExact(words, map[]);
    }
  }

  // ----- the writer -----

  function RaceWords(operation: string, scope: string, target: string, replacement: Option<string>): seq<string> {
    ["race-worker", "--operation", operation, "--scope-root", scope, "--target", target]
    + if replacement.Some? then ["--replacement", replacement.value] else []
  }

  /** All the words in one argument string; printing stops at the first NUL. */
  function Joined(words: seq<string>): string
    requires words != []
  {
    PrintedAfter(Printed(words[0]), words[1..])
  }

  lemma {:induction false} JoinedSnoc(words: seq<string>, last: string)
    requires words != []
    ensures Joined(words + [last]) == Joined(words) + " " + Printed(last)
    ensures Joined(words) != ""
  {
    PrintedAfterIsAppend(Printed(words[0]), words[1..]);
    PrintedAfterIsAppend(Printed(words[0]), words[1..] + [last]);
    assert (words + [last])[1..] == words[1..] + [last];
    BlankedSnoc(words[1..], last);
  }

  lemma {:induction false} BlankedSnoc(words: seq<string>, last: string)
    ensures Blanked(words + [last]) == Blanked(words) + " " + Printed(last)
    decreases |words|
  {
    if words == [] {
      assert words + [last] == [last];
      assert Blanked([last]) == " " + Printed(last) + Blanked([]);
    } else {
      assert (words + [last])[1..] == words[1..] + [last];
      BlankedSnoc(words[1..], last);
    }
  }

  function JoinedUpTo(words: seq<string>, k: nat): string
    requires k <= |words|
  {
    if k == 0 then "" else Joined(words[..k])
  }

  /** `ProbeSuite.AppendArgument` on a builder that already holds the first `k` of `words`. */
  method Append(builder: string, ghost words: seq<string>, ghost k: nat, value: string)
    returns (r: Result<string, Code>)
    requires k < |words| && words[k] == value && builder == JoinedUpTo(words, k)
    ensures r.Err? <==> NUL in value
    ensures r.Err? ==> r.error == NulInArgument
    ensures r.Ok? ==> r.value == JoinedUpTo(words, k + 1)
  {
    assert words[..k + 1] == words[..k] + [value];
    if k == 0 {
      assert words[..1][1..] == [];
    } else {
      JoinedSnoc(words[..k], value);
    }
    var text := builder;
    if |text| != 0 {
      text := text + " ";
    }
    var quoted :- QuoteArgument(value);
    return Ok(text + quoted);
  }

  lemma RaceNul(operation: string, scope: string, target: string, replacement: Option<string>)
    ensures AnyNul(RaceWords(operation, scope, target, replacement))
       <==> NUL in operation || NUL in scope || NUL in target
            || (replacement.Some? && NUL in replacement.value)
  {
    var words := RaceWords(operation, scope, target, replacement);
    assert words[2] == operation && words[4] == scope && words[6] == target;
    assert replacement.Some? ==> words[8] == replacement.value;
    assert NUL !in words[0] && NUL !in words[1] && NUL !in words[3] && NUL !in words[5];
    assert replacement.Some? ==> NUL !in words[7];
  }

  /** The argument string that `ProbeSuite.InvokeRace` builds. */
  method RaceArguments(operation: string, scope: string, target: string, replacement: Option<string>)
    returns (r: Result<string, Code>)
    ensures r == if AnyNul(RaceWords(operation, scope, target, replacement)) then Err(NulInArgument)
                 else Ok(Joined(RaceWords(operation, scope, target, replacement)))
  {
    ghost var words := RaceWords(operation, scope, target, replacement);
    RaceNul(operation, scope, target, replacement);
    var text :- Append("", words, 0, "race-worker");
    text :- Append(text, words, 1, "--operation");
    text :- Append(text, words, 2, operation);
    text :- Append(text, words, 3, "--scope-root");
    text :- Append(text, words, 4, scope);
    r := AppendTarget(text, words, target, replacement);
  }

  /** The words from the target on. */
  method AppendTarget(builder: string, ghost words: seq<string>, target: string, replacement: Option<string>)
    returns (r: Result<string, Code>)
    requires |words| == 7 + (if replacement.Some? then 2 else 0) && builder == JoinedUpTo(words, 5)
    requires words[5] == "--target" && words[6] == target
    requires replacement.Some? ==> words[7] == "--replacement" && words[8] == replacement.value
    ensures r == if NUL in target || (replacement.Some? && NUL in replacement.value) then Err(NulInArgument)
                 else Ok(Joined(words))
  {
    var named := Append(builder, words, 5, "--target");
    var text :- Append(named.value, words, 6, target);
    r := AppendReplacement(text, words, replacement);
  }

  /** The optional last two words. */
  method AppendReplacement(builder: string, ghost words: seq<string>, replacement: Option<string>)
    returns (r: Result<string, Code>)
    requires |words| == 7 + (if replacement.Some? then 2 else 0) && builder == JoinedUpTo(words, 7)
    requires replacement.Some? ==> words[7] == "--replacement" && words[8] == replacement.value
    ensures r == if replacement.Some? && NUL in replacement.value then Err(NulInArgument) else Ok(Joined(words))
  {
    var text := builder;
    if replacement.Some? {
      var named := Append(text, words, 7, "--replacement");
      text :- Append(named.value, words, 8, replacement.value);
    }
    assert words[..|words|] == words;
    return Ok(text);
  }

  lemma ScanJoined(words: seq<string>)
    requires words != []
    ensures ScanArguments(Joined(words)) == words
  {
    PrintedAfterIsAppend(Printed(words[0]), words[1..]);
    ScanPrinted(words[0], Blanked(words[1..]));
    ScanBlanked(words[1..]);
    assert Printed(words[0]) != "" && !IsDelimiter(Printed(words[0])[0]);
  }

  /**
   * Worker options survive the trip through one command line: whatever the four values
   * are, a value starting with `--` included, the worker reads back exactly the
   * dictionary that was sent.
   */
  lemma RaceOptionsSurvive(operation: string, scope: string, target: string, replacement: Option<string>)
    requires !AnyNul(RaceWords(operation, scope, target, replacement))
    ensures var args := ScanArguments(Joined(RaceWords(operation, scope, target, replacement)));
            && args != [] && args[0] == "race-worker"
            && ReadOptions(args[1..])
               == Ok(map["--operation" := operation, "--scope-root" := scope, "--target" := target]
                     + if replacement.Some? then map["--replacement" := replacement.value] else map[])
  {
    var words := RaceWords(operation, scope, target, replacement);
    ScanJoined(words);
    var sent := words[1..];
    assert NUL !in words[2] && NUL !in words[4] && NUL !in words[6];
    ThreeOptions(sent, operation, scope, target);
    var third := map["--operation" := operation, "--scope-root" := scope, "--target" := target];
    if replacement.Some? {
      assert sent[6..] == ["--replacement", replacement.value] && NUL !in words[8];
      assert sent[6..][2..] == [];
      assert "--replacement" !in third;
      assert ReadInto(sent[6..], third) == Ok(third["--replacement" := replacement.value]);
      assert third["--replacement" := replacement.value] == third + map["--replacement" := replacement.value];
    } else {
      assert sent[6..] == [];
      assert third + map[] == third;
    }
  }

  lemma OneOption(sent: seq<string>, found: map<string, string>, name: string, value: string)
    requires |sent| >= 2 && |sent| % 2 == 0 && sent[0] == name && sent[1] == value
    requires StartsWith(name, "--") && name !in found && NUL !in value
    ensures ReadInto(sent, found) == ReadInto(sent[2..], found[name := value])
  {}

  lemma ThreeOptions(sent: seq<string>, operation: string, scope: string, target: string)
    requires |sent| >= 6 && |sent| % 2 == 0 && NUL !in operation && NUL !in scope && NUL !in target
    requires sent[0] == "--operation" && sent[1] == operation && sent[2] == "--scope-root" && sent[3] == scope
    requires sent[4] == "--target" && sent[5] == target
    ensures ReadInto(sent, map[])
         == ReadInto(sent[6..], map["--operation" := operation, "--scope-root" := scope, "--target" := target])
  {
    var first := map["--operation" := operation];
    var second := first["--scope-root" := scope];
    OneOption(sent, map[], "--operation", operation);
    OneOption(sent[2..], first, "--scope-root", scope);
    assert sent[2..][2..] == sent[4..];
    OneOption(sent[4..], second, "--target", target);
    assert sent[4..][2..] == sent[6..];
  }
}
