/**
 * The case ledger of `ProbeSuite` in TrustLaunchProbe.cs. Every operation of the platform
 * may return anything or throw; what is proved holds for each such run.
 */
module ProbeSuite {
  import opened Common
  import opened LedgerCases
  import opened ProbeFacts

  /** How a statement ends: normally, with a `ControlledException`, or with any other exception. */
  datatype Flow = Fine | Controlled(code: Code, systemError: Option<int>) | Uncontrolled

  /** A call into the platform. */
  method Attempt() returns (flow: Flow)
    ensures flow.Controlled? ==> flow.code.Raised?
  {
    var kind: nat := *;
    var text: string := *;
    var systemError: Option<int> := *;
    flow := if kind == 0 then Fine else if kind == 1 then Controlled(Raised(text), systemError) else Uncontrolled;
  }

  /** What a mutation attempt that should have been blocked is recorded as. */
  function Mutation(race: RaceResult, blocked: Finding): (r: CaseResult)
    ensures r.Decided() && r.outcome == if HeldOff(race) then Pass else Fail
  {
    if race.succeeded then CaseResult(Fail, Found(MutationSucceeded), None)
    else if race.error == 5 || race.error == 32 then CaseResult(Pass, Found(blocked), Some(race.error))
    else CaseResult(Fail, Found(UnexpectedMutationError), Some(race.error))
  }

  function InitialVerdict(pathMatches: bool, identityMatches: bool, initial: Option<Inventory>, systemError: Option<int>): (r: CaseResult)
    ensures r.Decided()
    ensures r.outcome == Pass <==> pathMatches && identityMatches && Enumerated(initial)
  {
    if !pathMatches then CaseResult(Fail, Found(MainImagePathMismatch), None)
    else if !identityMatches then CaseResult(Fail, Found(ReopenedMainImageFileIdMismatch), None)
    else if initial.None? then CaseResult(NotTested, Found(InitialModuleEnumerationUnavailable), systemError)
    else if !initial.value.mainImagePresent || initial.value.total == 0 then
      CaseResult(Fail, Found(InitialMainImageNotEnumerated), None)
    else if initial.value.unexpected != 0 then CaseResult(Fail, Found(InitialUnexpectedUserWritableModule), None)
    else CaseResult(Pass, Found(if initial.value.unknown == 0 then InitialModulesClassified
                                else InitialModulesClassifiedWithUnknown), None)
  }

  function RuntimeVerdict(runtime: Option<Inventory>, systemError: Option<int>): (r: CaseResult)
    ensures r.Decided()
    ensures r.outcome == Pass <==> Enumerated(runtime)
  {
    if runtime.None? then CaseResult(NotTested, Found(RuntimeModuleEnumerationUnavailable), systemError)
    else if !runtime.value.mainImagePresent || runtime.value.total == 0 then
      CaseResult(Fail, Found(RuntimeMainImageNotEnumerated), None)
    else if runtime.value.unexpected != 0 then CaseResult(Fail, Found(RuntimeUnexpectedUserWritableModule), None)
    else CaseResult(Pass, Found(if runtime.value.unknown == 0 then RuntimeModulesClassified
                                else RuntimeModulesClassifiedWithUnknown), None)
  }

  function RejectionVerdict(initial: Option<Inventory>, runtime: Option<Inventory>): (r: CaseResult)
    ensures r.Decided()
    ensures r.outcome == Fail <==> Unexpected(initial) || Unexpected(runtime)
    ensures r.outcome == Pass <==> NothingUnexpected(initial) && NothingUnexpected(runtime)
  {
    if Unexpected(initial) || Unexpected(runtime) then CaseResult(Fail, Found(UnexpectedModuleRejected), None)
    else if initial.None? || runtime.None? then CaseResult(NotTested, Found(ModuleRejectionRequiresBothWindows), None)
    else CaseResult(Pass, Found(NoUnexpectedModule), None)
  }

  /** The verdict on an environment report: a foreign bit makes it invalid, and only an empty one passes. */
  function EnvironmentVerdict(ready: bool, exited: bool, foreign: bool, empty: bool): (r: CaseResult)
    ensures r.Decided() && (r.outcome == Pass <==> ready && exited && !foreign && empty)
    ensures r.code == Found(EnvironmentExitMaskInvalid) <==> ready && exited && foreign
  {
    if !ready then CaseResult(Fail, Found(EnvironmentPreResumeInvariantFailed), None)
    else if !exited then CaseResult(Fail, Found(EnvironmentChildTimeout), None)
    else if foreign then CaseResult(Fail, Found(EnvironmentExitMaskInvalid), None)
    else if empty then CaseResult(Pass, Found(ExactEnvironmentObserved), None)
    else CaseResult(Fail, Found(EnvironmentListFailed), None)
  }

  function TimedVerdict(timed: Timed, passed: Finding): (r: CaseResult)
    ensures r.Decided() && r.outcome == if Killed(timed) then Pass else Fail
  {
    if !timed.ready then CaseResult(Fail, Found(PreResumeInvariantFailed), None)
    else if timed.early then CaseResult(Fail, Found(LongChildExitedEarly), None)
    else if !timed.terminated then CaseResult(Fail, Found(TerminateJobFailed), Some(timed.systemError))
    else CaseResult(if timed.exited then Pass else Fail,
                    Found(if timed.stillExited then passed else JobTerminationTimeout), None)
  }

  /** The verdict on the reparse worker, before its fixture is removed. */
  function ReparseVerdict(seen: Reparse): (r: CaseResult)
    ensures r.Decided()
    ensures r.outcome == Pass <==>
              && seen.finalPathMatches && seen.ready && seen.exitCode == Some(REPARSE_BLOCKED)
              && seen.pathStable && seen.noReparseRemains
  {
    if !seen.pathStable || !seen.noReparseRemains then CaseResult(Fail, Found(ReparseVerificationFailed), None)
    else if !seen.finalPathMatches then CaseResult(Fail, Found(ReparseInitialFinalPathMismatch), None)
    else if !seen.ready then CaseResult(Fail, Found(ReparseWorkerPreResumeInvariantFailed), None)
    else if seen.exitCode.None? then CaseResult(Fail, Found(ReparseWorkerTimeout), None)
    else if seen.exitCode.value == REPARSE_BLOCKED then CaseResult(Pass, Found(ReparseRenameBlocked), None)
    else if seen.exitCode.value == REPARSE_SUCCEEDED then
      CaseResult(Fail, Found(ReparseReplacementUnexpectedlySucceeded), None)
    else if seen.exitCode.value == REPARSE_NOT_SUPPORTED then
      CaseResult(NotTested, Found(ReparseOperationNotSupported), None)
    else CaseResult(NotTested, Found(ReparseOperationNotTested), None)
  }

  /** Why a restricted child is not acceptable, in the source's order. */
  function RestrictedFault(r: Restricted): (fault: Option<Finding>)
    ensures fault.None? <==> Acceptable(r)
  {
    if !r.token.nonElevated || r.token.elevationType == 2 then Some(RestrictedChildElevated)
    else if r.token.adminEnabled || !r.token.adminDenyOnly then Some(RestrictedAdminGroupStateInvalid)
    else if r.token.linked then Some(RestrictedChildLinkedTokenPresent)
    else if r.token.dangerous != 0 then Some(RestrictedDangerousPrivilegeEnabled)
    else if !r.inJob then Some(RestrictedChildNotInJob)
    else if !r.mitigated then Some(RestrictedImageMitigationMissing)
    else None
  }

  // ----- the verdicts are borne out -----

  lemma HeldOffHolds(n: nat, f: Facts)
    requires 4 <= n <= 8
    ensures IdHolds(n, f) <==> HeldOff(RaceOf(n, f.races))
  {}

  lemma MutationJust(n: nat, race: RaceResult, blocked: Finding, f: Facts)
    requires 4 <= n <= 8 && race == RaceOf(n, f.races) && (HeldOff(race) ==> RaceSays(n, blocked, f.races))
    ensures Mutation(race, blocked) in Just(Id(n), f)
  {
    hide Just, IdHolds;
    HeldOffHolds(n, f);
    OfRaces(f);
    var r := Mutation(race, blocked);
    assert RaceSays(n, r.code.finding, f.races) by {
      hide RaceOf;
    }
  }

  lemma ReparseJust(f: Facts)
    requires f.reparse.removed
    ensures ReparseVerdict(f.reparse) in Just(Id(10), f)
  {
    hide Just;
    OfReparse(f);
  }

  lemma TimeoutJust(f: Facts)
    ensures TimedVerdict(f.timeout, TimeoutTerminatedJob) in Just(Job(4), f)
  {
    hide Just;
    OfTimed(f);
  }

  lemma CancelJust(f: Facts)
    ensures TimedVerdict(f.cancel, ExplicitCancelTerminatedJob) in Just(Job(5), f)
  {
    hide Just;
    OfTimed(f);
  }

  lemma EnvironmentJust(f: Facts, exited: bool, exitCode: bv32)
    requires exited == f.environment.exitCode.Some? && (exited ==> exitCode == f.environment.exitCode.value)
    ensures EnvironmentVerdict(f.environment.ready, exited, exitCode & !0x1fff != 0, exitCode == 0) in Just(Env(1), f)
  {
    hide Just;
    OfEnvironment(f);
    NoForeignBitInZero(exitCode);
  }

  lemma InitialJust(f: Facts)
    ensures InitialVerdict(f.modules.pathMatches, f.modules.identityMatches, f.modules.initial, f.modules.initialError)
              in Just(Img(3), f)
  {
    hide Just;
    OfModules(f);
  }

  lemma RuntimeJust(f: Facts)
    ensures RuntimeVerdict(f.modules.runtime, f.modules.runtimeError) in Just(Img(4), f)
  {
    hide Just;
    OfModules(f);
  }

  lemma RejectionJust(f: Facts)
    ensures RejectionVerdict(f.modules.initial, f.modules.runtime) in Just(Img(5), f)
  {
    hide Just;
    OfModules(f);
  }

  lemma FaultJust(f: Facts)
    requires RestrictedFault(f.restricted).Some?
    ensures CaseResult(Fail, Found(RestrictedFault(f.restricted).value), None) in Just(Tok(4), f)
    ensures CaseResult(Fail, Found(RestrictedFault(f.restricted).value), None) in Just(Tok(5), f)
  {
    hide Just;
    OfRestricted(f);
  }

  lemma NoForeignBitInZero(exitCode: bv32)
    ensures exitCode == 0 ==> exitCode & !0x1fff == 0
  {}

  /** Exit codes of `Run`. */
  const SECURITY_BLOCKER := 2
  const HARNESS_FAILURE := 1

  class Suite {
    const facts: Facts
    var cases: Ledger
    var adjacentMutationSucceeded: bool
    var fatalCode: Option<Code>
    var fatalSystemError: Option<int>
    var cleanupSucceeded: bool
    /** The number of writes to each case, and whether `Set` ever refused one. */
    ghost var writes: map<Case, nat>
    ghost var refused: bool

    ghost predicate Valid()
      reads this
    {
      && (forall c: Case :: c in cases <==> Mandatory(c))
      && WriteOnce(cases, writes)
      && AllJust(cases, facts)
      && (adjacentMutationSucceeded ==> facts.races.adjacent.succeeded)
    }

    /** The case table of the constructor; its option checks are not part of this model. */
    constructor (facts: Facts)
      ensures this.facts == facts
      ensures Valid() && !refused && fatalCode.None? && !cleanupSucceeded
      ensures forall c | c in cases :: cases[c] == UNREACHED
    {
      this.facts := facts;
      cases := map c: Case | c in ALL :: UNREACHED;
      adjacentMutationSucceeded := false;
      fatalCode, fatalSystemError, cleanupSucceeded := None, None, false;
      writes, refused := map c: Case | c in ALL :: 0, false;
      new;
      AllIsComplete();
      NothingToJustify(cases, facts);
    }

    /** `CaseResult.Set`. */
    method Write(id: Case, result: CaseResult)
      requires Valid() && id in cases && (cases[id].Reached() ==> id.Clean?) && result.Reached() && result in Just(id, facts)
      modifies `cases, `writes
      ensures Valid() && cases == old(cases)[id := result]
    {
      hide Just;
      cases, writes := cases[id := result], writes[id := writes[id] + 1];
    }

    method Set(id: Case, outcome: Verdict, code: Code, systemError: Option<int>) returns (flow: Flow)
      requires Valid() && !code.NotReached? && CaseResult(outcome, code, systemError) in Just(id, facts)
      modifies `cases, `writes, `refused
      ensures Valid()
      ensures flow == (if !Mandatory(id) then Controlled(Found(UnknownCaseId), None)
                       else if old(cases)[id].Reached() && !id.Clean? then Controlled(Found(CaseSetTwice), None)
                       else Fine)
      ensures refused == (old(refused) || !flow.Fine?)
      ensures cases == if flow.Fine? then old(cases)[id := CaseResult(outcome, code, systemError)] else old(cases)
    {
      hide Just;
      if id !in cases {
        refused := true;
        return Controlled(Found(UnknownCaseId), None);
      }
      if cases[id].Reached() && !id.Clean? {
        refused := true;
        return Controlled(Found(CaseSetTwice), None);
      }
      Write(id, CaseResult(outcome, code, systemError));
      return Fine;
    }

    method SetIfUnreached(id: Case, outcome: Verdict, code: Code)
      requires Valid() && Mandatory(id) && !code.NotReached? && CaseResult(outcome, code, None) in Just(id, facts)
      modifies `cases, `writes
      ensures Valid() && Keeps(old(cases), cases)
      ensures forall c | c in cases && c != id :: cases[c] == old(cases)[c]
      ensures cases[id] == if old(cases)[id].Reached() then old(cases)[id] else CaseResult(outcome, code, None)
    {
      hide Just;
      if !cases[id].Reached() {
        Write(id, CaseResult(outcome, code, None));
      }
    }

    method BlockUnreached(code: Code, systemError: Option<int>)
      requires Valid() && code.Unvisited?
      modifies `cases, `writes
      ensures Valid()
      ensures forall c | c in cases :: cases[c] == Filled(old(cases)[c], code, systemError)
      ensures Keeps(old(cases), cases) && AllReached(cases)
    {
      ghost var before := cases;
      AllIsComplete();
      for index := 0 to |ALL|
        invariant Valid() && FilledUpTo(before, cases, ALL[..index], code, systemError)
      {
        FilledStep(before, cases, index, code, systemError);
        BlockIfUnreached(ALL[index], code, systemError);
      }
      AllFilled(before, cases, code, systemError);
      FillingKeeps(before, cases, code, systemError);
    }

    method BlockIfUnreached(id: Case, code: Code, systemError: Option<int>)
      requires Valid() && Mandatory(id) && code.Unvisited?
      modifies `cases, `writes
      ensures Valid() && cases == old(cases)[id := Filled(old(cases)[id], code, systemError)]
    {
      hide Just;
      if !cases[id].Reached() {
        UnvisitedJust(id, CaseResult(Blocked, code, systemError), facts);
        Write(id, CaseResult(Blocked, code, systemError));
      }
    }

    /** `Set` where the ledger still has nothing: it cannot throw. */
    method Report(id: Case, outcome: Verdict, finding: Finding, systemError: Option<int>) returns (flow: Flow)
      requires Valid() && Mandatory(id) && !cases[id].Reached()
      requires CaseResult(outcome, Found(finding), systemError) in Just(id, facts)
      modifies `cases, `writes, `refused
      ensures Valid() && refused == old(refused) && flow.Fine?
      ensures cases == old(cases)[id := CaseResult(outcome, Found(finding), systemError)]
    {
      hide Just;
      flow := Set(id, outcome, Found(finding), systemError);
    }

    /** `Set(id, "Fail", code, null); throw new ControlledException(code, null);` */
    method Reject(id: Case, finding: Finding) returns (flow: Flow)
      requires Valid() && Mandatory(id) && !cases[id].Reached() && CaseResult(Fail, Found(finding), None) in Just(id, facts)
      modifies `cases, `writes, `refused
      ensures Valid() && refused == old(refused) && flow == Controlled(Found(finding), None)
      ensures cases == old(cases)[id := CaseResult(Fail, Found(finding), None)]
    {
      hide Just;
      flow := Set(id, Fail, Found(finding), None);
      flow := Controlled(Found(finding), None);
    }

    // ----- RunIdentityAndRaceTests -----

    method VerifySource() returns (flow: Flow)
      requires Valid() && Untouched(cases, Ids(1, 1))
      modifies `cases, `writes, `refused
      ensures Valid() && refused == old(refused) && Steps(old(cases), cases, Ids(1, 1), flow.Fine?)
    {
      hide Valid, Just;
      flow := Attempt();
      if flow.Fine? {
        SourceJust(facts);
        var digestMatches := facts.copy.source == facts.copy.expected;
        if digestMatches {
          flow := Report(Id(1), Pass, HandleIdentityAndSha256Verified, None);
        } else {
          flow := Reject(Id(1), SourceDigestMismatch);
        }
      }
    }

    method CopyDestination() returns (flow: Flow)
      requires Valid() && Untouched(cases, Ids(2, 2))
      modifies `cases, `writes, `refused
      ensures Valid() && refused == old(refused) && Steps(old(cases), cases, Ids(2, 2), flow.Fine?)
    {
      hide Valid, Just;
      flow := Attempt();
      if flow.Fine? {
        var copyMatches := facts.copy.copied == facts.copy.sourceSize && facts.copy.written == facts.copy.expected;
        if copyMatches {
          flow := ReopenDestination();
        } else {
          CopyJust(facts);
          flow := Reject(Id(2), CopyIdentityMismatch);
        }
      }
    }

    method ReopenDestination() returns (flow: Flow)
      requires Valid() && Untouched(cases, Ids(2, 2))
      requires facts.copy.copied == facts.copy.sourceSize && facts.copy.written == facts.copy.expected
      modifies `cases, `writes, `refused
      ensures Valid() && refused == old(refused) && Steps(old(cases), cases, Ids(2, 2), flow.Fine?)
    {
      hide Valid, Just;
      flow := Attempt();
      if flow.Fine? {
        ReopenJust(facts);
        var reopenMatches := facts.copy.sameObject && facts.copy.reopened == facts.copy.expected;
        if reopenMatches {
          flow := Report(Id(2), Pass, CreateNewCopyFlushReopenVerified, None);
        } else {
          flow := Reject(Id(2), DestinationReopenMismatch);
        }
      }
    }

    /** The digest-mismatch control, then the lock and listing of the execution directory. */
    method RefuseMismatch() returns (flow: Flow)
      requires Valid() && Untouched(cases, Ids(3, 3))
      modifies `cases, `writes, `refused
      ensures Valid() && refused == old(refused) && Steps(old(cases), cases, Ids(3, 3), flow.Fine?)
    {
      hide Valid, Just;
      flow := Attempt();
      if flow.Fine? {
        MismatchJust(facts);
        var rejected := facts.copy.mismatch != facts.copy.expected;
        flow := Report(Id(3), if rejected then Pass else Fail,
                       if rejected then ActualDigestMismatchRejected else MismatchFalselyAccepted, None);
        flow := Attempt();
      }
    }

    method SetMutationCase(n: nat, race: RaceResult, blocked: Finding) returns (flow: Flow)
      requires Valid() && 4 <= n <= 8 && Untouched(cases, Ids(n, n))
      requires race == RaceOf(n, facts.races) && (HeldOff(race) ==> RaceSays(n, blocked, facts.races))
      modifies `cases, `writes, `refused
      ensures Valid() && refused == old(refused) && flow.Fine? && Steps(old(cases), cases, Ids(n, n), true)
      ensures cases[Id(n)] == Mutation(race, blocked)
    {
      hide Valid, Just;
      MutationJust(n, race, blocked, facts);
      flow := Record(Id(n), Mutation(race, blocked));
    }

    /** `InvokeRace` and `SetMutationCase`. */
    method Race(n: nat, race: RaceResult, blocked: Finding) returns (flow: Flow)
      requires Valid() && 4 <= n <= 8 && Untouched(cases, Ids(n, n))
      requires race == RaceOf(n, facts.races) && (HeldOff(race) ==> RaceSays(n, blocked, facts.races))
      modifies `cases, `writes, `refused
      ensures Valid() && refused == old(refused) && Steps(old(cases), cases, Ids(n, n), flow.Fine?)
    {
      hide Valid, Just;
      flow := Attempt();
      if flow.Fine? {
        flow := SetMutationCase(n, race, blocked);
      }
    }

    method FileRaces() returns (flow: Flow)
      requires Valid() && Untouched(cases, Ids(4, 5))
      modifies `cases, `writes, `refused
      ensures Valid() && refused == old(refused) && Steps(old(cases), cases, Ids(4, 5), flow.Fine?)
    {
      hide Valid, Just;
      flow := Race(4, facts.races.write, WriteBlocked);
      if flow.Fine? {
        flow := Race(5, facts.races.replace, ReplaceBlocked);
      }
    }

    method DeleteAndRenameRaces() returns (flow: Flow)
      requires Valid() && Untouched(cases, Ids(6, 8))
      modifies `cases, `writes, `refused
      ensures Valid() && refused == old(refused) && Steps(old(cases), cases, Ids(6, 8), flow.Fine?)
    {
      hide Valid, Just;
      flow := Race(6, facts.races.delete, DeleteBlocked);
      if flow.Fine? {
        flow := RenameRaces();
      }
    }

    method RenameRaces() returns (flow: Flow)
      requires Valid() && Untouched(cases, Ids(7, 8))
      modifies `cases, `writes, `refused
      ensures Valid() && refused == old(refused) && Steps(old(cases), cases, Ids(7, 8), flow.Fine?)
    {
      hide Valid, Just;
      flow := Race(7, facts.races.rename, FileRenameBlocked);
      if flow.Fine? {
        flow := Race(8, facts.races.directoryRename, DirectoryRenameBlocked);
      }
    }

    method SetAdjacent() returns (flow: Flow)
      requires Valid() && Untouched(cases, Ids(9, 9))
      modifies `cases, `writes, `refused, `adjacentMutationSucceeded
      ensures Valid() && refused == old(refused) && Steps(old(cases), cases, Ids(9, 9), flow.Fine?)
      ensures flow.Fine? ==> (adjacentMutationSucceeded <==> cases[Id(9)].outcome == Fail)
    {
      hide AllJust, WriteOnce, Just;
      flow := Attempt();
      if flow.Fine? {
        var adjacent := facts.races.adjacent;
        adjacentMutationSucceeded := adjacent.succeeded;
        AdjacentJust(facts);
        if adjacent.succeeded {
          flow := Report(Id(9), Fail, MutationSucceeded, None);
        } else {
          flow := Report(Id(9), Pass, AdjacentCreateBlocked, Some(adjacent.error));
        }
      }
    }

    /** The worker of the reparse test, as far as its verdict: every exception is caught here. */
    method ObserveReparse() returns (r: CaseResult)
      ensures r.Decided() && r in Just(Id(10), facts)
      ensures !facts.reparse.removed ==> r.outcome == Fail
    {
      hide Just;
      ReparseFailureJust(facts, None);
      var flow := Attempt();
      match flow {
        case Fine =>
          r := ReparseVerdict(facts.reparse);
        case Controlled(code, systemError) =>
          r := CaseResult(NotTested, code, systemError);
          ExceptionIsJust(Id(10), r, facts);
        case Uncontrolled =>
          r := CaseResult(NotTested, Found(ReparseWorkerUncontrolledFailure), None);
      }
      if !facts.reparse.removed {
        r := CaseResult(Fail, Found(ReparseFixtureCleanupFailed), r.systemError);
        ReparseFailureJust(facts, r.systemError);
      } else if flow.Fine? {
        ReparseJust(facts);
      }
    }

    /** `Set` with a result that was worked out before. */
    method Record(id: Case, r: CaseResult) returns (flow: Flow)
      requires Valid() && Mandatory(id) && !cases[id].Reached() && r.Decided() && r in Just(id, facts)
      modifies `cases, `writes, `refused
      ensures Valid() && refused == old(refused) && flow.Fine? && cases == old(cases)[id := r]
    {
      hide Just;
      flow := Set(id, r.outcome, r.code, r.systemError);
    }

    method RunReparseReplacementTest() returns (flow: Flow)
      requires Valid() && Untouched(cases, Ids(10, 10))
      modifies `cases, `writes, `refused
      ensures Valid() && refused == old(refused) && flow.Fine? && Steps(old(cases), cases, Ids(10, 10), true)
    {
      hide Valid, Just;
      var r := ObserveReparse();
      flow := Record(Id(10), r);
    }

    method ControlAfterRelease() returns (flow: Flow)
      requires Valid() && Untouched(cases, Ids(11, 11))
      modifies `cases, `writes, `refused
      ensures Valid() && refused == old(refused) && Steps(old(cases), cases, Ids(11, 11), flow.Fine?)
    {
      hide Valid, Just;
      flow := Attempt();
      if flow.Fine? {
        ControlJust(facts);
        var control := facts.races.control;
        if control.succeeded {
          flow := Report(Id(11), Pass, PostReleaseMutationSucceeded, None);
        } else {
          flow := Report(Id(11), Fail, PostReleaseControlFailed, Some(control.error));
        }
      }
    }

    method VerifyCopies() returns (flow: Flow)
      requires Valid() && Untouched(cases, Ids(1, 3))
      modifies `cases, `writes, `refused
      ensures Valid() && refused == old(refused) && Steps(old(cases), cases, Ids(1, 3), flow.Fine?)
    {
      hide Valid, Just;
      IdsSplit(1, 1, 3);
      flow := VerifySource();
      if flow.Fine? {
        ghost var verified := cases;
        Apart(old(cases), verified, Ids(1, 1), Ids(2, 3));
        flow := CopyAndRefuse();
        Compose(old(cases), verified, cases, Ids(1, 1), Ids(1, 1), Ids(2, 3), Ids(2, 3), flow.Fine?);
      }
    }

    method CopyAndRefuse() returns (flow: Flow)
      requires Valid() && Untouched(cases, Ids(2, 3))
      modifies `cases, `writes, `refused
      ensures Valid() && refused == old(refused) && Steps(old(cases), cases, Ids(2, 3), flow.Fine?)
    {
      hide Valid, Just;
      flow := CopyDestination();
      if flow.Fine? {
        flow := RefuseMismatch();
      }
    }

    method RunLockRaces() returns (flow: Flow)
      requires Valid() && Untouched(cases, Ids(4, 8))
      modifies `cases, `writes, `refused
      ensures Valid() && refused == old(refused)
      ensures Steps(old(cases), cases, Ids(4, 8), flow.Fine?)
    {
      hide Valid, Just;
      flow := FileRaces();
      if flow.Fine? {
        flow := DeleteAndRenameRaces();
      }
    }

    method ReparseAndControl() returns (flow: Flow)
      requires Valid() && Untouched(cases, Ids(10, 11))
      modifies `cases, `writes, `refused
      ensures Valid() && refused == old(refused) && Steps(old(cases), cases, Ids(10, 11), flow.Fine?)
    {
      hide Valid, Just;
      flow := RunReparseReplacementTest();
      flow := ControlAfterRelease();
    }

    method RunLastRaces() returns (flow: Flow)
      requires Valid() && Untouched(cases, Ids(9, 11))
      modifies `cases, `writes, `refused, `adjacentMutationSucceeded
      ensures Valid() && refused == old(refused) && Steps(old(cases), cases, Ids(9, 11), flow.Fine?)
    {
      hide Valid, Just;
      flow := SetAdjacent();
      if flow.Fine? {
        flow := ReparseAndControl();
      }
    }

    method RunAllRaces() returns (flow: Flow)
      requires Valid() && Untouched(cases, Ids(4, 11))
      modifies `cases, `writes, `refused, `adjacentMutationSucceeded
      ensures Valid() && refused == old(refused) && Steps(old(cases), cases, Ids(4, 11), flow.Fine?)
    {
      hide Valid, Just;
      flow := RunLockRaces();
      if flow.Fine? {
        flow := RunLastRaces();
      }
    }

    method RunIdentityAndRaceTests() returns (flow: Flow)
      requires Valid() && Untouched(cases, Ids(1, 11))
      modifies `cases, `writes, `refused, `adjacentMutationSucceeded
      ensures Valid() && refused == old(refused) && Steps(old(cases), cases, Ids(1, 11), flow.Fine?)
    {
      hide Valid, Just;
      flow := VerifyCopies();
      if flow.Fine? {
        flow := RunAllRaces();
      }
    }

    // ----- RunPeAndTokenTests -----

    method SetImports() returns (flow: Flow)
      requires Valid() && Untouched(cases, Imgs(1, 1))
      modifies `cases, `writes, `refused
      ensures Valid() && refused == old(refused) && Steps(old(cases), cases, Imgs(1, 1), flow.Fine?)
    {
      hide Valid, Just;
      flow := Attempt();
      if flow.Fine? {
        ImportsJust(facts);
        var complete := facts.imports != 0 && facts.highestAvailable;
        flow := Report(Img(1), if complete then Pass else Fail,
                       if complete then PeImportsAndManifestObserved else PeInventoryIncomplete, None);
      }
    }

    method RecordTok(n: nat, r: CaseResult) returns (flow: Flow)
      requires Valid() && 1 <= n <= 5 && Untouched(cases, Toks(n, n)) && r.Decided() && r in Just(Tok(n), facts)
      modifies `cases, `writes, `refused
      ensures Valid() && refused == old(refused) && flow.Fine? && Steps(old(cases), cases, Toks(n, n), true)
    {
      hide Valid, Just;
      flow := Record(Tok(n), r);
    }

    method RecordJob(n: nat, r: CaseResult) returns (flow: Flow)
      requires Valid() && 1 <= n <= 10 && Untouched(cases, Jobs(n, n)) && r.Decided() && r in Just(Job(n), facts)
      modifies `cases, `writes, `refused
      ensures Valid() && refused == old(refused) && flow.Fine? && Steps(old(cases), cases, Jobs(n, n), true)
      ensures cases[Job(n)] == r
    {
      hide Valid, Just;
      flow := Record(Job(n), r);
    }

    method SetTokens() returns (flow: Flow)
      requires Valid() && Untouched(cases, Toks(1, 3))
      modifies `cases, `writes, `refused
      ensures Valid() && refused == old(refused) && Steps(old(cases), cases, Toks(1, 3), flow.Fine?)
    {
      hide Valid, Just;
      flow := Attempt();
      if flow.Fine? {
        FixedTokensJust(facts);
        DefaultTokenJust(facts);
        var filteredAdmin := facts.token.elevationType == 3 && facts.token.linked;
        var standard := facts.token.nonElevated && !facts.token.linked;
        var r := if filteredAdmin then CaseResult(Pass, Found(DefaultRejectedFilteredAdmin), None)
                 else if standard then CaseResult(Pass, Found(DefaultCandidateStandardToken), None)
                 else CaseResult(Fail, Found(DefaultTokenNotAcceptable), None);
        flow := RecordTok(1, CaseResult(Pass, Found(TokenClassifiedWithoutIdentity), None));
        flow := RecordTok(2, r);
        flow := RecordTok(3, CaseResult(NotTested, Found(ComparisonWithheldAfterSecurityBlocker), None));
      }
    }

    method RunPeAndTokenTests() returns (flow: Flow)
      requires Valid() && Untouched(cases, Imgs(1, 1) + Toks(1, 3))
      modifies `cases, `writes, `refused
      ensures Valid() && refused == old(refused)
      ensures Steps(old(cases), cases, Imgs(1, 1) + Toks(1, 3), flow.Fine?)
    {
      hide Valid, Just;
      flow := SetImports();
      if flow.Fine? {
        flow := SetTokens();
      }
    }

    // ----- RunJobAndProcessTests -----

    method AssignFirstChild() returns (flow: Flow)
      requires Valid() && Untouched(cases, Jobs(1, 2))
      modifies `cases, `writes, `refused
      ensures Valid() && refused == old(refused) && Steps(old(cases), cases, Jobs(1, 2), flow.Fine?)
    {
      hide Valid, Just;
      flow := Attempt();
      if flow.Fine? {
        var outer := facts.first.outerJob;
        AssignmentJust(facts);
        if facts.first.inJob {
          flow := RecordJob(1, CaseResult(Pass, Found(JobListAssignedDuringCreation), None));
          flow := RecordJob(2, CaseResult(Pass, Found(if outer then OuterJobNestedAssignment else NoOuterJobAssignment), None));
        } else {
          flow := Reject(Job(1), ChildNotInJob);
        }
      }
    }

    method CheckMitigation() returns (flow: Flow)
      requires Valid() && Untouched(cases, Imgs(2, 2))
      modifies `cases, `writes, `refused
      ensures Valid() && refused == old(refused) && Steps(old(cases), cases, Imgs(2, 2), flow.Fine?)
    {
      hide Valid, Just;
      flow := Attempt();
      if flow.Fine? {
        MitigationJust(facts);
        if facts.first.mitigated {
          flow := Report(Img(2), Pass, ImageLoadPolicyVerified, None);
        } else {
          flow := Reject(Img(2), ImageLoadPolicyMissing);
        }
      }
    }

    /** Writes TL-IMG-003 or TL-TOK-005 only on the way out; both are written again by later phases. */
    method CheckImageAndToken() returns (flow: Flow)
      requires Valid() && Untouched(cases, Imgs(3, 3)) && Untouched(cases, Toks(5, 5))
      modifies `cases, `writes, `refused
      ensures Valid() && refused == old(refused) && Leaves(old(cases), cases, iset{}, iset{}, flow.Fine?)
    {
      hide Valid, Just;
      flow := Attempt();
      if flow.Fine? {
        ExitsJust(facts);
        if !facts.first.imageMatches {
          flow := Reject(Img(3), MainImagePathMismatch);
        } else {
          flow := Attempt();
          if flow.Fine? && !facts.first.nonElevated {
            flow := Reject(Tok(5), SyntheticChildTokenElevated);
          }
        }
      }
    }

    method ResumeFirstChild() returns (flow: Flow)
      requires Valid() && Untouched(cases, Jobs(3, 3))
      modifies `cases, `writes, `refused
      ensures Valid() && refused == old(refused) && Steps(old(cases), cases, Jobs(3, 3), flow.Fine?)
    {
      hide Valid, Just;
      flow := Attempt();
      if flow.Fine? {
        NormalExitJust(facts);
        var exited := facts.first.exitCode == Some(0);
        flow := Report(Job(3), if exited then Pass else Fail,
                       if exited then NormalExitInJob else NormalChildDidNotExit, None);
      }
    }

    method InspectFirstChild() returns (flow: Flow)
      requires Valid() && Untouched(cases, Imgs(2, 3)) && Untouched(cases, Toks(5, 5))
      modifies `cases, `writes, `refused
      ensures Valid() && refused == old(refused) && Leaves(old(cases), cases, Imgs(2, 2), Imgs(2, 2), flow.Fine?)
    {
      hide Valid, Just;
      flow := CheckMitigation();
      if flow.Fine? {
        flow := CheckImageAndToken();
      }
    }

    method StartFirstChild() returns (flow: Flow)
      requires Valid() && Untouched(cases, Jobs(1, 2)) && Untouched(cases, Imgs(2, 3)) && Untouched(cases, Toks(5, 5))
      modifies `cases, `writes, `refused
      ensures Valid() && refused == old(refused)
      ensures Leaves(old(cases), cases, FirstJobs(2), FirstJobs(2), flow.Fine?)
    {
      hide Valid, Just;
      flow := AssignFirstChild();
      if flow.Fine? {
        flow := InspectFirstChild();
      }
    }

    method RunFirstChild() returns (flow: Flow)
      requires Valid() && Untouched(cases, Jobs(1, 3)) && Untouched(cases, Imgs(2, 3)) && Untouched(cases, Toks(5, 5))
      modifies `cases, `writes, `refused
      ensures Valid() && refused == old(refused)
      ensures Leaves(old(cases), cases, FirstJobs(3), FirstJobs(3), flow.Fine?)
    {
      hide Valid, Just;
      FirstJobsSplit(2);
      flow := StartFirstChild();
      if flow.Fine? {
        ghost var started := cases;
        Apart(old(cases), started, FirstJobs(2), Jobs(3, 3));
        flow := ResumeFirstChild();
        ComposeLeaving(old(cases), started, cases, FirstJobs(2), FirstJobs(2), Jobs(3, 3), Jobs(3, 3), flow.Fine?);
      }
    }

    method RunTimedJobCase(n: nat, timed: Timed, passed: Finding) returns (flow: Flow)
      requires Valid() && 4 <= n <= 5 && Untouched(cases, Jobs(n, n))
      requires TimedVerdict(timed, passed) in Just(Job(n), facts)
      modifies `cases, `writes, `refused
      ensures Valid() && refused == old(refused) && Steps(old(cases), cases, Jobs(n, n), flow.Fine?)
    {
      hide Valid, Just;
      flow := Attempt();
      if flow.Fine? {
        flow := Record(Job(n), TimedVerdict(timed, passed));
      }
    }

    /** An early return leaves TL-JOB-007 and TL-JOB-010 unreached. */
    method RunTreeKillOnClose() returns (flow: Flow)
      requires Valid() && Untouched(cases, TreeCases())
      modifies `cases, `writes, `refused
      ensures Valid() && refused == old(refused)
      ensures Runs(old(cases), cases, TreeCases(), Jobs(6, 6), flow.Fine?)
      ensures flow.Fine? ==> TreeLinked(cases)
    {
      hide Valid, Just;
      flow := Attempt();
      if flow.Fine? {
        TreeJust(facts);
        if !facts.tree.parentInJob {
          flow := Report(Job(6), Fail, ParentNotInJob, None);
        } else if facts.tree.members != 2 {
          flow := Report(Job(6), Fail, DescendantNotObservedInJob, None);
        } else if !facts.tree.allMembers {
          flow := Report(Job(6), Fail, DescendantMembershipFailed, None);
        } else {
          flow := CloseTree();
        }
      }
    }

    method CloseTree() returns (flow: Flow)
      requires Valid() && Untouched(cases, TreeCases()) && TreeSeen(facts.tree)
      modifies `cases, `writes, `refused
      ensures Valid() && refused == old(refused)
      ensures Steps(old(cases), cases, TreeCases(), flow.Fine?)
      ensures flow.Fine? ==> TreeLinked(cases)
    {
      hide Valid, Just;
      TreeJust(facts);
      flow := RecordJob(6, CaseResult(Pass, Found(ParentAndChildInSameJob), None));
      flow := Attempt();
      if flow.Fine? {
        flow := WaitForTree();
      }
    }

    method WaitForTree() returns (flow: Flow)
      requires Valid() && Untouched(cases, TreeEnd())
      requires cases[Job(6)].Decided() && cases[Job(6)].outcome == Pass && TreeSeen(facts.tree)
      modifies `cases, `writes, `refused
      ensures Valid() && refused == old(refused) && flow.Fine?
      ensures Steps(old(cases), cases, TreeEnd(), true) && TreeLinked(cases)
    {
      hide AllJust, WriteOnce, Just;
      TreeEndSplit();
      KillJust(facts);
      OrphanJust(facts);
      var allExited := facts.tree.allExited;
      flow := RecordJob(7, if allExited then CaseResult(Pass, Found(KillOnCloseTerminatedTree), None)
                           else CaseResult(Fail, Found(TreeSurvivedJobClose), None));
      ghost var closed := cases;
      Apart(old(cases), closed, Jobs(7, 7), Jobs(10, 10));
      flow := RecordJob(10, if allExited then CaseResult(Pass, Found(NoSurvivingJobMembers), None)
                            else CaseResult(Fail, Found(OrphanDescendant), None));
      Compose(old(cases), closed, cases, Jobs(7, 7), Jobs(7, 7), Jobs(10, 10), Jobs(10, 10), true);
    }

    method RunActiveLimit() returns (flow: Flow)
      requires Valid() && Untouched(cases, Jobs(8, 8))
      modifies `cases, `writes, `refused
      ensures Valid() && refused == old(refused) && Steps(old(cases), cases, Jobs(8, 8), flow.Fine?)
    {
      hide Valid, Just;
      flow := Attempt();
      if flow.Fine? {
        LimitJust(facts);
        var enforced := facts.limitExitCode == Some(ACTIVE_LIMIT_DENIED) && facts.limitMembers <= 1;
        flow := Report(Job(8), if enforced then Pass else Fail,
                       if enforced then ActiveProcessLimitEnforced else ActiveProcessLimitFailed, None);
      }
    }

    method RunAssignmentFailureGuard() returns (flow: Flow)
      requires Valid() && Untouched(cases, Jobs(9, 9))
      modifies `cases, `writes, `refused
      ensures Valid() && refused == old(refused) && Steps(old(cases), cases, Jobs(9, 9), flow.Fine?)
    {
      hide Valid, Just;
      flow := Attempt();
      if flow.Fine? {
        GuardJust(facts);
        var r := if facts.guardInJob then CaseResult(Fail, Found(UnexpectedJobMembership), None)
                 else if facts.guardExited then CaseResult(Pass, Found(UnassignedSuspendedChildRejected), None)
                 else CaseResult(Fail, Found(UnassignedChildSurvived), None);
        flow := Record(Job(9), r);
      }
    }

    /** The case may be decided and the handle flag still not restored: then the `finally` throws. */
    method RunHandleLeakTest() returns (flow: Flow)
      requires Valid() && Untouched(cases, Hnds())
      modifies `cases, `writes, `refused
      ensures Valid() && refused == old(refused) && Steps(old(cases), cases, Hnds(), flow.Fine?)
      ensures cases == old(cases) || cases[Hnd(1)].Decided()
    {
      hide Valid, Just;
      HandleJust(facts);
      if !facts.sentinelSet {
        flow := Report(Hnd(1), Blocked, SentinelInheritFlagFailed, Some(facts.sentinelError));
      } else {
        flow := Attempt();
        if flow.Fine? {
          var noLeak := facts.leakExitCode == Some(0);
          flow := Report(Hnd(1), if noLeak then Pass else Fail,
                         if noLeak then UnlistedSentinelNotInherited else InheritedHandleLeak, None);
        }
        var restored := Attempt();
        flow := if restored.Fine? then flow else restored;
      }
    }

    /** The environment report, as far as its verdict; a `ControlledException` is a verdict too. */
    method ObserveEnvironment() returns (flow: Flow, r: CaseResult)
      ensures !flow.Controlled? && (flow.Fine? ==> r.Decided() && r in Just(Env(1), facts))
    {
      flow := Attempt();
      var exited := facts.environment.exitCode.Some?;
      var exitCode := if exited then facts.environment.exitCode.value else 0;
      EnvironmentJust(facts, exited, exitCode);
      r := EnvironmentVerdict(facts.environment.ready, exited, exitCode & !0x1fff != 0, exitCode == 0);
      if flow.Controlled? {
        r := CaseResult(NotTested, flow.code, flow.systemError);
        flow := Fine;
      }
    }

    method RunEnvironmentObservation() returns (flow: Flow)
      requires Valid() && Untouched(cases, Envs())
      modifies `cases, `writes, `refused
      ensures Valid() && refused == old(refused) && Steps(old(cases), cases, Envs(), flow.Fine?)
      ensures !flow.Controlled? && (!flow.Fine? ==> cases == old(cases))
    {
      hide Valid, Just;
      var r;
      flow, r := ObserveEnvironment();
      if flow.Fine? {
        flow := Record(Env(1), r);
      }
    }

    /** The three verdicts of the module observation; a `ControlledException` decides all of them. */
    method ObserveModules() returns (flow: Flow, initial: CaseResult, runtime: CaseResult, rejection: CaseResult)
      ensures flow.Fine? ==> initial.Decided() && runtime.Decided() && rejection.Decided()
      ensures flow.Fine? ==> initial in Just(Img(3), facts) && runtime in Just(Img(4), facts) && rejection in Just(Img(5), facts)
    {
      flow := Attempt();
      if flow.Controlled? {
        initial := CaseResult(NotTested, flow.code, flow.systemError);
        runtime, rejection, flow := initial, initial, Fine;
      } else {
        var seen := facts.modules;
        InitialJust(facts);
        RuntimeJust(facts);
        RejectionJust(facts);
        initial := InitialVerdict(seen.pathMatches, seen.identityMatches, seen.initial, seen.initialError);
        runtime := RuntimeVerdict(seen.runtime, seen.runtimeError);
        rejection := RejectionVerdict(seen.initial, seen.runtime);
      }
    }

    method RecordImg(n: nat, r: CaseResult) returns (flow: Flow)
      requires Valid() && 1 <= n <= 5 && Untouched(cases, Imgs(n, n)) && r.Decided() && r in Just(Img(n), facts)
      modifies `cases, `writes, `refused
      ensures Valid() && refused == old(refused) && flow.Fine? && Steps(old(cases), cases, Imgs(n, n), true)
    {
      hide Valid, Just;
      flow := Record(Img(n), r);
    }

    method RecordLaterModules(runtime: CaseResult, rejection: CaseResult) returns (flow: Flow)
      requires Valid() && Untouched(cases, Imgs(4, 5)) && runtime.Decided() && rejection.Decided()
      requires runtime in Just(Img(4), facts) && rejection in Just(Img(5), facts)
      modifies `cases, `writes, `refused
      ensures Valid() && refused == old(refused) && flow.Fine? && Steps(old(cases), cases, Imgs(4, 5), true)
    {
      hide Valid, Just;
      flow := RecordImg(4, runtime);
      flow := RecordImg(5, rejection);
    }

    method RunModuleObservation() returns (flow: Flow)
      requires Valid() && Untouched(cases, Imgs(3, 5))
      modifies `cases, `writes, `refused
      ensures Valid() && refused == old(refused) && Steps(old(cases), cases, Imgs(3, 5), flow.Fine?)
    {
      hide Valid, Just;
      var initial, runtime, rejection;
      flow, initial, runtime, rejection := ObserveModules();
      if flow.Fine? {
        flow := RecordImg(3, initial);
        flow := RecordLaterModules(runtime, rejection);
      }
    }

    method RunTimedJobCases() returns (flow: Flow)
      requires Valid() && Untouched(cases, Jobs(4, 5))
      modifies `cases, `writes, `refused
      ensures Valid() && refused == old(refused) && Steps(old(cases), cases, Jobs(4, 5), flow.Fine?)
    {
      hide Valid, Just;
      TimeoutJust(facts);
      CancelJust(facts);
      flow := RunTimedJobCase(4, facts.timeout, TimeoutTerminatedJob);
      if flow.Fine? {
        flow := RunTimedJobCase(5, facts.cancel, ExplicitCancelTerminatedJob);
      }
    }

    method RunFirstJobs() returns (flow: Flow)
      requires Valid() && Untouched(cases, Jobs(1, 5)) && Untouched(cases, Imgs(2, 3)) && Untouched(cases, Toks(5, 5))
      modifies `cases, `writes, `refused
      ensures Valid() && refused == old(refused)
      ensures Leaves(old(cases), cases, FirstJobs(5), FirstJobs(5), flow.Fine?)
    {
      hide Valid, Just;
      flow := RunFirstChild();
      if flow.Fine? {
        flow := RunTimedJobCases();
      }
    }

    method RunGuards() returns (flow: Flow)
      requires Valid() && Untouched(cases, Jobs(8, 9))
      modifies `cases, `writes, `refused
      ensures Valid() && refused == old(refused) && Steps(old(cases), cases, Jobs(8, 9), flow.Fine?)
    {
      hide Valid, Just;
      flow := RunActiveLimit();
      if flow.Fine? {
        flow := RunAssignmentFailureGuard();
      }
    }

    method RunLastJobs() returns (flow: Flow)
      requires Valid() && Untouched(cases, Jobs(6, 10))
      modifies `cases, `writes, `refused
      ensures Valid() && refused == old(refused)
      ensures Runs(old(cases), cases, Jobs(6, 10), LastJobsDecided(), flow.Fine?)
      ensures flow.Fine? ==> TreeLinked(cases)
    {
      hide Valid, Just;
      flow := RunTreeKillOnClose();
      if flow.Fine? {
        ghost var closed := cases;
        flow := RunGuards();
        if flow.Fine? {
          LinkStays(closed, cases, Jobs(8, 9));
        }
      }
    }

    method RunInheritance() returns (flow: Flow)
      requires Valid() && Untouched(cases, Inheritance())
      modifies `cases, `writes, `refused
      ensures Valid() && refused == old(refused) && Steps(old(cases), cases, Inheritance(), flow.Fine?)
    {
      hide Valid, Just;
      flow := RunHandleLeakTest();
      if flow.Fine? {
        flow := RunEnvironmentObservation();
      }
    }

    method RunObservations() returns (flow: Flow)
      requires Valid() && Untouched(cases, Observations())
      modifies `cases, `writes, `refused
      ensures Valid() && refused == old(refused)
      ensures Steps(old(cases), cases, Observations(), flow.Fine?)
    {
      hide Valid, Just;
      flow := RunInheritance();
      if flow.Fine? {
        flow := RunModuleObservation();
      }
    }

    method RunJobs() returns (flow: Flow)
      requires Valid() && Untouched(cases, Jobs(1, 10)) && Untouched(cases, Imgs(2, 3)) && Untouched(cases, Toks(5, 5))
      modifies `cases, `writes, `refused
      ensures Valid() && refused == old(refused)
      ensures Leaves(old(cases), cases, FirstJobs(10), FirstJobsDecided(), flow.Fine?)
      ensures flow.Fine? ==> TreeLinked(cases)
    {
      hide Valid, Just;
      flow := RunFirstJobs();
      if flow.Fine? {
        flow := RunLastJobs();
      }
    }

    method RunJobAndProcessTests() returns (flow: Flow)
      requires Valid() && Untouched(cases, JobPhase()) && Untouched(cases, Toks(5, 5))
      modifies `cases, `writes, `refused
      ensures Valid() && refused == old(refused)
      ensures Leaves(old(cases), cases, JobPhase(), JobPhaseDecided(), flow.Fine?)
      ensures flow.Fine? ==> TreeLinked(cases)
    {
      hide Valid, Just;
      JobPhaseIsBoth();
      flow := Attempt();
      if flow.Fine? {
        flow := RunJobs();
        if flow.Fine? {
          ghost var ran := cases;
          Apart(old(cases), ran, FirstJobs(10), Observations());
          flow := RunObservations();
          LinkStays(ran, cases, Observations());
          ComposeLeaving(old(cases), ran, cases, FirstJobs(10), FirstJobsDecided(), Observations(), Observations(), flow.Fine?);
        }
      }
    }

    // ----- RunRestrictedTokenTest -----

    /** The `try` block: nothing throws a `ControlledException` once the first case is set. */
    method TryRestrictedToken() returns (flow: Flow)
      requires Valid() && Untouched(cases, Toks(4, 5))
      modifies `cases, `writes, `refused
      ensures Valid() && refused == old(refused) && Steps(old(cases), cases, Toks(4, 5), flow.Fine?)
      ensures flow.Controlled? ==> flow.code.Raised? && cases == old(cases)
    {
      hide Valid, Just;
      flow := Attempt();
      if flow.Fine? {
        var fault := RestrictedFault(facts.restricted);
        if fault.Some? {
          FaultJust(facts);
          flow := RecordTok(4, CaseResult(Fail, Found(fault.value), None));
          flow := RecordTok(5, CaseResult(Fail, Found(fault.value), None));
        } else {
          flow := Attempt();
          if flow.Fine? {
            flow := ResumeRestricted();
          }
        }
      }
    }

    method ResumeRestricted() returns (flow: Flow)
      requires Valid() && Untouched(cases, Toks(4, 5)) && Acceptable(facts.restricted)
      modifies `cases, `writes, `refused
      ensures Valid() && refused == old(refused) && flow.Fine? && Steps(old(cases), cases, Toks(4, 5), true)
    {
      hide Valid, Just;
      RestrictedJust(facts);
      var exited := facts.restricted.exitCode == Some(0);
      flow := RecordTok(4, if exited then CaseResult(Pass, Found(RestrictedTokenCreatedChild), None)
                           else CaseResult(Fail, Found(RestrictedChildExitFailed), None));
      flow := RecordTok(5, if exited then CaseResult(Pass, Found(NonElevatedChildVerified), None)
                           else CaseResult(Fail, Found(ChildTokenTestFailed), None));
    }

    method RunRestrictedTokenTest() returns (flow: Flow)
      requires Valid() && Untouched(cases, Toks(4, 5))
      modifies `cases, `writes, `refused
      ensures Valid() && refused == old(refused) && !flow.Controlled?
      ensures Steps(old(cases), cases, Toks(4, 5), flow.Fine?)
    {
      hide Valid, Just;
      flow := TryRestrictedToken();
      if flow.Controlled? {
        var caught := flow;
        ExceptionIsJust(Tok(4), CaseResult(Fail, caught.code, caught.systemError), facts);
        NotCreatedJust(facts, caught.systemError);
        flow := RecordTok(4, CaseResult(Fail, caught.code, caught.systemError));
        flow := RecordTok(5, CaseResult(Blocked, Found(RestrictedProcessNotCreated), caught.systemError));
      }
    }

    // ----- SetUnprovenCases and RunFalsePositiveTests -----

    method RecordVr(n: nat, r: CaseResult) returns (flow: Flow)
      requires Valid() && 1 <= n <= 4 && Untouched(cases, Vrs(n, n)) && r.Decided() && r in Just(Vr(n), facts)
      modifies `cases, `writes, `refused
      ensures Valid() && refused == old(refused) && flow.Fine? && Steps(old(cases), cases, Vrs(n, n), true)
      ensures cases[Vr(n)] == r
    {
      hide Valid, Just;
      flow := Record(Vr(n), r);
    }

    lemma AdjacentSucceeded()
      requires Valid()
      ensures adjacentMutationSucceeded ==> facts.races.adjacent.succeeded
    {
      hide AllJust, WriteOnce;
    }

    method SetPreconditions() returns (flow: Flow)
      requires Valid() && Untouched(cases, Vrs(1, 2))
      modifies `cases, `writes, `refused
      ensures Valid() && refused == old(refused) && flow.Fine? && Steps(old(cases), cases, Vrs(1, 2), true)
      ensures cases[Vr(1)].outcome == Fail
      ensures cases[Vr(1)].code == Found(AdjacentDllMutationSucceeded) <==> adjacentMutationSucceeded
    {
      hide Valid, Just;
      AdjacentSucceeded();
      FirstLaunchJust(facts, adjacentMutationSucceeded);
      LaunchJust(2, facts);
      flow := RecordVr(1, CaseResult(Fail, Found(if adjacentMutationSucceeded then AdjacentDllMutationSucceeded
                                                 else MandatoryImageBindingTestsNotComplete), None));
      flow := RecordVr(2, CaseResult(NotTested, Found(LaunchPreconditionsFailed), None));
    }

    method SetHelpAndSynthetic() returns (flow: Flow)
      requires Valid() && Untouched(cases, Vrs(3, 4))
      modifies `cases, `writes, `refused
      ensures Valid() && refused == old(refused) && flow.Fine? && Steps(old(cases), cases, Vrs(3, 4), true)
    {
      hide Valid, Just;
      LaunchJust(3, facts);
      LaunchJust(4, facts);
      flow := RecordVr(3, CaseResult(NotTested, Found(LaunchPreconditionsFailed), None));
      flow := RecordVr(4, CaseResult(NotTested, Found(LaunchPreconditionsFailed), None));
    }

    method SetLaunchCases() returns (flow: Flow)
      requires Valid() && Untouched(cases, Vrs(1, 4))
      modifies `cases, `writes, `refused
      ensures Valid() && refused == old(refused) && flow.Fine? && Steps(old(cases), cases, Vrs(1, 4), true)
      ensures cases[Vr(1)].outcome == Fail
      ensures cases[Vr(1)].code == Found(AdjacentDllMutationSucceeded) <==> adjacentMutationSucceeded
    {
      hide Valid, Just;
      flow := SetPreconditions();
      flow := SetHelpAndSynthetic();
    }

    method FillImg(n: nat, finding: Finding)
      requires Valid() && 4 <= n <= 5
      requires CaseResult(NotTested, Found(finding), None) in Just(Img(n), facts)
      modifies `cases, `writes
      ensures Valid() && Keeps(old(cases), cases) && ChangesOnly(old(cases), cases, Imgs(n, n))
    {
      hide Just;
      SetIfUnreached(Img(n), NotTested, Found(finding));
    }

    method FillImgs()
      requires Valid()
      modifies `cases, `writes
      ensures Valid() && Keeps(old(cases), cases) && ChangesOnly(old(cases), cases, Imgs(4, 5))
    {
      hide Valid, Just;
      NotReachedJust(facts);
      FillImg(4, ModuleEnumerationNotImplemented);
      FillImg(5, RuntimeModuleRejectionNotExercised);
    }

    /** No launch of the backend is ever reported as passed: TL-VR-001 fails whenever this is reached. */
    method SetUnprovenCases() returns (flow: Flow)
      requires Valid() && Untouched(cases, Vrs(1, 4))
      modifies `cases, `writes, `refused
      ensures Valid() && refused == old(refused) && flow.Fine?
      ensures Runs(old(cases), cases, Imgs(4, 5) + Vrs(1, 4), Vrs(1, 4), true)
      ensures cases[Vr(1)].outcome == Fail
      ensures cases[Vr(1)].code == Found(AdjacentDllMutationSucceeded) <==> adjacentMutationSucceeded
    {
      hide Valid, Just;
      FillImgs();
      flow := SetLaunchCases();
    }

    method RecordFp(n: nat, r: CaseResult) returns (flow: Flow)
      requires Valid() && 1 <= n <= 16 && Untouched(cases, Fps(n, n)) && r.Decided() && r in Just(Fp(n), facts)
      modifies `cases, `writes, `refused
      ensures Valid() && refused == old(refused) && flow.Fine? && Steps(old(cases), cases, Fps(n, n), true)
      ensures cases[Fp(n)] == r
    {
      hide Valid, Just;
      flow := Record(Fp(n), r);
    }

    /** `SecurityGateState.Safe()`, `Inject(index)` and `SecurityGateAccepts`. */
    method JudgeInjected(index: nat) returns (r: CaseResult)
      requires index < 16
      ensures r == CaseResult(Pass, Found(InjectedUnsafeStateRejected), None)
    {
      var state := seq(16, _ => true)[index := false];
      assert state[index] == false;
      var rejected := false in state;
      r := if rejected then CaseResult(Pass, Found(InjectedUnsafeStateRejected), None)
           else CaseResult(Fail, Found(FalsePositiveGateFailed), None);
    }

    method InjectUnsafeState(index: nat) returns (flow: Flow)
      requires Valid() && index < 16 && Untouched(cases, Fps(index + 1, 16))
      modifies `cases, `writes, `refused
      ensures Valid() && refused == old(refused) && flow.Fine?
      ensures Steps(old(cases), cases, Fps(index + 1, index + 1), true)
      ensures cases[Fp(index + 1)].outcome == Pass
    {
      hide Valid, Just;
      var r := JudgeInjected(index);
      InjectedJust(index + 1, facts);
      flow := RecordFp(index + 1, r);
    }

    method RunFalsePositiveTests() returns (flow: Flow)
      requires Valid() && Untouched(cases, Fps(1, 16))
      modifies `cases, `writes, `refused
      ensures Valid() && refused == old(refused) && flow.Fine?
      ensures Keeps(old(cases), cases) && ChangesOnly(old(cases), cases, Fps(1, 16)) && Rejected(cases, 16)
    {
      hide Valid, Just;
      flow := Fine;
      for index := 0 to 16
        invariant Valid() && refused == old(refused) && flow.Fine?
        invariant Keeps(old(cases), cases) && ChangesOnly(old(cases), cases, Fps(1, index))
        invariant Rejected(cases, index) && Untouched(cases, Fps(index + 1, 16))
      {
        ghost var before := cases;
        flow := InjectUnsafeState(index);
        FalsePositiveStep(old(cases), before, cases, index);
      }
    }

    // ----- Cleanup -----

    /** `Set` on a TL-CLEAN case, which may be written again after `BlockUnreached`. */
    method SetClean(n: nat, passed: bool, yes: Finding, no: Finding)
      requires Valid() && 1 <= n <= 3 && AllReached(cases)
      requires CaseResult(if passed then Pass else Fail, Found(if passed then yes else no), None) in Just(Clean(n), facts)
      modifies `cases, `writes, `refused
      ensures Valid() && refused == old(refused) && AllReached(cases) && Keeps(old(cases), cases)
      ensures cases == old(cases)[Clean(n) := CaseResult(if passed then Pass else Fail, Found(if passed then yes else no), None)]
    {
      hide Just;
      var flow := Set(Clean(n), if passed then Pass else Fail, Found(if passed then yes else no), None);
    }

    method SetAbsences(helpersAbsent: bool, velociraptorAbsent: bool)
      requires Valid() && AllReached(cases)
      requires helpersAbsent == facts.cleaning.helpersAbsent && velociraptorAbsent == facts.cleaning.velociraptorAbsent
      modifies `cases, `writes, `refused
      ensures Valid() && refused == old(refused) && AllReached(cases) && Keeps(old(cases), cases)
      ensures cases[Clean(1)].outcome == (if helpersAbsent then Pass else Fail)
      ensures cases[Clean(2)].outcome == (if velociraptorAbsent then Pass else Fail)
    {
      hide AllJust, WriteOnce, Just;
      HelpersJust(facts);
      VelociraptorJust(facts);
      SetClean(1, helpersAbsent, NoSyntheticHelperRemains, SyntheticHelperRemains);
      SetClean(2, velociraptorAbsent, NoVelociraptorPresent, VelociraptorPresent);
    }

    method SetRunRoot()
      requires Valid() && AllReached(cases) && cleanupSucceeded == CleanHolds(3, facts.cleaning)
      modifies `cases, `writes, `refused
      ensures Valid() && refused == old(refused) && AllReached(cases) && Keeps(old(cases), cases)
      ensures cases == old(cases)[Clean(3) := CaseResult(if cleanupSucceeded then Pass else Fail,
                Found(if cleanupSucceeded then ScopedRunRootRemoved else CleanupOrSourceStabilityFailed), None)]
    {
      hide AllJust, WriteOnce, Just;
      RunRootJust(facts);
      SetClean(3, cleanupSucceeded, ScopedRunRootRemoved, CleanupOrSourceStabilityFailed);
    }

    method SetCleanCases(helpersAbsent: bool, velociraptorAbsent: bool, restored: bool)
      requires Valid() && AllReached(cases)
      requires helpersAbsent == facts.cleaning.helpersAbsent && velociraptorAbsent == facts.cleaning.velociraptorAbsent
      requires restored == (facts.cleaning.removed && facts.cleaning.sourceStable)
      modifies `cases, `writes, `refused, `cleanupSucceeded
      ensures Valid() && refused == old(refused) && AllReached(cases) && Keeps(old(cases), cases)
      ensures cleanupSucceeded == (restored && helpersAbsent && velociraptorAbsent)
      ensures cases[Clean(3)].outcome == (if cleanupSucceeded then Pass else Fail)
      ensures cleanupSucceeded ==> CleanPassed(cases)
    {
      hide AllJust, WriteOnce, Just;
      SetAbsences(helpersAbsent, velociraptorAbsent);
      cleanupSucceeded := restored && helpersAbsent && velociraptorAbsent;
      SetRunRoot();
    }

    /** May throw while it looks for processes; by then no case is unreached any more. */
    method Cleanup() returns (flow: Flow)
      requires Valid() && AllReached(cases) && !cleanupSucceeded
      modifies `cases, `writes, `refused, `cleanupSucceeded
      ensures Valid() && refused == old(refused) && AllReached(cases) && Keeps(old(cases), cases)
      ensures flow.Fine? ==> (cases[Clean(3)].outcome == Pass <==> cleanupSucceeded)
      ensures cleanupSucceeded ==> flow.Fine? && CleanPassed(cases)
      ensures cleanupSucceeded <==> flow.Fine? && CleanHolds(3, facts.cleaning)
    {
      hide Valid, Just;
      flow := Attempt();
      if flow.Fine? {
        var seen := facts.cleaning;
        SetCleanCases(seen.helpersAbsent, seen.velociraptorAbsent, seen.removed && seen.sourceStable);
      }
    }

    // ----- Run -----

    method RunFirstPhases() returns (flow: Flow)
      requires Valid() && Untouched(cases, FirstPhases())
      modifies `cases, `writes, `refused, `adjacentMutationSucceeded
      ensures Valid() && refused == old(refused) && Steps(old(cases), cases, FirstPhases(), flow.Fine?)
    {
      hide Valid, Just;
      flow := Attempt();  // CreatePrivateRoot sets no case
      if flow.Fine? {
        FirstPhasesSplit();
        flow := RunIdentityAndRaceTests();
        if flow.Fine? {
          ghost var raced := cases;
          Apart(old(cases), raced, Ids(1, 11), Imgs(1, 1) + Toks(1, 3));
          flow := RunPeAndTokenTests();
          Compose(old(cases), raced, cases, Ids(1, 11), Ids(1, 11), Imgs(1, 1) + Toks(1, 3), Imgs(1, 1) + Toks(1, 3), flow.Fine?);
        }
      }
    }

    method RunProcessPhases() returns (flow: Flow)
      requires Valid() && Untouched(cases, ProcessPhases())
      modifies `cases, `writes, `refused
      ensures Valid() && refused == old(refused)
      ensures Runs(old(cases), cases, ProcessPhases(), ProcessPhasesDecided(), flow.Fine?)
      ensures flow.Fine? ==> TreeLinked(cases)
    {
      hide Valid, Just;
      ProcessPhasesAreBoth();
      flow := RunJobAndProcessTests();
      if flow.Fine? {
        ghost var ran := cases;
        Apart(old(cases), ran, JobPhase(), Toks(4, 5));
        flow := RunRestrictedTokenTest();
        LinkStays(ran, cases, Toks(4, 5));
        Compose(old(cases), ran, cases, JobPhase(), JobPhaseDecided(), Toks(4, 5), Toks(4, 5), flow.Fine?);
      }
    }

    method RunEarlyPhases() returns (flow: Flow)
      requires Valid() && Untouched(cases, FirstPhases()) && Untouched(cases, ProcessPhases())
      requires Untouched(cases, LastPhases())
      modifies `cases, `writes, `refused, `adjacentMutationSucceeded
      ensures Valid() && refused == old(refused)
      ensures flow.Fine? ==> AllDecided(cases, EarlyPhasesDecided()) && Untouched(cases, LastPhases())
      ensures flow.Fine? ==> TreeLinked(cases)
    {
      hide Valid, Just;
      flow := RunFirstPhases();
      if flow.Fine? {
        ghost var first := cases;
        PhasesAreApart();
        Apart(old(cases), first, FirstPhases(), ProcessPhases());
        Apart(old(cases), first, FirstPhases(), LastPhases());
        flow := RunProcessPhases();
        DecidedStays(first, cases, FirstPhases());
        if flow.Fine? {
          Apart(first, cases, ProcessPhases(), LastPhases());
        }
      }
    }

    method RunLastPhases() returns (flow: Flow)
      requires Valid() && Untouched(cases, LastPhases())
      modifies `cases, `writes, `refused
      ensures Valid() && refused == old(refused) && flow.Fine?
      ensures Keeps(old(cases), cases) && AllDecided(cases, LastPhases()) && NothingClaimed(cases)
      ensures TreeLinked(old(cases)) ==> TreeLinked(cases)
    {
      hide Valid, Just;
      LastPhasesSplit();
      flow := SetUnprovenCases();
      ghost var unproven := cases;
      Apart(old(cases), unproven, Imgs(4, 5) + Vrs(1, 4), Fps(1, 16));
      flow := RunFalsePositiveTests();
      LastPhasesDecide(unproven, cases);
      if TreeLinked(old(cases)) {
        LinkStays(old(cases), unproven, Imgs(4, 5) + Vrs(1, 4));
        LinkStays(unproven, cases, Fps(1, 16));
      }
    }

    method RunPhases() returns (flow: Flow)
      requires Valid() && NoneReached(cases)
      modifies `cases, `writes, `refused, `adjacentMutationSucceeded
      ensures Valid() && refused == old(refused)
      ensures flow.Fine? ==> AllDecided(cases, RunDecided()) && NothingClaimed(cases) && TreeLinked(cases)
    {
      hide AllJust, WriteOnce, Just;
      flow := RunEarlyPhases();
      if flow.Fine? {
        ghost var early := cases;
        flow := RunLastPhases();
        DecidedStays(early, cases, EarlyPhasesDecided());
      }
    }

    /** The `try` and its two `catch` blocks. */
    method RunAndBlock()
      requires Valid() && fatalCode.None? && NoneReached(cases)
      modifies `cases, `writes, `refused, `adjacentMutationSucceeded, `fatalCode, `fatalSystemError
      ensures Valid() && refused == old(refused) && AllReached(cases)
      ensures fatalCode.None? ==> AllDecided(cases, RunDecided()) && NothingClaimed(cases) && TreeSettled(cases)
    {
      hide AllJust, WriteOnce, Just;
      var flow := RunPhases();
      match flow
      case Fine =>
        ghost var ran := cases;
        BlockUnreached(Unvisited(NotExecutedAfterBlocker), None);
        DecidedStays(ran, cases, RunDecided());
        ClaimsStay(ran, cases);
        LinkSettles(ran, cases, NotExecutedAfterBlocker, None);
      case Controlled(code, systemError) =>
        fatalCode, fatalSystemError := Some(code), systemError;
        BlockUnreached(Unvisited(PrerequisiteFailed), systemError);
      case Uncontrolled =>
        fatalCode := Some(Found(UncontrolledSuiteFailure));
        BlockUnreached(Unvisited(HarnessFailure), None);
    }

    method CleanUpAfterRun() returns (flow: Flow)
      requires Valid() && AllReached(cases) && !cleanupSucceeded
      requires fatalCode.None? ==> AllDecided(cases, RunDecided()) && NothingClaimed(cases) && TreeSettled(cases)
      modifies `cases, `writes, `refused, `cleanupSucceeded
      ensures Valid() && refused == old(refused) && AllReached(cases) && WrittenOnce(cases, writes)
      ensures fatalCode.None? ==> AllDecided(cases, RunDecided()) && NothingClaimed(cases) && TreeSettled(cases)
      ensures cleanupSucceeded ==> flow.Fine? && CleanPassed(cases)
    {
      ghost var blocked := cases;
      flow := Cleanup();
      if fatalCode.None? {
        DecidedStays(blocked, cases, RunDecided());
        ClaimsStay(blocked, cases);
        SettledStays(blocked, cases);
      }
      ReachedIsWrittenOnce(cases, writes);
    }

    /**
     * `ProbeSuite.Run`. In every run, one in which `Cleanup` throws included, `Set` never
     * refuses, every case is reached, and each outside TL-CLEAN was written exactly once.
     */
    method Run() returns (flow: Flow, exitCode: int)
      requires Valid() && !refused && fatalCode.None? && !cleanupSucceeded && NoneReached(cases)
      modifies this
      ensures Valid() && !refused
      ensures AllReached(cases) && WrittenOnce(cases, writes)
      // Every pass is borne out by what was observed, and so is every fail that no exception stands in for;
      // and every finding is true.
      ensures AllJust(cases, facts)
      ensures flow.Fine? ==> exitCode == if cleanupSucceeded && fatalCode.None? then SECURITY_BLOCKER else HARNESS_FAILURE
      ensures fatalCode.None? ==> AllDecided(cases, RunDecided()) && NothingClaimed(cases) && TreeSettled(cases)
      ensures cleanupSucceeded ==> CleanPassed(cases)
    {
      RunAndBlock();
      flow := CleanUpAfterRun();
      exitCode := if cleanupSucceeded && fatalCode.None? then SECURITY_BLOCKER else HARNESS_FAILURE;
    }
  }
}
