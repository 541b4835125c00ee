/** The mandatory cases of the trust-launch suite and what can be recorded for one of them. */
module LedgerCases {
  import opened Common

  /** `Id(4)` is "TL-ID-004-WRITE-LOCK", and so on through the nine families of the case list. */
  datatype Case =
    | Id(n: nat) | Tok(n: nat) | Job(n: nat) | Img(n: nat) | Hnd(n: nat) | Env(n: nat)
    | Vr(n: nat) | Clean(n: nat) | Fp(n: nat)

  predicate Mandatory(c: Case) {
    match c
    case Id(n) => 1 <= n <= 11
    case Tok(n) => 1 <= n <= 5
    case Job(n) => 1 <= n <= 10
    case Img(n) => 1 <= n <= 5
    case Hnd(n) => n == 1
    case Env(n) => n == 1
    case Vr(n) => 1 <= n <= 4
    case Clean(n) => 1 <= n <= 3
    case Fp(n) => 1 <= n <= 16
  }

  /** `MandatoryCases.All`, in its order. */
  const ALL: seq<Case> :=
    seq(11, (i: nat) => Id(i + 1)) + seq(5, (i: nat) => Tok(i + 1)) + seq(10, (i: nat) => Job(i + 1))
    + seq(5, (i: nat) => Img(i + 1)) + [Hnd(1), Env(1)] + seq(4, (i: nat) => Vr(i + 1))
    + seq(3, (i: nat) => Clean(i + 1)) + seq(16, (i: nat) => Fp(i + 1))

  function Position(c: Case): (i: nat)
    requires Mandatory(c)
  {
    match c
    case Id(n) => n - 1
    case Tok(n) => 10 + n
    case Job(n) => 15 + n
    case Img(n) => 25 + n
    case Hnd(n) => 31
    case Env(n) => 32
    case Vr(n) => 32 + n
    case Clean(n) => 36 + n
    case Fp(n) => 39 + n
  }

  lemma AllAreMandatory(i: nat)
    requires i < |ALL|
    ensures Mandatory(ALL[i]) && Position(ALL[i]) == i
  {}

  lemma MandatoryAreListed(c: Case)
    requires Mandatory(c)
    ensures Position(c) < |ALL| && ALL[Position(c)] == c
  {}

  /** The list names every mandatory case, and none twice. */
  lemma AllIsComplete()
    ensures |ALL| == 56
    ensures forall c: Case :: c in ALL <==> Mandatory(c)
    ensures forall i, j | 0 <= i < j < |ALL| :: ALL[i] != ALL[j]
  {
    forall i | 0 <= i < |ALL| ensures Mandatory(ALL[i]) && Position(ALL[i]) == i {
      AllAreMandatory(i);
    }
    forall c | Mandatory(c) ensures c in ALL {
      MandatoryAreListed(c);
    }
  }

  datatype Verdict = Pass | Fail | Blocked | NotTested

  /**
   * The codes of the ledger: the initial one, what `BlockUnreached` writes, what a phase
   * found, and the code of an exception that an operation threw.
   */
  datatype Code = NotReached | Unvisited(why: Why) | Found(finding: Finding) | Raised(text: string)

  datatype Why = NotExecutedAfterBlocker | PrerequisiteFailed | HarnessFailure

  datatype Finding =
    | CaseSetTwice | UnknownCaseId | UncontrolledSuiteFailure
    | SourceDigestMismatch | HandleIdentityAndSha256Verified
    | CopyIdentityMismatch | DestinationReopenMismatch | CreateNewCopyFlushReopenVerified
    | ActualDigestMismatchRejected | MismatchFalselyAccepted
    | MutationSucceeded | UnexpectedMutationError
    | WriteBlocked | ReplaceBlocked | DeleteBlocked | FileRenameBlocked | DirectoryRenameBlocked
    | AdjacentCreateBlocked | PostReleaseMutationSucceeded | PostReleaseControlFailed
    | ReparseInitialFinalPathMismatch | ReparseWorkerPreResumeInvariantFailed | ReparseWorkerTimeout
    | ReparseRenameBlocked | ReparseReplacementUnexpectedlySucceeded | ReparseOperationNotSupported
    | ReparseOperationNotTested | ReparseVerificationFailed | ReparseWorkerUncontrolledFailure
    | ReparseFixtureCleanupFailed
    | PeInventoryIncomplete | PeImportsAndManifestObserved
    | TokenClassifiedWithoutIdentity | DefaultRejectedFilteredAdmin | DefaultCandidateStandardToken
    | DefaultTokenNotAcceptable | ComparisonWithheldAfterSecurityBlocker
    | ChildNotInJob | JobListAssignedDuringCreation | OuterJobNestedAssignment | NoOuterJobAssignment
    | ImageLoadPolicyMissing | ImageLoadPolicyVerified | MainImagePathMismatch | SyntheticChildTokenElevated
    | NormalChildDidNotExit | NormalExitInJob
    | PreResumeInvariantFailed | LongChildExitedEarly | TerminateJobFailed | JobTerminationTimeout
    | TimeoutTerminatedJob | ExplicitCancelTerminatedJob
    | ParentNotInJob | DescendantNotObservedInJob | DescendantMembershipFailed | ParentAndChildInSameJob
    | KillOnCloseTerminatedTree | TreeSurvivedJobClose | NoSurvivingJobMembers | OrphanDescendant
    | ActiveProcessLimitEnforced | ActiveProcessLimitFailed
    | UnexpectedJobMembership | UnassignedSuspendedChildRejected | UnassignedChildSurvived
    | SentinelInheritFlagFailed | UnlistedSentinelNotInherited | InheritedHandleLeak
    | EnvironmentPreResumeInvariantFailed | EnvironmentChildTimeout | EnvironmentExitMaskInvalid
    | ExactEnvironmentObserved | EnvironmentListFailed
    | ReopenedMainImageFileIdMismatch | InitialModuleEnumerationUnavailable | InitialMainImageNotEnumerated
    | InitialUnexpectedUserWritableModule | InitialModulesClassified | InitialModulesClassifiedWithUnknown
    | RuntimeModuleEnumerationUnavailable | RuntimeMainImageNotEnumerated
    | RuntimeUnexpectedUserWritableModule | RuntimeModulesClassified | RuntimeModulesClassifiedWithUnknown
    | UnexpectedModuleRejected | ModuleRejectionRequiresBothWindows | NoUnexpectedModule
    | RestrictedChildElevated | RestrictedAdminGroupStateInvalid | RestrictedChildLinkedTokenPresent
    | RestrictedDangerousPrivilegeEnabled | RestrictedChildNotInJob | RestrictedImageMitigationMissing
    | RestrictedTokenCreatedChild | RestrictedChildExitFailed | NonElevatedChildVerified | ChildTokenTestFailed
    | RestrictedProcessNotCreated
    | ModuleEnumerationNotImplemented | RuntimeModuleRejectionNotExercised
    | AdjacentDllMutationSucceeded | MandatoryImageBindingTestsNotComplete | LaunchPreconditionsFailed
    | InjectedUnsafeStateRejected | FalsePositiveGateFailed
    | NoSyntheticHelperRemains | SyntheticHelperRemains | NoVelociraptorPresent | VelociraptorPresent
    | ScopedRunRootRemoved | CleanupOrSourceStabilityFailed

  datatype CaseResult = CaseResult(outcome: Verdict, code: Code, systemError: Option<int>) {
    predicate Reached() { !code.NotReached? }

    /** Recorded by a phase, not filled in for a case no phase got to. */
    predicate Decided() { code.Found? || code.Raised? }
  }

  const UNREACHED := CaseResult(NotTested, NotReached, None)

  type Ledger = map<Case, CaseResult>

  /** What `BlockUnreached` leaves of a result. */
  function Filled(r: CaseResult, code: Code, systemError: Option<int>): CaseResult {
    if r.Reached() then r else CaseResult(Blocked, code, systemError)
  }

  // ranges of a family, written as comprehensions

  ghost function Ids(first: nat, last: nat): iset<Case> { iset c: Case | c.Id? && first <= c.n <= last }

  ghost function Toks(first: nat, last: nat): iset<Case> { iset c: Case | c.Tok? && first <= c.n <= last }

  ghost function Jobs(first: nat, last: nat): iset<Case> { iset c: Case | c.Job? && first <= c.n <= last }

  ghost function Imgs(first: nat, last: nat): iset<Case> { iset c: Case | c.Img? && first <= c.n <= last }

  ghost function Vrs(first: nat, last: nat): iset<Case> { iset c: Case | c.Vr? && first <= c.n <= last }

  ghost function Fps(first: nat, last: nat): iset<Case> { iset c: Case | c.Fp? && first <= c.n <= last }

  /** The first jobs and the mitigation case between them. */
  ghost function FirstJobs(last: nat): iset<Case> { iset c: Case | (c.Job? && 1 <= c.n <= last) || (c.Img? && c.n == 2) }

  ghost function Hnds(): iset<Case> { iset c: Case | c.Hnd? && c.n == 1 }

  ghost function Envs(): iset<Case> { iset c: Case | c.Env? && c.n == 1 }

  ghost function Inheritance(): iset<Case> { iset c: Case | (c.Hnd? || c.Env?) && c.n == 1 }

  ghost function Observations(): iset<Case> {
    iset c: Case | ((c.Hnd? || c.Env?) && c.n == 1) || (c.Img? && 3 <= c.n <= 5)
  }

  /** Of the job cases, an early return can leave these two unreached. */
  predicate Optional(c: Case) { c == Job(7) || c == Job(10) }

  ghost function TreeCases(): iset<Case> { iset c: Case | c.Job? && (6 <= c.n <= 7 || c.n == 10) }

  /** The two cases behind the closing of the job. */
  ghost function TreeEnd(): iset<Case> { iset c: Case | c.Job? && (c.n == 7 || c.n == 10) }

  ghost function JobPhase(): iset<Case> {
    iset c: Case | (c.Job? && 1 <= c.n <= 10) || (c.Img? && 2 <= c.n <= 5) || ((c.Hnd? || c.Env?) && c.n == 1)
  }

  ghost function JobPhaseDecided(): iset<Case> { iset c: Case | c in JobPhase() && !Optional(c) }

  ghost function FirstJobsDecided(): iset<Case> { iset c: Case | c in FirstJobs(10) && !Optional(c) }

  ghost function LastJobsDecided(): iset<Case> { iset c: Case | c in Jobs(6, 10) && !Optional(c) }

  ghost function FirstPhases(): iset<Case> {
    iset c: Case | (c.Id? && 1 <= c.n <= 11) || (c.Img? && c.n == 1) || (c.Tok? && 1 <= c.n <= 3)
  }

  ghost function ProcessPhases(): iset<Case> { iset c: Case | c in JobPhase() || (c.Tok? && 4 <= c.n <= 5) }

  ghost function ProcessPhasesDecided(): iset<Case> { iset c: Case | c in ProcessPhases() && !Optional(c) }

  ghost function EarlyPhasesDecided(): iset<Case> {
    iset c: Case | c in FirstPhases() || (c in ProcessPhases() && !Optional(c))
  }

  ghost function LastPhases(): iset<Case> { iset c: Case | (c.Vr? && 1 <= c.n <= 4) || (c.Fp? && 1 <= c.n <= 16) }

  /** Every mandatory case a run without an exception decides. */
  ghost function RunDecided(): iset<Case> { iset c: Case | Mandatory(c) && !c.Clean? && !Optional(c) }

  /** No case that was reached before, outside TL-CLEAN, has changed. */
  ghost predicate Keeps(before: Ledger, after: Ledger) {
    && after.Keys == before.Keys
    && (forall c | c in before && before[c].Reached() && !c.Clean? :: after[c] == before[c])
  }

  ghost predicate ChangesOnly(before: Ledger, after: Ledger, own: iset<Case>) {
    forall c | c in before && c !in own :: c in after && after[c] == before[c]
  }

  ghost predicate Untouched(ledger: Ledger, own: iset<Case>) {
    forall c | c in own :: c in ledger && !ledger[c].Reached()
  }

  ghost predicate AllDecided(ledger: Ledger, own: iset<Case>) {
    forall c | c in own :: c in ledger && ledger[c].Decided()
  }

  /**
   * A piece of the suite: however it ends, it keeps what was reached and writes only `own`;
   * when it ends normally it has decided `decided`.
   */
  ghost predicate Runs(before: Ledger, after: Ledger, own: iset<Case>, decided: iset<Case>, fine: bool) {
    && Keeps(before, after) && ChangesOnly(before, after, own)
    && (fine ==> AllDecided(after, decided))
  }

  /** The cases that the first child sets only on its way out; later phases set them otherwise. */
  ghost function WithExits(own: iset<Case>): iset<Case> { iset c: Case | c in own || c == Img(3) || c == Tok(5) }

  /** The same for a piece that may also write those two, and then does not end normally. */
  ghost predicate Leaves(before: Ledger, after: Ledger, own: iset<Case>, decided: iset<Case>, fine: bool) {
    && Keeps(before, after) && ChangesOnly(before, after, WithExits(own))
    && (fine ==> ChangesOnly(before, after, own) && AllDecided(after, decided))
  }

  ghost predicate Steps(before: Ledger, after: Ledger, own: iset<Case>, fine: bool) {
    Runs(before, after, own, own, fine)
  }

  ghost predicate AllReached(ledger: Ledger) {
    forall c | c in ledger :: ledger[c].Reached()
  }

  ghost predicate NoneReached(ledger: Ledger) {
    forall c | c in ledger :: !ledger[c].Reached()
  }

  /** The tree case is decided, and the two that depend on it are decided or still unreached with it. */
  ghost predicate TreeLinked(ledger: Ledger) {
    && Job(6) in ledger && Job(7) in ledger && Job(10) in ledger && ledger[Job(6)].Decided()
    && if ledger[Job(6)].outcome == Pass then ledger[Job(7)].Decided() && ledger[Job(10)].Decided()
       else !ledger[Job(7)].Reached() && !ledger[Job(10)].Reached()
  }

  /** In the end: TL-JOB-007 and TL-JOB-010 were decided exactly when the tree case passed. */
  ghost predicate TreeSettled(ledger: Ledger) {
    && Job(6) in ledger && Job(7) in ledger && Job(10) in ledger && ledger[Job(6)].Decided()
    && (ledger[Job(7)].Decided() <==> ledger[Job(6)].outcome == Pass)
    && (ledger[Job(10)].Decided() <==> ledger[Job(6)].outcome == Pass)
  }

  lemma LinkStays(before: Ledger, after: Ledger, own: iset<Case>)
    requires TreeLinked(before) && Keeps(before, after) && ChangesOnly(before, after, own)
    requires Job(7) !in own && Job(10) !in own
    ensures TreeLinked(after)
  {
    assert before[Job(6)].Reached();
  }

  lemma LinkSettles(before: Ledger, after: Ledger, why: Why, systemError: Option<int>)
    requires TreeLinked(before) && after.Keys == before.Keys
    requires forall c | c in after :: after[c] == Filled(before[c], Unvisited(why), systemError)
    ensures TreeSettled(after)
  {
    assert after[Job(6)] == before[Job(6)];
  }

  lemma SettledStays(before: Ledger, after: Ledger)
    requires TreeSettled(before) && AllReached(before) && Keeps(before, after)
    ensures TreeSettled(after)
  {
    assert before[Job(6)].Reached() && before[Job(7)].Reached() && before[Job(10)].Reached();
  }

  /** The first `last` injected unsafe states were rejected. */
  ghost predicate Rejected(ledger: Ledger, last: nat) {
    forall c | c in Fps(1, last) :: c in ledger && ledger[c].Decided() && ledger[c].outcome == Pass
  }

  /** No launch of the backend is claimed, and every injected unsafe state was rejected. */
  ghost predicate NothingClaimed(ledger: Ledger) {
    && Vr(1) in ledger && ledger[Vr(1)].Decided() && ledger[Vr(1)].outcome == Fail
    && Rejected(ledger, 16)
  }

  ghost predicate CleanPassed(ledger: Ledger) {
    && Clean(1) in ledger && ledger[Clean(1)].outcome == Pass
    && Clean(2) in ledger && ledger[Clean(2)].outcome == Pass
    && Clean(3) in ledger && ledger[Clean(3)].outcome == Pass
  }

  lemma Apart(before: Ledger, after: Ledger, own: iset<Case>, other: iset<Case>)
    requires ChangesOnly(before, after, own) && Untouched(before, other) && forall c | c in other :: c !in own
    ensures Untouched(after, other)
  {
    forall c | c in other ensures c in after && !after[c].Reached() {
      assert c in before && c !in own;
    }
  }

  lemma PhasesAreApart()
    ensures forall c | c in ProcessPhases() :: c !in FirstPhases()
    ensures forall c | c in LastPhases() :: c !in FirstPhases() && c !in ProcessPhases()
    ensures forall c | c in FirstPhases() + ProcessPhases() + LastPhases() :: !c.Clean?
  {}

  lemma RejectedStep(before: Ledger, after: Ledger, last: nat)
    requires Rejected(before, last) && Keeps(before, after)
    requires Fp(last + 1) in after && after[Fp(last + 1)].Decided() && after[Fp(last + 1)].outcome == Pass
    ensures Rejected(after, last + 1)
  {
    forall c | c in Fps(1, last + 1) ensures c in after && after[c].Decided() && after[c].outcome == Pass {
      if c.n <= last {
        assert c in Fps(1, last) && before[c].Reached();
      } else {
        assert c == Fp(last + 1);
      }
    }
  }

  /** One piece after another. */
  lemma Compose(a: Ledger, b: Ledger, c: Ledger, own: iset<Case>, decided: iset<Case>,
                nextOwn: iset<Case>, nextDecided: iset<Case>, fine: bool)
    requires Runs(a, b, own, decided, true) && Runs(b, c, nextOwn, nextDecided, fine)
    requires forall id | id in decided :: !id.Clean?
    ensures Runs(a, c, own + nextOwn, decided + nextDecided, fine)
  {
    forall id | id in a && id !in own + nextOwn ensures id in c && c[id] == a[id] {
      assert b[id] == a[id];
    }
    forall id | id in a && a[id].Reached() && !id.Clean? ensures c[id] == a[id] {
      assert b[id] == a[id];
    }
    DecidedStays(b, c, decided);
  }

  lemma ComposeLeaving(a: Ledger, b: Ledger, c: Ledger, own: iset<Case>, decided: iset<Case>,
                       nextOwn: iset<Case>, nextDecided: iset<Case>, fine: bool)
    requires Leaves(a, b, own, decided, true) && Runs(b, c, nextOwn, nextDecided, fine)
    requires forall id | id in decided :: !id.Clean?
    ensures Leaves(a, c, own + nextOwn, decided + nextDecided, fine)
  {
    Compose(a, b, c, own, decided, nextOwn, nextDecided, fine);
    assert ChangesOnly(a, c, own + nextOwn);
  }

  lemma JobPhaseIsBoth()
    ensures FirstJobs(10) + Observations() == JobPhase()
    ensures FirstJobsDecided() + Observations() == JobPhaseDecided()
    ensures forall c | c in FirstJobsDecided() :: !c.Clean?
    ensures forall c | c in Observations() :: c !in FirstJobs(10)
  {}

  lemma FirstJobsSplit(last: nat)
    ensures FirstJobs(last) + Jobs(last + 1, last + 1) == FirstJobs(last + 1)
    ensures forall c | c in FirstJobs(last) :: !c.Clean?
    ensures forall c | c in Jobs(last + 1, last + 1) :: c !in FirstJobs(last)
  {}

  lemma TreeEndSplit()
    ensures Jobs(7, 7) + Jobs(10, 10) == TreeEnd()
    ensures forall c | c in Jobs(10, 10) :: c !in Jobs(7, 7)
    ensures forall c | c in Jobs(7, 7) :: !c.Clean?
  {}

  lemma FirstPhasesSplit()
    ensures Ids(1, 11) + (Imgs(1, 1) + Toks(1, 3)) == FirstPhases()
    ensures forall c | c in Imgs(1, 1) + Toks(1, 3) :: c !in Ids(1, 11)
    ensures forall c | c in Ids(1, 11) :: !c.Clean?
  {}

  lemma IdsSplit(first: nat, middle: nat, last: nat)
    requires first <= middle < last
    ensures Ids(first, middle) + Ids(middle + 1, last) == Ids(first, last)
    ensures forall c | c in Ids(middle + 1, last) :: c !in Ids(first, middle)
    ensures forall c | c in Ids(first, middle) :: !c.Clean?
  {}

  lemma LastPhasesSplit()
    ensures Vrs(1, 4) + Fps(1, 16) == LastPhases()
    ensures forall c | c in Fps(1, 16) :: c !in Imgs(4, 5) + Vrs(1, 4)
    ensures forall c | c in Vrs(1, 4) :: !c.Clean?
  {}

  lemma LastPhasesDecide(before: Ledger, after: Ledger)
    requires AllDecided(before, Vrs(1, 4)) && before[Vr(1)].outcome == Fail
    requires Keeps(before, after) && Rejected(after, 16)
    ensures AllDecided(after, LastPhases()) && NothingClaimed(after)
  {
    LastPhasesSplit();
    DecidedStays(before, after, Vrs(1, 4));
    assert before[Vr(1)].Decided() && before[Vr(1)].Reached();
  }

  lemma ProcessPhasesAreBoth()
    ensures JobPhase() + Toks(4, 5) == ProcessPhases()
    ensures JobPhaseDecided() + Toks(4, 5) == ProcessPhasesDecided()
    ensures forall c | c in JobPhaseDecided() :: !c.Clean?
    ensures forall c | c in WithExits(JobPhase()) :: c in ProcessPhases()
    ensures forall c | c in Toks(4, 5) :: c !in JobPhase()
  {}

  /** One turn of the loop over the injected states. */
  lemma FalsePositiveStep(start: Ledger, before: Ledger, after: Ledger, last: nat)
    requires Keeps(start, before) && ChangesOnly(start, before, Fps(1, last))
    requires Rejected(before, last) && Untouched(before, Fps(last + 1, 16)) && last < 16
    requires Steps(before, after, Fps(last + 1, last + 1), true) && after[Fp(last + 1)].outcome == Pass
    ensures Keeps(start, after) && ChangesOnly(start, after, Fps(1, last + 1))
    ensures Rejected(after, last + 1) && Untouched(after, Fps(last + 2, 16))
  {
    assert Fp(last + 1) in Fps(last + 1, last + 1);
    RejectedStep(before, after, last);
    Apart(before, after, Fps(last + 1, last + 1), Fps(last + 2, 16));
    forall c | c in start && c !in Fps(1, last + 1) ensures c in after && after[c] == start[c] {
      assert before[c] == start[c];
    }
    forall c | c in start && start[c].Reached() && !c.Clean? ensures after[c] == start[c] {
      assert before[c] == start[c];
    }
  }

  /** What is kept stays decided. */
  lemma DecidedStays(before: Ledger, after: Ledger, own: iset<Case>)
    requires Keeps(before, after) && AllDecided(before, own) && forall c | c in own :: !c.Clean?
    ensures AllDecided(after, own)
  {
    forall c | c in own ensures c in after && after[c].Decided() {
      assert before[c].Decided() && before[c].Reached();
    }
  }

  lemma ClaimsStay(before: Ledger, after: Ledger)
    requires Keeps(before, after) && NothingClaimed(before)
    ensures NothingClaimed(after)
  {
    assert before[Vr(1)].Reached();
    forall c | c in Fps(1, 16) ensures c in after && after[c] == before[c] {
      assert before[c].Decided() && before[c].Reached();
    }
  }

  /** The loop of `BlockUnreached` after these cases. */
  ghost predicate FilledUpTo(before: Ledger, now: Ledger, done: seq<Case>, code: Code, systemError: Option<int>) {
    && now.Keys == before.Keys
    && forall c | c in now :: now[c] == if c in done then Filled(before[c], code, systemError) else before[c]
  }

  lemma FilledStep(before: Ledger, now: Ledger, index: nat, code: Code, systemError: Option<int>)
    requires index < |ALL| && FilledUpTo(before, now, ALL[..index], code, systemError) && !code.NotReached?
    requires forall c: Case :: c in now <==> Mandatory(c)
    ensures Mandatory(ALL[index])
    ensures FilledUpTo(before, now[ALL[index] := Filled(now[ALL[index]], code, systemError)], ALL[..index + 1], code, systemError)
  {
    AllAreMandatory(index);
    assert ALL[..index + 1] == ALL[..index] + [ALL[index]];
  }

  lemma AllFilled(before: Ledger, now: Ledger, code: Code, systemError: Option<int>)
    requires FilledUpTo(before, now, ALL[..|ALL|], code, systemError)
    requires forall c: Case :: c in now <==> Mandatory(c)
    ensures forall c | c in now :: now[c] == Filled(before[c], code, systemError)
  {
    AllIsComplete();
    assert ALL[..|ALL|] == ALL;
  }

  /** What `BlockUnreached` does to the ledger as a whole. */
  lemma FillingKeeps(before: Ledger, after: Ledger, code: Code, systemError: Option<int>)
    requires after.Keys == before.Keys && !code.NotReached?
    requires forall c | c in after :: after[c] == Filled(before[c], code, systemError)
    ensures Keeps(before, after) && AllReached(after)
  {
    forall c | c in before ensures after[c] == Filled(before[c], code, systemError) {}
  }

  ghost predicate WrittenOnce(ledger: Ledger, writes: map<Case, nat>) {
    forall c | c in ledger && !c.Clean? :: c in writes && writes[c] == 1
  }

  lemma ReachedIsWrittenOnce(ledger: Ledger, writes: map<Case, nat>)
    requires WriteOnce(ledger, writes) && AllReached(ledger)
    ensures WrittenOnce(ledger, writes)
  {
    forall c | c in ledger && !c.Clean? ensures c in writes && writes[c] == 1 {
      assert ledger[c].Reached() && writes[c] <= 1;
    }
  }

  /** How often each case was written: never while unreached, and once, outside TL-CLEAN, when reached. */
  ghost predicate WriteOnce(ledger: Ledger, writes: map<Case, nat>) {
    && writes.Keys == ledger.Keys
    && (forall c | c in ledger :: writes[c] == 0 <==> !ledger[c].Reached())
    && (forall c | c in ledger && !c.Clean? :: writes[c] <= 1)
  }
}
