/**
 * What a run of the suite can observe of the platform, and which observation each case
 * stands for. Nothing restricts the values; every operation may also throw instead.
 */
module ProbeFacts {
  import opened Common
  import opened LedgerCases

  datatype RaceResult = RaceResult(succeeded: bool, error: int)

  datatype Inventory = Inventory(mainImagePresent: bool, total: nat, unexpected: nat, unknown: nat)

  /** The identities of source, copy and reopened copy, and the digest of a file that differs. */
  datatype Copy = Copy(
    expected: string, source: string, sourceSize: nat,
    copied: nat, written: string, sameObject: bool, reopened: string, mismatch: string)

  datatype Races = Races(
    write: RaceResult, replace: RaceResult, delete: RaceResult, rename: RaceResult, directoryRename: RaceResult,
    adjacent: RaceResult, control: RaceResult)

  /** The worker of the reparse test: its exit code when it ended in time. */
  datatype Reparse = Reparse(
    finalPathMatches: bool, ready: bool, exitCode: Option<int>, pathStable: bool, noReparseRemains: bool, removed: bool)

  datatype Token = Token(nonElevated: bool, elevationType: int, adminEnabled: bool, adminDenyOnly: bool, linked: bool, dangerous: nat)

  /** A child that should exit by itself: its exit code when it did so in time. */
  datatype FirstChild = FirstChild(
    inJob: bool, outerJob: bool, mitigated: bool, imageMatches: bool, nonElevated: bool, exitCode: Option<int>)

  /** A child that should not; the last two are two queries after the termination. */
  datatype Timed = Timed(ready: bool, early: bool, terminated: bool, systemError: int, exited: bool, stillExited: bool)

  datatype Tree = Tree(parentInJob: bool, members: nat, allMembers: bool, allExited: bool)

  datatype Environment = Environment(ready: bool, exitCode: Option<bv32>)

  datatype Modules = Modules(
    pathMatches: bool, identityMatches: bool,
    initial: Option<Inventory>, initialError: Option<int>, runtime: Option<Inventory>, runtimeError: Option<int>)

  datatype Restricted = Restricted(token: Token, inJob: bool, mitigated: bool, exitCode: Option<int>)

  datatype Cleaning = Cleaning(sourceStable: bool, helpersAbsent: bool, velociraptorAbsent: bool, removed: bool)

  datatype Facts = Facts(
    copy: Copy, races: Races, reparse: Reparse,
    imports: nat, highestAvailable: bool, token: Token,
    first: FirstChild, timeout: Timed, cancel: Timed, tree: Tree,
    limitExitCode: Option<int>, limitMembers: nat,
    guardInJob: bool, guardExited: bool,
    sentinelSet: bool, sentinelError: int, leakExitCode: Option<int>,
    environment: Environment, modules: Modules, restricted: Restricted, cleaning: Cleaning)

  const REPARSE_BLOCKED := 10
  const REPARSE_SUCCEEDED := 11
  const REPARSE_NOT_SUPPORTED := 12
  const ACTIVE_LIMIT_DENIED := 42

  /** A mutation was blocked: it failed, and with one of the two errors of a lock. */
  predicate HeldOff(race: RaceResult) { !race.succeeded && race.error in {5, 32} }

  predicate Killed(timed: Timed) { timed.ready && !timed.early && timed.terminated && timed.exited }

  predicate TreeSeen(tree: Tree) { tree.parentInJob && tree.members == 2 && tree.allMembers }

  predicate NothingUnexpected(inventory: Option<Inventory>) { inventory.Some? && inventory.value.unexpected == 0 }

  predicate Enumerated(inventory: Option<Inventory>) {
    NothingUnexpected(inventory) && inventory.value.mainImagePresent && inventory.value.total > 0
  }

  /** The restricted child's token was the one wanted, and so were its job and its image policy. */
  predicate Acceptable(r: Restricted) {
    && r.token.nonElevated && r.token.elevationType != 2 && !r.token.adminEnabled && r.token.adminDenyOnly
    && !r.token.linked && r.token.dangerous == 0 && r.inJob && r.mitigated
  }

  predicate ReparseHeld(r: Reparse) {
    && r.finalPathMatches && r.ready && r.exitCode == Some(REPARSE_BLOCKED)
    && r.pathStable && r.noReparseRemains && r.removed
  }

  /** What a pass of each case says about the platform; no launch case and no comparison can ever pass. */
  predicate Holds(c: Case, f: Facts) {
    match c
    case Id(n) => IdHolds(n, f)
    case Img(n) => ImgHolds(n, f)
    case Tok(n) => TokHolds(n, f)
    case Job(n) => JobHolds(n, f)
    case Hnd(_) => f.sentinelSet && f.leakExitCode == Some(0)
    case Env(_) => f.environment.ready && f.environment.exitCode == Some(0)
    case Vr(_) => false
    case Clean(n) => CleanHolds(n, f.cleaning)
    case Fp(_) => true
  }

  predicate IdHolds(n: nat, f: Facts) {
    if n == 1 then f.copy.source == f.copy.expected
    else if n == 2 then
      && f.copy.copied == f.copy.sourceSize && f.copy.written == f.copy.expected
      && f.copy.sameObject && f.copy.reopened == f.copy.expected
    else if n == 3 then f.copy.mismatch != f.copy.expected
    else if n == 4 then HeldOff(f.races.write)
    else if n == 5 then HeldOff(f.races.replace)
    else if n == 6 then HeldOff(f.races.delete)
    else if n == 7 then HeldOff(f.races.rename)
    else if n == 8 then HeldOff(f.races.directoryRename)
    else if n == 9 then !f.races.adjacent.succeeded
    else if n == 10 then ReparseHeld(f.reparse)
    else f.races.control.succeeded
  }

  predicate ImgHolds(n: nat, f: Facts) {
    if n == 1 then f.imports != 0 && f.highestAvailable
    else if n == 2 then f.first.mitigated
    else if n == 3 then f.modules.pathMatches && f.modules.identityMatches && Enumerated(f.modules.initial)
    else if n == 4 then Enumerated(f.modules.runtime)
    else NothingUnexpected(f.modules.initial) && NothingUnexpected(f.modules.runtime)
  }

  predicate TokHolds(n: nat, f: Facts) {
    if n == 1 then true
    else if n == 2 then (f.token.elevationType == 3 && f.token.linked) || (f.token.nonElevated && !f.token.linked)
    else if n == 3 then false
    else Acceptable(f.restricted) && f.restricted.exitCode == Some(0)
  }

  predicate JobHolds(n: nat, f: Facts) {
    if n == 1 || n == 2 then f.first.inJob
    else if n == 3 then f.first.exitCode == Some(0)
    else if n == 4 then Killed(f.timeout)
    else if n == 5 then Killed(f.cancel)
    else if n == 6 then TreeSeen(f.tree)
    else if n == 8 then f.limitExitCode == Some(ACTIVE_LIMIT_DENIED) && f.limitMembers <= 1
    else if n == 9 then !f.guardInJob && f.guardExited
    else TreeSeen(f.tree) && f.tree.allExited
  }

  predicate CleanHolds(n: nat, f: Cleaning) {
    if n == 1 then f.helpersAbsent
    else if n == 2 then f.velociraptorAbsent
    else f.removed && f.sourceStable && f.helpersAbsent && f.velociraptorAbsent
  }

  /** What a fail of each case says: as a rule the opposite. Two cases can also fail on the first child. */
  predicate Broken(c: Case, f: Facts) {
    match c
    case Img(n) => !ImgHolds(n, f) || (n == 3 && !f.first.imageMatches)
    case Tok(n) => !TokHolds(n, f) || (n == 5 && !f.first.nonElevated)
    case _ => !Holds(c, f)
  }

  /** Where a phase may find no verdict: nothing to enumerate, a worker that reports nothing, a step held back. */
  predicate MayBeOpen(c: Case, f: Facts) {
    match c
    case Id(n) => n == 10
    case Img(n) => (n == 3 && f.modules.initial.None?) || n == 4 || n == 5
    case Tok(n) => n == 3 || n == 5
    case Hnd(_) => !f.sentinelSet
    case Vr(n) => n != 1
    case _ => false
  }

  // ----- what each finding says -----

  /** What the mutation of that case came to. */
  function RaceOf(n: nat, r: Races): RaceResult
    requires 4 <= n <= 9
  {
    if n == 4 then r.write else if n == 5 then r.replace else if n == 6 then r.delete
    else if n == 7 then r.rename else if n == 8 then r.directoryRename else r.adjacent
  }

  predicate Unexpected(inventory: Option<Inventory>) { inventory.Some? && inventory.value.unexpected != 0 }

  predicate NotEnumerated(inventory: Option<Inventory>) {
    inventory.Some? && (!inventory.value.mainImagePresent || inventory.value.total == 0)
  }

  /** Some bit beyond the thirteen is set. */
  predicate ForeignMask(exitCode: Option<bv32>) { exitCode.Some? && exitCode.value & !0x1fff != 0 }

  /** The finding is one for this case, and true of the platform. */
  predicate Says(c: Case, x: Finding, f: Facts) {
    match c
    case Id(n) =>
      if n <= 3 then CopySays(n, x, f.copy)
      else if n == 10 then ReparseSays(x, f.reparse)
      else RaceSays(n, x, f.races)
    case Img(n) => if n <= 2 then ImageSays(n, x, f) else ModuleSays(n, x, f.modules, f.first)
    case Tok(n) => if n <= 3 then TokenSays(n, x, f.token) else RestrictedSays(n, x, f.restricted, f.first)
    case Job(n) =>
      if n <= 3 then FirstSays(n, x, f.first)
      else if n <= 5 then TimedSays(n, x, if n == 4 then f.timeout else f.cancel)
      else if n == 8 || n == 9 then GuardSays(n, x, f)
      else TreeSays(n, x, f.tree)
    case Hnd(_) =>
      (x == SentinelInheritFlagFailed && !f.sentinelSet)
      || (f.sentinelSet && x == if f.leakExitCode == Some(0) then UnlistedSentinelNotInherited else InheritedHandleLeak)
    case Env(_) => EnvironmentSays(x, f.environment)
    case Vr(n) =>
      if n == 1 then
        x == MandatoryImageBindingTestsNotComplete || (x == AdjacentDllMutationSucceeded && f.races.adjacent.succeeded)
      else x == LaunchPreconditionsFailed
    case Clean(n) => CleanSays(n, x, f.cleaning)
    case Fp(_) => x == InjectedUnsafeStateRejected
  }

  predicate CopySays(n: nat, x: Finding, copy: Copy) {
    || (x == HandleIdentityAndSha256Verified && n == 1 && copy.source == copy.expected)
    || (x == SourceDigestMismatch && n == 1 && copy.source != copy.expected)
    || (x == CreateNewCopyFlushReopenVerified && n == 2 && copy.copied == copy.sourceSize && copy.sameObject
        && copy.written == copy.reopened == copy.expected)
    || (x == CopyIdentityMismatch && n == 2 && (copy.copied != copy.sourceSize || copy.written != copy.expected))
    || (x == DestinationReopenMismatch && n == 2 && (!copy.sameObject || copy.reopened != copy.expected))
    || (x == ActualDigestMismatchRejected && n == 3 && copy.mismatch != copy.expected)
    || (x == MismatchFalselyAccepted && n == 3 && copy.mismatch == copy.expected)
  }

  predicate RaceSays(n: nat, x: Finding, r: Races) {
    || (x == MutationSucceeded && 4 <= n <= 9 && RaceOf(n, r).succeeded)
    || (x == UnexpectedMutationError && 4 <= n <= 8 && !RaceOf(n, r).succeeded && RaceOf(n, r).error !in {5, 32})
    || (x == WriteBlocked && n == 4 && HeldOff(r.write))
    || (x == ReplaceBlocked && n == 5 && HeldOff(r.replace))
    || (x == DeleteBlocked && n == 6 && HeldOff(r.delete))
    || (x == FileRenameBlocked && n == 7 && HeldOff(r.rename))
    || (x == DirectoryRenameBlocked && n == 8 && HeldOff(r.directoryRename))
    || (x == AdjacentCreateBlocked && n == 9 && !r.adjacent.succeeded)
    || (x == PostReleaseMutationSucceeded && n == 11 && r.control.succeeded)
    || (x == PostReleaseControlFailed && n == 11 && !r.control.succeeded)
  }

  predicate ReparseSays(x: Finding, r: Reparse) {
    || (x == ReparseRenameBlocked && ReparseHeld(r))
    || (x == ReparseVerificationFailed && (!r.pathStable || !r.noReparseRemains))
    || (x == ReparseInitialFinalPathMismatch && !r.finalPathMatches)
    || (x == ReparseWorkerPreResumeInvariantFailed && !r.ready)
    || (x == ReparseWorkerTimeout && r.exitCode.None?)
    || (x == ReparseReplacementUnexpectedlySucceeded && r.exitCode == Some(REPARSE_SUCCEEDED))
    || (x == ReparseOperationNotSupported && r.exitCode == Some(REPARSE_NOT_SUPPORTED))
    || (x == ReparseOperationNotTested && r.exitCode.Some?
        && r.exitCode.value !in {REPARSE_BLOCKED, REPARSE_SUCCEEDED, REPARSE_NOT_SUPPORTED})
    || (x == ReparseFixtureCleanupFailed && !r.removed)
    || (x == ReparseWorkerUncontrolledFailure)  // an exception
  }

  predicate ImageSays(n: nat, x: Finding, f: Facts) {
    || (x == PeImportsAndManifestObserved && n == 1 && f.imports != 0 && f.highestAvailable)
    || (x == PeInventoryIncomplete && n == 1 && (f.imports == 0 || !f.highestAvailable))
    || (x == ImageLoadPolicyVerified && n == 2 && f.first.mitigated)
    || (x == ImageLoadPolicyMissing && n == 2 && !f.first.mitigated)
  }

  predicate ModuleSays(n: nat, x: Finding, m: Modules, first: FirstChild) {
    || (x == MainImagePathMismatch && n == 3 && (!m.pathMatches || !first.imageMatches))
    || (x == ReopenedMainImageFileIdMismatch && n == 3 && !m.identityMatches)
    || (x == InitialModuleEnumerationUnavailable && n == 3 && m.initial.None?)
    || (x == InitialMainImageNotEnumerated && n == 3 && NotEnumerated(m.initial))
    || (x == InitialUnexpectedUserWritableModule && n == 3 && Unexpected(m.initial))
    || (x == InitialModulesClassified && n == 3 && Enumerated(m.initial) && m.initial.value.unknown == 0)
    || (x == InitialModulesClassifiedWithUnknown && n == 3 && Enumerated(m.initial) && m.initial.value.unknown != 0)
    || (x == RuntimeModuleEnumerationUnavailable && n == 4 && m.runtime.None?)
    || (x == RuntimeMainImageNotEnumerated && n == 4 && NotEnumerated(m.runtime))
    || (x == RuntimeUnexpectedUserWritableModule && n == 4 && Unexpected(m.runtime))
    || (x == RuntimeModulesClassified && n == 4 && Enumerated(m.runtime) && m.runtime.value.unknown == 0)
    || (x == RuntimeModulesClassifiedWithUnknown && n == 4 && Enumerated(m.runtime) && m.runtime.value.unknown != 0)
    || (x == UnexpectedModuleRejected && n == 5 && (Unexpected(m.initial) || Unexpected(m.runtime)))
    || (x == ModuleRejectionRequiresBothWindows && n == 5 && (m.initial.None? || m.runtime.None?))
    || (x == NoUnexpectedModule && n == 5 && NothingUnexpected(m.initial) && NothingUnexpected(m.runtime))
    || (x == ModuleEnumerationNotImplemented && n == 4)  // no phase got there
    || (x == RuntimeModuleRejectionNotExercised && n == 5)
  }

  predicate TokenSays(n: nat, x: Finding, token: Token) {
    || (x == TokenClassifiedWithoutIdentity && n == 1)
    || (x == DefaultRejectedFilteredAdmin && n == 2 && token.elevationType == 3 && token.linked)
    || (x == DefaultCandidateStandardToken && n == 2 && token.nonElevated && !token.linked)
    || (x == DefaultTokenNotAcceptable && n == 2
        && !(token.elevationType == 3 && token.linked) && (!token.nonElevated || token.linked))
    || (x == ComparisonWithheldAfterSecurityBlocker && n == 3)
  }

  predicate RestrictedSays(n: nat, x: Finding, r: Restricted, first: FirstChild) {
    || (x == SyntheticChildTokenElevated && n == 5 && !first.nonElevated)
    || (x == RestrictedChildElevated && (!r.token.nonElevated || r.token.elevationType == 2))
    || (x == RestrictedAdminGroupStateInvalid && (r.token.adminEnabled || !r.token.adminDenyOnly))
    || (x == RestrictedChildLinkedTokenPresent && r.token.linked)
    || (x == RestrictedDangerousPrivilegeEnabled && r.token.dangerous != 0)
    || (x == RestrictedChildNotInJob && !r.inJob)
    || (x == RestrictedImageMitigationMissing && !r.mitigated)
    || (x == RestrictedTokenCreatedChild && n == 4 && r.exitCode == Some(0))
    || (x == RestrictedChildExitFailed && n == 4 && r.exitCode != Some(0))
    || (x == NonElevatedChildVerified && n == 5 && r.exitCode == Some(0))
    || (x == ChildTokenTestFailed && n == 5 && r.exitCode != Some(0))
    || (x == RestrictedProcessNotCreated && n == 5)  // an exception
  }

  predicate FirstSays(n: nat, x: Finding, first: FirstChild) {
    || (x == ChildNotInJob && n == 1 && !first.inJob)
    || (x == JobListAssignedDuringCreation && n == 1 && first.inJob)
    || (x == OuterJobNestedAssignment && n == 2 && first.inJob && first.outerJob)
    || (x == NoOuterJobAssignment && n == 2 && first.inJob && !first.outerJob)
    || (x == NormalExitInJob && n == 3 && first.exitCode == Some(0))
    || (x == NormalChildDidNotExit && n == 3 && first.exitCode != Some(0))
  }

  predicate TimedSays(n: nat, x: Finding, timed: Timed) {
    || (x == PreResumeInvariantFailed && !timed.ready)
    || (x == LongChildExitedEarly && timed.early)
    || (x == TerminateJobFailed && !timed.terminated)
    || (x == JobTerminationTimeout && !timed.stillExited)
    || (x == TimeoutTerminatedJob && n == 4 && timed.stillExited)
    || (x == ExplicitCancelTerminatedJob && n == 5 && timed.stillExited)
  }

  predicate TreeSays(n: nat, x: Finding, tree: Tree) {
    || (x == ParentNotInJob && n == 6 && !tree.parentInJob)
    || (x == DescendantNotObservedInJob && n == 6 && tree.members != 2)
    || (x == DescendantMembershipFailed && n == 6 && !tree.allMembers)
    || (x == ParentAndChildInSameJob && n == 6 && TreeSeen(tree))
    || (x == KillOnCloseTerminatedTree && n == 7 && tree.allExited)
    || (x == TreeSurvivedJobClose && n == 7 && !tree.allExited)
    || (x == NoSurvivingJobMembers && n == 10 && tree.allExited)
    || (x == OrphanDescendant && n == 10 && !tree.allExited)
  }

  predicate GuardSays(n: nat, x: Finding, f: Facts) {
    || (x == ActiveProcessLimitEnforced && n == 8 && f.limitExitCode == Some(ACTIVE_LIMIT_DENIED) && f.limitMembers <= 1)
    || (x == ActiveProcessLimitFailed && n == 8 && (f.limitExitCode != Some(ACTIVE_LIMIT_DENIED) || f.limitMembers > 1))
    || (x == UnexpectedJobMembership && n == 9 && f.guardInJob)
    || (x == UnassignedSuspendedChildRejected && n == 9 && !f.guardInJob && f.guardExited)
    || (x == UnassignedChildSurvived && n == 9 && !f.guardExited)
  }

  predicate EnvironmentSays(x: Finding, e: Environment) {
    || (x == EnvironmentPreResumeInvariantFailed && !e.ready)
    || (x == EnvironmentChildTimeout && e.exitCode.None?)
    || (x == EnvironmentExitMaskInvalid && ForeignMask(e.exitCode))
    || (x == ExactEnvironmentObserved && e.exitCode == Some(0))
    || (x == EnvironmentListFailed && e.exitCode.Some? && e.exitCode.value != 0 && !ForeignMask(e.exitCode))
  }

  predicate CleanSays(n: nat, x: Finding, c: Cleaning) {
    || (x == NoSyntheticHelperRemains && n == 1 && c.helpersAbsent)
    || (x == SyntheticHelperRemains && n == 1 && !c.helpersAbsent)
    || (x == NoVelociraptorPresent && n == 2 && c.velociraptorAbsent)
    || (x == VelociraptorPresent && n == 2 && !c.velociraptorAbsent)
    || (x == ScopedRunRootRemoved && n == 3 && CleanHolds(3, c))
    || (x == CleanupOrSourceStabilityFailed && n == 3 && !CleanHolds(3, c))
  }

  /**
   * Borne out: a pass always, a fail unless an exception stands in for it, an open case where
   * it may be open; and a finding if it is true.
   */
  ghost predicate Borne(r: CaseResult, holds: bool, broken: bool, mayBeOpen: bool, told: bool) {
    && (r.outcome == Pass ==> holds)
    && (r.outcome == Fail && !r.code.Raised? ==> broken)
    && (r.outcome in {NotTested, Blocked} && r.code.Found? ==> mayBeOpen)
    && (r.code.Found? ==> told)
  }

  /** The results of a case that are borne out by what there was to observe. */
  ghost function Just(c: Case, f: Facts): iset<CaseResult> {
    iset r: CaseResult |
      Borne(r, Holds(c, f), Broken(c, f), MayBeOpen(c, f), r.code.Found? && Says(c, r.code.finding, f))
  }

  ghost predicate AllJust(ledger: Ledger, f: Facts) { forall c | c in ledger :: ledger[c] in Just(c, f) }

  // ----- each family by itself -----

  lemma OfCopies(f: Facts)
    ensures forall n: nat, r: CaseResult | n <= 3 :: r in Just(Id(n), f) <==>
              Borne(r, IdHolds(n, f), !IdHolds(n, f), false,
                    r.code.Found? && CopySays(n, r.code.finding, f.copy))
  {
    hide RaceSays, ReparseSays, ImageSays, ModuleSays, TokenSays, RestrictedSays, FirstSays, TimedSays, GuardSays,
      TreeSays, EnvironmentSays, CleanSays, ImgHolds, TokHolds, JobHolds, CleanHolds;
  }

  lemma OfRaces(f: Facts)
    ensures forall n: nat, r: CaseResult | n > 3 && n != 10 :: r in Just(Id(n), f) <==>
              Borne(r, IdHolds(n, f), !IdHolds(n, f), false,
                    r.code.Found? && RaceSays(n, r.code.finding, f.races))
  {
    hide CopySays, ReparseSays, ImageSays, ModuleSays, TokenSays, RestrictedSays, FirstSays, TimedSays, GuardSays,
      TreeSays, EnvironmentSays, CleanSays, ImgHolds, TokHolds, JobHolds, CleanHolds;
  }

  lemma OfReparse(f: Facts)
    ensures forall r: CaseResult :: r in Just(Id(10), f) <==>
              Borne(r, ReparseHeld(f.reparse), !ReparseHeld(f.reparse), true,
                    r.code.Found? && ReparseSays(r.code.finding, f.reparse))
  {
    hide CopySays, RaceSays, ImageSays, ModuleSays, TokenSays, RestrictedSays, FirstSays, TimedSays, GuardSays,
      TreeSays, EnvironmentSays, CleanSays, ImgHolds, TokHolds, JobHolds, CleanHolds;
  }

  lemma OfImages(f: Facts)
    ensures forall n: nat, r: CaseResult | n <= 2 :: r in Just(Img(n), f) <==>
              Borne(r, ImgHolds(n, f), !ImgHolds(n, f), false,
                    r.code.Found? && ImageSays(n, r.code.finding, f))
  {
    hide CopySays, RaceSays, ReparseSays, ModuleSays, TokenSays, RestrictedSays, FirstSays, TimedSays, GuardSays,
      TreeSays, EnvironmentSays, CleanSays, IdHolds, TokHolds, JobHolds, CleanHolds;
  }

  lemma OfModules(f: Facts)
    ensures forall n: nat, r: CaseResult | 3 <= n <= 5 :: r in Just(Img(n), f) <==>
              Borne(r, ImgHolds(n, f), !ImgHolds(n, f) || (n == 3 && !f.first.imageMatches),
                    (n == 3 ==> f.modules.initial.None?),
                    r.code.Found? && ModuleSays(n, r.code.finding, f.modules, f.first))
  {
    hide CopySays, RaceSays, ReparseSays, ImageSays, TokenSays, RestrictedSays, FirstSays, TimedSays, GuardSays,
      TreeSays, EnvironmentSays, CleanSays, IdHolds, TokHolds, JobHolds, CleanHolds;
  }

  lemma OfTokens(f: Facts)
    ensures forall n: nat, r: CaseResult | n <= 3 :: r in Just(Tok(n), f) <==>
              Borne(r, TokHolds(n, f), !TokHolds(n, f), n == 3,
                    r.code.Found? && TokenSays(n, r.code.finding, f.token))
  {
    hide CopySays, RaceSays, ReparseSays, ImageSays, ModuleSays, RestrictedSays, FirstSays, TimedSays, GuardSays,
      TreeSays, EnvironmentSays, CleanSays, IdHolds, ImgHolds, JobHolds, CleanHolds;
  }

  lemma OfRestricted(f: Facts)
    ensures forall n: nat, r: CaseResult | 4 <= n <= 5 :: r in Just(Tok(n), f) <==>
              Borne(r, TokHolds(n, f), !TokHolds(n, f) || (n == 5 && !f.first.nonElevated), n == 5,
                    r.code.Found? && RestrictedSays(n, r.code.finding, f.restricted, f.first))
  {
    hide CopySays, RaceSays, ReparseSays, ImageSays, ModuleSays, TokenSays, FirstSays, TimedSays, GuardSays,
      TreeSays, EnvironmentSays, CleanSays, IdHolds, ImgHolds, JobHolds, CleanHolds;
  }

  lemma OfFirst(f: Facts)
    ensures forall n: nat, r: CaseResult | n <= 3 :: r in Just(Job(n), f) <==>
              Borne(r, JobHolds(n, f), !JobHolds(n, f), false,
                    r.code.Found? && FirstSays(n, r.code.finding, f.first))
  {
    hide CopySays, RaceSays, ReparseSays, ImageSays, ModuleSays, TokenSays, RestrictedSays, TimedSays, GuardSays,
      TreeSays, EnvironmentSays, CleanSays, IdHolds, ImgHolds, TokHolds, CleanHolds;
  }

  lemma OfTimed(f: Facts)
    ensures forall n: nat, r: CaseResult | 4 <= n <= 5 :: r in Just(Job(n), f) <==>
              Borne(r, JobHolds(n, f), !JobHolds(n, f), false,
                    r.code.Found? && TimedSays(n, r.code.finding, if n == 4 then f.timeout else f.cancel))
  {
    hide CopySays, RaceSays, ReparseSays, ImageSays, ModuleSays, TokenSays, RestrictedSays, FirstSays, GuardSays,
      TreeSays, EnvironmentSays, CleanSays, IdHolds, ImgHolds, TokHolds, CleanHolds;
  }

  lemma OfGuards(f: Facts)
    ensures forall n: nat, r: CaseResult | 8 <= n <= 9 :: r in Just(Job(n), f) <==>
              Borne(r, JobHolds(n, f), !JobHolds(n, f), false,
                    r.code.Found? && GuardSays(n, r.code.finding, f))
  {
    hide CopySays, RaceSays, ReparseSays, ImageSays, ModuleSays, TokenSays, RestrictedSays, FirstSays, TimedSays,
      TreeSays, EnvironmentSays, CleanSays, IdHolds, ImgHolds, TokHolds, CleanHolds;
  }

  lemma OfTree(f: Facts)
    ensures forall n: nat, r: CaseResult | n == 6 || n == 7 || n == 10 :: r in Just(Job(n), f) <==>
              Borne(r, JobHolds(n, f), !JobHolds(n, f), false,
                    r.code.Found? && TreeSays(n, r.code.finding, f.tree))
  {
    hide CopySays, RaceSays, ReparseSays, ImageSays, ModuleSays, TokenSays, RestrictedSays, FirstSays, TimedSays,
      GuardSays, EnvironmentSays, CleanSays, IdHolds, ImgHolds, TokHolds, CleanHolds;
  }

  lemma OfEnvironment(f: Facts)
    ensures forall r: CaseResult :: r in Just(Env(1), f) <==>
              Borne(r, f.environment.ready && f.environment.exitCode == Some(0),
                    !(f.environment.ready && f.environment.exitCode == Some(0)), false,
                    r.code.Found? && EnvironmentSays(r.code.finding, f.environment))
  {
    hide CopySays, RaceSays, ReparseSays, ImageSays, ModuleSays, TokenSays, RestrictedSays, FirstSays, TimedSays,
      GuardSays, TreeSays, CleanSays, IdHolds, ImgHolds, TokHolds, JobHolds, CleanHolds;
  }

  lemma OfClean(f: Facts)
    ensures forall n: nat, r: CaseResult :: r in Just(Clean(n), f) <==>
              Borne(r, CleanHolds(n, f.cleaning), !CleanHolds(n, f.cleaning), false,
                    r.code.Found? && CleanSays(n, r.code.finding, f.cleaning))
  {
    hide CopySays, RaceSays, ReparseSays, ImageSays, ModuleSays, TokenSays, RestrictedSays, FirstSays, TimedSays,
      GuardSays, TreeSays, EnvironmentSays, IdHolds, ImgHolds, TokHolds, JobHolds;
  }

  // ----- the results of the phases are borne out -----

  /** What stands for an exception claims nothing. */
  lemma ExceptionIsJust(c: Case, r: CaseResult, f: Facts)
    requires r.code.Raised? && r.outcome != Pass
    ensures r in Just(c, f)
  {
    hide Holds, Broken, Says, MayBeOpen;
  }

  lemma SourceJust(f: Facts)
    ensures (if f.copy.source == f.copy.expected then CaseResult(Pass, Found(HandleIdentityAndSha256Verified), None)
                        else CaseResult(Fail, Found(SourceDigestMismatch), None)) in Just(Id(1), f)
  {
    hide Just;
    OfCopies(f);
  }

  lemma CopyJust(f: Facts)
    requires f.copy.copied != f.copy.sourceSize || f.copy.written != f.copy.expected
    ensures CaseResult(Fail, Found(CopyIdentityMismatch), None) in Just(Id(2), f)
  {
    hide Just;
    OfCopies(f);
  }

  lemma ReopenJust(f: Facts)
    requires f.copy.copied == f.copy.sourceSize && f.copy.written == f.copy.expected
    ensures (if f.copy.sameObject && f.copy.reopened == f.copy.expected
                        then CaseResult(Pass, Found(CreateNewCopyFlushReopenVerified), None)
                        else CaseResult(Fail, Found(DestinationReopenMismatch), None)) in Just(Id(2), f)
  {
    hide Just;
    OfCopies(f);
  }

  lemma MismatchJust(f: Facts)
    ensures (if f.copy.mismatch != f.copy.expected then CaseResult(Pass, Found(ActualDigestMismatchRejected), None)
                        else CaseResult(Fail, Found(MismatchFalselyAccepted), None)) in Just(Id(3), f)
  {
    hide Just;
    OfCopies(f);
  }

  lemma AdjacentJust(f: Facts)
    ensures (if f.races.adjacent.succeeded then CaseResult(Fail, Found(MutationSucceeded), None)
                        else CaseResult(Pass, Found(AdjacentCreateBlocked), Some(f.races.adjacent.error))) in Just(Id(9), f)
  {
    hide Just;
    OfRaces(f);
  }

  lemma ControlJust(f: Facts)
    ensures (if f.races.control.succeeded then CaseResult(Pass, Found(PostReleaseMutationSucceeded), None)
                         else CaseResult(Fail, Found(PostReleaseControlFailed), Some(f.races.control.error))) in Just(Id(11), f)
  {
    hide Just;
    OfRaces(f);
  }

  lemma ReparseFailureJust(f: Facts, systemError: Option<int>)
    ensures CaseResult(NotTested, Found(ReparseWorkerUncontrolledFailure), None) in Just(Id(10), f)
    ensures !f.reparse.removed ==> CaseResult(Fail, Found(ReparseFixtureCleanupFailed), systemError) in Just(Id(10), f)
  {
    hide Just;
    OfReparse(f);
  }

  lemma ImportsJust(f: Facts)
    ensures (if f.imports != 0 && f.highestAvailable then CaseResult(Pass, Found(PeImportsAndManifestObserved), None)
                         else CaseResult(Fail, Found(PeInventoryIncomplete), None)) in Just(Img(1), f)
  {
    hide Just;
    OfImages(f);
  }

  lemma MitigationJust(f: Facts)
    ensures (if f.first.mitigated then CaseResult(Pass, Found(ImageLoadPolicyVerified), None)
                         else CaseResult(Fail, Found(ImageLoadPolicyMissing), None)) in Just(Img(2), f)
  {
    hide Just;
    OfImages(f);
  }

  lemma ExitsJust(f: Facts)
    ensures !f.first.imageMatches ==> CaseResult(Fail, Found(MainImagePathMismatch), None) in Just(Img(3), f)
    ensures !f.first.nonElevated ==> CaseResult(Fail, Found(SyntheticChildTokenElevated), None) in Just(Tok(5), f)
  {
    hide Just;
    OfModules(f);
    OfRestricted(f);
  }

  lemma FixedTokensJust(f: Facts)
    ensures CaseResult(Pass, Found(TokenClassifiedWithoutIdentity), None) in Just(Tok(1), f)
    ensures CaseResult(NotTested, Found(ComparisonWithheldAfterSecurityBlocker), None) in Just(Tok(3), f)
  {
    hide Just;
    OfTokens(f);
  }

  lemma DefaultTokenJust(f: Facts)
    ensures (if f.token.elevationType == 3 && f.token.linked then CaseResult(Pass, Found(DefaultRejectedFilteredAdmin), None)
                         else if f.token.nonElevated && !f.token.linked then CaseResult(Pass, Found(DefaultCandidateStandardToken), None)
                         else CaseResult(Fail, Found(DefaultTokenNotAcceptable), None)) in Just(Tok(2), f)
  {
    hide Just;
    OfTokens(f);
  }

  lemma AssignmentJust(f: Facts)
    ensures (if f.first.inJob then CaseResult(Pass, Found(JobListAssignedDuringCreation), None)
                         else CaseResult(Fail, Found(ChildNotInJob), None)) in Just(Job(1), f)
    ensures f.first.inJob ==>
              CaseResult(Pass, Found(if f.first.outerJob then OuterJobNestedAssignment
                                     else NoOuterJobAssignment), None) in Just(Job(2), f)
  {
    hide Just;
    OfFirst(f);
  }

  lemma NormalExitJust(f: Facts)
    ensures (if f.first.exitCode == Some(0) then CaseResult(Pass, Found(NormalExitInJob), None)
                         else CaseResult(Fail, Found(NormalChildDidNotExit), None)) in Just(Job(3), f)
  {
    hide Just;
    OfFirst(f);
  }

  lemma TreeJust(f: Facts)
    ensures !f.tree.parentInJob ==> CaseResult(Fail, Found(ParentNotInJob), None) in Just(Job(6), f)
    ensures f.tree.members != 2 ==> CaseResult(Fail, Found(DescendantNotObservedInJob), None) in Just(Job(6), f)
    ensures !f.tree.allMembers ==> CaseResult(Fail, Found(DescendantMembershipFailed), None) in Just(Job(6), f)
    ensures TreeSeen(f.tree) ==> CaseResult(Pass, Found(ParentAndChildInSameJob), None) in Just(Job(6), f)
  {
    hide Just;
    OfTree(f);
  }

  lemma KillJust(f: Facts)
    requires TreeSeen(f.tree)
    ensures (if f.tree.allExited then CaseResult(Pass, Found(KillOnCloseTerminatedTree), None)
             else CaseResult(Fail, Found(TreeSurvivedJobClose), None)) in Just(Job(7), f)
  {
    hide Just;
    OfTree(f);
  }

  lemma OrphanJust(f: Facts)
    requires TreeSeen(f.tree)
    ensures (if f.tree.allExited then CaseResult(Pass, Found(NoSurvivingJobMembers), None)
             else CaseResult(Fail, Found(OrphanDescendant), None)) in Just(Job(10), f)
  {
    hide Just;
    OfTree(f);
  }

  lemma LimitJust(f: Facts)
    ensures (if f.limitExitCode == Some(ACTIVE_LIMIT_DENIED) && f.limitMembers <= 1
                         then CaseResult(Pass, Found(ActiveProcessLimitEnforced), None)
                         else CaseResult(Fail, Found(ActiveProcessLimitFailed), None)) in Just(Job(8), f)
  {
    hide Just;
    OfGuards(f);
  }

  lemma GuardJust(f: Facts)
    ensures (if f.guardInJob then CaseResult(Fail, Found(UnexpectedJobMembership), None)
                         else if f.guardExited then CaseResult(Pass, Found(UnassignedSuspendedChildRejected), None)
                         else CaseResult(Fail, Found(UnassignedChildSurvived), None)) in Just(Job(9), f)
  {
    hide Just;
    OfGuards(f);
  }

  lemma HandleJust(f: Facts)
    ensures (if !f.sentinelSet then CaseResult(Blocked, Found(SentinelInheritFlagFailed), Some(f.sentinelError))
                         else if f.leakExitCode == Some(0) then CaseResult(Pass, Found(UnlistedSentinelNotInherited), None)
                         else CaseResult(Fail, Found(InheritedHandleLeak), None)) in Just(Hnd(1), f)
  {
    hide CopySays, RaceSays, ReparseSays, ImageSays, ModuleSays, TokenSays, RestrictedSays, FirstSays, TimedSays,
      GuardSays, TreeSays, EnvironmentSays, CleanSays, IdHolds, ImgHolds, TokHolds, JobHolds, CleanHolds;
  }

  lemma RestrictedJust(f: Facts)
    requires Acceptable(f.restricted)
    ensures (if f.restricted.exitCode == Some(0) then CaseResult(Pass, Found(RestrictedTokenCreatedChild), None)
                         else CaseResult(Fail, Found(RestrictedChildExitFailed), None)) in Just(Tok(4), f)
    ensures (if f.restricted.exitCode == Some(0) then CaseResult(Pass, Found(NonElevatedChildVerified), None)
                         else CaseResult(Fail, Found(ChildTokenTestFailed), None)) in Just(Tok(5), f)
  {
    hide Just;
    OfRestricted(f);
  }

  lemma NotCreatedJust(f: Facts, systemError: Option<int>)
    ensures CaseResult(Blocked, Found(RestrictedProcessNotCreated), systemError) in Just(Tok(5), f)
  {
    hide Just;
    OfRestricted(f);
  }

  lemma FirstLaunchJust(f: Facts, adjacentMutationSucceeded: bool)
    requires adjacentMutationSucceeded ==> f.races.adjacent.succeeded
    ensures CaseResult(Fail, Found(if adjacentMutationSucceeded then AdjacentDllMutationSucceeded
                                                else MandatoryImageBindingTestsNotComplete), None) in Just(Vr(1), f)
  {
    hide CopySays, RaceSays, ReparseSays, ImageSays, ModuleSays, TokenSays, RestrictedSays, FirstSays, TimedSays,
      GuardSays, TreeSays, EnvironmentSays, CleanSays, IdHolds, ImgHolds, TokHolds, JobHolds, CleanHolds;
  }

  lemma LaunchJust(n: nat, f: Facts)
    requires n != 1
    ensures CaseResult(NotTested, Found(LaunchPreconditionsFailed), None) in Just(Vr(n), f)
  {
    hide CopySays, RaceSays, ReparseSays, ImageSays, ModuleSays, TokenSays, RestrictedSays, FirstSays, TimedSays,
      GuardSays, TreeSays, EnvironmentSays, CleanSays, IdHolds, ImgHolds, TokHolds, JobHolds, CleanHolds;
  }

  lemma NotReachedJust(f: Facts)
    ensures CaseResult(NotTested, Found(ModuleEnumerationNotImplemented), None) in Just(Img(4), f)
    ensures CaseResult(NotTested, Found(RuntimeModuleRejectionNotExercised), None) in Just(Img(5), f)
  {
    hide Just;
    OfModules(f);
  }

  lemma InjectedJust(n: nat, f: Facts)
    ensures CaseResult(Pass, Found(InjectedUnsafeStateRejected), None) in Just(Fp(n), f)
  {
    hide CopySays, RaceSays, ReparseSays, ImageSays, ModuleSays, TokenSays, RestrictedSays, FirstSays, TimedSays,
      GuardSays, TreeSays, EnvironmentSays, CleanSays, IdHolds, ImgHolds, TokHolds, JobHolds, CleanHolds;
  }

  lemma HelpersJust(f: Facts)
    ensures (if f.cleaning.helpersAbsent then CaseResult(Pass, Found(NoSyntheticHelperRemains), None)
             else CaseResult(Fail, Found(SyntheticHelperRemains), None)) in Just(Clean(1), f)
  {
    hide Just;
    OfClean(f);
  }

  lemma VelociraptorJust(f: Facts)
    ensures (if f.cleaning.velociraptorAbsent then CaseResult(Pass, Found(NoVelociraptorPresent), None)
             else CaseResult(Fail, Found(VelociraptorPresent), None)) in Just(Clean(2), f)
  {
    hide Just;
    OfClean(f);
  }

  lemma RunRootJust(f: Facts)
    ensures (if CleanHolds(3, f.cleaning) then CaseResult(Pass, Found(ScopedRunRootRemoved), None)
                           else CaseResult(Fail, Found(CleanupOrSourceStabilityFailed), None)) in Just(Clean(3), f)
  {
    hide Just;
    OfClean(f);
  }

  lemma NothingToJustify(ledger: Ledger, f: Facts)
    requires forall c | c in ledger :: ledger[c] == UNREACHED
    ensures AllJust(ledger, f)
  {
    hide Holds, Broken, Says, MayBeOpen;
  }

  lemma UnvisitedJust(c: Case, r: CaseResult, f: Facts)
    requires r.outcome == Blocked && r.code.Unvisited?
    ensures r in Just(c, f)
  {
    hide Holds, Broken, Says, MayBeOpen;
  }
}
