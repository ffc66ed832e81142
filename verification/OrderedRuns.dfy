/**
 Runs in the order of the contract, each state executed at most once: no two of their patches create
 the same revision, so every transition they create is one the reconciler takes, and whatever ends
 them, what they report is a receipt the contract takes.
 */
module OrderedRuns {
  import opened Wrappers
  import opened Patterns
  import opened Revision
  import opened Reconciliation
  import opened Contract
  import opened Enablement
  import opened EnablementLaws
  import opened EngineEvidence

  // ---- Revision names ----

  /** The first place where the names of two tags differ. */
  function Differs(a: Label, b: Label): nat {
    match (a, b)
    case (AiOff, AiOn) => 4
    case (AiOn, AiOff) => 4
    case (AiOff, Abort) => 1
    case (AiOn, Abort) => 1
    case (Abort, AiOff) => 1
    case (Abort, AiOn) => 1
    case (RecoverB, RecoverP) => 8
    case (RecoverP, RecoverB) => 8
    case _ => 0
  }

  lemma LabelsDiffer(a: Label, b: Label)
    requires a != b
    ensures Differs(a, b) < |LabelText(a)| && Differs(a, b) < |LabelText(b)|
    ensures LabelText(a)[Differs(a, b)] != LabelText(b)[Differs(a, b)]
  {
  }

  lemma LabelShows(pkg: Package, tag: Label, image: string, i: nat)
    requires i < |LabelText(tag)|
    ensures var r := RevisionOf(pkg, tag, image);
      |pkg.appName| + 2 + i < |r| && r[|pkg.appName| + 2 + i] == LabelText(tag)[i]
  {
    hide LabelText, AfterLast, Take;
    var r, suffix := RevisionOf(pkg, tag, image), Suffix(pkg, tag, image);
    assert r == (pkg.appName + "--") + suffix;
    assert suffix[i] == LabelText(tag)[i];
  }

  /** Patches under different tags never create the same revision, whatever images they deploy. */
  lemma RevisionsDiffer(pkg: Package, a: Label, one: string, b: Label, other: string)
    requires a != b
    ensures RevisionOf(pkg, a, one) != RevisionOf(pkg, b, other)
  {
    hide LabelText, RevisionOf, Differs;
    LabelsDiffer(a, b);
    LabelShows(pkg, a, one, Differs(a, b));
    LabelShows(pkg, b, other, Differs(a, b));
  }

  // ---- What a run in order keeps ----

  /** The order in which a run uses its tags; an emergency recovery comes last. */
  function Rank(tag: Label): nat {
    match tag
    case AiOff => 0
    case Budget => 1
    case RecoverB => 2
    case Provider => 3
    case RecoverP => 4
    case AiOn => 5
    case Abort => 6
  }

  /** The engine stands at the revision the run started from, or at one of a tag already used. */
  ghost predicate StandsBelow(pkg: Package, start: string, k: nat, revision: string) {
    revision == start || exists tag, image :: CreatedBelow(pkg, k, tag, image, revision)
  }

  predicate CreatedBelow(pkg: Package, k: nat, tag: Label, image: string, revision: string) {
    Rank(tag) < k && revision == RevisionOf(pkg, tag, image)
  }

  ghost predicate InOrder(pkg: Package, start: string, k: nat, st: Engine) {
    RevisionName(st.revision) && StandsBelow(pkg, start, k, st.revision) &&
    st.configuration.Some? && ValidConfiguration(st.configuration.value) &&
    forall i | 0 <= i < |st.accepted| :: ValidPending(st.accepted[i])
  }

  /** The start is a well-named revision that no patch of this package could have created. */
  ghost predicate ForeignStart(pkg: Package, start: string) {
    RevisionName(start) && forall tag, image :: start != RevisionOf(pkg, tag, image)
  }

  /** A clock that answers an acknowledgement answers with a non-negative number. */
  predicate Timed(w: PatchWorld) {
    w.clock.Some? ==> w.clock.value.Seconds? && w.clock.value.at >= 0.0
  }

  lemma InOrderLater(pkg: Package, start: string, j: nat, k: nat, st: Engine)
    requires InOrder(pkg, start, j, st) && j <= k
    ensures InOrder(pkg, start, k, st)
  {
    hide RevisionOf;
    if st.revision != start {
      var tag, image :| CreatedBelow(pkg, j, tag, image, st.revision);
      assert CreatedBelow(pkg, k, tag, image, st.revision);
    }
  }

  lemma NextIsNew(pkg: Package, start: string, k: nat, revision: string, tag: Label, image: string)
    requires ForeignStart(pkg, start) && StandsBelow(pkg, start, k, revision) && k <= Rank(tag)
    ensures RevisionOf(pkg, tag, image) != revision
  {
    hide RevisionOf;
    if revision != start {
      var older, was :| CreatedBelow(pkg, k, older, was, revision);
      RevisionsDiffer(pkg, older, was, tag, image);
    }
  }

  /** A patch under a tag not yet used leaves a valid transition, if it leaves one at all. */
  lemma ApplyInOrder(
    sx: Syntax, pkg: Package, start: string, k: nat, st: Engine, enabled: bool, tag: Label, role: Role,
    ctx: Context, rehearsal: bool, w: PatchWorld)
    requires ResourceName(pkg.appName) && ForeignStart(pkg, start) && Timed(w) && AllowedRole(role)
    requires InOrder(pkg, start, k, st) && k <= Rank(tag)
    ensures InOrder(pkg, start, Rank(tag) + 1, Apply(sx, pkg, st, enabled, tag, role, ctx, rehearsal, w).0)
  {
    hide Prepare, RevisionOf, RevisionName, ImageReference;
    var prepared := Prepare(sx, pkg, st, enabled, tag, ctx, rehearsal);
    if prepared.Ok? && w.patch.PatchAccepted? && w.clock.Some? {
      var ready := prepared.value;
      NextIsNew(pkg, start, k, st.revision, tag, ready.image);
      NewTransitionValidExactly(sx, pkg, st, enabled, tag, role, ctx, rehearsal, w, ready);
      var after := Apply(sx, pkg, st, enabled, tag, role, ctx, rehearsal, w).0;
      assert CreatedBelow(pkg, Rank(tag) + 1, tag, ready.image, after.revision);
      assert ValidPending(after.pending[after.revision]);
    } else {
      InOrderLater(pkg, start, k, Rank(tag) + 1, st);
    }
  }

  lemma RecoverInOrder(
    sx: Syntax, pkg: Package, start: string, k: nat, st: Engine, tag: Label, role: Role,
    ctx: Context, overwrite: bool, w: PatchWorld, placeholder: bool)
    requires ResourceName(pkg.appName) && ForeignStart(pkg, start) && Timed(w) && AllowedRole(role)
    requires InOrder(pkg, start, k, st) && k <= Rank(tag)
    ensures InOrder(pkg, start, Rank(tag) + 1,
                    Recover(sx, pkg, st, tag, role, ctx, overwrite, w, placeholder).0)
  {
    hide Target, Apply, Verify, StandsBelow, ValidPending, RevisionName, ForeignStart, CandidateImage, RevisionOf,
      ValidConfiguration, SettingsFor;
    var after := Recover(sx, pkg, st, tag, role, ctx, overwrite, w, placeholder).0;
    ApplyInOrder(sx, pkg, start, k, st, false, tag, role, ctx, false, w);
    InOrderLater(pkg, start, k, Rank(tag) + 1, st);
  }

  lemma EnabledHalfInOrder(
    sx: Syntax, pkg: Package, start: string, k: nat, st: Engine, r: Rehearsal, ctx: Context,
    w: PatchWorld, browser: BrowserReply)
    requires ResourceName(pkg.appName) && ForeignStart(pkg, start) && Timed(w) && AllowedRole(r.enablingRole)
    requires InOrder(pkg, start, k, st) && k <= Rank(r.enabling)
    ensures InOrder(pkg, start, Rank(r.enabling) + 1, EnabledHalf(sx, pkg, st, r, ctx, w, browser).0)
  {
    hide Target, Apply, Verify, StandsBelow, ValidPending, RevisionName, ForeignStart;
    ApplyInOrder(sx, pkg, start, k, st, true, r.enabling, r.enablingRole, ctx, r.budget, w);
  }

  lemma RehearsalInOrder(sx: Syntax, pkg: Package, start: string, k: nat, st: Engine, r: Rehearsal, s: Step)
    requires ResourceName(pkg.appName) && ForeignStart(pkg, start) && Timed(s.world) && Timed(s.recovery)
    requires AllowedRole(r.enablingRole) && AllowedRole(r.recoveringRole)
    requires InOrder(pkg, start, k, st) && k <= Rank(r.enabling) < Rank(r.recovering)
    ensures InOrder(pkg, start, Rank(r.recovering) + 1, RehearsalStep(sx, pkg, st, r, s).0)
  {
    hide EnabledHalf, Recover, InOrder, ForeignStart;
    EnabledHalfInOrder(sx, pkg, start, k, st, r, s.ctx, s.world, s.browser);
    var mid := EnabledHalf(sx, pkg, st, r, s.ctx, s.world, s.browser).0;
    RecoverInOrder(sx, pkg, start, Rank(r.enabling) + 1, mid, r.recovering, r.recoveringRole, s.ctx,
                   false, s.recovery, true);
  }

  lemma VerifyActivationInOrder(
    pkg: Package, start: string, k: nat, st: Engine, name: Option<string>, role: Role, s: Step, checked: bool)
    requires InOrder(pkg, start, k, st)
    ensures InOrder(pkg, start, k, VerifyActivation(pkg, st, name, role, s, checked).0)
  {
    hide Verify, StandsBelow;
  }

  /** How many tags are used up after `n` executed states. */
  function TagsUsed(n: nat): nat {
    if n <= 1 then 0 else if n <= 4 then 1 else if n <= 6 then 3 else if n <= 9 then 5 else 6
  }

  predicate TimedStep(s: Step) {
    Timed(s.world) && Timed(s.recovery)
  }

  lemma ExecuteInOrder(sx: Syntax, pkg: Package, start: string, n: nat, st: Engine, s: Step)
    requires ResourceName(pkg.appName) && ForeignStart(pkg, start) && TimedStep(s) && n < |EXECUTED|
    requires InOrder(pkg, start, TagsUsed(n), st)
    ensures InOrder(pkg, start, TagsUsed(n + 1), Execute(sx, pkg, st, EXECUTED[n], s).0)
  {
    hide Target, Apply, RehearsalStep, VerifyActivation, StandsBelow, ForeignStart, RevisionName;
    InOrderLater(pkg, start, TagsUsed(n), TagsUsed(n + 1), st);
    var state := EXECUTED[n];
    match state {
      case ActivateAiDisabledCandidate =>
        ApplyInOrder(sx, pkg, start, 0, st, false, AiOff, AiDisabledCandidate, s.ctx, false, s.world);
      case VerifyAiDisabledCandidate =>
        VerifyActivationInOrder(
          pkg, start, TagsUsed(n), st, s.ctx.disabledRevision, AiDisabledCandidate, s, true);
      case BudgetFailureRehearsal => RehearsalInOrder(sx, pkg, start, 1, st, BUDGET_REHEARSAL, s);
      case ProviderFailureRehearsal => RehearsalInOrder(sx, pkg, start, 3, st, PROVIDER_REHEARSAL, s);
      case ActivateAiEnabledRevision =>
        ApplyInOrder(sx, pkg, start, 5, st, true, AiOn, AiEnabled, s.ctx, false, s.world);
      case VerifyAiEnabledRevision =>
        VerifyActivationInOrder(pkg, start, TagsUsed(n), st, s.ctx.finalRevision, AiEnabled, s, false);
      case _ =>
    }
  }

  lemma {:induction false} RunInOrder(
    sx: Syntax, pkg: Package, p: Projection, revision: string, configuration: Configuration,
    steps: nat -> Step, n: nat)
    requires ResourceName(pkg.appName) && ForeignStart(pkg, revision) && ValidConfiguration(configuration)
    requires n <= |EXECUTED| && forall i | 0 <= i < n :: TimedStep(steps(i))
    ensures InOrder(pkg, revision, TagsUsed(n),
                    EngineAfter(sx, pkg, Start(revision, p, configuration), EXECUTED[..n], steps))
    decreases n
  {
    hide Execute, EngineAfter, ForeignStart, TagsUsed, TimedStep, InOrder, Start, ResourceName;
    var start := Start(revision, p, configuration);
    if n == 0 {
      StartIsInOrder(pkg, p, revision, configuration);
      assert EngineAfter(sx, pkg, start, EXECUTED[..0], steps) == start by { EngineGrows(sx, pkg, start, steps, 1); }
    } else {
      RunInOrder(sx, pkg, p, revision, configuration, steps, n - 1);
      var before := EngineAfter(sx, pkg, start, EXECUTED[..n - 1], steps);
      ExecuteInOrder(sx, pkg, revision, n - 1, before, steps(n - 1));
      EngineGrows(sx, pkg, start, steps, n);
    }
  }

  lemma StartIsInOrder(pkg: Package, p: Projection, revision: string, configuration: Configuration)
    requires ForeignStart(pkg, revision) && ValidConfiguration(configuration)
    ensures InOrder(pkg, revision, TagsUsed(0), Start(revision, p, configuration))
  {
  }

  lemma AbortIsLast(n: nat)
    ensures TagsUsed(n) <= Rank(Abort)
  {
  }

  /**
   In a run in order that starts at a revision not of this package, cut off anywhere and followed by an
   emergency recovery or not, every transition ever created is one the reconciler takes: no failure of
   the run is a refusal of the reconciler's contract.
   */
  lemma EveryTransitionIsValid(
    sx: Syntax, pkg: Package, p: Projection, revision: string, configuration: Configuration,
    steps: nat -> Step, n: nat, ctx: Context, attempted: bool, w: PatchWorld, placeholder: bool)
    requires ResourceName(pkg.appName) && ForeignStart(pkg, revision) && ValidConfiguration(configuration)
    requires n <= |EXECUTED| && Timed(w) && forall i | 0 <= i < n :: TimedStep(steps(i))
    ensures var st := EngineAfter(sx, pkg, Start(revision, p, configuration), EXECUTED[..n], steps);
      var after := EmergencyRecovery(sx, pkg, st, ctx, attempted, w, placeholder).0;
      (forall i | 0 <= i < |st.accepted| :: ValidPending(st.accepted[i])) &&
      (forall i | 0 <= i < |after.accepted| :: ValidPending(after.accepted[i]))
  {
    hide Recover, ForeignStart, ValidPending, StandsBelow, TagsUsed;
    RunInOrder(sx, pkg, p, revision, configuration, steps, n);
    var st := EngineAfter(sx, pkg, Start(revision, p, configuration), EXECUTED[..n], steps);
    AbortIsLast(n);
    RecoverInOrder(sx, pkg, revision, TagsUsed(n), st, Abort, EmergencyDisabled, ctx, true, w, placeholder);
  }

  // ---- The receipt of a run that failed ----

  const OPERATION_FAILED: string := "ai_enablement_" + "operation_failed"
  const EMERGENCY_DISABLE_FAILED: string := "ai_enablement_" + "emergency_disable_failed"

  /** `_closed_failure_code`: `text` is that of an exception of the tools' own kinds, and None for any other. */
  function ClosedFailureCode(text: Option<string>): string {
    if text.Some? && FailureCode(text.value) then text.value else OPERATION_FAILED
  }

  /** Whatever ended the run, the code reported has the form of a failure code, and is kept if it had it. */
  lemma ClosedCodeIsCode(text: Option<string>)
    ensures FailureCode(ClosedFailureCode(text))
    ensures text.Some? && FailureCode(text.value) ==> ClosedFailureCode(text) == text.value
  {
    hide FailureCode;
    PrefixedIsCode("operation_failed");
  }

  lemma EmergencyCodeIsCode()
    ensures FailureCode(EMERGENCY_DISABLE_FAILED)
  {
    hide FailureCode;
    PrefixedIsCode("emergency_disable_failed");
  }

  lemma PrefixedIsCode(tail: string)
    requires 3 <= |tail| <= 96 && All(tail, FailureCodeChar)
    ensures FailureCode("ai_enablement_" + tail)
  {
    var s := "ai_enablement_" + tail;
    assert s[..14] == "ai_enablement_" && s[14..] == tail;
  }

  /**
   What the runner reports after `n` successful states: `recovery` is None when no real secret write had been
   attempted, and a recovery that raises takes the place of the failure code.
   */
  function AttemptOf(
    sha256: string, text: Option<string>, n: nat, gathered: seq<Evidence>,
    recovery: Option<Result<Evidence, Failure>>) : FailedAttempt
    requires n <= |EXECUTED|
  {
    var completed := STATE_ORDER[..n + 1];
    match recovery
    case None => FailedAttempt(sha256, ClosedFailureCode(text), completed, gathered, None)
    case Some(Err(_)) =>
      FailedAttempt(sha256, EMERGENCY_DISABLE_FAILED, completed, gathered, None)
    case Some(Ok(e)) =>
      FailedAttempt(
        sha256, ClosedFailureCode(text), completed, gathered, Some(RecoveryRecord(true, true, e)))
  }

  /**
   However far a run in order got, whatever exception ended it, and whether or not it needed the emergency
   recovery and that raised, what it reports is a receipt the contract takes, provided no evidence holds
   prohibited text.
   */
  lemma FailedRunHasReceipt(
    prohibited: Evidence -> bool, sx: Syntax, pkg: Package, st: Engine, steps: nat -> Step, n: nat,
    ctx: Context, attempted: bool, w: PatchWorld, placeholder: bool, text: Option<string>)
    requires n <= |EXECUTED| && Sha256Text(pkg.sha256)
    ensures var g := Gathered(sx, pkg, st, EXECUTED[..n], steps);
      var r := EmergencyRecovery(
        sx, pkg, EngineAfter(sx, pkg, st, EXECUTED[..n + if n < |EXECUTED| then 1 else 0], steps),
        ctx, attempted, w, placeholder).1;
      g.Some? && (forall i | 0 <= i < |g.value| :: !prohibited(g.value[i])) &&
      (attempted && r.Ok? ==> !prohibited(r.value)) ==>
        ValidFailedAttempt(
          prohibited, AttemptOf(pkg.sha256, text, n, g.value, if attempted then Some(r) else None))
  {
    hide Recover, EngineAfter, Gathered, ValidReconciliations, FailureCode, ClosedFailureCode, Sha256Text,
      ValidEvidence;
    EvidenceIsAReceiptPrefix(prohibited, sx, pkg, st, steps, n);
    var last := EngineAfter(sx, pkg, st, EXECUTED[..n + if n < |EXECUTED| then 1 else 0], steps);
    if attempted {
      RecoverEvidence(prohibited, sx, pkg, last, Abort, EmergencyDisabled, ctx, true, w, placeholder);
    }
    ClosedCodeIsCode(text);
    EmergencyCodeIsCode();
    assert STATE_ORDER[..n + 1] <= STATE_ORDER;
  }
}
