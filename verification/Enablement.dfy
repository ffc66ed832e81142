/**
 The rollout engine (bizpulse/scripts/azure_ai_enablement_actions.py) as functions of its state and
 of what the outside world answers. `EnablementActions` is the class that does these steps in place.
 */
module Enablement {
  import opened Wrappers
  import opened Clock
  import opened Patterns
  import opened Revision
  import opened Reconciliation
  import opened Contract

  // ---- Data ----

  datatype Code =
    | AuthorityDrift | ResourceOutputDrift | ResourceCreateFailed | PatchUnconfirmed
    | RevisionUnverified | ImageDigestInvalid | ImagePublishFailed | BrowserFailed
    | SecretWriteFailed | SecretBoundaryInvalid | QualificationFailed
    | EmergencyDisableFailed | EmergencyBoundaryInvalid | StateNotImplemented
    | NotReconciled(state: FinalState) | ReconciliationRefused | OtherCode(text: string)

  /** An engine exception with its code and evidence, or any other exception. */
  datatype Failure = ActionError(code: Code, evidence: Option<Evidence>) | ForeignError

  datatype Package = Package(
    appName: string, sha256: string, registry: string, repository: string, identityId: string)

  /** What the runner passes along; an absent key is `None`. */
  datatype Context = Context(
    digest: Option<string>, vaultUrl: Option<string>, clientId: Option<string>,
    disabledRevision: Option<string>, finalRevision: Option<string>)

  datatype Label = AiOff | Budget | RecoverB | Provider | RecoverP | AiOn | Abort

  datatype SecretWrite = PlaceholderWrite | RealWrite | EmergencyWrite

  /**
   The state of the engine object, and two records the source does not keep: every pending transition
   ever created, and every secret write ever attempted.
   */
  datatype Engine = Engine(
    projection: Option<Projection>, revision: string, pending: map<string, Pending>,
    configuration: Option<Configuration>, accepted: seq<Pending>, writes: seq<SecretWrite>)

  datatype PatchReply =
    | PatchAccepted | PatchAnswersElse | PatchRaisesAction(code: Code, evidence: Option<Evidence>) | PatchRaises

  datatype BrowserReply = BrowserPasses | BrowserRaisesAction(code: Code, evidence: Option<Evidence>) | BrowserRaises

  /** What one PATCH and its verification meet; `clock` is None when the clock itself raises. */
  datatype PatchWorld = PatchWorld(patch: PatchReply, clock: Option<Reading>, run: nat -> Cycle)

  // ---- Names ----

  function LabelText(tag: Label): string {
    match tag
    case AiOff => "ai-off"
    case Budget => "budget"
    case RecoverB => "recover-b"
    case Provider => "provider"
    case RecoverP => "recover-p"
    case AiOn => "ai-on"
    case Abort => "abort"
  }

  function Take(s: string, n: nat): string {
    if |s| <= n then s else s[..n]
  }

  function CandidateImage(pkg: Package, ctx: Context): Result<string, Failure> {
    if ctx.digest.None? || |ctx.digest.value| != 71 || ctx.digest.value[..7] != "sha256:"
    then Err(ActionError(ImageDigestInvalid, None))
    else Ok(pkg.registry + ".azurecr.io/" + pkg.repository + "@" + ctx.digest.value)
  }

  function Suffix(pkg: Package, tag: Label, image: string): string {
    LabelText(tag) + "-" + Take(pkg.sha256, 8) + "-" + Take(AfterLast(image, "@sha256:"), 7)
  }

  function RevisionOf(pkg: Package, tag: Label, image: string): string {
    pkg.appName + "--" + Suffix(pkg, tag, image)
  }

  function SettingsFor(pkg: Package, ctx: Context, tag: Label, image: string, enabled: bool, rehearsal: bool)
    : Settings
  {
    Settings(enabled, image, Suffix(pkg, tag, image), pkg.identityId,
             if enabled then ctx.vaultUrl else None,
             if enabled then Some(SECRET_NAME) else None,
             if enabled then ctx.clientId else None,
             rehearsal)
  }

  // ---- Revalidation ----

  /**
   How the read-only revalidation goes: refused before or after the observer has been shown the
   configuration, or read in full, after which the browser credential may still be unavailable.
   */
  datatype Revalidation =
    | RefusedUnobserved
    | RefusedObserved(configuration: Configuration)
    | ReadInFull(projection: Projection, configuration: Configuration, credential: bool)

  /** `azure_revalidator`, and whether it returns. */
  function Revalidate(st: Engine, rollbackRevision: string, v: Revalidation): (Engine, bool) {
    match v
    case RefusedUnobserved => (st, false)
    case RefusedObserved(configuration) => (st.(configuration := Some(configuration)), false)
    case ReadInFull(projection, configuration, credential) =>
      (st.(projection := Some(projection), revision := rollbackRevision, configuration := Some(configuration)),
       credential)
  }

  /** The engine before anything has been read. */
  function Unread(rollbackRevision: string): Engine {
    Engine(None, rollbackRevision, map[], None, [], [])
  }

  // ---- One revision ----

  datatype Prepared = Prepared(image: string, target: Projection)

  /** What `_apply_revision` computes before it sends anything. */
  ghost function Prepare(
    sx: Syntax, pkg: Package, st: Engine, enabled: bool, tag: Label, ctx: Context, rehearsal: bool)
    : (r: Result<Prepared, Failure>)
    ensures r.Ok? ==> st.projection.Some? && st.configuration.Some?
  {
    if st.projection.None? || st.configuration.None? then Err(ActionError(AuthorityDrift, None))
    else
      match CandidateImage(pkg, ctx)
      case Err(e) => Err(e)
      case Ok(image) =>
        if enabled && (ctx.vaultUrl.None? || ctx.clientId.None?) then Err(ActionError(ResourceOutputDrift, None))
        else
          match Target(sx, st.projection.value, SettingsFor(pkg, ctx, tag, image, enabled, rehearsal))
          case Err(_) => Err(ActionError(PatchUnconfirmed, None))
          case Ok(target) => Ok(Prepared(image, target))
  }

  /** `_apply_revision`: the state changes only when the PATCH is acknowledged and the clock answers. */
  ghost function Apply(
    sx: Syntax, pkg: Package, st: Engine, enabled: bool, tag: Label, role: Role, ctx: Context,
    rehearsal: bool, w: PatchWorld) : (Engine, Result<string, Failure>)
  {
    match Prepare(sx, pkg, st, enabled, tag, ctx, rehearsal)
    case Err(e) => (st, Err(e))
    case Ok(ready) => Acknowledge(pkg, st, tag, role, ready.image, ready.target, w)
  }

  /** The PATCH of a computed target: its acknowledgement, and the bookkeeping that follows it. */
  function Acknowledge(
    pkg: Package, st: Engine, tag: Label, role: Role, image: string, target: Projection, w: PatchWorld)
    : (Engine, Result<string, Failure>)
    requires st.projection.Some? && st.configuration.Some?
  {
    match w.patch
    case PatchRaisesAction(code, evidence) => (st, Err(ActionError(code, evidence)))
    case PatchRaises => (st, Err(ActionError(PatchUnconfirmed, None)))
    case PatchAnswersElse => (st, Err(ActionError(PatchUnconfirmed, None)))
    case PatchAccepted =>
      if w.clock.None? then (st, Err(ForeignError))
      else
        var revision := RevisionOf(pkg, tag, image);
        var pending := Pending(
          role, Accepted, w.clock.value, st.revision, revision,
          st.projection.value, target, image, st.configuration.value);
        (Engine(Some(target), revision, st.pending[revision := pending], st.configuration,
                st.accepted + [pending], st.writes),
         Ok(revision))
  }

  function VerdictResult(v: Outcome): Result<Evidence, Failure> {
    match v
    case Confirmed(e) => Ok(e)
    case Stopped(e) => Err(ActionError(NotReconciled(e.finalState), Some(e)))
    case ContractInvalid => Err(ActionError(ReconciliationRefused, None))
    case Forwarded => Err(ActionError(ReconciliationRefused, None))
  }

  /** `_verify_revision`: only a pending entry of the same role and image is reconciled. */
  ghost function Verify(st: Engine, revision: string, role: Role, image: string, run: nat -> Cycle)
    : Result<Evidence, Failure>
  {
    if revision !in st.pending || st.pending[revision].role != role || st.pending[revision].targetImage != image
    then Err(ActionError(RevisionUnverified, None))
    else VerdictResult(Verdict(st.pending[revision], run))
  }

  /** `_reconcile_revision`: verify, and forget the entry whatever comes out. */
  ghost function Reconciled(st: Engine, revision: string, role: Role, image: string, run: nat -> Cycle)
    : (Engine, Result<Evidence, Failure>)
  {
    (st.(pending := st.pending - {revision}), Verify(st, revision, role, image, run))
  }

  // ---- Recovery ----

  function EvidenceOf(f: Failure): Option<Evidence> {
    if f.ActionError? then f.evidence else None
  }

  /** The disabling patch and, once acknowledged, its verification. */
  ghost function Disable(
    sx: Syntax, pkg: Package, st: Engine, tag: Label, role: Role, ctx: Context, image: string, w: PatchWorld)
    : (Engine, Result<Evidence, Failure>)
  {
    var (applied, acknowledged) := Apply(sx, pkg, st, false, tag, role, ctx, false, w);
    match acknowledged
    case Err(e) => (applied, Err(e))
    case Ok(_) => Reconciled(applied, RevisionOf(pkg, tag, image), role, image, w.run)
  }

  /** The image and disabled projection a recovery aims at, computed before anything is sent. */
  ghost function RecoveryAim(sx: Syntax, pkg: Package, st: Engine, tag: Label, ctx: Context)
    : Result<Prepared, Failure>
  {
    if st.projection.None? then Err(ActionError(AuthorityDrift, None))
    else
      match CandidateImage(pkg, ctx)
      case Err(e) => Err(e)
      case Ok(image) =>
        match Target(sx, st.projection.value, SettingsFor(pkg, ctx, tag, image, false, false))
        case Err(_) => Err(ActionError(EmergencyDisableFailed, None))
        case Ok(target) => Ok(Prepared(image, target))
  }

  function WithOverwrite(st: Engine, overwrite: bool): Engine {
    if overwrite then st.(writes := st.writes + [EmergencyWrite]) else st
  }

  /**
   `_recover_disabled`: the placeholder is overwritten whether or not the patch and its verification
   went well; `placeholder` says whether that write succeeds.
   */
  ghost function Recover(
    sx: Syntax, pkg: Package, st: Engine, tag: Label, role: Role, ctx: Context,
    overwrite: bool, w: PatchWorld, placeholder: bool) : (Engine, Result<Evidence, Failure>)
  {
    match RecoveryAim(sx, pkg, st, tag, ctx)
    case Err(e) => (st, Err(e))
    case Ok(aim) =>
      var (disabled, verified) := Disable(sx, pkg, st, tag, role, ctx, aim.image, w);
      var after := WithOverwrite(disabled, overwrite);
      match verified
      case Err(e) => (after, Err(ActionError(EmergencyDisableFailed, EvidenceOf(e))))
      case Ok(evidence) =>
        if overwrite && !placeholder
        then (after, Err(ActionError(EmergencyDisableFailed, Some(evidence))))
        else (after.(projection := Some(aim.target)), Ok(evidence))
  }

  ghost function EmergencyRecovery(
    sx: Syntax, pkg: Package, st: Engine, ctx: Context, attempted: bool, w: PatchWorld, placeholder: bool)
    : (Engine, Result<Evidence, Failure>)
  {
    if !attempted then (st, Err(ActionError(EmergencyBoundaryInvalid, None)))
    else Recover(sx, pkg, st, Abort, EmergencyDisabled, ctx, true, w, placeholder)
  }

  // ---- Rehearsals ----

  datatype Rehearsal = Rehearsal(
    enabling: Label, enablingRole: Role, budget: bool, recovering: Label, recoveringRole: Role)

  const BUDGET_REHEARSAL := Rehearsal(Budget, BudgetEnabled, true, RecoverB, BudgetRecovery)
  const PROVIDER_REHEARSAL := Rehearsal(Provider, ProviderEnabled, false, RecoverP, ProviderRecovery)

  function BrowserResult(b: BrowserReply, e: Evidence): Result<Evidence, Failure> {
    match b
    case BrowserPasses => Ok(e)
    case BrowserRaisesAction(code, evidence) => Err(ActionError(code, evidence))
    case BrowserRaises => Err(ForeignError)
  }

  /** Enable, verify, and check in the browser; the first exception ends it. */
  ghost function EnabledHalf(
    sx: Syntax, pkg: Package, st: Engine, r: Rehearsal, ctx: Context, w: PatchWorld, browser: BrowserReply)
    : (Engine, Result<Evidence, Failure>)
  {
    var (applied, acknowledged) := Apply(sx, pkg, st, true, r.enabling, r.enablingRole, ctx, r.budget, w);
    match acknowledged
    case Err(e) => (applied, Err(e))
    case Ok(revision) =>
      match CandidateImage(pkg, ctx)
      case Err(e) => (applied, Err(e))
      case Ok(image) =>
        var (after, verified) := Reconciled(applied, revision, r.enablingRole, image, w.run);
        match verified
        case Err(e) => (after, Err(e))
        case Ok(e) => (after, BrowserResult(browser, e))
  }

  /** Whatever ended the enabled half, the recovery runs; its own failure takes precedence. */
  ghost function Rehearse(
    sx: Syntax, pkg: Package, st: Engine, r: Rehearsal, ctx: Context,
    w: PatchWorld, browser: BrowserReply, recovery: PatchWorld)
    : (Engine, Result<seq<Evidence>, Failure>)
  {
    var (mid, primary) := EnabledHalf(sx, pkg, st, r, ctx, w, browser);
    var (after, recovered) := Recover(
      sx, pkg, mid, r.recovering, r.recoveringRole, ctx, false, recovery, true);
    match recovered
    case Err(e) => (after, Err(e))
    case Ok(disabled) =>
      match primary
      case Ok(enabled) => (after, Ok([enabled, disabled]))
      case Err(ActionError(code, evidence)) => (after, Err(ActionError(code, evidence)))
      case Err(ForeignError) => (after, Err(ActionError(BrowserFailed, None)))
  }

  // ---- The executor ----

  /** The environment a state is given: empty, the one deployment key, or anything else. */
  datatype Environment = EmptyEnvironment | DeployKey(key: string) | OtherEnvironment

  /** Everything one executor call is given and meets. */
  datatype Step = Step(
    ctx: Context, environment: Environment, secret: Option<string>,
    world: PatchWorld, browser: BrowserReply, recovery: PatchWorld,
    published: Option<string>, resources: Option<Failure>, written: bool, paidCalls: Option<int>)

  datatype Output = Output(evidence: seq<Evidence>, revision: Option<string>)

  const NOTHING := Output([], None)

  /** Verification of an earlier activation; every exception becomes the same code. */
  ghost function VerifyActivation(
    pkg: Package, st: Engine, revision: Option<string>, role: Role, s: Step, checked: bool)
    : (Engine, Result<Output, Failure>)
  {
    match CandidateImage(pkg, s.ctx)
    case Err(e) => (st, Err(if checked then e else ActionError(RevisionUnverified, None)))
    case Ok(image) =>
      if revision.None? then (st, Err(ActionError(RevisionUnverified, None)))
      else
        var (after, verified) := Reconciled(st, revision.value, role, image, s.world.run);
        if verified.Err? || (checked && !s.browser.BrowserPasses?)
        then (after, Err(ActionError(RevisionUnverified, None)))
        else (after, Ok(Output([verified.value], None)))
  }

  ghost function Activation(
    sx: Syntax, pkg: Package, st: Engine, enabled: bool, tag: Label, role: Role, s: Step)
    : (Engine, Result<Output, Failure>)
  {
    var (after, r) := Apply(sx, pkg, st, enabled, tag, role, s.ctx, false, s.world);
    (after, match r
            case Ok(revision) => Ok(Output([], Some(revision)))
            case Err(e) => Err(e))
  }

  ghost function RehearsalStep(sx: Syntax, pkg: Package, st: Engine, r: Rehearsal, s: Step)
    : (Engine, Result<Output, Failure>)
  {
    var (after, result) := Rehearse(sx, pkg, st, r, s.ctx, s.world, s.browser, s.recovery);
    (after, match result
            case Ok(evidence) => Ok(Output(evidence, None))
            case Err(e) => Err(e))
  }

  /** The states that leave the engine alone: what lets each of them pass. */
  function Inert(state: State, s: Step): Result<Output, Failure> {
    match state
    case PublishCandidateImage =>
      if s.published.None? then Err(ActionError(ImagePublishFailed, None))
      else if |s.published.value| != 71 || s.published.value[..7] != "sha256:"
      then Err(ActionError(ImageDigestInvalid, None))
      else Ok(NOTHING)
    case ReconcileResources =>
      (match s.resources
       case None => Ok(NOTHING)
       case Some(ActionError(code, evidence)) => Err(ActionError(code, evidence))
       case Some(ForeignError) => Err(ActionError(ResourceCreateFailed, None)))
    case ProviderFailurePlaceholderWrite =>
      if s.written then Ok(NOTHING) else Err(ActionError(SecretWriteFailed, None))
    case PaidModelQualification =>
      if !s.environment.DeployKey? || s.environment.key == "" then Err(ActionError(SecretBoundaryInvalid, None))
      else if s.paidCalls != Some(12) then Err(ActionError(QualificationFailed, None))
      else Ok(NOTHING)
    case RealSecretWrite =>
      if s.secret.None? || s.secret.value == "" then Err(ActionError(SecretBoundaryInvalid, None))
      else if s.written then Ok(NOTHING)
      else Err(ActionError(SecretWriteFailed, None))
    case PaidHostedManualSendSmoke =>
      if s.browser.BrowserPasses? then Ok(NOTHING) else Err(ActionError(BrowserFailed, None))
    case SanitizeReceipt => Ok(NOTHING)
    case _ => Err(ActionError(StateNotImplemented, None))
  }

  /** The secret writes a state attempts. */
  function WritesOf(state: State, s: Step): seq<SecretWrite> {
    if state == ProviderFailurePlaceholderWrite then [PlaceholderWrite]
    else if state == RealSecretWrite && s.secret.Some? && s.secret.value != "" then [RealWrite]
    else []
  }

  /** Key material reaches only the state it is meant for. */
  predicate WithinSecretBoundary(state: State, s: Step) {
    (state != PaidModelQualification ==> s.environment.EmptyEnvironment?) &&
    (state != RealSecretWrite ==> s.secret.None?)
  }

  /** `operation_executor`. */
  ghost function Execute(sx: Syntax, pkg: Package, st: Engine, state: State, s: Step)
    : (Engine, Result<Output, Failure>)
  {
    if !WithinSecretBoundary(state, s) then (st, Err(ActionError(SecretBoundaryInvalid, None)))
    else
      match state
      case ActivateAiDisabledCandidate => Activation(sx, pkg, st, false, AiOff, AiDisabledCandidate, s)
      case VerifyAiDisabledCandidate =>
        VerifyActivation(pkg, st, s.ctx.disabledRevision, AiDisabledCandidate, s, true)
      case BudgetFailureRehearsal => RehearsalStep(sx, pkg, st, BUDGET_REHEARSAL, s)
      case ProviderFailureRehearsal => RehearsalStep(sx, pkg, st, PROVIDER_REHEARSAL, s)
      case ActivateAiEnabledRevision => Activation(sx, pkg, st, true, AiOn, AiEnabled, s)
      case VerifyAiEnabledRevision =>
        VerifyActivation(pkg, st, s.ctx.finalRevision, AiEnabled, s, false)
      case _ => (st.(writes := st.writes + WritesOf(state, s)), Inert(state, s))
  }
}
