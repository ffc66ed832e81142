/**
 The outcome of every state of the executor on what the call is given and meets: when it succeeds, what it
 returns and leaves behind, and which failure it raises otherwise.
 */
module ExecutorOutcomes {
  import opened Wrappers
  import opened Revision
  import opened Reconciliation
  import opened Contract
  import opened Enablement
  import opened EngineEvidence
  import opened EngineOutcomes

  /** No state but the paid qualification is given an environment, and none but the real write a secret. */
  predicate Bounded(state: State, s: Step) {
    (s.environment == EmptyEnvironment || state == PaidModelQualification) &&
    (s.secret == None || state == RealSecretWrite)
  }

  lemma UnboundedIsRefused(sx: Syntax, pkg: Package, st: Engine, state: State, s: Step)
    requires !Bounded(state, s)
    ensures Execute(sx, pkg, st, state, s) == (st, Err(ActionError(SecretBoundaryInvalid, None)))
  {
  }

  // ---- States that leave the revision alone ----

  function Fails(code: Code): Result<Output, Failure> {
    Err(ActionError(code, None))
  }

  /** Publication passes on a digest of 71 characters behind the mark, and changes nothing. */
  lemma PublicationExactly(sx: Syntax, pkg: Package, st: Engine, s: Step)
    requires Bounded(PublishCandidateImage, s)
    ensures var (after, r) := Execute(sx, pkg, st, PublishCandidateImage, s);
      after == st &&
      (r == Ok(Output([], None)) <==> DigestFine(s.published)) &&
      (r == Fails(ImagePublishFailed) <==> s.published.None?) &&
      (r == Fails(ImageDigestInvalid) <==> s.published.Some? && !DigestFine(s.published))
  {
    assert st.writes + [] == st.writes;
  }

  /** The deployer's own failures keep their code and evidence, any other exception gets one code. */
  lemma ResourcesExactly(sx: Syntax, pkg: Package, st: Engine, s: Step)
    requires Bounded(ReconcileResources, s)
    ensures var (after, r) := Execute(sx, pkg, st, ReconcileResources, s);
      after == st && (r.Ok? <==> s.resources.None?) && (r.Ok? ==> r.value == Output([], None)) &&
      (r.Err? ==>
        r.error ==
          if s.resources.value.ActionError? then s.resources.value else ActionError(ResourceCreateFailed, None))
  {
    assert st.writes + [] == st.writes;
  }

  /** The placeholder is written once, whether or not the write succeeds. */
  lemma PlaceholderExactly(sx: Syntax, pkg: Package, st: Engine, s: Step)
    requires Bounded(ProviderFailurePlaceholderWrite, s)
    ensures var (after, r) := Execute(sx, pkg, st, ProviderFailurePlaceholderWrite, s);
      after == st.(writes := st.writes + [PlaceholderWrite]) &&
      r == if s.written then Ok(Output([], None)) else Fails(SecretWriteFailed)
  {
  }

  /** The qualification passes with the one deployment key, nonempty, and exactly twelve paid calls. */
  lemma QualificationExactly(sx: Syntax, pkg: Package, st: Engine, s: Step)
    requires Bounded(PaidModelQualification, s)
    ensures var (after, r) := Execute(sx, pkg, st, PaidModelQualification, s);
      var keyed := s.environment.DeployKey? && |s.environment.key| > 0;
      after == st &&
      (r == Ok(Output([], None)) <==> keyed && s.paidCalls.Some? && s.paidCalls.value == 12) &&
      (r == Fails(SecretBoundaryInvalid) <==> !keyed) &&
      (r == Fails(QualificationFailed) <==> keyed && (s.paidCalls.None? || s.paidCalls.value != 12))
  {
    assert st.writes + [] == st.writes;
  }

  /** The real secret is written only when there is one; without it, no write is attempted. */
  lemma RealWriteExactly(sx: Syntax, pkg: Package, st: Engine, s: Step)
    requires Bounded(RealSecretWrite, s)
    ensures var (after, r) := Execute(sx, pkg, st, RealSecretWrite, s);
      var given := s.secret.Some? && |s.secret.value| > 0;
      (given ==>
        after == st.(writes := st.writes + [RealWrite]) &&
        r == if s.written then Ok(Output([], None)) else Fails(SecretWriteFailed)) &&
      (!given ==> after == st && r == Fails(SecretBoundaryInvalid))
  {
    assert st.writes + [] == st.writes;
  }

  /** The hosted check passes exactly when the browser passes, and every failure of it gets one code. */
  lemma SmokeExactly(sx: Syntax, pkg: Package, st: Engine, s: Step)
    requires Bounded(PaidHostedManualSendSmoke, s)
    ensures var (after, r) := Execute(sx, pkg, st, PaidHostedManualSendSmoke, s);
      after == st && r == match s.browser
        case BrowserPasses => Ok(Output([], None))
        case BrowserRaises => Fails(BrowserFailed)
        case BrowserRaisesAction(_, _) => Fails(BrowserFailed)
  {
    assert st.writes + [] == st.writes;
  }

  /** The last state always passes, and the first is not one the executor knows. */
  lemma EndsExactly(sx: Syntax, pkg: Package, st: Engine, s: Step)
    ensures Bounded(SanitizeReceipt, s) ==> Execute(sx, pkg, st, SanitizeReceipt, s) == (st, Ok(Output([], None)))
    ensures Bounded(ReadonlyRevalidation, s) ==>
      Execute(sx, pkg, st, ReadonlyRevalidation, s) == (st, Fails(StateNotImplemented))
  {
    assert st.writes + [] == st.writes;
  }

  // ---- Activations ----

  const AI_OFF := Move(false, AiOff, AiDisabledCandidate, false)
  const AI_ON := Move(true, AiOn, AiEnabled, false)

  /** An activation is one patch; its output names the revision the patch creates. */
  lemma ActivationExactly(sx: Syntax, pkg: Package, st: Engine, enabled: bool, s: Step)
    requires var state := if enabled then ActivateAiEnabledRevision else ActivateAiDisabledCandidate;
      Bounded(state, s)
    ensures var state := if enabled then ActivateAiEnabledRevision else ActivateAiDisabledCandidate;
      var m := if enabled then AI_ON else AI_OFF;
      var (after, r) := Execute(sx, pkg, st, state, s);
      (r.Ok? <==> Sends(sx, pkg, st, s.ctx, m, s.world)) &&
      (r.Err? ==> after == st && NotSent(sx, pkg, st, s.ctx, m, s.world, r.error)) &&
      (r.Ok? ==>
        after.accepted != [] &&
        var own := Newest(after);
        Begins(sx, pkg, st, s.ctx, m, s.world, own) && after == Moved(st, own, false, []) &&
        r.value == Output([], Some(own.targetRevision)))
  {
    hide Apply, Sends, Begins, Moved, NotSent;
    var m := if enabled then AI_ON else AI_OFF;
    ApplyExactly(sx, pkg, st, s.ctx, m, s.world);
    var (after, r) := Apply(sx, pkg, st, m.enabled, m.tag, m.role, s.ctx, m.budget, s.world);
    assert r.Ok? <==> Sends(sx, pkg, st, s.ctx, m, s.world);
  }

  // ---- Verifications ----

  /**
   A verification succeeds exactly when the published digest is fine, the revision was passed along, its entry
   is pending in the role of the state and for the published image, its target is observed and, for the disabled
   candidate only, the browser passes. Its failures have one code, but for the digest of the disabled candidate.
   */
  lemma VerificationExactly(sx: Syntax, pkg: Package, st: Engine, enabled: bool, s: Step)
    requires var state := if enabled then VerifyAiEnabledRevision else VerifyAiDisabledCandidate;
      Bounded(state, s)
    ensures var state := if enabled then VerifyAiEnabledRevision else VerifyAiDisabledCandidate;
      var m := if enabled then AI_ON else AI_OFF;
      var revision := if enabled then s.ctx.finalRevision else s.ctx.disabledRevision;
      var (after, r) := Execute(sx, pkg, st, state, s);
      var asked := DigestFine(s.ctx.digest) && revision.Some?;
      var awaited := asked && Awaits(st, revision.value, m.role, Wanted(pkg, s.ctx, m).image);
      after == (if asked then st.(pending := st.pending - {revision.value}) else st) &&
      (r.Ok? <==>
        awaited && Observed(st.pending[revision.value], s.world) && (enabled || s.browser.BrowserPasses?)) &&
      (r.Ok? ==>
        |r.value.evidence| == 1 && r.value.revision.None? &&
        Speaks(st.pending[revision.value], r.value.evidence[0], HealthyTarget)) &&
      (r.Err? ==>
        r.error == ActionError(
          if !enabled && !DigestFine(s.ctx.digest) then ImageDigestInvalid else RevisionUnverified, None))
  {
    hide VerifyActivation, Observed, Speaks, Wanted, DigestFine, Awaits;
    var m := if enabled then AI_ON else AI_OFF;
    ActivationVerified(sx, pkg, st, if enabled then s.ctx.finalRevision else s.ctx.disabledRevision, m, s, !enabled);
  }

  lemma ActivationVerified(
    sx: Syntax, pkg: Package, st: Engine, revision: Option<string>, m: Move, s: Step, checked: bool)
    ensures var (after, r) := VerifyActivation(pkg, st, revision, m.role, s, checked);
      var asked := DigestFine(s.ctx.digest) && revision.Some?;
      var awaited := asked && Awaits(st, revision.value, m.role, Wanted(pkg, s.ctx, m).image);
      after == (if asked then st.(pending := st.pending - {revision.value}) else st) &&
      (r.Ok? <==>
        awaited && Observed(st.pending[revision.value], s.world) && (checked ==> s.browser.BrowserPasses?)) &&
      (r.Ok? ==>
        |r.value.evidence| == 1 && r.value.revision.None? &&
        Speaks(st.pending[revision.value], r.value.evidence[0], HealthyTarget)) &&
      (r.Err? ==>
        r.error == ActionError(
          if checked && !DigestFine(s.ctx.digest) then ImageDigestInvalid else RevisionUnverified, None))
  {
    hide Reconciled, Observed, Speaks, Wanted, DigestFine, CandidateImage, NotObserved;
    WantedIs(sx, pkg, s.ctx, m);
    if DigestFine(s.ctx.digest) && revision.Some? {
      var image := Wanted(pkg, s.ctx, m).image;
      VerifyExactly(st, revision.value, m.role, image, s.world);
      var (after, verified) := Reconciled(st, revision.value, m.role, image, s.world.run);
      assert verified.Ok? <==>
        Awaits(st, revision.value, m.role, image) && Observed(st.pending[revision.value], s.world);
    }
  }

  // ---- Rehearsals ----

  function Drill(budget: bool): Rehearsal {
    if budget then Rehearsal(Budget, BudgetEnabled, true, RecoverB, BudgetRecovery)
    else Rehearsal(Provider, ProviderEnabled, false, RecoverP, ProviderRecovery)
  }

  function DrillState(budget: bool): State {
    if budget then BudgetFailureRehearsal else ProviderFailureRehearsal
  }

  /** Both patches of a rehearsal can be sent from where it starts. */
  predicate SendsBoth(sx: Syntax, pkg: Package, st: Engine, drill: Rehearsal, s: Step) {
    Sends(sx, pkg, st, s.ctx, Enabling(drill), s.world) &&
    Sends(sx, pkg, st, s.ctx, Recovery(drill.recovering, drill.recoveringRole), s.recovery)
  }

  /** What two sent patches leave: two transitions, the second begun where the first has taken the engine. */
  ghost predicate BeginsBoth(sx: Syntax, pkg: Package, st: Engine, drill: Rehearsal, s: Step, after: Engine)
    requires SendsBoth(sx, pkg, st, drill, s)
  {
    var n, off := |st.accepted|, Recovery(drill.recovering, drill.recoveringRole);
    |after.accepted| == n + 2 &&
    Begins(sx, pkg, st, s.ctx, Enabling(drill), s.world, after.accepted[n]) &&
    var mid := Moved(st, after.accepted[n], true, []);
    Sends(sx, pkg, mid, s.ctx, off, s.recovery) &&
    Begins(sx, pkg, mid, s.ctx, off, s.recovery, after.accepted[n + 1]) &&
    after == Moved(mid, after.accepted[n + 1], true, [])
  }

  /**
   A rehearsal succeeds exactly when its enabling and its disabling patch are sent, both are observed and the
   browser passes, and then reports on both; the roles and labels are those of its state.
   */
  lemma RehearsalExactly(sx: Syntax, pkg: Package, st: Engine, budget: bool, s: Step)
    requires Bounded(DrillState(budget), s)
    ensures var (after, r) := Execute(sx, pkg, st, DrillState(budget), s);
      var n, both := |st.accepted|, SendsBoth(sx, pkg, st, Drill(budget), s);
      (both ==> BeginsBoth(sx, pkg, st, Drill(budget), s, after)) &&
      (r.Ok? <==>
        both && Observed(after.accepted[n], s.world) && Observed(after.accepted[n + 1], s.recovery) &&
        s.browser.BrowserPasses?) &&
      (r.Ok? ==> |r.value.evidence| == 2 && r.value.revision.None?)
  {
    hide Rehearse, Sends, Begins, Moved, Observed, Enables, Recovers, NotRecovered, NotEnabled, Reraised, Speaks;
    var drill := Drill(budget);
    assert drill == if budget then BUDGET_REHEARSAL else PROVIDER_REHEARSAL;
    RehearsalSucceedsExactly(sx, pkg, st, drill, s.ctx, s.world, s.browser, s.recovery);
    RehearseExactly(sx, pkg, st, drill, s.ctx, s.world, s.browser, s.recovery);
  }

  /** The engine between the halves: moved by the enabling patch when that was sent, and untouched otherwise. */
  ghost predicate Halfway(sx: Syntax, pkg: Package, st: Engine, on: Move, s: Step, mid: Engine) {
    if Sends(sx, pkg, st, s.ctx, on, s.world)
    then mid.accepted != [] && Begins(sx, pkg, st, s.ctx, on, s.world, Newest(mid)) &&
         mid == Moved(st, Newest(mid), true, [])
    else mid == st
  }

  /** A rehearsal that fails, fails as its halves do: the recovery first, then the enabled half. */
  lemma FailedRehearsal(sx: Syntax, pkg: Package, st: Engine, budget: bool, s: Step)
    requires Bounded(DrillState(budget), s) && Execute(sx, pkg, st, DrillState(budget), s).1.Err?
    ensures var (after, r) := Execute(sx, pkg, st, DrillState(budget), s);
      exists mid: Engine :: Halfway(sx, pkg, st, Enabling(Drill(budget)), s, mid) &&
        FailsFrom(sx, pkg, st, Drill(budget), s, mid, after, r.error)
  {
    hide Rehearse, EnabledHalf, Sends, Observed, Enables, Recovers, NotRecovered, NotEnabled, Reraised, Speaks, Begins,
      Moved;
    var drill := Drill(budget);
    assert drill == if budget then BUDGET_REHEARSAL else PROVIDER_REHEARSAL;
    RehearseExactly(sx, pkg, st, drill, s.ctx, s.world, s.browser, s.recovery);
    EnabledHalfExactly(sx, pkg, st, drill, s.ctx, s.world, s.browser);
    var (mid, primary) := EnabledHalf(sx, pkg, st, drill, s.ctx, s.world, s.browser);
    UnsentLeaves(sx, pkg, st, drill, s, mid);
    assert Halfway(sx, pkg, st, Enabling(drill), s, mid);
    var (after, r) := Execute(sx, pkg, st, DrillState(budget), s);
    assert FailsFrom(sx, pkg, st, drill, s, mid, after, r.error);
  }

  ghost predicate FailsFrom(
    sx: Syntax, pkg: Package, st: Engine, drill: Rehearsal, s: Step, mid: Engine, after: Engine, f: Failure)
  {
    if Recovers(sx, pkg, mid, drill.recovering, drill.recoveringRole, s.ctx, false, s.recovery, true, after)
    then exists cause: Failure ::
      NotEnabled(sx, pkg, st, drill, s.ctx, s.world, s.browser, mid, cause) && Reraised(f, cause)
    else NotRecovered(sx, pkg, mid, drill.recovering, drill.recoveringRole, s.ctx, false, s.recovery, after, f)
  }

  lemma UnsentLeaves(sx: Syntax, pkg: Package, st: Engine, drill: Rehearsal, s: Step, mid: Engine)
    ensures var e := EnabledHalf(sx, pkg, st, drill, s.ctx, s.world, s.browser);
      Sends(sx, pkg, st, s.ctx, Enabling(drill), s.world) || e.0 == st
  {
    hide EnabledHalf, Sends, Observed, NotSent, Begins, Moved, Speaks;
    EnabledHalfExactly(sx, pkg, st, drill, s.ctx, s.world, s.browser);
  }

  // ---- Outside the executor ----

  /** Without an attempted real write an emergency recovery does nothing; with one it recovers and overwrites. */
  lemma EmergencyExactly(
    sx: Syntax, pkg: Package, st: Engine, ctx: Context, attempted: bool, w: PatchWorld, placeholder: bool)
    ensures var (after, r) := EmergencyRecovery(sx, pkg, st, ctx, attempted, w, placeholder);
      (r.Ok? <==>
        attempted && Recovers(sx, pkg, st, Abort, EmergencyDisabled, ctx, true, w, placeholder, after)) &&
      (!attempted ==> after == st && r == Err(ActionError(EmergencyBoundaryInvalid, None))) &&
      (attempted && r.Err? ==> NotRecovered(sx, pkg, st, Abort, EmergencyDisabled, ctx, true, w, after, r.error)) &&
      (attempted && Sends(sx, pkg, st, ctx, Recovery(Abort, EmergencyDisabled), w) ==>
        after.accepted != [] && after == Moved(st, Newest(after), true, [EmergencyWrite]))
  {
    hide Recover, Recovers, NotRecovered, Sends, Begins, Moved, Speaks;
    RecoverExactly(sx, pkg, st, Abort, EmergencyDisabled, ctx, true, w, placeholder);
  }

  /**
   What a revalidation leaves in any engine: the observer keeps the configuration it was shown, and only a full
   reading sets projection and revision. It passes exactly when the credential is there after a full reading.
   */
  lemma RevalidationExactly(st: Engine, rollbackRevision: string, v: Revalidation)
    ensures var (after, ok) := Revalidate(st, rollbackRevision, v);
      (ok <==> v.ReadInFull? && v.credential) &&
      after.projection == (if v.ReadInFull? then Some(v.projection) else st.projection) &&
      after.revision == (if v.ReadInFull? then rollbackRevision else st.revision) &&
      after.configuration == (if v.RefusedUnobserved? then st.configuration else Some(v.configuration)) &&
      after.pending == st.pending && after.accepted == st.accepted && after.writes == st.writes
  {
  }
}
