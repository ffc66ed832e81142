/**
 The engine object of bizpulse/scripts/azure_ai_enablement_actions.py: its methods update the current
 projection, the current revision and the pending transitions in place, and are proved to make exactly
 the steps of `Enablement`.
 */
module EnablementActions {
  import opened Wrappers
  import opened Revision
  import RevisionBuilder
  import opened Reconciliation
  import opened Contract
  import opened Enablement

  class AzureAIEnablementActions {
    const sx: Syntax
    const package: Package
    var currentProjection: Option<Projection>
    var currentRevision: string
    var pendingTransitions: map<string, Pending>
    var immutableConfiguration: Option<Configuration>
    /** Every transition created and every secret write attempted; kept for the specification only. */
    ghost var accepted: seq<Pending>
    ghost var writes: seq<SecretWrite>

    ghost function State(): Engine
      reads this
    {
      Engine(currentProjection, currentRevision, pendingTransitions, immutableConfiguration, accepted,
             writes)
    }

    constructor (sx: Syntax, package: Package, rollbackRevision: string)
      ensures State() == Unread(rollbackRevision)
      ensures this.sx == sx && this.package == package
    {
      this.sx, this.package := sx, package;
      currentProjection, immutableConfiguration := None, None;
      currentRevision := rollbackRevision;
      pendingTransitions := map[];
      accepted, writes := [], [];
    }

    /** `azure_revalidator`: the observer stores the configuration, the reading the rest. */
    method AzureRevalidator(v: Revalidation, rollbackRevision: string) returns (ok: bool)
      modifies this
      ensures (State(), ok) == Revalidate(old(State()), rollbackRevision, v)
    {
      if v.RefusedUnobserved? { return false; }
      immutableConfiguration := Some(v.configuration);
      if v.RefusedObserved? { return false; }
      currentProjection := Some(v.projection);
      currentRevision := rollbackRevision;
      ok := v.credential;
    }

    /** The desired readback of one patch of the current projection. */
    method DesiredTarget(p: Projection, s: Settings) returns (r: Result<Projection, RevisionError>)
      ensures r == Target(sx, p, s)
    {
      r := RevisionBuilder.BuildPatch(sx, p, s);
      if r.Ok? { r := RevisionBuilder.CanonicalizeTarget(sx, r.value); }
    }

    method PrepareRevision(enabled: bool, tag: Label, ctx: Context, rehearsal: bool)
      returns (r: Result<Prepared, Failure>)
      ensures r == Prepare(sx, package, State(), enabled, tag, ctx, rehearsal)
    {
      hide Target;
      if currentProjection.None? || immutableConfiguration.None? {
        return Err(ActionError(AuthorityDrift, None));
      }
      var image := CandidateImage(package, ctx);
      if image.Err? { return Err(image.error); }
      if enabled && (ctx.vaultUrl.None? || ctx.clientId.None?) {
        return Err(ActionError(ResourceOutputDrift, None));
      }
      var settings := SettingsFor(package, ctx, tag, image.value, enabled, rehearsal);
      var target := DesiredTarget(currentProjection.value, settings);
      if target.Err? { return Err(ActionError(PatchUnconfirmed, None)); }
      r := Ok(Prepared(image.value, target.value));
    }

    method ApplyRevision(enabled: bool, tag: Label, role: Role, ctx: Context, rehearsal: bool, w: PatchWorld)
      returns (r: Result<string, Failure>)
      modifies this
      ensures (State(), r) == Apply(sx, package, old(State()), enabled, tag, role, ctx, rehearsal, w)
    {
      hide Prepare, Acknowledge;
      var ready := PrepareRevision(enabled, tag, ctx, rehearsal);
      if ready.Err? { return Err(ready.error); }
      r := Patch(tag, role, ready.value.image, ready.value.target, w);
    }

    /** Sends the patch of a computed target and, when acknowledged, moves the state to that target. */
    method Patch(tag: Label, role: Role, image: string, target: Projection, w: PatchWorld)
      returns (r: Result<string, Failure>)
      requires currentProjection.Some? && immutableConfiguration.Some?
      modifies this
      ensures (State(), r) == Acknowledge(package, old(State()), tag, role, image, target, w)
    {
      hide RevisionOf;
      if w.patch.PatchRaisesAction? { return Err(ActionError(w.patch.code, w.patch.evidence)); }
      if !w.patch.PatchAccepted? { return Err(ActionError(PatchUnconfirmed, None)); }
      if w.clock.None? { return Err(ForeignError); }
      var revision := RevisionOf(package, tag, image);
      var pending := Pending(
        role, Accepted, w.clock.value, currentRevision, revision,
        currentProjection.value, target, image, immutableConfiguration.value);
      pendingTransitions := pendingTransitions[revision := pending];
      currentProjection := Some(target);
      currentRevision := revision;
      accepted := accepted + [pending];
      r := Ok(revision);
    }

    method VerifyRevision(image: string, revision: string, role: Role, run: nat -> Cycle)
      returns (r: Result<Evidence, Failure>)
      ensures r == Verify(State(), revision, role, image, run)
    {
      hide Verdict;
      if revision !in pendingTransitions { return Err(ActionError(RevisionUnverified, None)); }
      var pending := pendingTransitions[revision];
      if pending.role != role || pending.targetImage != image {
        return Err(ActionError(RevisionUnverified, None));
      }
      var outcome, _, _, _ := Reconcile(pending, run);
      r := VerdictResult(outcome);
    }

    method ReconcileRevision(image: string, revision: string, role: Role, run: nat -> Cycle)
      returns (r: Result<Evidence, Failure>)
      modifies this
      ensures (State(), r) == Reconciled(old(State()), revision, role, image, run)
    {
      hide Verify;
      r := VerifyRevision(image, revision, role, run);
      pendingTransitions := pendingTransitions - {revision};
    }

    method AimOfRecovery(tag: Label, ctx: Context) returns (r: Result<Prepared, Failure>)
      ensures r == RecoveryAim(sx, package, State(), tag, ctx)
    {
      hide Target;
      if currentProjection.None? { return Err(ActionError(AuthorityDrift, None)); }
      var image := CandidateImage(package, ctx);
      if image.Err? { return Err(image.error); }
      var recovered := DesiredTarget(
        currentProjection.value, SettingsFor(package, ctx, tag, image.value, false, false));
      if recovered.Err? { return Err(ActionError(EmergencyDisableFailed, None)); }
      r := Ok(Prepared(image.value, recovered.value));
    }

    method DisableAndVerify(tag: Label, role: Role, ctx: Context, image: string, w: PatchWorld)
      returns (r: Result<Evidence, Failure>)
      modifies this
      ensures (State(), r) == Disable(sx, package, old(State()), tag, role, ctx, image, w)
    {
      hide Apply, Verify;
      var patched := ApplyRevision(false, tag, role, ctx, false, w);
      if patched.Err? { return Err(patched.error); }
      r := ReconcileRevision(image, RevisionOf(package, tag, image), role, w.run);
    }

    method RecoverDisabled(
      tag: Label, role: Role, ctx: Context, overwrite: bool, w: PatchWorld, placeholder: bool)
      returns (r: Result<Evidence, Failure>)
      modifies this
      ensures (State(), r) ==
        Recover(sx, package, old(State()), tag, role, ctx, overwrite, w, placeholder)
    {
      hide RecoveryAim, Disable, CandidateImage, EvidenceOf;
      var aim := AimOfRecovery(tag, ctx);
      if aim.Err? { return Err(aim.error); }
      var reconciliation := DisableAndVerify(tag, role, ctx, aim.value.image, w);
      if overwrite { writes := writes + [EmergencyWrite]; }
      if reconciliation.Err? {
        return Err(ActionError(EmergencyDisableFailed, EvidenceOf(reconciliation.error)));
      }
      if overwrite && !placeholder {
        return Err(ActionError(EmergencyDisableFailed, Some(reconciliation.value)));
      }
      currentProjection := Some(aim.value.target);
      r := Ok(reconciliation.value);
    }

    method RecoverFromEmergency(ctx: Context, attempted: bool, w: PatchWorld, placeholder: bool)
      returns (r: Result<Evidence, Failure>)
      modifies this
      ensures (State(), r) == EmergencyRecovery(sx, package, old(State()), ctx, attempted, w, placeholder)
    {
      hide Recover;
      if !attempted { return Err(ActionError(EmergencyBoundaryInvalid, None)); }
      r := RecoverDisabled(Abort, EmergencyDisabled, ctx, true, w, placeholder);
    }

    method RehearseEnabled(r: Rehearsal, ctx: Context, w: PatchWorld, browser: BrowserReply)
      returns (e: Result<Evidence, Failure>)
      modifies this
      ensures (State(), e) == EnabledHalf(sx, package, old(State()), r, ctx, w, browser)
    {
      hide Apply, Verify;
      var revision := ApplyRevision(true, r.enabling, r.enablingRole, ctx, r.budget, w);
      if revision.Err? { return Err(revision.error); }
      var image := CandidateImage(package, ctx);
      if image.Err? { return Err(image.error); }
      e := ReconcileRevision(image.value, revision.value, r.enablingRole, w.run);
      if e.Ok? { e := BrowserResult(browser, e.value); }
    }

    method RunRehearsal(r: Rehearsal, s: Step) returns (o: Result<Output, Failure>)
      modifies this
      ensures (State(), o) == RehearsalStep(sx, package, old(State()), r, s)
    {
      hide EnabledHalf, Recover;
      var primary := RehearseEnabled(r, s.ctx, s.world, s.browser);
      var recovery := RecoverDisabled(r.recovering, r.recoveringRole, s.ctx, false, s.recovery, true);
      if recovery.Err? { return Err(recovery.error); }
      if primary.Err? {
        return Err(if primary.error.ActionError? then primary.error else ActionError(BrowserFailed, None));
      }
      o := Ok(Output([primary.value, recovery.value], None));
    }

    method VerifyActivated(revision: Option<string>, role: Role, s: Step, checked: bool)
      returns (o: Result<Output, Failure>)
      modifies this
      ensures (State(), o) == VerifyActivation(package, old(State()), revision, role, s, checked)
    {
      hide Verify;
      var image := CandidateImage(package, s.ctx);
      if image.Err? {
        return Err(if checked then image.error else ActionError(RevisionUnverified, None));
      }
      if revision.None? { return Err(ActionError(RevisionUnverified, None)); }
      var reconciliation := ReconcileRevision(image.value, revision.value, role, s.world.run);
      if reconciliation.Err? || (checked && !s.browser.BrowserPasses?) {
        return Err(ActionError(RevisionUnverified, None));
      }
      o := Ok(Output([reconciliation.value], None));
    }

    method OperationExecutor(state: State, s: Step) returns (o: Result<Output, Failure>)
      modifies this
      ensures (State(), o) == Execute(sx, package, old(State()), state, s)
    {
      hide Apply, RehearsalStep, VerifyActivation;
      if !WithinSecretBoundary(state, s) { return Err(ActionError(SecretBoundaryInvalid, None)); }
      match state {
        case ActivateAiDisabledCandidate =>
          var revision := ApplyRevision(false, AiOff, AiDisabledCandidate, s.ctx, false, s.world);
          o := match revision case Ok(name) => Ok(Output([], Some(name))) case Err(e) => Err(e);
        case VerifyAiDisabledCandidate =>
          o := VerifyActivated(s.ctx.disabledRevision, AiDisabledCandidate, s, true);
        case BudgetFailureRehearsal => o := RunRehearsal(BUDGET_REHEARSAL, s);
        case ProviderFailureRehearsal => o := RunRehearsal(PROVIDER_REHEARSAL, s);
        case ActivateAiEnabledRevision =>
          var revision := ApplyRevision(true, AiOn, AiEnabled, s.ctx, false, s.world);
          o := match revision case Ok(name) => Ok(Output([], Some(name))) case Err(e) => Err(e);
        case VerifyAiEnabledRevision =>
          o := VerifyActivated(s.ctx.finalRevision, AiEnabled, s, false);
        case _ =>
          writes := writes + WritesOf(state, s);
          o := Inert(state, s);
      }
    }
  }
}
