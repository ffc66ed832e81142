/**
 The runner's check of what the executor returns (bizpulse/scripts/run_ai_enablement.py): which results of the
 states pass it, and what follows for whole runs.
 */
module RunnerCheck {
  import opened Wrappers
  import opened Patterns
  import opened Revision
  import opened Reconciliation
  import opened Contract
  import opened Enablement
  import opened EnablementLaws
  import opened EngineEvidence

  // ---- Outputs ----

  datatype Value = TextOut(text: string) | Flag(flag: bool) | Count(count: int) | One(evidence: Evidence)
                 | Many(list: seq<Evidence>)

  type Outputs = map<string, Value>

  /** The resource names of the package, as the runner derives them. */
  datatype Names = Names(vaultUrl: string, identityResourceId: string)

  /** `deployed` is what the resource deployer returns. */
  function OutputsOf(state: State, s: Step, o: Output, deployed: Outputs): Outputs {
    var digest := TextOut(if s.ctx.digest.Some? then s.ctx.digest.value else "");
    var revision := TextOut(if o.revision.Some? then o.revision.value else "");
    match state
    case PublishCandidateImage =>
      map["candidate_image_digest" := TextOut(if s.published.Some? then s.published.value else "")]
    case ActivateAiDisabledCandidate => map["candidate_image_digest" := digest, "revision" := revision]
    case VerifyAiDisabledCandidate =>
      if |o.evidence| != 1 then map[]
      else map["candidate_image_digest" := digest, "ai_enabled" := Flag(false), "reconciliation" := One(o.evidence[0])]
    case ReconcileResources => deployed
    case BudgetFailureRehearsal => map["reconciliations" := Many(o.evidence)]
    case ProviderFailureRehearsal => map["reconciliations" := Many(o.evidence)]
    case PaidModelQualification => map["paid_call_count" := Count(12)]
    case ActivateAiEnabledRevision => map["candidate_image_digest" := digest, "final_revision" := revision]
    case VerifyAiEnabledRevision =>
      if |o.evidence| != 1 then map[]
      else map["candidate_image_digest" := digest, "ai_enabled" := Flag(true), "reconciliation" := One(o.evidence[0])]
    case PaidHostedManualSendSmoke => map["paid_call_count" := Count(1)]
    case _ => map[]
  }

  // ---- The check ----

  predicate Has(outputs: Outputs, key: string, v: Value) {
    key in outputs && outputs[key] == v
  }

  predicate DigestKept(outputs: Outputs, ctx: Context) {
    ctx.digest.Some? && Has(outputs, "candidate_image_digest", TextOut(ctx.digest.value))
  }

  predicate NamesRevision(outputs: Outputs, key: string) {
    key in outputs && outputs[key].TextOut? && RevisionName(outputs[key].text)
  }

  predicate VerifiedAs(prohibited: Evidence -> bool, outputs: Outputs, ctx: Context, enabled: bool, role: Role) {
    outputs.Keys == {"candidate_image_digest", "ai_enabled", "reconciliation"} && DigestKept(outputs, ctx) &&
    outputs["ai_enabled"] == Flag(enabled) && outputs["reconciliation"].One? &&
    ValidEvidence(prohibited, outputs["reconciliation"].evidence) && outputs["reconciliation"].evidence.role == role
  }

  predicate RehearsedAs(prohibited: Evidence -> bool, outputs: Outputs, roles: seq<Role>) {
    outputs.Keys == {"reconciliations"} && outputs["reconciliations"].Many? &&
    (forall i | 0 <= i < |outputs["reconciliations"].list| ::
       ValidEvidence(prohibited, outputs["reconciliations"].list[i])) &&
    Roles(outputs["reconciliations"].list) == roles
  }

  predicate ResourcesNamed(names: Names, outputs: Outputs) {
    outputs.Keys == {"vault_url", "identity_resource_id", "managed_identity_client_id"} &&
    outputs["vault_url"] == TextOut(names.vaultUrl) &&
    outputs["identity_resource_id"] == TextOut(names.identityResourceId) &&
    outputs["managed_identity_client_id"].TextOut? && CanonicalUuid4(outputs["managed_identity_client_id"].text)
  }

  /** `_exact_result`, for the states after the read-only revalidation. */
  predicate ExactResult(
    prohibited: Evidence -> bool, names: Names, state: State, ctx: Context, outputs: Outputs)
  {
    match state
    case PublishCandidateImage =>
      outputs.Keys == {"candidate_image_digest"} && outputs["candidate_image_digest"].TextOut? &&
      ImageDigest(outputs["candidate_image_digest"].text)
    case ActivateAiDisabledCandidate =>
      outputs.Keys == {"candidate_image_digest", "revision"} && DigestKept(outputs, ctx) &&
      NamesRevision(outputs, "revision")
    case VerifyAiDisabledCandidate => VerifiedAs(prohibited, outputs, ctx, false, AiDisabledCandidate)
    case ReconcileResources => ResourcesNamed(names, outputs)
    case BudgetFailureRehearsal => RehearsedAs(prohibited, outputs, [BudgetEnabled, BudgetRecovery])
    case ProviderFailureRehearsal => RehearsedAs(prohibited, outputs, [ProviderEnabled, ProviderRecovery])
    case PaidModelQualification => outputs == map["paid_call_count" := Count(12)]
    case ActivateAiEnabledRevision =>
      outputs.Keys == {"candidate_image_digest", "final_revision"} && DigestKept(outputs, ctx) &&
      NamesRevision(outputs, "final_revision")
    case VerifyAiEnabledRevision => VerifiedAs(prohibited, outputs, ctx, true, AiEnabled)
    case PaidHostedManualSendSmoke => outputs == map["paid_call_count" := Count(1)]
    case ProviderFailurePlaceholderWrite => outputs == map[]
    case RealSecretWrite => outputs == map[]
    case SanitizeReceipt => outputs == map[]
    case ReadonlyRevalidation => false
  }

  // ---- The outputs that pass, written down whole ----

  ghost predicate NewDigest(outputs: Outputs) {
    exists digest :: ImageDigest(digest) && outputs == map["candidate_image_digest" := TextOut(digest)]
  }

  ghost predicate Activated(outputs: Outputs, ctx: Context, key: string) {
    ctx.digest.Some? &&
    exists revision ::
      RevisionName(revision) &&
      outputs == map["candidate_image_digest" := TextOut(ctx.digest.value), key := TextOut(revision)]
  }

  ghost predicate Verified(prohibited: Evidence -> bool, outputs: Outputs, ctx: Context, enabled: bool, role: Role) {
    ctx.digest.Some? &&
    exists e: Evidence ::
      ValidEvidence(prohibited, e) && e.role == role &&
      outputs == map["candidate_image_digest" := TextOut(ctx.digest.value), "ai_enabled" := Flag(enabled),
                     "reconciliation" := One(e)]
  }

  ghost predicate Deployed(names: Names, outputs: Outputs) {
    exists client ::
      CanonicalUuid4(client) &&
      outputs == map["vault_url" := TextOut(names.vaultUrl),
                     "identity_resource_id" := TextOut(names.identityResourceId),
                     "managed_identity_client_id" := TextOut(client)]
  }

  ghost predicate Rehearsed(prohibited: Evidence -> bool, outputs: Outputs, first: Role, second: Role) {
    exists e, f: Evidence :: ValidEvidence(prohibited, e) && ValidEvidence(prohibited, f) &&
      e.role == first && f.role == second && outputs == map["reconciliations" := Many([e, f])]
  }

  /** Of all outputs whatever, exactly these pass the check of a state. */
  lemma OutputsExactly(prohibited: Evidence -> bool, names: Names, state: State, ctx: Context, outputs: Outputs)
    ensures ExactResult(prohibited, names, state, ctx, outputs) <==>
      match state
      case PublishCandidateImage => NewDigest(outputs)
      case ActivateAiDisabledCandidate => Activated(outputs, ctx, "revision")
      case VerifyAiDisabledCandidate => Verified(prohibited, outputs, ctx, false, AiDisabledCandidate)
      case ReconcileResources => Deployed(names, outputs)
      case BudgetFailureRehearsal => Rehearsed(prohibited, outputs, BudgetEnabled, BudgetRecovery)
      case ProviderFailureRehearsal => Rehearsed(prohibited, outputs, ProviderEnabled, ProviderRecovery)
      case PaidModelQualification => outputs == map["paid_call_count" := Count(12)]
      case ActivateAiEnabledRevision => Activated(outputs, ctx, "final_revision")
      case VerifyAiEnabledRevision => Verified(prohibited, outputs, ctx, true, AiEnabled)
      case PaidHostedManualSendSmoke => outputs == map["paid_call_count" := Count(1)]
      case ProviderFailurePlaceholderWrite => outputs == map[]
      case RealSecretWrite => outputs == map[]
      case SanitizeReceipt => outputs == map[]
      case ReadonlyRevalidation => false
  {
    hide NewDigest, Activated, Verified, Deployed, Rehearsed, VerifiedAs, RehearsedAs, ResourcesNamed, DigestKept,
      NamesRevision, ImageDigest;
    match state {
      case PublishCandidateImage => DigestPasses(outputs);
      case ActivateAiDisabledCandidate => ActivatedPasses(outputs, ctx, "revision");
      case ActivateAiEnabledRevision => ActivatedPasses(outputs, ctx, "final_revision");
      case VerifyAiDisabledCandidate => VerifiedExactly(prohibited, outputs, ctx, false, AiDisabledCandidate);
      case VerifyAiEnabledRevision => VerifiedExactly(prohibited, outputs, ctx, true, AiEnabled);
      case ReconcileResources => DeployedExactly(names, outputs);
      case BudgetFailureRehearsal => RehearsedExactly(prohibited, outputs, BudgetEnabled, BudgetRecovery);
      case ProviderFailureRehearsal => RehearsedExactly(prohibited, outputs, ProviderEnabled, ProviderRecovery);
      case _ =>
    }
  }

  lemma DigestPasses(outputs: Outputs)
    ensures NewDigest(outputs) <==>
      outputs.Keys == {"candidate_image_digest"} && outputs["candidate_image_digest"].TextOut? &&
      ImageDigest(outputs["candidate_image_digest"].text)
  {
    hide ImageDigest;
    if outputs.Keys == {"candidate_image_digest"} && outputs["candidate_image_digest"].TextOut? {
      var v := outputs["candidate_image_digest"];
      assert outputs == map["candidate_image_digest" := TextOut(v.text)];
    }
  }

  lemma ActivatedPasses(outputs: Outputs, ctx: Context, key: string)
    requires key != "candidate_image_digest"
    ensures Activated(outputs, ctx, key) <==>
      outputs.Keys == {"candidate_image_digest", key} && DigestKept(outputs, ctx) && NamesRevision(outputs, key)
  {
    hide RevisionName;
    if outputs.Keys == {"candidate_image_digest", key} && DigestKept(outputs, ctx) && NamesRevision(outputs, key) {
      assert outputs ==
        map["candidate_image_digest" := TextOut(ctx.digest.value), key := TextOut(outputs[key].text)];
    }
  }

  lemma KeysDiffer()
    ensures "candidate_image_digest" != "ai_enabled" && "candidate_image_digest" != "reconciliation"
    ensures "ai_enabled" != "reconciliation" && "vault_url" != "identity_resource_id"
    ensures "vault_url" != "managed_identity_client_id" && "identity_resource_id" != "managed_identity_client_id"
  {
    assert |"candidate_image_digest"| == 22 && |"ai_enabled"| == 10 && |"reconciliation"| == 14;
    assert |"vault_url"| == 9 && |"identity_resource_id"| == 20 && |"managed_identity_client_id"| == 26;
  }

  lemma VerifiedExactly(prohibited: Evidence -> bool, outputs: Outputs, ctx: Context, enabled: bool, role: Role)
    ensures VerifiedAs(prohibited, outputs, ctx, enabled, role) <==> Verified(prohibited, outputs, ctx, enabled, role)
  {
    hide ValidEvidence;
    KeysDiffer();
    if VerifiedAs(prohibited, outputs, ctx, enabled, role) {
      assert outputs ==
        map["candidate_image_digest" := TextOut(ctx.digest.value), "ai_enabled" := Flag(enabled),
            "reconciliation" := One(outputs["reconciliation"].evidence)];
    }
  }

  lemma DeployedExactly(names: Names, outputs: Outputs)
    ensures ResourcesNamed(names, outputs) <==> Deployed(names, outputs)
  {
    hide CanonicalUuid4;
    KeysDiffer();
    if ResourcesNamed(names, outputs) {
      assert outputs ==
        map["vault_url" := TextOut(names.vaultUrl), "identity_resource_id" := TextOut(names.identityResourceId),
            "managed_identity_client_id" := TextOut(outputs["managed_identity_client_id"].text)];
    }
  }

  lemma RehearsedExactly(prohibited: Evidence -> bool, outputs: Outputs, first: Role, second: Role)
    ensures RehearsedAs(prohibited, outputs, [first, second]) <==> Rehearsed(prohibited, outputs, first, second)
  {
    hide ValidEvidence;
    if RehearsedAs(prohibited, outputs, [first, second]) {
      var es := outputs["reconciliations"].list;
      assert |Roles(es)| == 2 && Roles(es)[0] == first && Roles(es)[1] == second;
      assert es == [es[0], es[1]] && outputs == map["reconciliations" := Many(es)];
    }
    if Rehearsed(prohibited, outputs, first, second) {
      var e, f: Evidence :| ValidEvidence(prohibited, e) && ValidEvidence(prohibited, f) &&
        e.role == first && f.role == second && outputs == map["reconciliations" := Many([e, f])];
      assert Roles([e, f]) == [first, second];
    }
  }

  // ---- Which results pass ----

  /** What is asked beyond success of the state itself. */
  predicate Passable(prohibited: Evidence -> bool, names: Names, state: State, s: Step, o: Output, deployed: Outputs) {
    match state
    case PublishCandidateImage => s.published.Some? && ImageDigest(s.published.value)
    case ReconcileResources => ResourcesNamed(names, deployed)
    case _ => forall i | 0 <= i < |o.evidence| :: !prohibited(o.evidence[i])
  }

  lemma ActivationNames(
    sx: Syntax, pkg: Package, st: Engine, enabled: bool, tag: Label, role: Role, s: Step)
    requires ResourceName(pkg.appName)
    ensures var o := Activation(sx, pkg, st, enabled, tag, role, s).1;
      o.Ok? ==>
        s.ctx.digest.Some? && o.value.evidence == [] && o.value.revision.Some? && RevisionName(o.value.revision.value)
  {
    hide Target, RevisionName;
    ApplyIsAllOrNothing(sx, pkg, st, enabled, tag, role, s.ctx, false, s.world);
    if Activation(sx, pkg, st, enabled, tag, role, s).1.Ok? {
      var image := CandidateImage(pkg, s.ctx).value;
      TargetFacts(sx, st.projection.value, SettingsFor(pkg, s.ctx, tag, image, enabled, false));
      RevisionIsNamed(pkg, tag, image);
    }
  }

  lemma VerificationKeepsDigest(
    pkg: Package, st: Engine, revision: Option<string>, role: Role, s: Step, checked: bool)
    ensures VerifyActivation(pkg, st, revision, role, s, checked).1.Ok? ==> s.ctx.digest.Some?
  {
    hide Verify;
  }

  /** Healthy evidence in the roles due is valid exactly when none of it holds prohibited text. */
  lemma HealthyIsValid(prohibited: Evidence -> bool, es: seq<Evidence>, roles: seq<Role>)
    requires HealthyList(prohibited, es, roles) && forall i | 0 <= i < |roles| :: ContractRole(roles[i])
    ensures Roles(es) == roles
    ensures forall i | 0 <= i < |es| :: ValidEvidence(prohibited, es[i]) <==> !prohibited(es[i])
  {
    forall i | 0 <= i < |es|
      ensures es[i].role == roles[i] && (ValidEvidence(prohibited, es[i]) <==> !prohibited(es[i]))
    {
      assert HealthyIn(prohibited, es[i], roles[i]);
    }
  }

  lemma InertPasses(
    prohibited: Evidence -> bool, names: Names, state: State, s: Step, deployed: Outputs)
    requires Inert(state, s).Ok?
    ensures ExactResult(prohibited, names, state, s.ctx, OutputsOf(state, s, Inert(state, s).value, deployed)) <==>
      Passable(prohibited, names, state, s, Inert(state, s).value, deployed)
  {
    hide ImageDigest, ResourcesNamed, ValidEvidence;
  }

  /**
   A result of the executor passes the runner's check if and only if the published digest is one, the deployed
   resources have exactly the three expected outputs, and no evidence holds prohibited text, each where it applies.
   */
  lemma PassesExactly(
    prohibited: Evidence -> bool, names: Names, sx: Syntax, pkg: Package, st: Engine, state: State, s: Step,
    deployed: Outputs)
    requires ResourceName(pkg.appName) && Execute(sx, pkg, st, state, s).1.Ok?
    ensures var o := Execute(sx, pkg, st, state, s).1.value;
      ExactResult(prohibited, names, state, s.ctx, OutputsOf(state, s, o, deployed)) <==>
      Passable(prohibited, names, state, s, o, deployed)
  {
    hide Activation, RehearsalStep, VerifyActivation, Inert, ValidEvidence, HealthyIn, RevisionName, ResourceName;
    var o := Execute(sx, pkg, st, state, s).1.value;
    ExecutedEvidence(prohibited, sx, pkg, st, state, s);
    match state {
      case ActivateAiDisabledCandidate =>
        ActivationNames(sx, pkg, st, false, AiOff, AiDisabledCandidate, s);
      case ActivateAiEnabledRevision => ActivationNames(sx, pkg, st, true, AiOn, AiEnabled, s);
      case VerifyAiDisabledCandidate =>
        VerificationKeepsDigest(pkg, st, s.ctx.disabledRevision, AiDisabledCandidate, s, true);
        VerifiedPasses(prohibited, s, o, AiDisabledCandidate, false, OutputsOf(state, s, o, deployed));
      case VerifyAiEnabledRevision =>
        VerificationKeepsDigest(pkg, st, s.ctx.finalRevision, AiEnabled, s, false);
        VerifiedPasses(prohibited, s, o, AiEnabled, true, OutputsOf(state, s, o, deployed));
      case BudgetFailureRehearsal => HealthyIsValid(prohibited, o.evidence, RolesOf(state));
      case ProviderFailureRehearsal => HealthyIsValid(prohibited, o.evidence, RolesOf(state));
      case _ => InertPasses(prohibited, names, state, s, deployed);
    }
  }

  lemma VerifiedPasses(
    prohibited: Evidence -> bool, s: Step, o: Output, role: Role, enabled: bool, outputs: Outputs)
    requires HealthyList(prohibited, o.evidence, [role]) && ContractRole(role) && s.ctx.digest.Some?
    requires outputs == map["candidate_image_digest" := TextOut(s.ctx.digest.value), "ai_enabled" := Flag(enabled),
                            "reconciliation" := One(o.evidence[0])]
    ensures VerifiedAs(prohibited, outputs, s.ctx, enabled, role) <==>
      forall i | 0 <= i < |o.evidence| :: !prohibited(o.evidence[i])
  {
    hide ValidEvidence;
    HealthyIsValid(prohibited, o.evidence, [role]);
    assert Roles(o.evidence)[0] == role;
  }

  // ---- Runs that the runner lets go on ----

  /** The first `n` states have succeeded one after the other, and each result has passed. */
  ghost predicate Passed(
    prohibited: Evidence -> bool, names: Names, sx: Syntax, pkg: Package, st: Engine, steps: nat -> Step,
    deployed: Outputs, n: nat)
    requires n <= |EXECUTED|
  {
    n == 0 ||
    (Passed(prohibited, names, sx, pkg, st, steps, deployed, n - 1) &&
     var before := EngineAfter(sx, pkg, st, EXECUTED[..n - 1], steps);
     var r := Execute(sx, pkg, before, EXECUTED[n - 1], steps(n - 1)).1;
     r.Ok? &&
     ExactResult(prohibited, names, EXECUTED[n - 1], steps(n - 1).ctx,
                 OutputsOf(EXECUTED[n - 1], steps(n - 1), r.value, deployed)))
  }

  /**
   What a run that the runner let go on has gathered is a list its receipts take; that no evidence holds
   prohibited text needs no assumption, because the runner has checked it.
   */
  lemma PassedRunReports(
    prohibited: Evidence -> bool, names: Names, sx: Syntax, pkg: Package, st: Engine, steps: nat -> Step,
    deployed: Outputs, n: nat)
    requires n <= |EXECUTED| && ResourceName(pkg.appName)
    requires Passed(prohibited, names, sx, pkg, st, steps, deployed, n)
    ensures var g := Gathered(sx, pkg, st, EXECUTED[..n], steps);
      g.Some? && ValidReconciliations(prohibited, g.value, false) &&
      (n == |EXECUTED| ==> ValidReconciliations(prohibited, g.value, true))
  {
    hide Gathered, ValidReconciliations, Passed, ResourceName;
    PassedIsGathered(prohibited, names, sx, pkg, st, steps, deployed, n);
    EvidenceIsAReceiptPrefix(prohibited, sx, pkg, st, steps, n);
  }

  lemma {:induction false} PassedIsGathered(
    prohibited: Evidence -> bool, names: Names, sx: Syntax, pkg: Package, st: Engine, steps: nat -> Step,
    deployed: Outputs, n: nat)
    requires n <= |EXECUTED| && ResourceName(pkg.appName)
    requires Passed(prohibited, names, sx, pkg, st, steps, deployed, n)
    ensures var g := Gathered(sx, pkg, st, EXECUTED[..n], steps);
      g.Some? && forall i | 0 <= i < |g.value| :: !prohibited(g.value[i])
    decreases n
  {
    hide Execute, ExactResult, OutputsOf, ResourceName, Passable, EngineAfter;
    if n > 0 {
      PassedIsGathered(prohibited, names, sx, pkg, st, steps, deployed, n - 1);
      var before := EngineAfter(sx, pkg, st, EXECUTED[..n - 1], steps);
      var o := Execute(sx, pkg, before, EXECUTED[n - 1], steps(n - 1)).1.value;
      PassesExactly(prohibited, names, sx, pkg, before, EXECUTED[n - 1], steps(n - 1), deployed);
      CleanEvidence(prohibited, names, sx, pkg, before, EXECUTED[n - 1], steps(n - 1), o, deployed);
      GatheredGrows(sx, pkg, st, steps, n, o);
    }
  }

  lemma GatheredGrows(sx: Syntax, pkg: Package, st: Engine, steps: nat -> Step, n: nat, o: Output)
    requires 0 < n <= |EXECUTED| && Gathered(sx, pkg, st, EXECUTED[..n - 1], steps).Some?
    requires Execute(sx, pkg, EngineAfter(sx, pkg, st, EXECUTED[..n - 1], steps), EXECUTED[n - 1], steps(n - 1)).1 ==
             Ok(o)
    ensures Gathered(sx, pkg, st, EXECUTED[..n], steps) ==
            Some(Gathered(sx, pkg, st, EXECUTED[..n - 1], steps).value + o.evidence)
  {
    hide Execute, EngineAfter;
    assert EXECUTED[..n][..n - 1] == EXECUTED[..n - 1];
  }

  /** States whose condition does not speak of evidence report none. */
  lemma CleanEvidence(
    prohibited: Evidence -> bool, names: Names, sx: Syntax, pkg: Package, st: Engine, state: State, s: Step,
    o: Output, deployed: Outputs)
    requires Execute(sx, pkg, st, state, s).1 == Ok(o) && Passable(prohibited, names, state, s, o, deployed)
    ensures forall i | 0 <= i < |o.evidence| :: !prohibited(o.evidence[i])
  {
    hide Activation, RehearsalStep, VerifyActivation;
  }

  // ---- The default deployer ----

  /** What the engine's own deployer returns: the digest of the assignments beside the three expected outputs. */
  predicate DefaultDeployed(deployed: Outputs) {
    deployed.Keys ==
      {"vault_url", "identity_resource_id", "managed_identity_client_id", "assignment_set_sha256"}
  }

  lemma DefaultIsRefused(names: Names, deployed: Outputs)
    requires DefaultDeployed(deployed)
    ensures !ResourcesNamed(names, deployed)
  {
    assert "assignment_set_sha256" in deployed.Keys;
    FourthKey();
  }

  lemma FourthKey()
    ensures "assignment_set_sha256" !in {"vault_url", "identity_resource_id", "managed_identity_client_id"}
  {
    assert |"assignment_set_sha256"| == 21;
  }

  lemma {:induction false} PassedBefore(
    prohibited: Evidence -> bool, names: Names, sx: Syntax, pkg: Package, st: Engine, steps: nat -> Step,
    deployed: Outputs, k: nat, n: nat)
    requires k <= n <= |EXECUTED| && Passed(prohibited, names, sx, pkg, st, steps, deployed, n)
    ensures Passed(prohibited, names, sx, pkg, st, steps, deployed, k)
    decreases n
  {
    hide Execute, ExactResult, OutputsOf, EngineAfter;
    if k < n { PassedBefore(prohibited, names, sx, pkg, st, steps, deployed, k, n - 1); }
  }

  /**
   With the engine's own deployer no run gets past the resource state: at most the three states before it have
   passed, and no secret has been written by then, nor in that state.
   */
  lemma DefaultWiringStops(
    prohibited: Evidence -> bool, names: Names, sx: Syntax, pkg: Package, st: Engine, steps: nat -> Step,
    deployed: Outputs, n: nat)
    requires n <= |EXECUTED| && DefaultDeployed(deployed)
    requires Passed(prohibited, names, sx, pkg, st, steps, deployed, n)
    ensures n <= 3 && EngineAfter(sx, pkg, st, EXECUTED[..n + 1], steps).writes == st.writes
  {
    hide Execute, OutputsOf, ResourcesNamed, EngineAfter;
    if n > 3 {
      PassedBefore(prohibited, names, sx, pkg, st, steps, deployed, 4, n);
      DefaultIsRefused(names, deployed);
      FourthIsResources(steps(3), deployed);
    }
    EarlyStatesWriteNothing(sx, pkg, st, steps, n + 1);
  }

  lemma FourthIsResources(s: Step, deployed: Outputs)
    ensures EXECUTED[3] == ReconcileResources && forall o :: OutputsOf(EXECUTED[3], s, o, deployed) == deployed
  {
  }

  lemma {:induction false} EarlyStatesWriteNothing(
    sx: Syntax, pkg: Package, st: Engine, steps: nat -> Step, n: nat)
    requires n <= 4
    ensures EngineAfter(sx, pkg, st, EXECUTED[..n], steps).writes == st.writes
  {
    hide Execute, EngineAfter;
    EngineGrows(sx, pkg, st, steps, if n == 0 then 1 else n);
    if n > 0 {
      EarlyStatesWriteNothing(sx, pkg, st, steps, n - 1);
      EarlyStateWritesNothing(sx, pkg, EngineAfter(sx, pkg, st, EXECUTED[..n - 1], steps), n - 1, steps(n - 1));
    }
  }

  lemma EarlyStateWritesNothing(sx: Syntax, pkg: Package, st: Engine, n: nat, s: Step)
    requires n < 4
    ensures Execute(sx, pkg, st, EXECUTED[n], s).0.writes == st.writes
  {
    hide Target, Verify, Inert;
    ApplyIsAllOrNothing(sx, pkg, st, false, AiOff, AiDisabledCandidate, s.ctx, false, s.world);
  }
}
