/**
 How the engine, the reconciler and the receipt contract fit together: the transitions the engine
 creates are ones the reconciler takes, and the evidence that comes back is evidence a receipt takes.
 */
module EngineEvidence {
  import opened Wrappers
  import opened Patterns
  import opened Revision
  import opened RevisionLaws
  import opened Reconciliation
  import opened ReconciliationLaws
  import opened Contract
  import opened Enablement
  import opened EnablementLaws
  import ArmOperation

  // ---- Transitions ----

  /** `[a-z][a-z0-9-]{1,62}[a-z0-9]`, the syntax of resource names. */
  predicate ResourceName(s: string) {
    3 <= |s| <= 64 && 'a' <= s[0] <= 'z' && LowerAlnum(s[|s| - 1]) && All(s, LowerAlnumDash)
  }

  lemma SuffixIsShort(pkg: Package, tag: Label, image: string)
    ensures |Suffix(pkg, tag, image)| <= 26
  {
    assert |LabelText(tag)| <= 9;
  }

  lemma RevisionIsNamed(pkg: Package, tag: Label, image: string)
    requires ResourceName(pkg.appName) && RevisionSuffix(Suffix(pkg, tag, image))
    ensures RevisionName(RevisionOf(pkg, tag, image))
  {
    SuffixIsShort(pkg, tag, image);
    var s, suffix := RevisionOf(pkg, tag, image), Suffix(pkg, tag, image);
    assert s == pkg.appName + "--" + suffix;
    forall i | 0 <= i < |s|
      ensures LowerAlnumDash(s[i])
    {
      var n := |pkg.appName|;
      assert s[i] == if i < n then pkg.appName[i] else if i < n + 2 then '-' else suffix[i - n - 2];
    }
  }

  /**
   For an application with a valid resource name, the transition created by an accepted patch is one
   the reconciler takes exactly when the clock reading is usable, the engine stood at a well-named
   revision, and that revision is not the very one being created.
   */
  lemma NewTransitionValidExactly(
    sx: Syntax, pkg: Package, st: Engine, enabled: bool, tag: Label, role: Role, ctx: Context,
    rehearsal: bool, w: PatchWorld, ready: Prepared)
    requires ResourceName(pkg.appName) && AllowedRole(role)
    requires Prepare(sx, pkg, st, enabled, tag, ctx, rehearsal) == Ok(ready)
    requires w.patch.PatchAccepted? && w.clock.Some?
    ensures var (after, r) := Acknowledge(pkg, st, tag, role, ready.image, ready.target, w);
      Apply(sx, pkg, st, enabled, tag, role, ctx, rehearsal, w) == (after, r) &&
      r.Ok? && r.value in after.pending &&
      (ValidPending(after.pending[r.value]) <==>
       w.clock.value.Seconds? && w.clock.value.at >= 0.0 && RevisionName(st.revision) &&
       st.revision != r.value && ValidConfiguration(st.configuration.value))
  {
    hide Target;
    TargetFacts(sx, st.projection.value, SettingsFor(pkg, ctx, tag, ready.image, enabled, rehearsal));
    RevisionIsNamed(pkg, tag, ready.image);
  }

  lemma TargetFacts(sx: Syntax, p: Projection, s: Settings)
    requires Target(sx, p, s).Ok?
    ensures var t := Target(sx, p, s).value;
      p.location != "" && t.location != "" && |t.template.containers| == 1 &&
      t.template.containers[0].image == s.image && ImageReference(s.image) && RevisionSuffix(s.suffix)
  {
    TargetShape(sx, p, s);
  }

  // ---- The patch applier ----

  /** `_apply_patch_azure`: an operation waited for to its end is an acceptance, a refusal an exception. */
  function PatchReplyOf(o: ArmOperation.Outcome): PatchReply {
    match o
    case Completed => PatchAccepted
    case Refused(PatchUnconfirmed) => PatchRaisesAction(Code.PatchUnconfirmed, None)
    case Refused(OperationFailed) => PatchRaisesAction(OtherCode("ai_enablement_arm_operation_failed"), None)
  }

  /**
   Behind every transition the engine creates stands an operation the service has reported complete, by
   the PATCH response or by a GET, for the application patched.
   */
  lemma AcceptedMeansCompleted(
    sx: Syntax, pkg: Package, st: Engine, enabled: bool, tag: Label, role: Role, ctx: Context,
    rehearsal: bool, w: PatchWorld,
    ax: ArmOperation.Syntax, appId: string, o: ArmOperation.Opening, turns: nat -> ArmOperation.Turn,
    n: nat, outcome: ArmOperation.Outcome)
    requires o.started.Seconds? && ArmOperation.After(ax, appId, o, turns, n) == ArmOperation.Ended(outcome)
    requires w.patch == PatchReplyOf(outcome)
    requires Apply(sx, pkg, st, enabled, tag, role, ctx, rehearsal, w).1.Ok?
    ensures ArmOperation.PatchCompletes(ax, appId, o) ||
      exists k | 0 <= k < n :: ArmOperation.CompletesAt(ax, appId, o, turns, k)
  {
    hide Prepare;
    ArmOperation.CompletesExactly(ax, appId, o, turns, n);
  }

  // ---- What a recovery that does not raise has seen ----

  /** The chat switch of a projection reads "false", and no identity matches the AI identity. */
  predicate SwitchedOff(sx: Syntax, id: string, p: Projection) {
    |p.template.containers| == 1 &&
    EnvRow(ChatEnabled, Value("false")) in p.template.containers[0].env &&
    EnvRow(ChatEnabled, Value("true")) !in p.template.containers[0].env &&
    forall key | key in p.identities :: !Matches(sx, key, id)
  }

  lemma DisabledIsOff(sx: Syntax, p: Projection, s: Settings)
    requires Target(sx, p, s).Ok? && !s.enabled
    ensures SwitchedOff(sx, s.identityId, Target(sx, p, s).value)
  {
    TargetShape(sx, p, s);
    OffRows(sx, p, s);
    TargetIdsAre(sx, p.identities, s);
  }

  lemma OffRows(sx: Syntax, p: Projection, s: Settings)
    requires ValidProjection(sx, p) && ValidSettings(sx, s) && !s.enabled
    ensures var env := PatchedTemplate(sx, p.template, s).containers[0].env;
      EnvRow(ChatEnabled, Value("false")) in env && EnvRow(ChatEnabled, Value("true")) !in env
  {
    var env := p.template.containers[0].env;
    RewriteSwitches(sx, env, s);
    RewriteElements(sx, env, s, EnvRow(ChatEnabled, Value("true")));
  }

  /**
   After some number of quiet cycles, the next one, begun in time, proves the target of this transition in
   full: configuration, projection, and a revision that is latest, ready, active, healthy and provisioned.
   */
  ghost predicate Observed(p: Pending, w: PatchWorld) {
    ValidPending(p) && exists n | 0 <= n < MAX_READS :: ProvenAt(p, w.run, n)
  }

  lemma ConfirmedIsObserved(p: Pending, w: PatchWorld)
    requires Verdict(p, w.run).Confirmed?
    ensures Observed(p, w)
  {
    hide ProvenAt, VerdictAt;
    ConfirmedExactly(p, w.run);
  }

  /**
   A recovery that does not raise has created one transition, and its own polling has proven the target of
   that transition; the projection proven is the one the engine now holds, and in it the AI is switched off.
   */
  lemma RecoveryIsObserved(
    sx: Syntax, pkg: Package, st: Engine, tag: Label, role: Role, ctx: Context,
    overwrite: bool, w: PatchWorld, placeholder: bool)
    ensures var (after, r) := Recover(sx, pkg, st, tag, role, ctx, overwrite, w, placeholder);
      r.Ok? ==>
        |after.accepted| == |st.accepted| + 1 &&
        var own := after.accepted[|st.accepted|];
        Observed(own, w) && own.role == role && after.projection == Some(own.target) &&
        after.revision == own.targetRevision && own.predecessorRevision == st.revision &&
        SwitchedOff(sx, pkg.identityId, own.target) && own.targetRevision !in after.pending &&
        (overwrite ==> placeholder)
  {
    hide Target, Verdict, SwitchedOff, Observed, RevisionOf;
    var (after, r) := Recover(sx, pkg, st, tag, role, ctx, overwrite, w, placeholder);
    if r.Ok? {
      RecoverLands(sx, pkg, st, tag, role, ctx, overwrite, w, placeholder);
      var image := CandidateImage(pkg, ctx).value;
      DisabledIsOff(sx, st.projection.value, SettingsFor(pkg, ctx, tag, image, false, false));
      var applied := Apply(sx, pkg, st, false, tag, role, ctx, false, w).0;
      ApplyIsAllOrNothing(sx, pkg, st, false, tag, role, ctx, false, w);
      ConfirmedIsObserved(applied.pending[RevisionOf(pkg, tag, image)], w);
    }
  }

  // ---- Evidence ----

  /**
   Evidence the reconciler returns or raises fits the receipt contract exactly when the contract knows
   the role and the serialised evidence holds no prohibited text. (The reconciler knows one role more.)
   */
  lemma EvidenceFitsExactly(prohibited: Evidence -> bool, p: Pending, run: nat -> Cycle)
    ensures var v := Verdict(p, run);
      v.Confirmed? || v.Stopped? ==>
        (ValidEvidence(prohibited, v.evidence) <==> ContractRole(p.role) && !prohibited(v.evidence))
  {
    hide VerdictAt;
    VerdictEvidence(p, run);
  }

  /** One healthy observation in the given role. */
  predicate HealthyIn(prohibited: Evidence -> bool, e: Evidence, role: Role) {
    e.role == role && e.finalState == HealthyTarget &&
    (ContractRole(role) && !prohibited(e) ==> ValidEvidence(prohibited, e))
  }

  lemma VerifiedIsHealthy(
    prohibited: Evidence -> bool, st: Engine, revision: string, role: Role, image: string, run: nat -> Cycle)
    ensures var r := Verify(st, revision, role, image, run);
      r.Ok? ==> HealthyIn(prohibited, r.value, role)
  {
    hide Verdict;
    if Verify(st, revision, role, image, run).Ok? {
      EvidenceFitsExactly(prohibited, st.pending[revision], run);
      VerdictEvidence(st.pending[revision], run);
    }
  }

  /** The roles a state reports on, in order. */
  function RolesOf(state: State): seq<Role> {
    match state
    case VerifyAiDisabledCandidate => [AiDisabledCandidate]
    case BudgetFailureRehearsal => [BudgetEnabled, BudgetRecovery]
    case ProviderFailureRehearsal => [ProviderEnabled, ProviderRecovery]
    case VerifyAiEnabledRevision => [AiEnabled]
    case _ => []
  }

  ghost predicate HealthyList(prohibited: Evidence -> bool, es: seq<Evidence>, roles: seq<Role>) {
    |es| == |roles| && forall i | 0 <= i < |es| :: HealthyIn(prohibited, es[i], roles[i])
  }

  lemma RecoverEvidence(
    prohibited: Evidence -> bool, sx: Syntax, pkg: Package, st: Engine, tag: Label, role: Role,
    ctx: Context, overwrite: bool, w: PatchWorld, placeholder: bool)
    ensures var r := Recover(sx, pkg, st, tag, role, ctx, overwrite, w, placeholder).1;
      r.Ok? ==> HealthyIn(prohibited, r.value, role)
  {
    hide Target, Verify, Apply, HealthyIn;
    if Recover(sx, pkg, st, tag, role, ctx, overwrite, w, placeholder).1.Ok? {
      var image := CandidateImage(pkg, ctx).value;
      var applied := Apply(sx, pkg, st, false, tag, role, ctx, false, w).0;
      VerifiedIsHealthy(prohibited, applied, RevisionOf(pkg, tag, image), role, image, w.run);
    }
  }

  lemma EnabledHalfEvidence(
    prohibited: Evidence -> bool, sx: Syntax, pkg: Package, st: Engine, r: Rehearsal,
    ctx: Context, w: PatchWorld, browser: BrowserReply)
    ensures var e := EnabledHalf(sx, pkg, st, r, ctx, w, browser).1;
      e.Ok? ==> HealthyIn(prohibited, e.value, r.enablingRole)
  {
    hide Target, Verify, Apply, HealthyIn;
    if EnabledHalf(sx, pkg, st, r, ctx, w, browser).1.Ok? {
      var (applied, revision) := Apply(sx, pkg, st, true, r.enabling, r.enablingRole, ctx, r.budget, w);
      VerifiedIsHealthy(
        prohibited, applied, revision.value, r.enablingRole, CandidateImage(pkg, ctx).value, w.run);
    }
  }

  lemma RehearsalEvidence(
    prohibited: Evidence -> bool, sx: Syntax, pkg: Package, st: Engine, r: Rehearsal, s: Step)
    ensures var o := RehearsalStep(sx, pkg, st, r, s).1;
      o.Ok? ==> HealthyList(prohibited, o.value.evidence, [r.enablingRole, r.recoveringRole])
  {
    hide Recover, EnabledHalf, HealthyIn;
    EnabledHalfEvidence(prohibited, sx, pkg, st, r, s.ctx, s.world, s.browser);
    var mid := EnabledHalf(sx, pkg, st, r, s.ctx, s.world, s.browser).0;
    RecoverEvidence(prohibited, sx, pkg, mid, r.recovering, r.recoveringRole, s.ctx, false, s.recovery, true);
  }

  lemma VerificationEvidence(
    prohibited: Evidence -> bool, pkg: Package, st: Engine, revision: Option<string>, role: Role, s: Step,
    checked: bool)
    ensures var o := VerifyActivation(pkg, st, revision, role, s, checked).1;
      o.Ok? ==> HealthyList(prohibited, o.value.evidence, [role])
  {
    hide Verify, HealthyIn;
    if VerifyActivation(pkg, st, revision, role, s, checked).1.Ok? {
      VerifiedIsHealthy(prohibited, st, revision.value, role, CandidateImage(pkg, s.ctx).value, s.world.run);
    }
  }

  /** A state that succeeds reports healthy evidence for exactly its own roles, in order. */
  lemma ExecutedEvidence(
    prohibited: Evidence -> bool, sx: Syntax, pkg: Package, st: Engine, state: State, s: Step)
    ensures var o := Execute(sx, pkg, st, state, s).1;
      o.Ok? ==> HealthyList(prohibited, o.value.evidence, RolesOf(state))
  {
    hide RehearsalStep, VerifyActivation, Apply, HealthyIn;
    RehearsalEvidence(prohibited, sx, pkg, st, BUDGET_REHEARSAL, s);
    RehearsalEvidence(prohibited, sx, pkg, st, PROVIDER_REHEARSAL, s);
    VerificationEvidence(prohibited, pkg, st, s.ctx.disabledRevision, AiDisabledCandidate, s, true);
    VerificationEvidence(prohibited, pkg, st, s.ctx.finalRevision, AiEnabled, s, false);
  }

  // ---- A run in state order ----

  /** The evidence gathered by `n` states from `first` on; None once one of them has failed. */
  ghost function Gathered(sx: Syntax, pkg: Package, st: Engine, states: seq<State>, steps: nat -> Step)
    : Option<seq<Evidence>>
    decreases |states|
  {
    if states == [] then Some([])
    else
      var n := |states| - 1;
      match Gathered(sx, pkg, st, states[..n], steps)
      case None => None
      case Some(es) =>
        match Execute(sx, pkg, EngineAfter(sx, pkg, st, states[..n], steps), states[n], steps(n)).1
        case Err(_) => None
        case Ok(o) => Some(es + o.evidence)
  }

  ghost function EngineAfter(sx: Syntax, pkg: Package, st: Engine, states: seq<State>, steps: nat -> Step): Engine
    decreases |states|
  {
    if states == [] then st
    else
      var n := |states| - 1;
      Execute(sx, pkg, EngineAfter(sx, pkg, st, states[..n], steps), states[n], steps(n)).0
  }

  /** A prefix of a run, one state longer. */
  lemma EngineGrows(sx: Syntax, pkg: Package, st: Engine, steps: nat -> Step, n: nat)
    requires 0 < n <= |EXECUTED|
    ensures EngineAfter(sx, pkg, st, EXECUTED[..n], steps) ==
      Execute(sx, pkg, EngineAfter(sx, pkg, st, EXECUTED[..n - 1], steps), EXECUTED[n - 1], steps(n - 1)).0
    ensures EngineAfter(sx, pkg, st, EXECUTED[..0], steps) == st
  {
    hide Execute;
    assert EXECUTED[..n][..n - 1] == EXECUTED[..n - 1];
  }

  function RolesOfAll(states: seq<State>): seq<Role> {
    if states == [] then [] else RolesOfAll(states[..|states| - 1]) + RolesOf(states[|states| - 1])
  }

  lemma {:induction false} GatheredRoles(
    prohibited: Evidence -> bool, sx: Syntax, pkg: Package, st: Engine, states: seq<State>, steps: nat -> Step)
    ensures var g := Gathered(sx, pkg, st, states, steps);
      g.Some? ==> HealthyList(prohibited, g.value, RolesOfAll(states))
    decreases |states|
  {
    hide Execute, HealthyIn, RolesOf;
    if states != [] {
      var n := |states| - 1;
      GatheredRoles(prohibited, sx, pkg, st, states[..n], steps);
      ExecutedEvidence(prohibited, sx, pkg, EngineAfter(sx, pkg, st, states[..n], steps), states[n], steps(n));
    }
  }

  /** What the runner executes: every state after the read-only revalidation. */
  const EXECUTED: seq<State> := STATE_ORDER[1..]

  /** Which of the roles are due after `n` executed states. */
  function RolesDue(n: nat): nat {
    if n <= 2 then 0 else if n <= 4 then 1 else if n <= 6 then 3 else if n <= 10 then 5 else 6
  }

  lemma RolesStep(n: nat)
    requires 0 < n <= |EXECUTED|
    ensures RECONCILIATION_ROLES[..RolesDue(n)] ==
            RECONCILIATION_ROLES[..RolesDue(n - 1)] + RolesOf(EXECUTED[n - 1])
  {
    assert EXECUTED[n - 1] == STATE_ORDER[n];
  }

  lemma {:induction false} RolesInOrder(n: nat)
    requires n <= |EXECUTED|
    ensures RolesOfAll(EXECUTED[..n]) == RECONCILIATION_ROLES[..RolesDue(n)]
  {
    hide RolesOf, RolesDue;
    if n == 0 {
      assert RolesDue(0) == 0 by { FirstRolesDue(); }
    } else {
      RolesInOrder(n - 1);
      RolesStep(n);
      assert EXECUTED[..n][..n - 1] == EXECUTED[..n - 1];
    }
  }

  lemma FirstRolesDue()
    ensures RolesDue(0) == 0
  {
  }

  /**
   After any number of successful states in order, free of prohibited text, the gathered evidence is a
   list a failed receipt takes; after all of them, it is the complete list a terminal receipt requires.
   */
  lemma EvidenceIsAReceiptPrefix(
    prohibited: Evidence -> bool, sx: Syntax, pkg: Package, st: Engine, steps: nat -> Step, n: nat)
    requires n <= |EXECUTED|
    ensures var g := Gathered(sx, pkg, st, EXECUTED[..n], steps);
      g.Some? && (forall i | 0 <= i < |g.value| :: !prohibited(g.value[i])) ==>
        ValidReconciliations(prohibited, g.value, false) &&
        (n == |EXECUTED| ==> ValidReconciliations(prohibited, g.value, true))
  {
    hide Execute;
    GatheredRoles(prohibited, sx, pkg, st, EXECUTED[..n], steps);
    RolesInOrder(n);
    var g := Gathered(sx, pkg, st, EXECUTED[..n], steps);
    if g.Some? {
      assert Roles(g.value) == RECONCILIATION_ROLES[..RolesDue(n)];
    }
  }
}
