/**
 What every run of the rollout engine keeps: an unbroken chain of accepted patches, and a state
 from which disabling lands exactly where it would have landed from the start.
 */
module EnablementLaws {
  import opened Wrappers
  import opened Patterns
  import opened Revision
  import opened RevisionLaws
  import opened Reconciliation
  import opened Contract
  import opened Enablement

  // ---- The chain of accepted patches ----

  /** Each accepted patch starts at the revision and projection where the one before it ended. */
  predicate Linked(revision: string, projection: Projection, accepted: seq<Pending>) {
    forall i | 0 <= i < |accepted| :: LinkedAt(revision, projection, accepted, i)
  }

  predicate LinkedAt(revision: string, projection: Projection, accepted: seq<Pending>, i: nat)
    requires i < |accepted|
  {
    if i == 0
    then accepted[i].predecessorRevision == revision && accepted[i].predecessor == projection
    else accepted[i].predecessorRevision == accepted[i - 1].targetRevision &&
         accepted[i].predecessor == accepted[i - 1].target
  }

  /**
   The engine stands where its chain ends, and every entry still pending is on the chain under the
   name of its own target.
   */
  ghost predicate OnChain(revision: string, projection: Projection, st: Engine) {
    st.projection.Some? && Linked(revision, projection, st.accepted) &&
    (if st.accepted == [] then st.revision == revision && st.projection.value == projection
     else st.revision == st.accepted[|st.accepted| - 1].targetRevision &&
          st.projection.value == st.accepted[|st.accepted| - 1].target) &&
    forall name | name in st.pending ::
      st.pending[name].targetRevision == name && st.pending[name] in st.accepted
  }

  lemma AcknowledgeKeepsChain(
    revision: string, projection: Projection, pkg: Package, st: Engine, tag: Label, role: Role,
    image: string, target: Projection, w: PatchWorld)
    requires OnChain(revision, projection, st) && st.configuration.Some?
    ensures OnChain(revision, projection, Acknowledge(pkg, st, tag, role, image, target, w).0)
  {
    var after := Acknowledge(pkg, st, tag, role, image, target, w).0;
    if after != st {
      var n := |st.accepted|;
      assert after.accepted[..n] == st.accepted;
      forall i | 0 <= i < |after.accepted|
        ensures LinkedAt(revision, projection, after.accepted, i)
      {
        if i < n { assert LinkedAt(revision, projection, st.accepted, i); }
      }
    }
  }

  lemma ApplyKeepsChain(
    revision: string, projection: Projection, sx: Syntax, pkg: Package, st: Engine, enabled: bool,
    tag: Label, role: Role, ctx: Context, rehearsal: bool, w: PatchWorld)
    requires OnChain(revision, projection, st)
    ensures OnChain(revision, projection, Apply(sx, pkg, st, enabled, tag, role, ctx, rehearsal, w).0)
  {
    var after := Apply(sx, pkg, st, enabled, tag, role, ctx, rehearsal, w).0;
    if after != st {
      var image := CandidateImage(pkg, ctx).value;
      var target := Target(sx, st.projection.value, SettingsFor(pkg, ctx, tag, image, enabled, rehearsal)).value;
      AcknowledgeKeepsChain(revision, projection, pkg, st, tag, role, image, target, w);
    }
  }

  // ---- Before the first patch ----

  /**
   A fresh engine is ready exactly when its authority has been read in full. Until then no patch is sent
   and no recovery begun, even when the observer has already seen the configuration.
   */
  lemma ReadyExactlyWhenRead(
    sx: Syntax, pkg: Package, rollbackRevision: string, v: Revalidation, enabled: bool, tag: Label, role: Role,
    ctx: Context, flag: bool, w: PatchWorld, placeholder: bool)
    ensures var st := Revalidate(Unread(rollbackRevision), rollbackRevision, v).0;
      if v.ReadInFull? then st == Start(rollbackRevision, v.projection, v.configuration)
      else
        Apply(sx, pkg, st, enabled, tag, role, ctx, flag, w) == (st, Err(ActionError(AuthorityDrift, None))) &&
        Recover(sx, pkg, st, tag, role, ctx, flag, w, placeholder) == (st, Err(ActionError(AuthorityDrift, None)))
  {
    hide Target, Disable;
  }

  // ---- One revision ----

  /** A refused or unanswered patch changes nothing; an accepted one adds exactly one transition. */
  lemma ApplyIsAllOrNothing(
    sx: Syntax, pkg: Package, st: Engine, enabled: bool, tag: Label, role: Role, ctx: Context,
    rehearsal: bool, w: PatchWorld)
    ensures var (after, r) := Apply(sx, pkg, st, enabled, tag, role, ctx, rehearsal, w);
      (r.Err? ==> after == st) &&
      (r.Ok? ==>
        w.patch.PatchAccepted? && st.projection.Some? && CandidateImage(pkg, ctx).Ok? &&
        after.revision == r.value == RevisionOf(pkg, tag, CandidateImage(pkg, ctx).value) &&
        after.configuration == st.configuration && after.writes == st.writes && after.projection.Some? &&
        Target(sx, st.projection.value,
               SettingsFor(pkg, ctx, tag, CandidateImage(pkg, ctx).value, enabled, rehearsal)) ==
          Ok(after.projection.value) &&
        |after.accepted| == |st.accepted| + 1 && after.accepted[..|st.accepted|] == st.accepted &&
        r.value in after.pending && after.pending[r.value] == after.accepted[|st.accepted|] &&
        after.pending - {r.value} == st.pending - {r.value})
  {
    hide Target;
  }

  /**
   An accepted patch is recorded if and only if the clock then answers. When it raises, the service has
   been changed while the engine stands where it stood.
   */
  lemma AcceptedIsRecordedExactly(
    sx: Syntax, pkg: Package, st: Engine, enabled: bool, tag: Label, role: Role, ctx: Context,
    rehearsal: bool, w: PatchWorld)
    requires Prepare(sx, pkg, st, enabled, tag, ctx, rehearsal).Ok? && w.patch.PatchAccepted?
    ensures var (after, r) := Apply(sx, pkg, st, enabled, tag, role, ctx, rehearsal, w);
      (r.Ok? <==> w.clock.Some?) && (after == st <==> w.clock.None?) &&
      (w.clock.None? ==> r == Err(ForeignError))
  {
    hide Prepare;
    var after := Apply(sx, pkg, st, enabled, tag, role, ctx, rehearsal, w).0;
    assert w.clock.Some? ==> |after.accepted| == |st.accepted| + 1;
  }

  /** Reconciling consumes its entry whatever happens, so that no entry is ever confirmed twice. */
  lemma ReconciledOnce(st: Engine, revision: string, role: Role, image: string, run: nat -> Cycle, again: nat -> Cycle)
    ensures var (after, r) := Reconciled(st, revision, role, image, run);
      revision !in after.pending && after.accepted == st.accepted && after.projection == st.projection &&
      (r.Ok? ==> revision in st.pending) &&
      Reconciled(after, revision, role, image, again) == (after, Err(ActionError(RevisionUnverified, None)))
  {
    var after := Reconciled(st, revision, role, image, run).0;
    assert after.pending - {revision} == after.pending;
  }

  // ---- Recovery ----

  /** A recovery that does not raise ends at the disabled target of the state it started from. */
  lemma RecoverLands(
    sx: Syntax, pkg: Package, st: Engine, tag: Label, role: Role, ctx: Context,
    overwrite: bool, w: PatchWorld, placeholder: bool)
    ensures var (after, r) := Recover(sx, pkg, st, tag, role, ctx, overwrite, w, placeholder);
      r.Ok? ==>
        st.projection.Some? && CandidateImage(pkg, ctx).Ok? && after.projection.Some? &&
        Target(sx, st.projection.value,
               SettingsFor(pkg, ctx, tag, CandidateImage(pkg, ctx).value, false, false)) ==
          Ok(after.projection.value)
  {
    hide Target, Verdict;
  }

  /** Its last assignment is a no-op: the accepted patch has already moved the state there. */
  lemma FinalAssignmentIsNoOp(
    sx: Syntax, pkg: Package, st: Engine, tag: Label, role: Role, ctx: Context,
    overwrite: bool, w: PatchWorld, placeholder: bool)
    requires Recover(sx, pkg, st, tag, role, ctx, overwrite, w, placeholder).1.Ok?
    ensures CandidateImage(pkg, ctx).Ok?
    ensures Recover(sx, pkg, st, tag, role, ctx, overwrite, w, placeholder).0 ==
            WithOverwrite(Disable(sx, pkg, st, tag, role, ctx, CandidateImage(pkg, ctx).value, w).0, overwrite)
  {
    hide Target, Verify;
    ApplyIsAllOrNothing(sx, pkg, st, false, tag, role, ctx, false, w);
  }

  /**
   A requested overwrite is attempted, exactly once, if and only if the recovery has an image and a disabled
   target to aim at; how the patch and its verification go does not matter.
   */
  lemma OverwriteIsAttempted(
    sx: Syntax, pkg: Package, st: Engine, tag: Label, role: Role, ctx: Context,
    overwrite: bool, w: PatchWorld, placeholder: bool)
    ensures Recover(sx, pkg, st, tag, role, ctx, overwrite, w, placeholder).0.writes ==
            st.writes + if overwrite && RecoveryAim(sx, pkg, st, tag, ctx).Ok? then [EmergencyWrite] else []
    ensures RecoveryAim(sx, pkg, st, tag, ctx).Ok? <==>
      st.projection.Some? && CandidateImage(pkg, ctx).Ok? &&
      Target(sx, st.projection.value,
             SettingsFor(pkg, ctx, tag, CandidateImage(pkg, ctx).value, false, false)).Ok?
  {
    hide Target, Verify;
    ApplyIsAllOrNothing(sx, pkg, st, false, tag, role, ctx, false, w);
  }

  // ---- Disabling forgets everything done since the start ----

  /** Every disabling patch takes `q` exactly where it takes `p`. */
  ghost predicate RecoversLike(sx: Syntax, id: string, p: Projection, q: Projection) {
    forall b: Settings | !b.enabled && b.identityId == id :: Target(sx, q, b) == Target(sx, p, b)
  }

  lemma PatchRecoversLike(sx: Syntax, id: string, p: Projection, q: Projection, a: Settings)
    requires RecoversLike(sx, id, p, q) && a.identityId == id && Target(sx, q, a).Ok?
    ensures RecoversLike(sx, id, p, Target(sx, q, a).value)
  {
    hide Target;
    forall b: Settings | !b.enabled && b.identityId == id
      ensures Target(sx, Target(sx, q, a).value, b) == Target(sx, p, b)
    {
      DisablingForgets(sx, q, a, b);
    }
  }

  /** What every step keeps, relative to where the engine started. */
  ghost predicate Kept(sx: Syntax, pkg: Package, revision: string, p: Projection, st: Engine) {
    OnChain(revision, p, st) && RecoversLike(sx, pkg.identityId, p, st.projection.value)
  }

  lemma ApplyKeeps(
    revision: string, p: Projection, sx: Syntax, pkg: Package, st: Engine, enabled: bool,
    tag: Label, role: Role, ctx: Context, rehearsal: bool, w: PatchWorld)
    requires Kept(sx, pkg, revision, p, st)
    ensures Kept(sx, pkg, revision, p, Apply(sx, pkg, st, enabled, tag, role, ctx, rehearsal, w).0)
  {
    hide Target, OnChain;
    ApplyKeepsChain(revision, p, sx, pkg, st, enabled, tag, role, ctx, rehearsal, w);
    ApplyIsAllOrNothing(sx, pkg, st, enabled, tag, role, ctx, rehearsal, w);
    if Apply(sx, pkg, st, enabled, tag, role, ctx, rehearsal, w).1.Ok? {
      var s := SettingsFor(pkg, ctx, tag, CandidateImage(pkg, ctx).value, enabled, rehearsal);
      assert OnChain(revision, p, st) ==> st.projection.Some?;
      PatchRecoversLike(sx, pkg.identityId, p, st.projection.value, s);
    }
  }

  lemma DisableKeeps(
    revision: string, p: Projection, sx: Syntax, pkg: Package, st: Engine,
    tag: Label, role: Role, ctx: Context, image: string, w: PatchWorld)
    requires Kept(sx, pkg, revision, p, st)
    ensures Kept(sx, pkg, revision, p, Disable(sx, pkg, st, tag, role, ctx, image, w).0)
  {
    hide Target, Apply, Verify;
    ApplyKeeps(revision, p, sx, pkg, st, false, tag, role, ctx, false, w);
  }

  lemma OverwriteKeeps(revision: string, p: Projection, sx: Syntax, pkg: Package, st: Engine, overwrite: bool)
    requires Kept(sx, pkg, revision, p, st)
    ensures Kept(sx, pkg, revision, p, WithOverwrite(st, overwrite))
  {
    hide Target;
  }

  lemma RecoverKeeps(
    revision: string, p: Projection, sx: Syntax, pkg: Package, st: Engine,
    tag: Label, role: Role, ctx: Context, overwrite: bool, w: PatchWorld, placeholder: bool)
    requires Kept(sx, pkg, revision, p, st)
    ensures Kept(sx, pkg, revision, p, Recover(sx, pkg, st, tag, role, ctx, overwrite, w, placeholder).0)
  {
    hide Target, Disable, Kept;
    if CandidateImage(pkg, ctx).Ok? {
      var image := CandidateImage(pkg, ctx).value;
      DisableKeeps(revision, p, sx, pkg, st, tag, role, ctx, image, w);
      OverwriteKeeps(
        revision, p, sx, pkg, Disable(sx, pkg, st, tag, role, ctx, image, w).0, overwrite);
    }
    if Recover(sx, pkg, st, tag, role, ctx, overwrite, w, placeholder).1.Ok? {
      FinalAssignmentIsNoOp(sx, pkg, st, tag, role, ctx, overwrite, w, placeholder);
    }
  }

  lemma EnabledHalfKeeps(
    revision: string, p: Projection, sx: Syntax, pkg: Package, st: Engine, r: Rehearsal,
    ctx: Context, w: PatchWorld, browser: BrowserReply)
    requires Kept(sx, pkg, revision, p, st)
    ensures Kept(sx, pkg, revision, p, EnabledHalf(sx, pkg, st, r, ctx, w, browser).0)
  {
    hide Target, Verdict;
    ApplyKeeps(revision, p, sx, pkg, st, true, r.enabling, r.enablingRole, ctx, r.budget, w);
  }

  /** Where a recovery from the very start would land. */
  ghost function DisabledTarget(sx: Syntax, pkg: Package, p: Projection, tag: Label, ctx: Context)
    : Result<Projection, RevisionError>
    requires CandidateImage(pkg, ctx).Ok?
  {
    Target(sx, p, SettingsFor(pkg, ctx, tag, CandidateImage(pkg, ctx).value, false, false))
  }

  /** A recovery, however far the engine has been taken, lands where it would have from the start. */
  lemma RecoverLandsFromStart(
    revision: string, p: Projection, sx: Syntax, pkg: Package, st: Engine,
    tag: Label, role: Role, ctx: Context, overwrite: bool, w: PatchWorld, placeholder: bool)
    requires Kept(sx, pkg, revision, p, st)
    ensures var (after, r) := Recover(sx, pkg, st, tag, role, ctx, overwrite, w, placeholder);
      r.Ok? ==>
        CandidateImage(pkg, ctx).Ok? && after.projection.Some? &&
        DisabledTarget(sx, pkg, p, tag, ctx) == Ok(after.projection.value)
  {
    hide Target, Verdict, Recover;
    RecoverLands(sx, pkg, st, tag, role, ctx, overwrite, w, placeholder);
  }

  /**
   Whatever ends the enabled half of a rehearsal (a refused, unacknowledged or unverified patch, a
   failed browser check, or nothing at all), a recovery that does not raise leaves the engine at the
   disabled target built from the projection the engine started from.
   */
  lemma RehearsalSettles(
    revision: string, p: Projection, sx: Syntax, pkg: Package, st: Engine, r: Rehearsal,
    ctx: Context, w: PatchWorld, browser: BrowserReply, recovery: PatchWorld)
    requires Kept(sx, pkg, revision, p, st)
    ensures var mid := EnabledHalf(sx, pkg, st, r, ctx, w, browser).0;
      var (settled, recovered) :=
        Recover(sx, pkg, mid, r.recovering, r.recoveringRole, ctx, false, recovery, true);
      var (after, result) := Rehearse(sx, pkg, st, r, ctx, w, browser, recovery);
      after == settled && (result.Ok? ==> recovered.Ok?) && Kept(sx, pkg, revision, p, after) &&
      (recovered.Ok? ==>
        CandidateImage(pkg, ctx).Ok? && after.projection.Some? &&
        DisabledTarget(sx, pkg, p, r.recovering, ctx) == Ok(after.projection.value))
  {
    hide Target, Verdict, Recover, EnabledHalf;
    EnabledHalfKeeps(revision, p, sx, pkg, st, r, ctx, w, browser);
    var mid := EnabledHalf(sx, pkg, st, r, ctx, w, browser).0;
    RecoverKeeps(revision, p, sx, pkg, mid, r.recovering, r.recoveringRole, ctx, false, recovery, true);
    RecoverLandsFromStart(revision, p, sx, pkg, mid, r.recovering, r.recoveringRole, ctx, false, recovery, true);
  }

  // ---- Whole runs ----

  lemma RehearsalStepKeeps(
    revision: string, p: Projection, sx: Syntax, pkg: Package, st: Engine, r: Rehearsal, s: Step)
    requires Kept(sx, pkg, revision, p, st)
    ensures Kept(sx, pkg, revision, p, RehearsalStep(sx, pkg, st, r, s).0)
  {
    hide Rehearse, Kept;
    RehearsalSettles(revision, p, sx, pkg, st, r, s.ctx, s.world, s.browser, s.recovery);
  }

  lemma VerifyActivationKeeps(
    revision: string, p: Projection, sx: Syntax, pkg: Package, st: Engine,
    name: Option<string>, role: Role, s: Step, checked: bool)
    requires Kept(sx, pkg, revision, p, st)
    ensures Kept(sx, pkg, revision, p, VerifyActivation(pkg, st, name, role, s, checked).0)
  {
    hide Target, Verify;
  }

  lemma ExecuteKeeps(revision: string, p: Projection, sx: Syntax, pkg: Package, st: Engine, state: State, s: Step)
    requires Kept(sx, pkg, revision, p, st)
    ensures Kept(sx, pkg, revision, p, Execute(sx, pkg, st, state, s).0)
  {
    hide Target, Apply, RehearsalStep, VerifyActivation;
    match state {
      case ActivateAiDisabledCandidate =>
        ApplyKeeps(revision, p, sx, pkg, st, false, AiOff, AiDisabledCandidate, s.ctx, false, s.world);
      case VerifyAiDisabledCandidate =>
        VerifyActivationKeeps(revision, p, sx, pkg, st, s.ctx.disabledRevision, AiDisabledCandidate, s, true);
      case BudgetFailureRehearsal => RehearsalStepKeeps(revision, p, sx, pkg, st, BUDGET_REHEARSAL, s);
      case ProviderFailureRehearsal => RehearsalStepKeeps(revision, p, sx, pkg, st, PROVIDER_REHEARSAL, s);
      case ActivateAiEnabledRevision =>
        ApplyKeeps(revision, p, sx, pkg, st, true, AiOn, AiEnabled, s.ctx, false, s.world);
      case VerifyAiEnabledRevision =>
        VerifyActivationKeeps(revision, p, sx, pkg, st, s.ctx.finalRevision, AiEnabled, s, false);
      case _ =>
    }
  }

  datatype Call = Call(state: State, step: Step)

  /** The engine after any sequence of executor calls, in any order, failed ones included. */
  ghost function AfterCalls(sx: Syntax, pkg: Package, st: Engine, calls: seq<Call>): Engine
    decreases |calls|
  {
    if calls == [] then st
    else AfterCalls(sx, pkg, Execute(sx, pkg, st, calls[0].state, calls[0].step).0, calls[1..])
  }

  lemma {:induction false} CallsKeep(
    revision: string, p: Projection, sx: Syntax, pkg: Package, st: Engine, calls: seq<Call>)
    requires Kept(sx, pkg, revision, p, st)
    ensures Kept(sx, pkg, revision, p, AfterCalls(sx, pkg, st, calls))
    decreases |calls|
  {
    hide Execute, Kept;
    if calls != [] {
      ExecuteKeeps(revision, p, sx, pkg, st, calls[0].state, calls[0].step);
      CallsKeep(revision, p, sx, pkg, Execute(sx, pkg, st, calls[0].state, calls[0].step).0, calls[1..]);
    }
  }

  /** The engine as the read-only revalidation leaves it. */
  function Start(revision: string, p: Projection, configuration: Configuration): Engine {
    Engine(Some(p), revision, map[], Some(configuration), [], [])
  }

  /**
   After any run whatever, an emergency recovery that does not raise leaves the engine at the disabled
   target of the projection the run began with, and the accepted patches form one unbroken chain.
   */
  lemma {:induction false} EmergencyAlwaysSettles(
    revision: string, p: Projection, configuration: Configuration, sx: Syntax, pkg: Package,
    calls: seq<Call>, ctx: Context, attempted: bool, w: PatchWorld, placeholder: bool)
    ensures var st := AfterCalls(sx, pkg, Start(revision, p, configuration), calls);
      var (after, r) := EmergencyRecovery(sx, pkg, st, ctx, attempted, w, placeholder);
      OnChain(revision, p, st) && OnChain(revision, p, after) &&
      (r.Ok? ==>
        attempted && CandidateImage(pkg, ctx).Ok? && after.projection.Some? &&
        DisabledTarget(sx, pkg, p, Abort, ctx) == Ok(after.projection.value))
  {
    hide Target, Verdict, Recover, Execute;
    var start := Start(revision, p, configuration);
    CallsKeep(revision, p, sx, pkg, start, calls);
    var st := AfterCalls(sx, pkg, start, calls);
    if attempted {
      RecoverKeeps(revision, p, sx, pkg, st, Abort, EmergencyDisabled, ctx, true, w, placeholder);
      RecoverLandsFromStart(revision, p, sx, pkg, st, Abort, EmergencyDisabled, ctx, true, w, placeholder);
    }
  }

  // ---- The overwrite in an emergency ----

  /** Suffixes of one package and image differ in their label only: all of them are valid, or none. */
  lemma SuffixesAlike(pkg: Package, a: Label, b: Label, image: string)
    requires RevisionSuffix(Suffix(pkg, a, image))
    ensures RevisionSuffix(Suffix(pkg, b, image))
  {
    var tail := "-" + Take(pkg.sha256, 8) + "-" + Take(AfterLast(image, "@sha256:"), 7);
    SuffixIs(pkg, a, image, tail);
    SuffixIs(pkg, b, image, tail);
    LabelsAreNames(a);
    LabelsAreNames(b);
    var s, t := Suffix(pkg, a, image), Suffix(pkg, b, image);
    assert |tail| <= 17;
    forall i | 0 <= i < |t|
      ensures LowerAlnumDash(t[i])
    {
      if i >= |LabelText(b)| { assert t[i] == s[i - |LabelText(b)| + |LabelText(a)|]; }
    }
    assert t[|t| - 1] == tail[|tail| - 1] == s[|s| - 1];
  }

  lemma SuffixIs(pkg: Package, tag: Label, image: string, tail: string)
    requires tail == "-" + Take(pkg.sha256, 8) + "-" + Take(AfterLast(image, "@sha256:"), 7)
    ensures Suffix(pkg, tag, image) == LabelText(tag) + tail
  {
    hide LabelText, AfterLast, Take;
  }

  lemma LabelsAreNames(tag: Label)
    ensures 5 <= |LabelText(tag)| <= 9 && LowerAlnum(LabelText(tag)[0])
    ensures forall i | 0 <= i < |LabelText(tag)| :: LowerAlnumDash(LabelText(tag)[i])
  {
  }

  /** Where disabling succeeds under one label, it succeeds under every other. */
  lemma DisablingUnderAnyLabel(sx: Syntax, pkg: Package, p: Projection, a: Label, b: Label, ctx: Context, image: string)
    requires Target(sx, p, SettingsFor(pkg, ctx, a, image, false, false)).Ok?
    ensures Target(sx, p, SettingsFor(pkg, ctx, b, image, false, false)).Ok?
  {
    hide Canonical, ValidProjection, ImageReference, RevisionSuffix, OtherIdentity;
    var s, t := SettingsFor(pkg, ctx, a, image, false, false), SettingsFor(pkg, ctx, b, image, false, false);
    PatchSucceeds(sx, p, s);
    SuffixesAlike(pkg, a, b, image);
    PatchSucceeds(sx, p, t);
    PatchClosure(sx, p, t);
  }

  /** Settings of a disabled patch hold nothing of the context but its image. */
  lemma DisabledSettings(pkg: Package, ctx: Context, other: Context, tag: Label, image: string)
    ensures SettingsFor(pkg, ctx, tag, image, false, false) == SettingsFor(pkg, other, tag, image, false, false)
  {
  }

  /**
   In a run whose AI-off activation succeeded, an emergency recovery with the same image attempts the
   overwrite of the secret, whatever was done, or failed, in between and during the recovery.
   */
  lemma EmergencyOverwrites(
    revision: string, p: Projection, configuration: Configuration, sx: Syntax, pkg: Package,
    before: seq<Call>, activation: Step, later: seq<Call>, ctx: Context, w: PatchWorld, placeholder: bool)
    requires CandidateImage(pkg, ctx) == CandidateImage(pkg, activation.ctx)
    requires var st := AfterCalls(sx, pkg, Start(revision, p, configuration), before);
      Execute(sx, pkg, st, ActivateAiDisabledCandidate, activation).1.Ok?
    ensures var st := AfterCalls(sx, pkg, Start(revision, p, configuration), before);
      var end := AfterCalls(sx, pkg, Execute(sx, pkg, st, ActivateAiDisabledCandidate, activation).0, later);
      EmergencyRecovery(sx, pkg, end, ctx, true, w, placeholder).0.writes == end.writes + [EmergencyWrite]
  {
    hide Target, Recover, RecoveryAim, Apply, AfterCalls, OnChain, CandidateImage;
    var st := AfterCalls(sx, pkg, Start(revision, p, configuration), before);
    StartIsKept(revision, p, configuration, sx, pkg);
    CallsKeep(revision, p, sx, pkg, Start(revision, p, configuration), before);
    var mid := Execute(sx, pkg, st, ActivateAiDisabledCandidate, activation).0;
    ExecuteKeeps(revision, p, sx, pkg, st, ActivateAiDisabledCandidate, activation);
    CallsKeep(revision, p, sx, pkg, mid, later);
    var end := AfterCalls(sx, pkg, mid, later);
    ApplyIsAllOrNothing(sx, pkg, st, false, AiOff, AiDisabledCandidate, activation.ctx, false, activation.world);
    var image := CandidateImage(pkg, ctx).value;
    DisabledSettings(pkg, activation.ctx, ctx, AiOff, image);
    StartAims(revision, p, sx, pkg, st, AiOff, ctx, image);
    DisablingUnderAnyLabel(sx, pkg, p, AiOff, Abort, ctx, image);
    StartAims(revision, p, sx, pkg, end, Abort, ctx, image);
    OverwriteIsAttempted(sx, pkg, end, Abort, EmergencyDisabled, ctx, true, w, placeholder);
  }

  lemma StartIsKept(revision: string, p: Projection, configuration: Configuration, sx: Syntax, pkg: Package)
    ensures Kept(sx, pkg, revision, p, Start(revision, p, configuration))
  {
    hide Target;
  }

  /** Wherever a run has taken the engine, disabling has the target it had at the start. */
  lemma StartAims(
    revision: string, p: Projection, sx: Syntax, pkg: Package, st: Engine, tag: Label, ctx: Context, image: string)
    requires Kept(sx, pkg, revision, p, st)
    ensures st.projection.Some?
    ensures Target(sx, st.projection.value, SettingsFor(pkg, ctx, tag, image, false, false)) ==
            Target(sx, p, SettingsFor(pkg, ctx, tag, image, false, false))
  {
    hide Target;
  }
}
