/**
 When each step of the rollout engine succeeds, what it leaves behind, and the code it ends with otherwise, all
 on what the step is given and meets.
 */
module EngineOutcomes {
  import opened Wrappers
  import opened Patterns
  import opened Revision
  import RevisionLaws
  import opened RevisionRules
  import opened Reconciliation
  import opened ReconciliationLaws
  import opened Enablement
  import opened EnablementLaws
  import opened EngineEvidence

  // ---- One patch ----

  /** Whether a patch switches the AI on, its label and role, and whether it is a budget rehearsal. */
  datatype Move = Move(enabled: bool, tag: Label, role: Role, budget: bool)

  const LABELS: map<Label, string> := map[
    AiOff := "ai-off", Budget := "budget", RecoverB := "recover-b", Provider := "provider",
    RecoverP := "recover-p", AiOn := "ai-on", Abort := "abort"]

  lemma LabelsAre(tag: Label)
    ensures tag in LABELS && LabelText(tag) == LABELS[tag]
  {
  }

  predicate DigestFine(digest: Option<string>) {
    digest.Some? && |digest.value| == 71 && digest.value[..7] == "sha256:"
  }

  /** The text a suffix takes from the package: eight characters of its digest, fewer when it has fewer. */
  function PackageTag(pkg: Package): string {
    if |pkg.sha256| >= 8 then pkg.sha256[..8] else pkg.sha256
  }

  /**
   The settings of a patch: the published image, a suffix of label, package and image digest, and, when the AI
   is switched on, the vault, the secret and the identity of the resources.
   */
  function Wanted(pkg: Package, ctx: Context, m: Move): Settings
    requires DigestFine(ctx.digest)
  {
    LabelsAre(m.tag);
    Settings(m.enabled,
             pkg.registry + ".azurecr.io/" + pkg.repository + "@" + ctx.digest.value,
             LABELS[m.tag] + "-" + PackageTag(pkg) + "-" + ctx.digest.value[7..14],
             pkg.identityId,
             if m.enabled then ctx.vaultUrl else None,
             if m.enabled then Some("openai-api-key") else None,
             if m.enabled then ctx.clientId else None,
             m.budget)
  }

  /** Everything a patch needs before it is sent. */
  predicate Preparable(sx: Syntax, pkg: Package, st: Engine, ctx: Context, m: Move) {
    st.projection.Some? && st.configuration.Some? && DigestFine(ctx.digest) &&
    (m.enabled ==> ctx.vaultUrl.Some? && ctx.clientId.Some?) &&
    Patchable(sx, st.projection.value, Wanted(pkg, ctx, m))
  }

  /** A prepared patch acknowledged by the service, and then by the clock. */
  predicate Sends(sx: Syntax, pkg: Package, st: Engine, ctx: Context, m: Move, w: PatchWorld) {
    Preparable(sx, pkg, st, ctx, m) && w.patch.PatchAccepted? && w.clock.Some?
  }

  /** The failure of a patch, in the order in which its conditions are met. */
  predicate NotSent(sx: Syntax, pkg: Package, st: Engine, ctx: Context, m: Move, w: PatchWorld, f: Failure) {
    if st.projection.None? || st.configuration.None? then f == ActionError(AuthorityDrift, None)
    else if !DigestFine(ctx.digest) then f == ActionError(ImageDigestInvalid, None)
    else if m.enabled && (ctx.vaultUrl.None? || ctx.clientId.None?) then f == ActionError(ResourceOutputDrift, None)
    else if !Patchable(sx, st.projection.value, Wanted(pkg, ctx, m)) then f == ActionError(PatchUnconfirmed, None)
    else if w.patch.PatchRaisesAction? then f == ActionError(w.patch.code, w.patch.evidence)
    else if !w.patch.PatchAccepted? then f == ActionError(PatchUnconfirmed, None)
    else f == ForeignError
  }

  /** The transition an acknowledged patch begins: from where the engine stands to the target of the patch. */
  ghost predicate Begins(
    sx: Syntax, pkg: Package, st: Engine, ctx: Context, m: Move, w: PatchWorld, own: Pending)
    requires Sends(sx, pkg, st, ctx, m, w)
  {
    own.role == m.role && own.acknowledgement == Accepted && own.startedAt == w.clock.value &&
    own.predecessorRevision == st.revision && own.predecessor == st.projection.value &&
    own.configuration == st.configuration.value && own.targetImage == Wanted(pkg, ctx, m).image &&
    own.targetRevision == pkg.appName + "--" + own.target.template.revisionSuffix &&
    Moves(sx, st.projection.value, Wanted(pkg, ctx, m), own.target)
  }

  /** The engine moved to the target of a transition, which it keeps among its pending ones or has consumed. */
  function Moved(st: Engine, own: Pending, consumed: bool, writes: seq<SecretWrite>): Engine {
    Engine(Some(own.target), own.targetRevision,
           if consumed then st.pending - {own.targetRevision} else st.pending[own.targetRevision := own],
           st.configuration, st.accepted + [own], st.writes + writes)
  }

  /** The transition last begun. */
  function Newest(st: Engine): Pending
    requires st.accepted != []
  {
    st.accepted[|st.accepted| - 1]
  }

  lemma WantedIs(sx: Syntax, pkg: Package, ctx: Context, m: Move)
    ensures CandidateImage(pkg, ctx) ==
      if DigestFine(ctx.digest) then Ok(Wanted(pkg, ctx, m).image) else Err(ActionError(ImageDigestInvalid, None))
    ensures DigestFine(ctx.digest) && ImageReference(Wanted(pkg, ctx, m).image) ==>
      SettingsFor(pkg, ctx, m.tag, Wanted(pkg, ctx, m).image, m.enabled, m.budget) == Wanted(pkg, ctx, m)
  {
    hide ImageReference, LabelText, AfterLast;
    if DigestFine(ctx.digest) && ImageReference(Wanted(pkg, ctx, m).image) {
      LabelsAre(m.tag);
      DigestTail(pkg.registry + ".azurecr.io/" + pkg.repository, ctx.digest.value);
    }
  }

  /** What follows the digest mark of an image reference is the hex text of its digest. */
  lemma DigestTail(path: string, digest: string)
    requires |digest| == 71 && digest[..7] == "sha256:" && ImageReference(path + "@" + digest)
    ensures AfterLast(path + "@" + digest, "@sha256:") == digest[7..]
  {
    hide AfterLast, ImagePath;
    var image := path + "@" + digest;
    assert image[|image| - 71..] == digest;
    assert "@sha256:" == "@" + "sha256:" && digest == "sha256:" + digest[7..];
    assert image == path + "@sha256:" + digest[7..];
    AfterLastIsTail(path, "@sha256:", digest[7..]);
  }

  lemma PreparedExactly(sx: Syntax, pkg: Package, st: Engine, ctx: Context, m: Move)
    ensures var r := Prepare(sx, pkg, st, m.enabled, m.tag, ctx, m.budget);
      (r.Ok? <==> Preparable(sx, pkg, st, ctx, m)) &&
      (r.Ok? ==>
        r.value.image == Wanted(pkg, ctx, m).image && CandidateImage(pkg, ctx) == Ok(r.value.image) &&
        Moves(sx, st.projection.value, Wanted(pkg, ctx, m), r.value.target) &&
        RevisionOf(pkg, m.tag, r.value.image) == pkg.appName + "--" + r.value.target.template.revisionSuffix) &&
      (r.Err? ==> forall w: PatchWorld :: NotSent(sx, pkg, st, ctx, m, w, r.error))
  {
    hide CandidateImage, Wanted, Moves, ProjectionFine, Suffix, DigestFine, Target;
    WantedIs(sx, pkg, ctx, m);
    if DigestFine(ctx.digest) && st.projection.Some? {
      var s := Wanted(pkg, ctx, m);
      TargetExactly(sx, st.projection.value, s);
      TargetExactly(sx, st.projection.value, SettingsFor(pkg, ctx, m.tag, s.image, m.enabled, m.budget));
      if Target(sx, st.projection.value, s).Ok? {
        TargetIs(sx, st.projection.value, s);
        SuffixMoved(sx, st.projection.value, s, Target(sx, st.projection.value, s).value);
      }
    }
  }

  lemma SuffixMoved(sx: Syntax, p: Projection, s: Settings, t: Projection)
    requires Moves(sx, p, s, t)
    ensures t.template.revisionSuffix == s.suffix
  {
    hide IdentitiesMoved, RowsMoved;
  }

  /**
   A patch is applied if and only if it is prepared, acknowledged and timed; it then moves the engine to the
   target and records the transition, under the revision whose suffix the target itself carries.
   */
  lemma ApplyExactly(sx: Syntax, pkg: Package, st: Engine, ctx: Context, m: Move, w: PatchWorld)
    ensures var (after, r) := Apply(sx, pkg, st, m.enabled, m.tag, m.role, ctx, m.budget, w);
      (r.Ok? <==> Sends(sx, pkg, st, ctx, m, w)) &&
      (r.Err? ==> after == st && NotSent(sx, pkg, st, ctx, m, w, r.error)) &&
      (r.Ok? ==>
        after.accepted != [] &&
        var own := Newest(after);
        Begins(sx, pkg, st, ctx, m, w, own) && after == Moved(st, own, false, []) && r.value == own.targetRevision)
  {
    hide Prepare, Preparable, Moves, Wanted, RevisionOf, Patchable, DigestFine;
    PreparedExactly(sx, pkg, st, ctx, m);
    if Preparable(sx, pkg, st, ctx, m) { PreparableMeans(sx, pkg, st, ctx, m); }
  }

  lemma PreparableMeans(sx: Syntax, pkg: Package, st: Engine, ctx: Context, m: Move)
    requires Preparable(sx, pkg, st, ctx, m)
    ensures st.projection.Some? && st.configuration.Some? && DigestFine(ctx.digest)
    ensures m.enabled ==> ctx.vaultUrl.Some? && ctx.clientId.Some?
    ensures Patchable(sx, st.projection.value, Wanted(pkg, ctx, m))
  {
    hide Patchable, Wanted, DigestFine;
  }

  // ---- One verification ----

  /** Evidence of a transition, in this final state. */
  predicate Speaks(p: Pending, e: Evidence, state: FinalState) {
    BoundedEvidence(p, e) && e.finalState == state
  }

  /** The failure of a verification: how the polling of a valid transition stopped, or a refusal of its contract. */
  ghost predicate NotObserved(p: Pending, w: PatchWorld, f: Failure) {
    if Stops(p, w.run)
    then f.ActionError? && f.evidence.Some? && f.code == NotReconciled(f.evidence.value.finalState) &&
         BoundedEvidence(p, f.evidence.value) && StopsIn(p, w.run, f.evidence.value.finalState)
    else f == ActionError(ReconciliationRefused, None)
  }

  ghost predicate StopsIn(p: Pending, run: nat -> Cycle, state: FinalState) {
    ValidPending(p) && exists n | 0 <= n < MAX_READS :: StopsAt(p, run, n, state)
  }

  ghost predicate Stops(p: Pending, run: nat -> Cycle) {
    exists state :: StopsIn(p, run, state)
  }

  lemma VerdictExactly(p: Pending, w: PatchWorld)
    ensures var r := VerdictResult(Verdict(p, w.run));
      (r.Ok? <==> Observed(p, w)) && (r.Ok? ==> Speaks(p, r.value, HealthyTarget)) &&
      (r.Err? ==> NotObserved(p, w, r.error))
  {
    hide ProvenAt, StopsAt, VerdictAt, BoundedEvidence;
    VerdictEvidence(p, w.run);
    if ValidPending(p) {
      ConfirmedExactly(p, w.run);
      forall state {
        StoppedExactly(p, w.run, state);
      }
      var v := Verdict(p, w.run);
      if v.Stopped? { assert StopsIn(p, w.run, v.evidence.finalState); }
    }
  }

  /** Which entry a verification reconciles. */
  predicate Awaits(st: Engine, revision: string, role: Role, image: string) {
    revision in st.pending && st.pending[revision].role == role && st.pending[revision].targetImage == image
  }

  /** A verification succeeds if and only if its own entry is pending and is observed at its target. */
  lemma VerifyExactly(st: Engine, revision: string, role: Role, image: string, w: PatchWorld)
    ensures var (after, r) := Reconciled(st, revision, role, image, w.run);
      after == st.(pending := st.pending - {revision}) &&
      (r.Ok? <==> Awaits(st, revision, role, image) && Observed(st.pending[revision], w)) &&
      (r.Ok? ==> Speaks(st.pending[revision], r.value, HealthyTarget)) &&
      (r.Err? ==>
        if Awaits(st, revision, role, image) then NotObserved(st.pending[revision], w, r.error)
        else r.error == ActionError(RevisionUnverified, None))
  {
    hide Observed, NotObserved, Speaks, Verdict, VerdictResult;
    if Awaits(st, revision, role, image) { VerdictExactly(st.pending[revision], w); }
  }

  // ---- A patch and its verification ----

  /** Applied and then verified: the transition of a patch is its own, and consumed whatever comes out. */
  lemma OwnIsVerified(sx: Syntax, pkg: Package, st: Engine, ctx: Context, m: Move, w: PatchWorld)
    requires Sends(sx, pkg, st, ctx, m, w)
    ensures DigestFine(ctx.digest)
    ensures var image := Wanted(pkg, ctx, m).image;
      var (applied, acknowledged) := Apply(sx, pkg, st, m.enabled, m.tag, m.role, ctx, m.budget, w);
      acknowledged.Ok? && acknowledged.value == RevisionOf(pkg, m.tag, image) &&
      CandidateImage(pkg, ctx) == Ok(image) &&
      var (after, r) := Reconciled(applied, acknowledged.value, m.role, image, w.run);
      after.accepted != [] &&
      var own := Newest(after);
      Begins(sx, pkg, st, ctx, m, w, own) && after == Moved(st, own, true, []) &&
      (r.Ok? <==> Observed(own, w)) && (r.Ok? ==> Speaks(own, r.value, HealthyTarget)) &&
      (r.Err? ==> NotObserved(own, w, r.error))
  {
    hide Observed, NotObserved, Speaks, Reconciled, Sends, Begins, Moved, Awaits, Wanted, RevisionOf, Apply,
      CandidateImage, DigestFine;
    ApplyExactly(sx, pkg, st, ctx, m, w);
    WantedIs(sx, pkg, ctx, m);
    OwnRevision(sx, pkg, st, ctx, m, w);
    var (applied, acknowledged) := Apply(sx, pkg, st, m.enabled, m.tag, m.role, ctx, m.budget, w);
    var own := Newest(applied);
    BegunIs(sx, pkg, st, ctx, m, w, own);
    MovedAwaits(st, own);
    VerifyExactly(applied, own.targetRevision, m.role, own.targetImage, w);
  }

  lemma BegunIs(sx: Syntax, pkg: Package, st: Engine, ctx: Context, m: Move, w: PatchWorld, own: Pending)
    requires Sends(sx, pkg, st, ctx, m, w) && Begins(sx, pkg, st, ctx, m, w, own)
    ensures DigestFine(ctx.digest) && own.role == m.role && own.targetImage == Wanted(pkg, ctx, m).image
  {
    hide Moves, Wanted, Patchable, DigestFine;
  }

  lemma MovedAwaits(st: Engine, own: Pending)
    ensures var applied := Moved(st, own, false, []);
      Awaits(applied, own.targetRevision, own.role, own.targetImage) &&
      applied.pending[own.targetRevision] == own && applied.accepted != [] &&
      applied.(pending := applied.pending - {own.targetRevision}) == Moved(st, own, true, [])
    ensures Moved(st, own, true, []).accepted != [] && Newest(Moved(st, own, true, [])) == own
  {
    var applied := Moved(st, own, false, []);
    assert applied.pending - {own.targetRevision} == st.pending - {own.targetRevision};
  }

  lemma OwnRevision(sx: Syntax, pkg: Package, st: Engine, ctx: Context, m: Move, w: PatchWorld)
    requires Sends(sx, pkg, st, ctx, m, w)
    ensures DigestFine(ctx.digest)
    ensures var r := Apply(sx, pkg, st, m.enabled, m.tag, m.role, ctx, m.budget, w).1;
      r == Ok(RevisionOf(pkg, m.tag, Wanted(pkg, ctx, m).image))
  {
    hide Prepare, Preparable, Moves, Wanted, RevisionOf;
    PreparableMeans(sx, pkg, st, ctx, m);
    PreparedExactly(sx, pkg, st, ctx, m);
  }

  // ---- Recovery ----

  function Recovery(tag: Label, role: Role): Move {
    Move(false, tag, role, false)
  }

  /** A recovery has a disabled target to aim at. */
  predicate Aims(sx: Syntax, pkg: Package, st: Engine, tag: Label, role: Role, ctx: Context) {
    st.projection.Some? && DigestFine(ctx.digest) &&
    Patchable(sx, st.projection.value, Wanted(pkg, ctx, Recovery(tag, role)))
  }

  function Overwrites(overwrite: bool): seq<SecretWrite> {
    if overwrite then [EmergencyWrite] else []
  }

  /** A recovery has gone through: the engine stands at its target, observed, with the overwrite done. */
  ghost predicate Recovers(
    sx: Syntax, pkg: Package, st: Engine, tag: Label, role: Role, ctx: Context,
    overwrite: bool, w: PatchWorld, placeholder: bool, after: Engine)
  {
    Sends(sx, pkg, st, ctx, Recovery(tag, role), w) && after.accepted != [] && Observed(Newest(after), w) &&
    (overwrite ==> placeholder)
  }

  /** The failure of a recovery, and what it leaves behind. */
  ghost predicate NotRecovered(
    sx: Syntax, pkg: Package, st: Engine, tag: Label, role: Role, ctx: Context,
    overwrite: bool, w: PatchWorld, after: Engine, f: Failure)
  {
    var m := Recovery(tag, role);
    if !Aims(sx, pkg, st, tag, role, ctx) then
      after == st &&
      f == ActionError(if st.projection.None? then AuthorityDrift
                       else if !DigestFine(ctx.digest) then ImageDigestInvalid
                       else EmergencyDisableFailed, None)
    else if !Sends(sx, pkg, st, ctx, m, w) then
      after == st.(writes := st.writes + Overwrites(overwrite)) &&
      exists cause: Failure :: NotSent(sx, pkg, st, ctx, m, w, cause) && Wraps(f, cause)
    else
      after.accepted != [] &&
      if Observed(Newest(after), w) then
        overwrite && f.ActionError? && f.code == EmergencyDisableFailed && f.evidence.Some? &&
        Speaks(Newest(after), f.evidence.value, HealthyTarget)
      else exists cause: Failure :: NotObserved(Newest(after), w, cause) && Wraps(f, cause)
  }

  /** The failure of a recovery keeps the evidence of its cause, and nothing else of it. */
  predicate Wraps(f: Failure, cause: Failure) {
    f == ActionError(EmergencyDisableFailed, if cause.ActionError? then cause.evidence else None)
  }

  /**
   A recovery succeeds if and only if its patch is prepared, acknowledged, timed and observed, and a requested
   overwrite goes through. Once it has a target to aim at, the overwrite is attempted whatever else happens.
   */
  lemma RecoverExactly(
    sx: Syntax, pkg: Package, st: Engine, tag: Label, role: Role, ctx: Context,
    overwrite: bool, w: PatchWorld, placeholder: bool)
    ensures var (after, r) := Recover(sx, pkg, st, tag, role, ctx, overwrite, w, placeholder);
      var m := Recovery(tag, role);
      (r.Ok? <==> Recovers(sx, pkg, st, tag, role, ctx, overwrite, w, placeholder, after)) &&
      (r.Ok? ==> Speaks(Newest(after), r.value, HealthyTarget)) &&
      (r.Err? ==> NotRecovered(sx, pkg, st, tag, role, ctx, overwrite, w, after, r.error)) &&
      (Sends(sx, pkg, st, ctx, m, w) ==>
        after.accepted != [] && Begins(sx, pkg, st, ctx, m, w, Newest(after)) &&
        after == Moved(st, Newest(after), true, Overwrites(overwrite)))
  {
    hide Observed, NotObserved, Speaks, Verify, Sends, Begins, Moved, Aims, Wanted, RevisionOf, Apply,
      CandidateImage, NotSent, DigestFine, RecoveryAim;
    var m := Recovery(tag, role);
    AimExactly(sx, pkg, st, tag, role, ctx);
    ApplyExactly(sx, pkg, st, ctx, m, w);
    assert st.writes + [] == st.writes;
    if Sends(sx, pkg, st, ctx, m, w) {
      SentIsAim(sx, pkg, st, tag, role, ctx, w);
      OwnIsVerified(sx, pkg, st, ctx, m, w);
      var (disabled, verified) := Disable(sx, pkg, st, tag, role, ctx, Wanted(pkg, ctx, m).image, w);
      MovedWrites(st, Newest(disabled), overwrite);
      if verified.Err? {
        assert Wraps(ActionError(EmergencyDisableFailed, EvidenceOf(verified.error)), verified.error);
      }
    } else if Aims(sx, pkg, st, tag, role, ctx) {
      var cause := Apply(sx, pkg, st, false, tag, role, ctx, false, w).1.error;
      assert Wraps(ActionError(EmergencyDisableFailed, EvidenceOf(cause)), cause);
    }
  }

  lemma MovedWrites(st: Engine, own: Pending, overwrite: bool)
    ensures var after := Moved(st, own, true, Overwrites(overwrite));
      WithOverwrite(Moved(st, own, true, []), overwrite) == after &&
      after == after.(projection := Some(own.target)) && after.accepted != [] && Newest(after) == own
    ensures Moved(st, own, true, []).projection == Some(own.target)
  {
  }

  lemma AimExactly(sx: Syntax, pkg: Package, st: Engine, tag: Label, role: Role, ctx: Context)
    ensures var aim := RecoveryAim(sx, pkg, st, tag, ctx);
      (aim.Ok? <==> Aims(sx, pkg, st, tag, role, ctx)) &&
      (aim.Ok? ==> aim.value.image == Wanted(pkg, ctx, Recovery(tag, role)).image) &&
      (aim.Err? ==>
        aim.error == ActionError(if st.projection.None? then AuthorityDrift
                                 else if !DigestFine(ctx.digest) then ImageDigestInvalid
                                 else EmergencyDisableFailed, None))
  {
    hide CandidateImage, Wanted, ProjectionFine, DigestFine, Target, ImageReference, RevisionSuffix, VaultUrl;
    var m := Recovery(tag, role);
    WantedIs(sx, pkg, ctx, m);
    if DigestFine(ctx.digest) && st.projection.Some? {
      var s := Wanted(pkg, ctx, m);
      TargetExactly(sx, st.projection.value, s);
      TargetExactly(sx, st.projection.value, SettingsFor(pkg, ctx, tag, s.image, false, false));
    }
  }

  /** The target a recovery aims at is the one its patch moves the engine to. */
  lemma SentIsAim(sx: Syntax, pkg: Package, st: Engine, tag: Label, role: Role, ctx: Context, w: PatchWorld)
    requires Apply(sx, pkg, st, false, tag, role, ctx, false, w).1.Ok?
    ensures RecoveryAim(sx, pkg, st, tag, ctx).Ok?
    ensures Apply(sx, pkg, st, false, tag, role, ctx, false, w).0.projection ==
            Some(RecoveryAim(sx, pkg, st, tag, ctx).value.target)
  {
    hide Target, CandidateImage;
  }

  // ---- Rehearsals ----

  function Enabling(r: Rehearsal): Move {
    Move(true, r.enabling, r.enablingRole, r.budget)
  }

  /** The enabled half of a rehearsal has gone through: sent, observed, and passed in the browser. */
  ghost predicate Enables(
    sx: Syntax, pkg: Package, st: Engine, r: Rehearsal, ctx: Context, w: PatchWorld, browser: BrowserReply,
    mid: Engine)
  {
    Sends(sx, pkg, st, ctx, Enabling(r), w) && mid.accepted != [] && Observed(Newest(mid), w) &&
    browser.BrowserPasses?
  }

  /** The failure that ends the enabled half: of the patch, then of its verification, then of the browser. */
  ghost predicate NotEnabled(
    sx: Syntax, pkg: Package, st: Engine, r: Rehearsal, ctx: Context, w: PatchWorld, browser: BrowserReply,
    mid: Engine, f: Failure)
  {
    if !Sends(sx, pkg, st, ctx, Enabling(r), w) then NotSent(sx, pkg, st, ctx, Enabling(r), w, f) && mid == st
    else
      mid.accepted != [] &&
      if !Observed(Newest(mid), w) then NotObserved(Newest(mid), w, f)
      else
        f == if browser.BrowserRaisesAction? then ActionError(browser.code, browser.evidence) else ForeignError
  }

  lemma EnabledHalfExactly(
    sx: Syntax, pkg: Package, st: Engine, r: Rehearsal, ctx: Context, w: PatchWorld, browser: BrowserReply)
    ensures var (mid, e) := EnabledHalf(sx, pkg, st, r, ctx, w, browser);
      (e.Ok? <==> Enables(sx, pkg, st, r, ctx, w, browser, mid)) &&
      (e.Ok? ==> Speaks(Newest(mid), e.value, HealthyTarget)) &&
      (e.Err? ==> NotEnabled(sx, pkg, st, r, ctx, w, browser, mid, e.error)) &&
      (Sends(sx, pkg, st, ctx, Enabling(r), w) ==>
        mid.accepted != [] && Begins(sx, pkg, st, ctx, Enabling(r), w, Newest(mid)) &&
        mid == Moved(st, Newest(mid), true, []))
  {
    hide Observed, NotObserved, Speaks, Reconciled, Sends, Begins, Moved, Wanted, Apply, CandidateImage, NotSent,
      DigestFine;
    ApplyExactly(sx, pkg, st, ctx, Enabling(r), w);
    var (applied, acknowledged) := Apply(sx, pkg, st, true, r.enabling, r.enablingRole, ctx, r.budget, w);
    assert acknowledged.Ok? <==> Sends(sx, pkg, st, ctx, Enabling(r), w);
    var (mid, e) := EnabledHalf(sx, pkg, st, r, ctx, w, browser);
    if Sends(sx, pkg, st, ctx, Enabling(r), w) {
      OwnIsVerified(sx, pkg, st, ctx, Enabling(r), w);
      var image := CandidateImage(pkg, ctx).value;
      var (after, verified) := Reconciled(applied, acknowledged.value, r.enablingRole, image, w.run);
      assert mid == after && e == if verified.Ok? then BrowserResult(browser, verified.value) else verified;
    } else {
      assert e.Err? && mid == st && NotSent(sx, pkg, st, ctx, Enabling(r), w, e.error);
    }
  }

  /**
   A rehearsal succeeds if and only if both of its halves do, and then reports on both transitions. Otherwise a
   failure of the recovery comes first; without one, the failure of the enabled half keeps its own code, or gets
   that of the browser check when it was foreign.
   */
  lemma RehearseExactly(
    sx: Syntax, pkg: Package, st: Engine, r: Rehearsal, ctx: Context, w: PatchWorld, browser: BrowserReply,
    recovery: PatchWorld)
    ensures var mid := EnabledHalf(sx, pkg, st, r, ctx, w, browser).0;
      var (after, o) := Rehearse(sx, pkg, st, r, ctx, w, browser, recovery);
      var enables := Enables(sx, pkg, st, r, ctx, w, browser, mid);
      var recovers := Recovers(sx, pkg, mid, r.recovering, r.recoveringRole, ctx, false, recovery, true, after);
      (o.Ok? <==> enables && recovers) &&
      (o.Ok? ==>
        |o.value| == 2 && Speaks(Newest(mid), o.value[0], HealthyTarget) &&
        Speaks(Newest(after), o.value[1], HealthyTarget)) &&
      (!recovers ==>
        o.Err? &&
        NotRecovered(sx, pkg, mid, r.recovering, r.recoveringRole, ctx, false, recovery, after, o.error)) &&
      (recovers && !enables ==>
        o.Err? && exists cause: Failure ::
          NotEnabled(sx, pkg, st, r, ctx, w, browser, mid, cause) && Reraised(o.error, cause))
  {
    hide EnabledHalf, Recover, Enables, Recovers, NotEnabled, NotRecovered, Speaks, Newest, Reraised;
    EnabledHalfExactly(sx, pkg, st, r, ctx, w, browser);
    var (mid, primary) := EnabledHalf(sx, pkg, st, r, ctx, w, browser);
    RecoverExactly(sx, pkg, mid, r.recovering, r.recoveringRole, ctx, false, recovery, true);
    var (after, o) := Rehearse(sx, pkg, st, r, ctx, w, browser, recovery);
    var recovered := Recover(sx, pkg, mid, r.recovering, r.recoveringRole, ctx, false, recovery, true);
    assert after == recovered.0 && (recovered.1.Err? ==> o.Err? && o.error == recovered.1.error);
    if primary.Err? { SomeReraised(primary.error); }
  }

  /** Which failure a rehearsal raises for that of its enabled half. */
  predicate Reraised(f: Failure, cause: Failure) {
    f == if cause.ActionError? then cause else ActionError(BrowserFailed, None)
  }

  lemma SomeReraised(cause: Failure)
    ensures Reraised(
      match cause case ActionError(code, evidence) => ActionError(code, evidence)
                  case ForeignError => ActionError(BrowserFailed, None), cause)
  {
  }

  /** A patch of the AI identity does not decide whether a later disabling patch can be built. */
  lemma DisablingStaysPatchable(sx: Syntax, p: Projection, a: Settings, b: Settings)
    requires Target(sx, p, a).Ok? && !b.enabled && sx.fold(a.identityId) == sx.fold(b.identityId)
    ensures Patchable(sx, Target(sx, p, a).value, b) <==> Patchable(sx, p, b)
  {
    hide Patchable, Target;
    TargetExactly(sx, p, b);
    TargetExactly(sx, Target(sx, p, a).value, b);
    RevisionLaws.DisablingForgets(sx, p, a, b);
  }

  /**
   The success of a rehearsal on what it is given and meets: both patches can be built from the projection the
   engine stands at, both are acknowledged and timed, the browser passes, and each of the two transitions, the
   second begun where the first ends, is observed at its target.
   */
  lemma RehearsalSucceedsExactly(
    sx: Syntax, pkg: Package, st: Engine, r: Rehearsal, ctx: Context, w: PatchWorld, browser: BrowserReply,
    recovery: PatchWorld)
    ensures var (after, o) := Rehearse(sx, pkg, st, r, ctx, w, browser, recovery);
      var n := |st.accepted|;
      var both := Sends(sx, pkg, st, ctx, Enabling(r), w) &&
        Sends(sx, pkg, st, ctx, Recovery(r.recovering, r.recoveringRole), recovery);
      (both ==>
        |after.accepted| == n + 2 &&
        Begins(sx, pkg, st, ctx, Enabling(r), w, after.accepted[n]) &&
        var mid := Moved(st, after.accepted[n], true, []);
        Sends(sx, pkg, mid, ctx, Recovery(r.recovering, r.recoveringRole), recovery) &&
        Begins(sx, pkg, mid, ctx, Recovery(r.recovering, r.recoveringRole), recovery, after.accepted[n + 1]) &&
        after == Moved(mid, after.accepted[n + 1], true, [])) &&
      (o.Ok? <==>
        both && Observed(after.accepted[n], w) && Observed(after.accepted[n + 1], recovery) &&
        browser.BrowserPasses?)
  {
    hide EnabledHalf, Recover, Rehearse, Speaks, Observed, NotEnabled, NotRecovered, Reraised, Sends, Begins;
    RehearseExactly(sx, pkg, st, r, ctx, w, browser, recovery);
    EnabledHalfExactly(sx, pkg, st, r, ctx, w, browser);
    var mid := EnabledHalf(sx, pkg, st, r, ctx, w, browser).0;
    RecoverExactly(sx, pkg, mid, r.recovering, r.recoveringRole, ctx, false, recovery, true);
    var m := Recovery(r.recovering, r.recoveringRole);
    if Sends(sx, pkg, st, ctx, Enabling(r), w) {
      SendsFromMid(sx, pkg, st, r, ctx, w, browser, m, recovery);
      RehearsalIs(sx, pkg, st, r, ctx, w, browser, recovery);
    }
  }

  lemma RehearsalIs(
    sx: Syntax, pkg: Package, st: Engine, r: Rehearsal, ctx: Context, w: PatchWorld, browser: BrowserReply,
    recovery: PatchWorld)
    ensures Rehearse(sx, pkg, st, r, ctx, w, browser, recovery).0 ==
      Recover(sx, pkg, EnabledHalf(sx, pkg, st, r, ctx, w, browser).0, r.recovering, r.recoveringRole, ctx, false,
              recovery, true).0
  {
    hide EnabledHalf, Recover;
  }

  /** The recovery can be sent after the enabling patch exactly when it could have been sent instead of it. */
  lemma SendsFromMid(
    sx: Syntax, pkg: Package, st: Engine, r: Rehearsal, ctx: Context, w: PatchWorld, browser: BrowserReply,
    m: Move, recovery: PatchWorld)
    requires Sends(sx, pkg, st, ctx, Enabling(r), w) && !m.enabled
    ensures var mid := EnabledHalf(sx, pkg, st, r, ctx, w, browser).0;
      Sends(sx, pkg, mid, ctx, m, recovery) <==> Sends(sx, pkg, st, ctx, m, recovery)
  {
    hide Target, Patchable, DigestFine, Reconciled, Begins, CandidateImage, Apply, ImageReference;
    var a := Enabling(r);
    ApplyExactly(sx, pkg, st, ctx, a, w);
    ApplyIsAllOrNothing(sx, pkg, st, true, r.enabling, r.enablingRole, ctx, r.budget, w);
    EnabledHalfProjection(sx, pkg, st, r, ctx, w, browser);
    WantedIs(sx, pkg, ctx, a);
    BoundImage(sx, st.projection.value, Wanted(pkg, ctx, a));
    DisablingStaysPatchable(sx, st.projection.value, Wanted(pkg, ctx, a), Wanted(pkg, ctx, m));
  }

  lemma BoundImage(sx: Syntax, p: Projection, s: Settings)
    requires Patchable(sx, p, s)
    ensures ImageReference(s.image) && Target(sx, p, s).Ok?
  {
    hide ProjectionFine, Target, ImageReference;
    TargetExactly(sx, p, s);
  }

  lemma EnabledHalfProjection(
    sx: Syntax, pkg: Package, st: Engine, r: Rehearsal, ctx: Context, w: PatchWorld, browser: BrowserReply)
    ensures var mid := EnabledHalf(sx, pkg, st, r, ctx, w, browser).0;
      var applied := Apply(sx, pkg, st, true, r.enabling, r.enablingRole, ctx, r.budget, w).0;
      mid.projection == applied.projection && mid.configuration == applied.configuration
  {
    hide Apply, Verify, CandidateImage;
  }
}
