/**
 The validators of the revision patch spelled out on the texts and numbers they are about, and what a patch
 refuses, field by field.
 */
module RevisionRules {
  import opened Wrappers
  import opened Patterns
  import opened Revision
  import opened RevisionLaws

  // ---- Rows and environments ----

  /** The four rows that refer to a secret of the application, and the name of the secret. */
  const SECRET_ROWS: map<EnvName, string> := map[
    DatabaseUrl := "database-url", BlobConnectionString := "blob-connection-string",
    OperatorPasswordHash := "operator-password-hash", SessionPepper := "session-pepper"]

  const REQUIRED_NAMES: set<EnvName> := {
    DatabaseUrl, BlobConnectionString, OperatorPasswordHash, SessionPepper, InsightsConnectionString,
    AllowedOrigin, DailyAttemptLimit, GlobalAttemptLimit, MaxConcurrentTurns, MonthlyTokenLimit,
    SessionAttemptLimit, BlobContainer, BlobEndpoint, DemoSessionRateLimit, OpenAiModel, ReasoningEffort,
    RuntimeEnvironment, ChatEnabled}

  const AI_NAMES: set<EnvName> := {ChatEnabled, BudgetRehearsal, VaultUrlName, VaultSecretName, IdentityClientId}

  predicate RowFine(row: EnvRow) {
    if row.name in SECRET_ROWS then row.content == SecretRef(SECRET_ROWS[row.name])
    else (row.name in REQUIRED_NAMES || row.name in AI_NAMES) && row.content.Value? && 1 <= |row.content.value| <= 4096
  }

  lemma RowExactly(row: EnvRow)
    ensures ValidRow(row) <==> RowFine(row)
  {
  }

  /** Every row of this name, if there is one, has this content. */
  predicate Always(env: seq<EnvRow>, name: EnvName, value: string) {
    forall i | 0 <= i < |env| && env[i].name == name :: env[i].content == Value(value)
  }

  predicate EnvironmentFine(env: seq<EnvRow>) {
    (forall i, j | 0 <= i < j < |env| :: env[i].name != env[j].name) &&
    (forall i | 0 <= i < |env| :: RowFine(env[i])) &&
    (forall name | name in REQUIRED_NAMES :: Named(env, name)) &&
    (Always(env, ChatEnabled, "true") || Always(env, ChatEnabled, "false")) &&
    Always(env, RuntimeEnvironment, "cloud") && Always(env, OpenAiModel, "gpt-5.4-nano-2026-03-17") &&
    Always(env, ReasoningEffort, "low")
  }

  lemma AlwaysIsThere(env: seq<EnvRow>, name: EnvName, value: string)
    requires DistinctNames(env) && Named(env, name)
    ensures Always(env, name, value) <==> EnvRow(name, Value(value)) in env
  {
    var k :| 0 <= k < |env| && env[k].name == name;
  }

  lemma NamesExactly(env: seq<EnvRow>)
    ensures (forall name | name in REQUIRED_NAMES :: Named(env, name)) <==>
      NamesPresent(env, UNTOUCHED_NAMES) && Named(env, ChatEnabled)
  {
    hide Named;
    if NamesPresent(env, UNTOUCHED_NAMES) && Named(env, ChatEnabled) {
      forall name | name in REQUIRED_NAMES
        ensures Named(env, name)
      {
        if name != ChatEnabled { RequiredAreListed(name); }
      }
    }
    if forall name | name in REQUIRED_NAMES :: Named(env, name) {
      forall i | 0 <= i < |UNTOUCHED_NAMES|
        ensures Named(env, UNTOUCHED_NAMES[i])
      {
        ListedAreRequired(i);
      }
    }
  }

  lemma RequiredAreListed(name: EnvName)
    requires name in REQUIRED_NAMES && name != ChatEnabled
    ensures exists i | 0 <= i < |UNTOUCHED_NAMES| :: UNTOUCHED_NAMES[i] == name
  {
    var i :=
      if name == DatabaseUrl then 0 else if name == BlobConnectionString then 1
      else if name == OperatorPasswordHash then 2 else if name == SessionPepper then 3
      else if name == InsightsConnectionString then 4 else if name == AllowedOrigin then 5
      else if name == DailyAttemptLimit then 6 else if name == GlobalAttemptLimit then 7
      else if name == MaxConcurrentTurns then 8 else if name == MonthlyTokenLimit then 9
      else if name == SessionAttemptLimit then 10 else if name == BlobContainer then 11
      else if name == BlobEndpoint then 12 else if name == DemoSessionRateLimit then 13
      else if name == OpenAiModel then 14 else if name == ReasoningEffort then 15 else 16;
    assert UNTOUCHED_NAMES[i] == name;
  }

  lemma ListedAreRequired(i: nat)
    requires i < |UNTOUCHED_NAMES|
    ensures UNTOUCHED_NAMES[i] in REQUIRED_NAMES
  {
  }

  lemma EnvironmentExactly(env: seq<EnvRow>)
    ensures ValidEnvironment(env) <==> EnvironmentFine(env)
  {
    hide Always, RowFine, ValidRow, Named, NamesPresent;
    NamesExactly(env);
    forall i | 0 <= i < |env| { RowExactly(env[i]); }
    if DistinctNames(env) && NamesPresent(env, UNTOUCHED_NAMES) {
      assert Named(env, UNTOUCHED_NAMES[14]) && Named(env, UNTOUCHED_NAMES[15]) && Named(env, UNTOUCHED_NAMES[16]) by {
        ListedArePresent(env);
      }
      AlwaysIsThere(env, RuntimeEnvironment, "cloud");
      AlwaysIsThere(env, OpenAiModel, "gpt-5.4-nano-2026-03-17");
      AlwaysIsThere(env, ReasoningEffort, "low");
      if ChatSwitched(env) { SwitchIsNamed(env); }
      if Named(env, ChatEnabled) {
        AlwaysIsThere(env, ChatEnabled, "true");
        AlwaysIsThere(env, ChatEnabled, "false");
      }
    }
  }

  lemma ListedArePresent(env: seq<EnvRow>)
    requires NamesPresent(env, UNTOUCHED_NAMES)
    ensures forall i | 0 <= i < |UNTOUCHED_NAMES| :: Named(env, UNTOUCHED_NAMES[i])
  {
  }

  lemma SwitchIsNamed(env: seq<EnvRow>)
    requires ChatSwitched(env)
    ensures Named(env, ChatEnabled)
  {
    var row := if EnvRow(ChatEnabled, Value("true")) in env then EnvRow(ChatEnabled, Value("true"))
               else EnvRow(ChatEnabled, Value("false"));
    var i :| 0 <= i < |env| && env[i] == row;
  }

  // ---- Projections and settings ----

  predicate ContainerFine(c: Container) {
    c.name == "bizpulse" && ImageReference(c.image) && EnvironmentFine(c.env) &&
    c.probes == [Probe("Liveness", "/health/live", 8000, "HTTP", 15, 30, 5, 3),
                 Probe("Readiness", "/health/ready", 8000, "HTTP", 10, 10, 5, 3)] &&
    c.resources == Resources(0.5, "1Gi")
  }

  predicate ProjectionFine(sx: Syntax, p: Projection) {
    Location(p.location) && p.identityType == "UserAssigned" && |p.identities| > 0 &&
    (forall a, b | a in p.identities && b in p.identities && a != b :: sx.fold(a) != sx.fold(b)) &&
    (forall id | id in p.identities :: sx.identityId(id) && p.identities[id] == Assigned) &&
    RevisionSuffix(p.template.revisionSuffix) && p.template.scale == Scale(1, 1) &&
    |p.template.containers| == 1 && ContainerFine(p.template.containers[0])
  }

  lemma ProjectionExactly(sx: Syntax, p: Projection)
    ensures ValidProjection(sx, p) <==> ProjectionFine(sx, p)
  {
    hide ValidEnvironment, EnvironmentFine, ImageReference, RevisionSuffix, Location;
    if |p.template.containers| == 1 { EnvironmentExactly(p.template.containers[0].env); }
    assert |p.identities| > 0 <==> p.identities != map[];
  }

  predicate Binds(sx: Syntax, s: Settings) {
    ImageReference(s.image) && RevisionSuffix(s.suffix) && sx.identityId(s.identityId) &&
    (s.enabled ==>
      s.vaultUrl.Some? && VaultUrl(s.vaultUrl.value) && s.secretName == Some("openai-api-key") &&
      s.clientId.Some? && CanonicalUuid4(s.clientId.value)) &&
    (!s.enabled ==> s.vaultUrl.None? && s.secretName.None? && s.clientId.None? && !s.budgetRehearsal)
  }

  /** When a patch is refused, and for which of the two reasons. */
  lemma PatchRefusals(sx: Syntax, p: Projection, s: Settings)
    ensures PatchOf(sx, p, s) == Err(BindingInvalid) <==> !Binds(sx, s)
    ensures PatchOf(sx, p, s) == Err(ProjectionInvalid) <==>
      Binds(sx, s) &&
      (!ProjectionFine(sx, p) || (!s.enabled && forall id | id in p.identities :: sx.fold(id) == sx.fold(s.identityId)))
  {
    hide ValidProjection, ProjectionFine, ImageReference, RevisionSuffix, VaultUrl, CanonicalUuid4, PatchedTemplate;
    ProjectionExactly(sx, p);
    PatchSucceeds(sx, p, s);
  }

  // ---- What a target is ----

  /** A patch can be built, and its target computed. */
  predicate Patchable(sx: Syntax, p: Projection, s: Settings) {
    Binds(sx, s) && ProjectionFine(sx, p) &&
    (s.enabled || exists id | id in p.identities :: sx.fold(id) != sx.fold(s.identityId))
  }

  lemma TargetExactly(sx: Syntax, p: Projection, s: Settings)
    ensures Target(sx, p, s).Ok? <==> Patchable(sx, p, s)
  {
    hide Binds, ProjectionFine, PatchOf, Canonical;
    PatchRefusals(sx, p, s);
    match PatchOf(sx, p, s) {
      case Ok(_) => PatchClosure(sx, p, s);
      case Err(e) => assert e == BindingInvalid || e == ProjectionInvalid;
    }
  }

  /** The assigned identities: the other ones as they were, and the AI identity, under one key, when enabled. */
  ghost predicate IdentitiesMoved(sx: Syntax, ids: map<string, Mark>, s: Settings, after: map<string, Mark>) {
    (forall id | sx.fold(id) != sx.fold(s.identityId) :: id in after <==> id in ids) &&
    (forall id | id in after && sx.fold(id) == sx.fold(s.identityId) ::
       s.enabled && (id in ids ||
         (id == s.identityId && forall other | other in ids :: sx.fold(other) != sx.fold(s.identityId)))) &&
    (s.enabled ==> exists id | id in after :: sx.fold(id) == sx.fold(s.identityId)) &&
    (forall id | id in after :: after[id] == Assigned)
  }

  lemma IdentitiesAre(sx: Syntax, ids: map<string, Mark>, s: Settings)
    requires ValidIdentities(sx, ids)
    ensures IdentitiesMoved(sx, ids, s, TargetIds(sx, ids, s))
  {
    hide TargetIds;
    TargetIdsAre(sx, ids, s);
    var key := IdentityKey(sx, ids, s);
    assert sx.fold(key) == sx.fold(s.identityId);
    if s.enabled { assert key in TargetIds(sx, ids, s); }
  }

  /**
   All of a target, from the source and the settings: the suffix and the image are those of the settings, the
   five AI rows and the AI identity say what the settings say, every other row and all else is as it was.
   */
  ghost predicate Moves(sx: Syntax, p: Projection, s: Settings, t: Projection) {
    t.location == p.location && t.identityType == p.identityType &&
    IdentitiesMoved(sx, p.identities, s, t.identities) &&
    t.template.revisionSuffix == s.suffix && t.template.scale == p.template.scale &&
    |t.template.containers| == |p.template.containers| == 1 &&
    var c, d := p.template.containers[0], t.template.containers[0];
    d.name == c.name && d.image == s.image && d.probes == c.probes && d.resources == c.resources &&
    Kept(d.env) == Kept(c.env) && RowsMoved(c.env, s, d.env)
  }

  ghost predicate RowsMoved(env: seq<EnvRow>, s: Settings, after: seq<EnvRow>) {
    forall row: EnvRow :: row in after <==> if row.name in AI_NAMES then Says(s, row) else row in env
  }

  lemma TargetIs(sx: Syntax, p: Projection, s: Settings)
    requires Target(sx, p, s).Ok?
    ensures Moves(sx, p, s, Target(sx, p, s).value)
  {
    hide IdentitiesMoved, RowsMoved, TargetIds, ValidEnvironment, ImageReference, RevisionSuffix, Location, Rewrite;
    TargetShape(sx, p, s);
    IdentitiesAre(sx, p.identities, s);
    var env := p.template.containers[0].env;
    RewriteKeeps(sx, env, s);
    RowsAreMoved(sx, p, s);
  }

  lemma RowsAreMoved(sx: Syntax, p: Projection, s: Settings)
    requires Target(sx, p, s).Ok? && ValidSettings(sx, s) && |p.template.containers| == 1
    ensures var env := p.template.containers[0].env;
      RowsMoved(env, s, Rewrite(sx, env, s))
  {
    hide Says, ValidSettings, Rewrite, IdentitiesMoved;
    TargetShape(sx, p, s);
    var env := p.template.containers[0].env;
    forall row: EnvRow
      ensures row in Rewrite(sx, env, s) <==> if row.name in AI_NAMES then Says(s, row) else row in env
    {
      MutableAre(row.name);
      if Mutable(row.name) { TargetAiRows(sx, p, s, row); } else { OtherRow(sx, env, s, row); }
    }
  }

  lemma MutableAre(name: EnvName)
    ensures Mutable(name) <==> name in AI_NAMES
  {
  }

  lemma OtherRow(sx: Syntax, env: seq<EnvRow>, s: Settings, row: EnvRow)
    requires ValidSettings(sx, s) && !Mutable(row.name)
    ensures row in Rewrite(sx, env, s) <==> row in env
  {
    RewriteElements(sx, env, s, row);
    AiRowsFacts(sx, s);
  }

  /** A patch beyond those built here canonicalises exactly when stripping its nulls leaves a valid projection. */
  lemma CanonicalExactly(sx: Syntax, patch: Projection, t: Projection)
    ensures Canonical(sx, patch) == Ok(t) <==>
      |patch.identities| > 0 &&
      (forall id | id in patch.identities ::
         sx.identityId(id) && (patch.identities[id] == Assigned || patch.identities[id] == Deleted)) &&
      (forall id :: id in t.identities <==> id in patch.identities && patch.identities[id] != Deleted) &&
      (forall id | id in t.identities :: id in patch.identities ==> t.identities[id] == patch.identities[id]) &&
      t == patch.(identities := t.identities) && ProjectionFine(sx, t)
    ensures Canonical(sx, patch).Err? ==> Canonical(sx, patch) == Err(ProjectionInvalid)
  {
    hide ValidProjection, ProjectionFine;
    var stripped := patch.(identities := Strip(patch.identities));
    ProjectionExactly(sx, stripped);
    assert |patch.identities| > 0 <==> patch.identities != map[];
    if (forall id :: id in t.identities <==> id in patch.identities && patch.identities[id] != Deleted) &&
       forall id | id in t.identities :: id in patch.identities ==> t.identities[id] == patch.identities[id]
    {
      assert t.identities == Strip(patch.identities);
    }
  }
}
