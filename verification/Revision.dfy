/**
 The patch algebra of one Container Apps revision (bizpulse/scripts/azure_ai_revision.py):
 validate a projection, rewrite its AI rows and identity map into a patch, and
 remove the deletion markers again.
 */
module Revision {
  import opened Wrappers
  import opened Patterns

  // ---- Data ----

  /** The environment names the source knows; every other name is `Unlisted`. */
  datatype EnvName =
    | DatabaseUrl | BlobConnectionString | OperatorPasswordHash | SessionPepper
    | InsightsConnectionString | AllowedOrigin | ChatEnabled | DailyAttemptLimit
    | GlobalAttemptLimit | MaxConcurrentTurns | MonthlyTokenLimit | SessionAttemptLimit
    | BlobContainer | BlobEndpoint | DemoSessionRateLimit | OpenAiModel | ReasoningEffort
    | RuntimeEnvironment
    | BudgetRehearsal | VaultUrlName | VaultSecretName | IdentityClientId
    | Unlisted(text: string)

  /** What a row holds beside its name; `OtherContent` is any other key set or value type. */
  datatype Content = Value(value: string) | SecretRef(secret: string) | OtherContent

  datatype EnvRow = EnvRow(name: EnvName, content: Content)

  datatype Probe = Probe(
    kind: string, path: string, port: int, scheme: string,
    initialDelay: int, period: int, timeout: int, failureThreshold: int)

  datatype Resources = Resources(cpu: real, memory: string)

  datatype Scale = Scale(minReplicas: int, maxReplicas: int)

  datatype Container = Container(
    name: string, image: string, env: seq<EnvRow>, probes: seq<Probe>, resources: Resources)

  datatype Template = Template(revisionSuffix: string, containers: seq<Container>, scale: Scale)

  /** The value kept under an identity id: `{}`, null, or anything else. */
  datatype Mark = Assigned | Deleted | OtherMark

  /** A projection; a patch is a projection whose identity map may hold `Deleted`. */
  datatype Projection = Projection(
    location: string, identityType: string, identities: map<string, Mark>, template: Template)

  datatype Settings = Settings(
    enabled: bool, image: string, suffix: string, identityId: string,
    vaultUrl: Option<string>, secretName: Option<string>, clientId: Option<string>,
    budgetRehearsal: bool)

  datatype RevisionError = ProjectionInvalid | BindingInvalid

  /** Text operations left abstract: Python's casefold and the resource-id syntax. */
  datatype Syntax = Syntax(fold: string -> string, identityId: string -> bool)

  const PROBES := [
    Probe("Liveness", "/health/live", 8000, "HTTP", 15, 30, 5, 3),
    Probe("Readiness", "/health/ready", 8000, "HTTP", 10, 10, 5, 3)]
  const RESOURCES := Resources(0.5, "1Gi")
  const SCALE := Scale(1, 1)
  const MODEL := "gpt-5.4-nano-2026-03-17"
  const SECRET_NAME := "openai-api-key"

  // ---- Validation ----

  function SecretOf(name: EnvName): Option<string> {
    match name
    case DatabaseUrl => Some("database-url")
    case BlobConnectionString => Some("blob-connection-string")
    case OperatorPasswordHash => Some("operator-password-hash")
    case SessionPepper => Some("session-pepper")
    case _ => None
  }

  predicate Optional(name: EnvName) {
    name in {BudgetRehearsal, VaultUrlName, VaultSecretName, IdentityClientId}
  }

  /** The rows a revision patch owns. */
  predicate Mutable(name: EnvName) {
    name == ChatEnabled || Optional(name)
  }

  predicate ValidRow(row: EnvRow) {
    match SecretOf(row.name)
    case Some(secret) => row.content == SecretRef(secret)
    case None => !row.name.Unlisted? && row.content.Value? && 1 <= |row.content.value| <= 4096
  }

  predicate DistinctNames(env: seq<EnvRow>) {
    forall i, j | 0 <= i < j < |env| :: env[i].name != env[j].name
  }

  predicate Named(env: seq<EnvRow>, name: EnvName) {
    exists i | 0 <= i < |env| :: env[i].name == name
  }

  /** The names every environment must hold, other than the chat switch. */
  const UNTOUCHED_NAMES: seq<EnvName> := [
    DatabaseUrl, BlobConnectionString, OperatorPasswordHash, SessionPepper,
    InsightsConnectionString, AllowedOrigin, DailyAttemptLimit, GlobalAttemptLimit,
    MaxConcurrentTurns, MonthlyTokenLimit, SessionAttemptLimit, BlobContainer,
    BlobEndpoint, DemoSessionRateLimit, OpenAiModel, ReasoningEffort, RuntimeEnvironment]

  predicate RowsValid(env: seq<EnvRow>) {
    forall i | 0 <= i < |env| :: ValidRow(env[i])
  }

  predicate NamesPresent(env: seq<EnvRow>, names: seq<EnvName>) {
    forall i | 0 <= i < |names| :: Named(env, names[i])
  }

  predicate ChatSwitched(env: seq<EnvRow>) {
    EnvRow(ChatEnabled, Value("true")) in env || EnvRow(ChatEnabled, Value("false")) in env
  }

  predicate PinnedRows(env: seq<EnvRow>) {
    EnvRow(RuntimeEnvironment, Value("cloud")) in env &&
    EnvRow(OpenAiModel, Value(MODEL)) in env &&
    EnvRow(ReasoningEffort, Value("low")) in env
  }

  predicate ValidEnvironment(env: seq<EnvRow>) {
    DistinctNames(env) && RowsValid(env) && NamesPresent(env, UNTOUCHED_NAMES) &&
    ChatSwitched(env) && PinnedRows(env)
  }

  predicate ValidContainer(c: Container) {
    c.name == "bizpulse" && ImageReference(c.image) && c.probes == PROBES &&
    c.resources == RESOURCES && ValidEnvironment(c.env)
  }

  predicate ValidTemplate(t: Template) {
    RevisionSuffix(t.revisionSuffix) && t.scale == SCALE &&
    |t.containers| == 1 && ValidContainer(t.containers[0])
  }

  predicate ValidIdentities(sx: Syntax, ids: map<string, Mark>) {
    ids != map[] &&
    (forall a, b | a in ids && b in ids && sx.fold(a) == sx.fold(b) :: a == b) &&
    (forall id | id in ids :: sx.identityId(id) && ids[id] == Assigned)
  }

  predicate ValidProjection(sx: Syntax, p: Projection) {
    Location(p.location) && p.identityType == "UserAssigned" &&
    ValidIdentities(sx, p.identities) && ValidTemplate(p.template)
  }

  predicate ValidSettings(sx: Syntax, s: Settings) {
    ImageReference(s.image) && RevisionSuffix(s.suffix) && sx.identityId(s.identityId) &&
    if s.enabled then
      s.vaultUrl.Some? && VaultUrl(s.vaultUrl.value) && s.secretName == Some(SECRET_NAME) &&
      s.clientId.Some? && CanonicalUuid4(s.clientId.value)
    else
      s.vaultUrl == None && s.secretName == None && s.clientId == None && !s.budgetRehearsal
  }

  // ---- The patch and its target, as functions ----

  predicate Matches(sx: Syntax, id: string, wanted: string) {
    sx.fold(id) == sx.fold(wanted)
  }

  /** The key of `ids` that names `wanted` up to case. */
  ghost function MatchingId(sx: Syntax, ids: map<string, Mark>, wanted: string): (m: Option<string>)
    ensures m.Some? ==> m.value in ids && Matches(sx, m.value, wanted)
    ensures m.None? ==> forall id | id in ids :: !Matches(sx, id, wanted)
  {
    if exists id :: id in ids && Matches(sx, id, wanted)
    then var id :| id in ids && Matches(sx, id, wanted); Some(id)
    else None
  }

  ghost function PatchedIdentities(sx: Syntax, ids: map<string, Mark>, s: Settings): map<string, Mark> {
    match MatchingId(sx, ids, s.identityId)
    case Some(id) => ids[id := if s.enabled then Assigned else Deleted]
    case None => if s.enabled then ids[s.identityId := Assigned] else ids
  }

  /** The rows that replace the chat switch. */
  function AiRows(sx: Syntax, s: Settings): seq<EnvRow>
    requires ValidSettings(sx, s)
  {
    if !s.enabled then [EnvRow(ChatEnabled, Value("false"))] else
    var binding := [
      EnvRow(VaultUrlName, Value(s.vaultUrl.value)),
      EnvRow(VaultSecretName, Value(s.secretName.value)),
      EnvRow(IdentityClientId, Value(s.clientId.value))];
    if s.budgetRehearsal
    then [EnvRow(ChatEnabled, Value("true")), EnvRow(BudgetRehearsal, Value("true"))] + binding
    else [EnvRow(ChatEnabled, Value("true"))] + binding
  }

  function RewriteRow(sx: Syntax, row: EnvRow, s: Settings): seq<EnvRow>
    requires ValidSettings(sx, s)
  {
    if row.name == ChatEnabled then AiRows(sx, s) else if Mutable(row.name) then [] else [row]
  }

  function Rewrite(sx: Syntax, env: seq<EnvRow>, s: Settings): seq<EnvRow>
    requires ValidSettings(sx, s)
  {
    if env == [] then [] else RewriteRow(sx, env[0], s) + Rewrite(sx, env[1..], s)
  }

  function PatchedTemplate(sx: Syntax, t: Template, s: Settings): Template
    requires ValidSettings(sx, s) && |t.containers| == 1
  {
    var c := t.containers[0];
    Template(s.suffix, [c.(image := s.image, env := Rewrite(sx, c.env, s))], t.scale)
  }

  predicate AnyAssigned(ids: map<string, Mark>) {
    exists id | id in ids :: ids[id] == Assigned
  }

  ghost function PatchOf(sx: Syntax, p: Projection, s: Settings): Result<Projection, RevisionError> {
    if !ValidSettings(sx, s) then Err(BindingInvalid)
    else if !ValidProjection(sx, p) then Err(ProjectionInvalid)
    else
      var ids := PatchedIdentities(sx, p.identities, s);
      if !s.enabled && !AnyAssigned(ids) then Err(ProjectionInvalid)
      else Ok(p.(identities := ids, template := PatchedTemplate(sx, p.template, s)))
  }

  function Strip(ids: map<string, Mark>): map<string, Mark> {
    map id | id in ids && ids[id] != Deleted :: ids[id]
  }

  /** The desired readback of a patch: its deletion markers removed. */
  function Canonical(sx: Syntax, patch: Projection): Result<Projection, RevisionError> {
    var target := patch.(identities := Strip(patch.identities));
    if patch.identities == map[] ||
       (exists id | id in patch.identities ::
          !sx.identityId(id) || patch.identities[id] == OtherMark) ||
       !ValidProjection(sx, target)
    then Err(ProjectionInvalid)
    else Ok(target)
  }

  ghost function Target(sx: Syntax, p: Projection, s: Settings): Result<Projection, RevisionError> {
    match PatchOf(sx, p, s)
    case Ok(patch) => Canonical(sx, patch)
    case Err(e) => Err(e)
  }
}
