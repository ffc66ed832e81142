/**
 What a patch means to the service it is sent to: applying it under JSON Merge Patch
 (section 2 of RFC 7396) to the source projection gives the canonical target.
 */
module MergeLaw {
  import opened Wrappers
  import opened Json
  import opened Revision
  import opened RevisionLaws

  // ---- Encoding ----

  function NameText(name: EnvName): string {
    match name
    case DatabaseUrl => "BIZPULSE_DATABASE_URL"
    case BlobConnectionString => "BIZPULSE_BLOB_CONNECTION_STRING"
    case OperatorPasswordHash => "BIZPULSE_OPERATOR_PASSWORD_HASH"
    case SessionPepper => "BIZPULSE_SESSION_PEPPER"
    case InsightsConnectionString => "APPLICATIONINSIGHTS_CONNECTION_STRING"
    case AllowedOrigin => "BIZPULSE_ALLOWED_ORIGIN"
    case ChatEnabled => "BIZPULSE_AI_CHAT_ENABLED"
    case DailyAttemptLimit => "BIZPULSE_AI_DAILY_ATTEMPT_LIMIT"
    case GlobalAttemptLimit => "BIZPULSE_AI_GLOBAL_ATTEMPT_LIMIT_PER_MINUTE"
    case MaxConcurrentTurns => "BIZPULSE_AI_MAX_CONCURRENT_TURNS"
    case MonthlyTokenLimit => "BIZPULSE_AI_MONTHLY_TOKEN_LIMIT"
    case SessionAttemptLimit => "BIZPULSE_AI_SESSION_ATTEMPT_LIMIT_PER_MINUTE"
    case BlobContainer => "BIZPULSE_BLOB_CONTAINER"
    case BlobEndpoint => "BIZPULSE_BLOB_ENDPOINT"
    case DemoSessionRateLimit => "BIZPULSE_DEMO_SESSION_RATE_LIMIT_PER_HOUR"
    case OpenAiModel => "BIZPULSE_OPENAI_MODEL"
    case ReasoningEffort => "BIZPULSE_OPENAI_REASONING_EFFORT"
    case RuntimeEnvironment => "BIZPULSE_RUNTIME_ENVIRONMENT"
    case BudgetRehearsal => "BIZPULSE_AI_BUDGET_FAILURE_REHEARSAL"
    case VaultUrlName => "BIZPULSE_OPENAI_KEY_VAULT_URL"
    case VaultSecretName => "BIZPULSE_OPENAI_KEY_VAULT_SECRET_NAME"
    case IdentityClientId => "BIZPULSE_OPENAI_MANAGED_IDENTITY_CLIENT_ID"
    case Unlisted(text) => text
  }

  function EncodeRow(row: EnvRow): Json {
    Object(match row.content
           case Value(value) => map["name" := Text(NameText(row.name)), "value" := Text(value)]
           case SecretRef(secret) => map["name" := Text(NameText(row.name)), "secretRef" := Text(secret)]
           case OtherContent => map["name" := Text(NameText(row.name))])
  }

  function EncodeProbe(p: Probe): Json {
    Object(map[
      "type" := Text(p.kind),
      "httpGet" := Object(map[
        "path" := Text(p.path), "port" := Integer(p.port), "scheme" := Text(p.scheme)]),
      "initialDelaySeconds" := Integer(p.initialDelay),
      "periodSeconds" := Integer(p.period),
      "timeoutSeconds" := Integer(p.timeout),
      "failureThreshold" := Integer(p.failureThreshold)])
  }

  function EncodeContainer(c: Container): Json {
    Object(map[
      "name" := Text(c.name),
      "image" := Text(c.image),
      "env" := Array(seq(|c.env|, i requires 0 <= i < |c.env| => EncodeRow(c.env[i]))),
      "probes" := Array(seq(|c.probes|, i requires 0 <= i < |c.probes| => EncodeProbe(c.probes[i]))),
      "resources" := Object(map[
        "cpu" := Number(c.resources.cpu), "memory" := Text(c.resources.memory)])])
  }

  function EncodeScale(s: Scale): Json {
    Object(map[
      "minReplicas" := Integer(s.minReplicas), "maxReplicas" := Integer(s.maxReplicas)])
  }

  function EncodeTemplate(t: Template): Json {
    Object(map[
      "revisionSuffix" := Text(t.revisionSuffix),
      "containers" := Array(seq(|t.containers|, i requires 0 <= i < |t.containers| =>
                                  EncodeContainer(t.containers[i]))),
      "scale" := EncodeScale(t.scale)])
  }

  /** `{}` for an assigned identity, null for a deleted one. */
  function EncodeMark(m: Mark): Json {
    match m
    case Assigned => Object(map[])
    case Deleted => Null
    case OtherMark => Text("")
  }

  function EncodeIdentities(ids: map<string, Mark>): Json {
    Object(map id | id in ids :: EncodeMark(ids[id]))
  }

  function EncodeIdentity(kind: string, ids: map<string, Mark>): Json {
    Object(map["type" := Text(kind), "userAssignedIdentities" := EncodeIdentities(ids)])
  }

  function EncodeProperties(t: Template): Json {
    Object(map["template" := EncodeTemplate(t)])
  }

  function Encode(p: Projection): Json {
    Object(map[
      "location" := Text(p.location),
      "identity" := EncodeIdentity(p.identityType, p.identities),
      "properties" := EncodeProperties(p.template)])
  }

  // ---- Merging, level by level ----

  /** Merging two objects of the same three members merges member by member. */
  lemma MergeMembers(k: seq<string>, s: seq<Json>, t: seq<Json>)
    requires |k| == |s| == |t| == 3 && k[0] != k[1] && k[0] != k[2] && k[1] != k[2]
    requires !t[0].Null? && !t[1].Null? && !t[2].Null?
    ensures MergePatch(Some(Object(map[k[0] := s[0], k[1] := s[1], k[2] := s[2]])),
                       Object(map[k[0] := t[0], k[1] := t[1], k[2] := t[2]])) ==
            Object(map[k[0] := MergePatch(Some(s[0]), t[0]),
                       k[1] := MergePatch(Some(s[1]), t[1]),
                       k[2] := MergePatch(Some(s[2]), t[2])])
  {
    assert MergePatch(Some(Object(map[k[0] := s[0], k[1] := s[1], k[2] := s[2]])),
                      Object(map[k[0] := t[0], k[1] := t[1], k[2] := t[2]])).fields ==
           map[k[0] := MergePatch(Some(s[0]), t[0]),
               k[1] := MergePatch(Some(s[1]), t[1]),
               k[2] := MergePatch(Some(s[2]), t[2])];
  }

  lemma MergeIdentities(ids: map<string, Mark>, patch: map<string, Mark>)
    requires ids.Keys <= patch.Keys
    requires forall id | id in ids :: ids[id] == Assigned
    requires forall id | id in patch :: patch[id] != OtherMark
    ensures MergePatch(Some(EncodeIdentities(ids)), EncodeIdentities(patch)) ==
            EncodeIdentities(Strip(patch))
  {
    var merged := MergePatch(Some(EncodeIdentities(ids)), EncodeIdentities(patch)).fields;
    forall id | id in merged
      ensures merged[id] == EncodeMark(Assigned)
    {
      assert MergePatch(Some(EncodeMark(Assigned)), EncodeMark(Assigned)).fields == map[];
      assert MergePatch(None, EncodeMark(Assigned)).fields == map[];
    }
    assert merged == EncodeIdentities(Strip(patch)).fields;
  }

  /** Merging two objects of the same two members merges member by member. */
  lemma MergePairs(k: seq<string>, s: seq<Json>, t: seq<Json>)
    requires |k| == |s| == |t| == 2 && k[0] != k[1] && !t[0].Null? && !t[1].Null?
    ensures MergePatch(Some(Object(map[k[0] := s[0], k[1] := s[1]])), Object(map[k[0] := t[0], k[1] := t[1]])) ==
            Object(map[k[0] := MergePatch(Some(s[0]), t[0]), k[1] := MergePatch(Some(s[1]), t[1])])
  {
    assert MergePatch(Some(Object(map[k[0] := s[0], k[1] := s[1]])), Object(map[k[0] := t[0], k[1] := t[1]])).fields ==
           map[k[0] := MergePatch(Some(s[0]), t[0]), k[1] := MergePatch(Some(s[1]), t[1])];
  }

  lemma MergeIdentity(kind: string, ids: map<string, Mark>, patch: map<string, Mark>)
    requires ids.Keys <= patch.Keys
    requires forall id | id in ids :: ids[id] == Assigned
    requires forall id | id in patch :: patch[id] != OtherMark
    ensures MergePatch(Some(EncodeIdentity(kind, ids)), EncodeIdentity(kind, patch)) ==
            EncodeIdentity(kind, Strip(patch))
  {
    hide EncodeIdentities, Strip;
    MergeIdentities(ids, patch);
    assert EncodeIdentities(patch).Object? by { IdentitiesAreObject(patch); }
    assert "type" != "userAssignedIdentities" by { assert |"type"| == 4; }
    MergePairs(["type", "userAssignedIdentities"], [Text(kind), EncodeIdentities(ids)],
               [Text(kind), EncodeIdentities(patch)]);
  }

  lemma IdentitiesAreObject(ids: map<string, Mark>)
    ensures EncodeIdentities(ids).Object?
  {
  }

  lemma MergeScale(s: Scale, t: Scale)
    ensures MergePatch(Some(EncodeScale(s)), EncodeScale(t)) == EncodeScale(t)
  {
    assert MergePatch(Some(EncodeScale(s)), EncodeScale(t)).fields == EncodeScale(t).fields;
  }

  lemma MergeTemplate(s: Template, t: Template)
    ensures MergePatch(Some(EncodeTemplate(s)), EncodeTemplate(t)) == EncodeTemplate(t)
  {
    MergeScale(s.scale, t.scale);
    assert MergePatch(Some(EncodeTemplate(s)), EncodeTemplate(t)).fields == EncodeTemplate(t).fields;
  }

  lemma MergeProperties(s: Template, t: Template)
    ensures MergePatch(Some(EncodeProperties(s)), EncodeProperties(t)) == EncodeProperties(t)
  {
    MergeTemplate(s, t);
    assert MergePatch(Some(EncodeProperties(s)), EncodeProperties(t)).fields == EncodeProperties(t).fields;
  }

  lemma MergeProjection(p: Projection, patch: Projection)
    requires patch.location == p.location && patch.identityType == p.identityType
    requires p.identities.Keys <= patch.identities.Keys
    requires forall id | id in p.identities :: p.identities[id] == Assigned
    requires forall id | id in patch.identities :: patch.identities[id] != OtherMark
    ensures MergePatch(Some(Encode(p)), Encode(patch)) ==
            Encode(patch.(identities := Strip(patch.identities)))
  {
    MergeIdentity(p.identityType, p.identities, patch.identities);
    MergeProperties(p.template, patch.template);
    MergeMembers(["location", "identity", "properties"],
                 [Text(p.location), EncodeIdentity(p.identityType, p.identities), EncodeProperties(p.template)],
                 [Text(patch.location), EncodeIdentity(p.identityType, patch.identities),
                  EncodeProperties(patch.template)]);
  }

  /** Sending a built patch turns the source into exactly the canonical target. */
  lemma PatchIsMergePatch(sx: Syntax, p: Projection, s: Settings)
    requires PatchOf(sx, p, s).Ok?
    ensures Target(sx, p, s).Ok?
    ensures MergePatch(Some(Encode(p)), Encode(PatchOf(sx, p, s).value)) ==
            Encode(Target(sx, p, s).value)
  {
    PatchClosure(sx, p, s);
    MergeProjection(p, PatchOf(sx, p, s).value);
  }
}
