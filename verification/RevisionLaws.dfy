/**
 The laws of the patch algebra: closure, what a patch means for the environment,
 last write wins, and agreement with JSON Merge Patch.
 */
module RevisionLaws {
  import opened Wrappers
  import opened Patterns
  import opened Revision

  // ---- Environment rewriting ----

  /** The rows a patch leaves alone, in order. */
  function Kept(env: seq<EnvRow>): seq<EnvRow> {
    if env == [] then [] else (if Mutable(env[0].name) then [] else [env[0]]) + Kept(env[1..])
  }

  predicate HasChat(env: seq<EnvRow>) {
    env != [] && (env[0].name == ChatEnabled || HasChat(env[1..]))
  }

  lemma {:induction false} RewriteAppend(sx: Syntax, a: seq<EnvRow>, b: seq<EnvRow>, s: Settings)
    requires ValidSettings(sx, s)
    ensures Rewrite(sx, a + b, s) == Rewrite(sx, a, s) + Rewrite(sx, b, s)
  {
    if a == [] {
      assert a + b == b;
    } else {
      hide RewriteRow;
      assert (a + b)[0] == a[0] && (a + b)[1..] == a[1..] + b;
      RewriteAppend(sx, a[1..], b, s);
      AppendAssociative(RewriteRow(sx, a[0], s), Rewrite(sx, a[1..], s), Rewrite(sx, b, s));
    }
  }

  lemma AppendAssociative(a: seq<EnvRow>, b: seq<EnvRow>, c: seq<EnvRow>)
    ensures a + b + c == a + (b + c)
  {
  }

  lemma {:induction false} RewriteWithoutChat(sx: Syntax, env: seq<EnvRow>, s: Settings)
    requires ValidSettings(sx, s) && !HasChat(env)
    ensures Rewrite(sx, env, s) == Kept(env)
  {
    if env != [] {
      RewriteWithoutChat(sx, env[1..], s);
    }
  }

  lemma AiRowsFacts(sx: Syntax, s: Settings)
    requires ValidSettings(sx, s)
    ensures var rows := AiRows(sx, s);
      DistinctNames(rows) && rows[0].name == ChatEnabled &&
      (rows[0].content == Value("true") || rows[0].content == Value("false")) &&
      forall i | 0 <= i < |rows| :: Mutable(rows[i].name) && (i > 0 ==> rows[i].name != ChatEnabled)
  {
    var rows := AiRows(sx, s);
    if s.enabled {
      forall i | 0 <= i < |rows|
        ensures AiPlace(rows[i].name) == if i == 0 || s.budgetRehearsal then i else i + 1
      {
        AiRowAt(sx, s, i);
      }
    } else {
      assert |rows| == 1;
    }
  }

  /** The order in which AI rows are written. */
  function AiPlace(name: EnvName): int {
    match name
    case ChatEnabled => 0
    case BudgetRehearsal => 1
    case VaultUrlName => 2
    case VaultSecretName => 3
    case IdentityClientId => 4
    case _ => -1
  }

  lemma AiRowAt(sx: Syntax, s: Settings, i: nat)
    requires ValidSettings(sx, s) && s.enabled && i < |AiRows(sx, s)|
    ensures AiPlace(AiRows(sx, s)[i].name) == if i == 0 || s.budgetRehearsal then i else i + 1
  {
    hide ImageReference, VaultUrl, CanonicalUuid4, RevisionSuffix;
  }

  lemma AiRowsValid(sx: Syntax, s: Settings)
    requires ValidSettings(sx, s)
    ensures forall i | 0 <= i < |AiRows(sx, s)| :: ValidRow(AiRows(sx, s)[i])
  {
  }

  /** Exactly which rows a rewritten environment holds. */
  lemma {:induction false} RewriteElements(sx: Syntax, env: seq<EnvRow>, s: Settings, row: EnvRow)
    requires ValidSettings(sx, s)
    ensures row in Rewrite(sx, env, s) <==>
      (row in AiRows(sx, s) && HasChat(env)) || (row in env && !Mutable(row.name))
  {
    if env != [] {
      RewriteElements(sx, env[1..], s, row);
      assert row in env <==> row == env[0] || row in env[1..];
    }
  }

  /** A rewritten environment keeps the untouched rows, with their values, in their order. */
  lemma {:induction false} RewriteKeeps(sx: Syntax, env: seq<EnvRow>, s: Settings)
    requires ValidSettings(sx, s)
    ensures Kept(Rewrite(sx, env, s)) == Kept(env)
  {
    if env != [] {
      AiRowsFacts(sx, s);
      KeptNothing(AiRows(sx, s));
      KeptAppend(RewriteRow(sx, env[0], s), Rewrite(sx, env[1..], s));
      RewriteKeeps(sx, env[1..], s);
    }
  }

  lemma {:induction false} KeptNothing(env: seq<EnvRow>)
    requires forall i | 0 <= i < |env| :: Mutable(env[i].name)
    ensures Kept(env) == []
  {
    if env != [] { KeptNothing(env[1..]); }
  }

  lemma {:induction false} KeptAppend(a: seq<EnvRow>, b: seq<EnvRow>)
    ensures Kept(a + b) == Kept(a) + Kept(b)
  {
    if a == [] {
      assert a + b == b;
    } else {
      assert (a + b)[1..] == a[1..] + b;
      KeptAppend(a[1..], b);
    }
  }

  /** Rewriting again forgets the first rewriting: the ordered list is the same. */
  lemma {:induction false} RewriteTwice(sx: Syntax, env: seq<EnvRow>, a: Settings, b: Settings)
    requires ValidSettings(sx, a) && ValidSettings(sx, b)
    ensures Rewrite(sx, Rewrite(sx, env, a), b) == Rewrite(sx, env, b)
  {
    if env != [] {
      RewriteTwice(sx, env[1..], a, b);
      RewriteAppend(sx, RewriteRow(sx, env[0], a), Rewrite(sx, env[1..], a), b);
      RewriteAiRows(sx, a, b);
    }
  }

  lemma RewriteAiRows(sx: Syntax, a: Settings, b: Settings)
    requires ValidSettings(sx, a) && ValidSettings(sx, b)
    ensures Rewrite(sx, AiRows(sx, a), b) == AiRows(sx, b)
  {
    var rows := AiRows(sx, a);
    AiRowsFacts(sx, a);
    NoChat(rows[1..]);
    RewriteWithoutChat(sx, rows[1..], b);
    KeptNothing(rows[1..]);
  }

  /** The AI rows of the settings stand together where the chat switch stood; all else stays in place. */
  lemma RewriteInPlace(sx: Syntax, before: seq<EnvRow>, chat: EnvRow, after: seq<EnvRow>, s: Settings)
    requires ValidSettings(sx, s) && chat.name == ChatEnabled && !HasChat(before) && !HasChat(after)
    ensures Rewrite(sx, before + [chat] + after, s) == Kept(before) + AiRows(sx, s) + Kept(after)
  {
    hide AiRows, Rewrite, Kept, HasChat;
    RewriteAppend(sx, before + [chat], after, s);
    RewriteAppend(sx, before, [chat], s);
    RewriteWithoutChat(sx, before, s);
    RewriteWithoutChat(sx, after, s);
    RewriteChat(sx, chat, s);
  }

  lemma RewriteChat(sx: Syntax, chat: EnvRow, s: Settings)
    requires ValidSettings(sx, s) && chat.name == ChatEnabled
    ensures Rewrite(sx, [chat], s) == AiRows(sx, s)
  {
    hide AiRows;
    assert [chat][1..] == [] && Rewrite(sx, [], s) == [];
    assert Rewrite(sx, [chat], s) == AiRows(sx, s) + [];
  }

  lemma {:induction false} NoChat(env: seq<EnvRow>)
    requires forall i | 0 <= i < |env| :: env[i].name != ChatEnabled
    ensures !HasChat(env)
  {
    if env != [] { NoChat(env[1..]); }
  }

  /** A patch of an environment with unique names has unique names. */
  lemma {:induction false} RewriteDistinct(sx: Syntax, env: seq<EnvRow>, s: Settings)
    requires ValidSettings(sx, s) && DistinctNames(env)
    ensures DistinctNames(Rewrite(sx, env, s))
  {
    if env != [] {
      var rest := Rewrite(sx, env[1..], s);
      RewriteDistinct(sx, env[1..], s);
      AiRowsFacts(sx, s);
      if env[0].name == ChatEnabled { NoChat(env[1..]); }
      forall row { RewriteElements(sx, env[1..], s, row); }
      JoinDistinct(RewriteRow(sx, env[0], s), rest);
    }
  }

  lemma JoinDistinct(a: seq<EnvRow>, b: seq<EnvRow>)
    requires DistinctNames(a) && DistinctNames(b)
    requires forall x, y | x in a && y in b :: x.name != y.name
    ensures DistinctNames(a + b)
  {
    assert forall i | 0 <= i < |a| :: a[i] in a;
    assert forall i | 0 <= i < |b| :: b[i] in b;
  }

  lemma {:induction false} ChatPresent(env: seq<EnvRow>, row: EnvRow)
    requires row in env && row.name == ChatEnabled
    ensures HasChat(env)
  {
    if env[0] != row { ChatPresent(env[1..], row); }
  }

  lemma RewriteRowsValid(sx: Syntax, env: seq<EnvRow>, s: Settings)
    requires RowsValid(env) && ValidSettings(sx, s)
    ensures RowsValid(Rewrite(sx, env, s))
  {
    var out := Rewrite(sx, env, s);
    AiRowsValid(sx, s);
    forall i | 0 <= i < |out|
      ensures ValidRow(out[i])
    {
      RewriteElements(sx, env, s, out[i]);
    }
  }

  lemma RewriteKeepsNames(sx: Syntax, env: seq<EnvRow>, s: Settings, names: seq<EnvName>)
    requires NamesPresent(env, names) && ValidSettings(sx, s)
    requires forall i | 0 <= i < |names| :: !Mutable(names[i])
    ensures NamesPresent(Rewrite(sx, env, s), names)
  {
    var out := Rewrite(sx, env, s);
    forall i | 0 <= i < |names|
      ensures Named(out, names[i])
    {
      assert Named(env, names[i]);
      var j :| 0 <= j < |env| && env[j].name == names[i];
      RewriteElements(sx, env, s, env[j]);
    }
  }

  lemma RewriteKeepsPins(sx: Syntax, env: seq<EnvRow>, s: Settings)
    requires PinnedRows(env) && ValidSettings(sx, s)
    ensures PinnedRows(Rewrite(sx, env, s))
  {
    RewriteElements(sx, env, s, EnvRow(RuntimeEnvironment, Value("cloud")));
    RewriteElements(sx, env, s, EnvRow(OpenAiModel, Value(MODEL)));
    RewriteElements(sx, env, s, EnvRow(ReasoningEffort, Value("low")));
  }

  lemma RewriteSwitches(sx: Syntax, env: seq<EnvRow>, s: Settings)
    requires ChatSwitched(env) && ValidSettings(sx, s)
    ensures ChatSwitched(Rewrite(sx, env, s))
    ensures EnvRow(ChatEnabled, Value(if s.enabled then "true" else "false")) in Rewrite(sx, env, s)
  {
    var row := EnvRow(ChatEnabled, Value(if s.enabled then "true" else "false"));
    assert AiRows(sx, s)[0] == row;
    ChatPresent(env, if EnvRow(ChatEnabled, Value("true")) in env
                     then EnvRow(ChatEnabled, Value("true"))
                     else EnvRow(ChatEnabled, Value("false")));
    RewriteElements(sx, env, s, row);
  }

  /** Rewriting a valid environment yields a valid environment. */
  lemma RewriteValid(sx: Syntax, env: seq<EnvRow>, s: Settings)
    requires ValidEnvironment(env) && ValidSettings(sx, s)
    ensures ValidEnvironment(Rewrite(sx, env, s))
  {
    RewriteDistinct(sx, env, s);
    RewriteRowsValid(sx, env, s);
    RewriteKeepsNames(sx, env, s, UNTOUCHED_NAMES);
    RewriteSwitches(sx, env, s);
    RewriteKeepsPins(sx, env, s);
  }

  // ---- Identities ----

  predicate KnownUpToCase(sx: Syntax, ids: map<string, Mark>, id: string) {
    exists other | other in ids :: Matches(sx, other, id)
  }

  predicate SameIdsUpToCase(sx: Syntax, a: map<string, Mark>, b: map<string, Mark>) {
    (forall id | id in a :: KnownUpToCase(sx, b, id)) && (forall id | id in b :: KnownUpToCase(sx, a, id))
  }

  lemma PatchedIdentitiesValid(sx: Syntax, ids: map<string, Mark>, s: Settings)
    requires ValidIdentities(sx, ids) && sx.identityId(s.identityId)
    requires s.enabled || AnyAssigned(PatchedIdentities(sx, ids, s))
    ensures var after := PatchedIdentities(sx, ids, s);
      after != map[] && ValidIdentities(sx, Strip(after)) &&
      forall id | id in after :: sx.identityId(id) && after[id] != OtherMark
  {
    var after := PatchedIdentities(sx, ids, s);
    var m := MatchingId(sx, ids, s.identityId);
    if s.enabled {
      var key := if m.Some? then m.value else s.identityId;
      assert key in Strip(after);
    } else {
      var id :| id in after && after[id] == Assigned;
      assert id in Strip(after);
    }
  }

  // ---- Closure ----

  /** A patch that is built always canonicalises, and its target is again a valid projection. */
  lemma PatchClosure(sx: Syntax, p: Projection, s: Settings)
    requires PatchOf(sx, p, s).Ok?
    ensures var patch := PatchOf(sx, p, s).value;
      Target(sx, p, s) == Ok(patch.(identities := Strip(patch.identities))) &&
      ValidProjection(sx, Target(sx, p, s).value)
  {
    PatchedIdentitiesValid(sx, p.identities, s);
    RewriteValid(sx, p.template.containers[0].env, s);
    var target := p.(identities := Strip(PatchedIdentities(sx, p.identities, s)),
                     template := PatchedTemplate(sx, p.template, s));
    TemplateValid(sx, p.template, s);
    assert ValidProjection(sx, target);
  }

  lemma TemplateValid(sx: Syntax, t: Template, s: Settings)
    requires ValidTemplate(t) && ValidSettings(sx, s)
    ensures ValidTemplate(PatchedTemplate(sx, t, s))
  {
    RewriteValid(sx, t.containers[0].env, s);
  }

  predicate OtherIdentity(sx: Syntax, ids: map<string, Mark>, wanted: string) {
    exists id | id in ids :: !Matches(sx, id, wanted)
  }

  lemma AnyAssignedIs(sx: Syntax, ids: map<string, Mark>, s: Settings)
    requires ValidIdentities(sx, ids) && !s.enabled
    ensures AnyAssigned(PatchedIdentities(sx, ids, s)) <==> OtherIdentity(sx, ids, s.identityId)
  {
    var after := PatchedIdentities(sx, ids, s);
    if AnyAssigned(after) {
      var id :| id in after && after[id] == Assigned;
      assert !Matches(sx, id, s.identityId);
    }
    if id :| id in ids && !Matches(sx, id, s.identityId) {
      assert after[id] == Assigned;
    }
  }

  /** Patching fails only for bad input, or when disabling would leave no identity at all. */
  lemma PatchSucceeds(sx: Syntax, p: Projection, s: Settings)
    ensures PatchOf(sx, p, s).Ok? <==>
      ValidSettings(sx, s) && ValidProjection(sx, p) &&
      (s.enabled || OtherIdentity(sx, p.identities, s.identityId))
  {
    if ValidSettings(sx, s) && ValidProjection(sx, p) && !s.enabled {
      AnyAssignedIs(sx, p.identities, s);
    }
  }

  /** Under which key an enabling patch keeps the AI identity. */
  ghost function IdentityKey(sx: Syntax, ids: map<string, Mark>, s: Settings): string {
    match MatchingId(sx, ids, s.identityId)
    case Some(id) => id
    case None => s.identityId
  }

  /** The identity map of a target. */
  ghost function TargetIds(sx: Syntax, ids: map<string, Mark>, s: Settings): map<string, Mark> {
    Strip(PatchedIdentities(sx, ids, s))
  }

  /** It is the source without the AI identity, plus the key of the AI identity when enabled. */
  lemma TargetIdsAre(sx: Syntax, ids: map<string, Mark>, s: Settings)
    requires ValidIdentities(sx, ids)
    ensures forall id :: id in TargetIds(sx, ids, s) <==>
      (id in ids && !Matches(sx, id, s.identityId)) || (s.enabled && id == IdentityKey(sx, ids, s))
    ensures forall id | id in TargetIds(sx, ids, s) :: TargetIds(sx, ids, s)[id] == Assigned
  {
  }

  /** When a second enabling patch finds the AI identity under the same key as the source did. */
  ghost predicate KeyAgrees(sx: Syntax, ids: map<string, Mark>, a: Settings, b: Settings) {
    var m := MatchingId(sx, ids, b.identityId);
    !b.enabled ||
    if a.enabled then m.Some? || a.identityId == b.identityId
    else m.None? || m.value == b.identityId
  }

  lemma SecondKey(sx: Syntax, ids: map<string, Mark>, a: Settings, b: Settings)
    requires ValidIdentities(sx, ids) && ValidIdentities(sx, TargetIds(sx, ids, a))
    requires Matches(sx, a.identityId, b.identityId)
    ensures Matches(sx, IdentityKey(sx, TargetIds(sx, ids, a), b), b.identityId)
    ensures Matches(sx, IdentityKey(sx, ids, b), b.identityId)
    ensures KeyAgrees(sx, ids, a, b) <==>
      !b.enabled || IdentityKey(sx, TargetIds(sx, ids, a), b) == IdentityKey(sx, ids, b)
  {
    TargetIdsAre(sx, ids, a);
  }

  lemma IdentitiesTwice(sx: Syntax, ids: map<string, Mark>, a: Settings, b: Settings)
    requires ValidIdentities(sx, ids) && ValidIdentities(sx, TargetIds(sx, ids, a))
    requires Matches(sx, a.identityId, b.identityId)
    ensures TargetIds(sx, TargetIds(sx, ids, a), b) == TargetIds(sx, ids, b) <==> KeyAgrees(sx, ids, a, b)
  {
    hide TargetIds, ValidIdentities;
    var mid := TargetIds(sx, ids, a);
    TargetIdsAre(sx, ids, a);
    TargetIdsAre(sx, ids, b);
    TargetIdsAre(sx, mid, b);
    SecondKey(sx, ids, a, b);
    var twice, once := TargetIds(sx, mid, b), TargetIds(sx, ids, b);
    if KeyAgrees(sx, ids, a, b) {
      assert twice.Keys == once.Keys;
    } else {
      assert IdentityKey(sx, ids, b) in once && IdentityKey(sx, ids, b) !in twice;
    }
  }

  lemma IdentitiesUpToCase(sx: Syntax, ids: map<string, Mark>, a: Settings, b: Settings)
    requires ValidIdentities(sx, ids) && ValidIdentities(sx, TargetIds(sx, ids, a))
    requires Matches(sx, a.identityId, b.identityId)
    ensures SameIdsUpToCase(sx, TargetIds(sx, TargetIds(sx, ids, a), b), TargetIds(sx, ids, b))
  {
    hide TargetIds, ValidIdentities;
    TargetIdsAre(sx, ids, a);
    TargetIdsAre(sx, ids, b);
    TargetIdsAre(sx, TargetIds(sx, ids, a), b);
    SecondKey(sx, ids, a, b);
  }

  lemma OtherIdentityKept(sx: Syntax, ids: map<string, Mark>, a: Settings, b: Settings)
    requires ValidIdentities(sx, ids) && Matches(sx, a.identityId, b.identityId)
    ensures OtherIdentity(sx, TargetIds(sx, ids, a), b.identityId) <==> OtherIdentity(sx, ids, b.identityId)
  {
    TargetIdsAre(sx, ids, a);
  }

  // ---- Last write wins ----

  /** A target written out: fixed parts, stripped identities, rewritten template. */
  lemma TargetShape(sx: Syntax, p: Projection, s: Settings)
    requires PatchOf(sx, p, s).Ok?
    ensures Target(sx, p, s) == Ok(p.(
      identities := TargetIds(sx, p.identities, s),
      template := PatchedTemplate(sx, p.template, s)))
    ensures ValidProjection(sx, Target(sx, p, s).value)
  {
    PatchClosure(sx, p, s);
  }

  lemma TemplateTwice(sx: Syntax, t: Template, a: Settings, b: Settings)
    requires |t.containers| == 1 && ValidSettings(sx, a) && ValidSettings(sx, b)
    ensures PatchedTemplate(sx, PatchedTemplate(sx, t, a), b) == PatchedTemplate(sx, t, b)
  {
    RewriteTwice(sx, t.containers[0].env, a, b);
  }

  /** Two targets that differ at most in how the identity keys are capitalised. */
  ghost predicate SameUpToCase(sx: Syntax, p: Projection, q: Projection) {
    p.location == q.location && p.identityType == q.identityType && p.template == q.template &&
    SameIdsUpToCase(sx, p.identities, q.identities)
  }

  lemma SecondPatchSucceeds(sx: Syntax, p: Projection, a: Settings, b: Settings)
    requires Target(sx, p, a).Ok? && Matches(sx, a.identityId, b.identityId)
    ensures PatchOf(sx, Target(sx, p, a).value, b).Ok? <==> PatchOf(sx, p, b).Ok?
    ensures !ValidSettings(sx, b) ==> PatchOf(sx, p, b) == Err(BindingInvalid)
    ensures ValidSettings(sx, b) && PatchOf(sx, p, b).Err? ==>
      !b.enabled && PatchOf(sx, p, b) == Err(ProjectionInvalid)
  {
    TargetShape(sx, p, a);
    OtherIdentityKept(sx, p.identities, a, b);
    PatchSucceeds(sx, p, b);
    PatchSucceeds(sx, Target(sx, p, a).value, b);
  }

  lemma SecondTargetShape(sx: Syntax, p: Projection, a: Settings, b: Settings)
    requires PatchOf(sx, p, a).Ok? && Target(sx, p, a).Ok?
    requires PatchOf(sx, Target(sx, p, a).value, b).Ok?
    ensures ValidSettings(sx, b) && |p.template.containers| == 1
    ensures Target(sx, Target(sx, p, a).value, b) == Ok(p.(
      identities := TargetIds(sx, TargetIds(sx, p.identities, a), b),
      template := PatchedTemplate(sx, p.template, b)))
    ensures ValidIdentities(sx, p.identities) && ValidIdentities(sx, TargetIds(sx, p.identities, a))
  {
    TargetShape(sx, p, a);
    var mid := Target(sx, p, a).value;
    TargetShape(sx, mid, b);
    TemplateTwice(sx, p.template, a, b);
  }

  lemma SecondTarget(sx: Syntax, p: Projection, a: Settings, b: Settings)
    requires Target(sx, p, a).Ok? && Matches(sx, a.identityId, b.identityId)
    requires PatchOf(sx, p, b).Ok? && PatchOf(sx, Target(sx, p, a).value, b).Ok?
    ensures var twice, once := Target(sx, Target(sx, p, a).value, b), Target(sx, p, b);
      twice.Ok? && once.Ok? && SameUpToCase(sx, twice.value, once.value) &&
      (twice == once <==> KeyAgrees(sx, p.identities, a, b))
  {
    hide Target, PatchOf, TargetIds, PatchedTemplate, Matches, KeyAgrees, SameIdsUpToCase, ValidIdentities,
      ValidProjection;
    TargetMeansPatch(sx, p, a);
    SecondTargetShape(sx, p, a, b);
    TargetShape(sx, p, b);
    IdentitiesTwice(sx, p.identities, a, b);
    IdentitiesUpToCase(sx, p.identities, a, b);
    SameButIds(p, TargetIds(sx, TargetIds(sx, p.identities, a), b), TargetIds(sx, p.identities, b),
               PatchedTemplate(sx, p.template, b));
  }

  lemma TargetMeansPatch(sx: Syntax, p: Projection, s: Settings)
    ensures Target(sx, p, s).Ok? ==> PatchOf(sx, p, s).Ok?
  {
  }

  /** Projections that agree in all else are equal exactly when their identity maps are. */
  lemma SameButIds(p: Projection, a: map<string, Mark>, b: map<string, Mark>, t: Template)
    ensures p.(identities := a, template := t) == p.(identities := b, template := t) <==> a == b
  {
  }

  /**
   Patching with `a` and then with `b` has the outcome of patching with `b` alone:
   the same success or failure, the same target up to the case of the AI identity key,
   and the very same target exactly when that key agrees (always, when `b` disables).
   */
  lemma LastWriteWins(sx: Syntax, p: Projection, a: Settings, b: Settings)
    requires Target(sx, p, a).Ok? && Matches(sx, a.identityId, b.identityId)
    ensures var twice, once := Target(sx, Target(sx, p, a).value, b), Target(sx, p, b);
      (twice.Ok? <==> once.Ok?) &&
      (twice == once <==> KeyAgrees(sx, p.identities, a, b) || !ValidSettings(sx, b)) &&
      (twice.Ok? ==> SameUpToCase(sx, twice.value, once.value))
  {
    SecondPatchSucceeds(sx, p, a, b);
    if PatchOf(sx, p, b).Ok? {
      SecondTarget(sx, p, a, b);
    } else {
      SecondPatchFails(sx, p, a, b);
    }
  }

  lemma SecondPatchFails(sx: Syntax, p: Projection, a: Settings, b: Settings)
    requires Target(sx, p, a).Ok? && Matches(sx, a.identityId, b.identityId)
    requires PatchOf(sx, p, b).Err?
    ensures Target(sx, Target(sx, p, a).value, b) == Target(sx, p, b)
    ensures Target(sx, p, b).Err? && (!b.enabled || !ValidSettings(sx, b))
  {
    SecondPatchSucceeds(sx, p, a, b);
    TargetShape(sx, p, a);
  }

  /** A disabling patch undoes any earlier patch exactly. */
  lemma DisablingForgets(sx: Syntax, p: Projection, a: Settings, b: Settings)
    requires Target(sx, p, a).Ok? && Matches(sx, a.identityId, b.identityId) && !b.enabled
    ensures Target(sx, Target(sx, p, a).value, b) == Target(sx, p, b)
  {
    LastWriteWins(sx, p, a, b);
  }

  // ---- What a target says ----

  function EnvOf(p: Projection): seq<EnvRow>
    requires |p.template.containers| == 1
  {
    p.template.containers[0].env
  }

  /** What settings say about one AI row: present exactly with this content. */
  predicate Says(s: Settings, row: EnvRow) {
    match row.name
    case ChatEnabled => row.content == Value(if s.enabled then "true" else "false")
    case BudgetRehearsal => s.enabled && s.budgetRehearsal && row.content == Value("true")
    case VaultUrlName => s.enabled && row.content.Value? && s.vaultUrl == Some(row.content.value)
    case VaultSecretName => s.enabled && row.content == Value(SECRET_NAME)
    case IdentityClientId => s.enabled && row.content.Value? && s.clientId == Some(row.content.value)
    case _ => false
  }

  lemma AiRowsSay(sx: Syntax, s: Settings, row: EnvRow)
    requires ValidSettings(sx, s)
    ensures row in AiRows(sx, s) <==> Says(s, row)
  {
  }

  /** The AI rows of a target follow from the settings alone. */
  lemma TargetAiRows(sx: Syntax, p: Projection, s: Settings, row: EnvRow)
    requires Target(sx, p, s).Ok? && Mutable(row.name)
    ensures |Target(sx, p, s).value.template.containers| == 1
    ensures row in EnvOf(Target(sx, p, s).value) <==> Says(s, row)
  {
    hide Says, AiRows;
    TargetShape(sx, p, s);
    AiRowOf(sx, p.template.containers[0].env, s, row);
    AiRowsSay(sx, s, row);
  }

  lemma AiRowOf(sx: Syntax, env: seq<EnvRow>, s: Settings, row: EnvRow)
    requires ValidEnvironment(env) && ValidSettings(sx, s) && Mutable(row.name)
    ensures row in Rewrite(sx, env, s) <==> row in AiRows(sx, s)
  {
    RewriteSwitches(sx, env, s);
    RewriteElements(sx, env, s, EnvRow(ChatEnabled, Value(if s.enabled then "true" else "false")));
    RewriteElements(sx, env, s, row);
    ChatPresent(env, if EnvRow(ChatEnabled, Value("true")) in env
                     then EnvRow(ChatEnabled, Value("true"))
                     else EnvRow(ChatEnabled, Value("false")));
  }
}
