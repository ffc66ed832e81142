/**
 The loops of azure_ai_revision.py, proved against the functions of `Revision`:
 environment validation, the patch builder and the removal of deletion markers.
 */
module RevisionBuilder {
  import opened Wrappers
  import opened Revision
  import RevisionLaws

  /** Reads the rows once, keeping the content under each name; stops at a bad or repeated row. */
  method ReadRows(rows: seq<EnvRow>) returns (valid: bool, byName: map<EnvName, Content>)
    ensures valid == (DistinctNames(rows) && RowsValid(rows))
    ensures valid ==> forall row :: row in rows <==> row.name in byName && byName[row.name] == row.content
  {
    byName := map[];
    for i := 0 to |rows|
      invariant DistinctNames(rows[..i]) && RowsValid(rows[..i])
      invariant forall row :: row in rows[..i] <==> row.name in byName && byName[row.name] == row.content
    {
      var row := rows[i];
      if row.name in byName || !ValidRow(row) {
        if row.name in byName {
          var j :| 0 <= j < i && rows[..i][j] == EnvRow(row.name, byName[row.name]);
          assert rows[j].name == rows[i].name;
        }
        return false, byName;
      }
      assert forall j | 0 <= j < i :: rows[..i][j] in rows[..i];
      byName := byName[row.name := row.content];
      assert rows[..i + 1] == rows[..i] + [row];
    }
    assert rows[..|rows|] == rows;
    valid := true;
  }

  method ValidateEnvironment(rows: seq<EnvRow>) returns (valid: bool)
    ensures valid == ValidEnvironment(rows)
  {
    var byName;
    valid, byName := ReadRows(rows);
    if !valid { return false; }
    for k := 0 to |UNTOUCHED_NAMES|
      invariant NamesPresent(rows, UNTOUCHED_NAMES[..k])
    {
      var name := UNTOUCHED_NAMES[k];
      assert name in byName <==> Named(rows, name) by { NamedIs(rows, byName, name); }
      if name !in byName { return false; }
      assert UNTOUCHED_NAMES[..k + 1] == UNTOUCHED_NAMES[..k] + [name];
    }
    assert UNTOUCHED_NAMES[..|UNTOUCHED_NAMES|] == UNTOUCHED_NAMES;
    valid := Holds(byName, RuntimeEnvironment, "cloud") &&
             (Holds(byName, ChatEnabled, "true") || Holds(byName, ChatEnabled, "false")) &&
             Holds(byName, OpenAiModel, MODEL) && Holds(byName, ReasoningEffort, "low");
  }

  lemma NamedIs(rows: seq<EnvRow>, byName: map<EnvName, Content>, name: EnvName)
    requires forall row :: row in rows <==> row.name in byName && byName[row.name] == row.content
    ensures name in byName <==> Named(rows, name)
  {
    if name in byName { assert EnvRow(name, byName[name]) in rows; }
    if i :| 0 <= i < |rows| && rows[i].name == name { assert rows[i] in rows; }
  }

  predicate Holds(byName: map<EnvName, Content>, name: EnvName, value: string) {
    name in byName && byName[name] == Value(value)
  }

  /** Finds the key naming `wanted` up to case, whatever order the keys come in. */
  method FindIdentity(sx: Syntax, ids: map<string, Mark>, wanted: string) returns (m: Option<string>)
    requires ValidIdentities(sx, ids)
    ensures m == MatchingId(sx, ids, wanted)
  {
    var pending := ids.Keys;
    while pending != {}
      invariant pending <= ids.Keys
      invariant forall id | id in ids.Keys - pending :: !Matches(sx, id, wanted)
      decreases pending
    {
      var id :| id in pending;
      if Matches(sx, id, wanted) { return Some(id); }
      pending := pending - {id};
    }
    return None;
  }

  /** Copies the rows one by one, replacing the chat switch and skipping the other AI rows. */
  method RewriteEnvironment(sx: Syntax, env: seq<EnvRow>, s: Settings) returns (environment: seq<EnvRow>)
    requires ValidSettings(sx, s)
    ensures environment == Rewrite(sx, env, s)
  {
    environment := [];
    ghost var whole, rest := Rewrite(sx, env, s), Rewrite(sx, env, s);
    for i := 0 to |env|
      invariant rest == Rewrite(sx, env[i..], s)
      invariant environment + rest == whole
    {
      var row := env[i];
      var copied: seq<EnvRow> := [];
      if Mutable(row.name) {
        if row.name == ChatEnabled { copied := SwitchRows(sx, s); }
      } else {
        copied := [row];
      }
      RewriteFrom(sx, env, i, s);
      RevisionLaws.AppendAssociative(environment, copied, Rewrite(sx, env[i + 1..], s));
      environment, rest := environment + copied, Rewrite(sx, env[i + 1..], s);
    }
  }

  lemma RewriteFrom(sx: Syntax, env: seq<EnvRow>, i: nat, s: Settings)
    requires ValidSettings(sx, s) && i < |env|
    ensures Rewrite(sx, env[i..], s) == RewriteRow(sx, env[i], s) + Rewrite(sx, env[i + 1..], s)
  {
    assert env[i..][1..] == env[i + 1..];
  }

  /** The chat switch, then the rehearsal flag and the key vault binding when they apply. */
  method SwitchRows(sx: Syntax, s: Settings) returns (rows: seq<EnvRow>)
    requires ValidSettings(sx, s)
    ensures rows == AiRows(sx, s)
  {
    rows := [EnvRow(ChatEnabled, Value(if s.enabled then "true" else "false"))];
    if s.enabled && s.budgetRehearsal {
      rows := rows + [EnvRow(BudgetRehearsal, Value("true"))];
    }
    if s.enabled {
      rows := rows +
        [EnvRow(VaultUrlName, Value(s.vaultUrl.value)),
         EnvRow(VaultSecretName, Value(s.secretName.value)),
         EnvRow(IdentityClientId, Value(s.clientId.value))];
    }
  }

  method BuildPatch(sx: Syntax, current: Projection, s: Settings)
    returns (r: Result<Projection, RevisionError>)
    ensures r == PatchOf(sx, current, s)
  {
    if !ValidSettings(sx, s) { return Err(BindingInvalid); }
    if !ValidProjection(sx, current) { return Err(ProjectionInvalid); }
    var marks := current.identities;
    var matching := FindIdentity(sx, marks, s.identityId);
    if s.enabled {
      marks := marks[(if matching.Some? then matching.value else s.identityId) := Assigned];
    } else {
      if matching.Some? { marks := marks[matching.value := Deleted]; }
      if !AnyAssigned(marks) { return Err(ProjectionInvalid); }
    }
    var container := current.template.containers[0];
    var environment := RewriteEnvironment(sx, container.env, s);
    container := container.(image := s.image, env := environment);
    r := Ok(current.(identities := marks,
                     template := Template(s.suffix, [container], current.template.scale)));
  }

  method CanonicalizeTarget(sx: Syntax, patch: Projection)
    returns (r: Result<Projection, RevisionError>)
    ensures r == Canonical(sx, patch)
  {
    var marks := patch.identities;
    if marks == map[] { return Err(ProjectionInvalid); }
    var pending := patch.identities.Keys;
    while pending != {}
      invariant pending <= patch.identities.Keys
      invariant forall id | id in patch.identities.Keys - pending ::
        sx.identityId(id) && patch.identities[id] != OtherMark
      invariant marks == map id | id in patch.identities &&
        (id in pending || patch.identities[id] != Deleted) :: patch.identities[id]
      decreases pending
    {
      var id :| id in pending;
      if !sx.identityId(id) || patch.identities[id] == OtherMark { return Err(ProjectionInvalid); }
      if patch.identities[id] == Deleted { marks := marks - {id}; }
      pending := pending - {id};
    }
    assert marks == Strip(patch.identities);
    var target := patch.(identities := marks);
    r := if ValidProjection(sx, target) then Ok(target) else Err(ProjectionInvalid);
  }
}
