/**
 The role migration of the engine (bizpulse/scripts/azure_ai_enablement_actions.py): merging batches of
 role assignments, and replacing a legacy assignment by the officer assignment.
 */
module RoleMigration {
  import opened Wrappers

  // ---- Assignments ----

  /** One listed assignment, or a list entry of any other shape. */
  datatype Listed =
    | Assignment(id: string, principalId: string, principalType: string, roleDefinitionId: string, scope: string)
    | Malformed

  /** The normal form; the principal type is a constant there, whatever was observed. */
  datatype Normal = Normal(id: string, principalId: string, roleDefinitionId: string, scope: string)

  /** A batch as read: a list, or something that is not one. */
  datatype Batch = Rows(rows: seq<Listed>) | NotAList

  function Normalize(fold: string -> string, a: Listed): Normal
    requires a.Assignment?
  {
    Normal(fold(a.id), fold(a.principalId), fold(a.roleDefinitionId), fold(a.scope))
  }

  // ---- Merging ----

  /** Every batch is a list of well-formed assignments. */
  predicate WellFormed(batches: seq<Batch>) {
    forall i | 0 <= i < |batches| ::
      batches[i].Rows? && forall j | 0 <= j < |batches[i].rows| :: batches[i].rows[j].Assignment?
  }

  predicate Lists(batches: seq<Batch>, a: Listed) {
    exists i | 0 <= i < |batches| :: batches[i].Rows? && a in batches[i].rows
  }

  /** Two listed assignments share a folded id but differ in normal form. */
  ghost predicate Conflicting(fold: string -> string, batches: seq<Batch>) {
    exists a, b | Lists(batches, a) && Lists(batches, b) && a.Assignment? && b.Assignment? ::
      fold(a.id) == fold(b.id) && Normalize(fold, a) != Normalize(fold, b)
  }

  /** The set of normal forms, exactly. */
  ghost predicate IsMerge(fold: string -> string, batches: seq<Batch>, merged: set<Normal>) {
    forall n :: n in merged <==> exists a | Lists(batches, a) && a.Assignment? :: Normalize(fold, a) == n
  }

  /** The inner loop: one batch on top of those before it. */
  method AddBatch(
    fold: string -> string, ghost batches: seq<Batch>, ghost i: nat, rows: seq<Listed>, known: map<string, Normal>)
    returns (r: Option<map<string, Normal>>)
    requires i < |batches| && batches[i] == Rows(rows) && Indexed(fold, batches[..i], [], known)
    ensures r.Some? ==>
      (forall j | 0 <= j < |rows| :: rows[j].Assignment?) && Indexed(fold, batches[..i], rows, r.value)
    ensures r.None? ==> Conflicting(fold, batches) || exists j | 0 <= j < |rows| :: rows[j].Malformed?
  {
    hide Indexed, Conflicting;
    var byId := known;
    for j := 0 to |rows|
      invariant forall k | 0 <= k < j :: rows[k].Assignment?
      invariant Indexed(fold, batches[..i], rows[..j], byId)
    {
      var row := rows[j];
      if row.Malformed? { return None; }
      var normal := Normalize(fold, row);
      var id := fold(row.id);
      if id in byId && byId[id] != normal {
        ConflictFound(fold, batches, i, j, byId);
        return None;
      }
      IndexOneMore(fold, batches[..i], rows, j, byId);
      byId := byId[id := normal];
    }
    assert rows[..|rows|] == rows;
    r := Some(byId);
  }

  /** `_complete_role_assignment_set`: None for a malformed batch or row, or a conflicting id. */
  method CompleteSet(fold: string -> string, batches: seq<Batch>) returns (r: Option<set<Normal>>)
    ensures r.Some? <==> WellFormed(batches) && !Conflicting(fold, batches)
    ensures r.Some? ==> IsMerge(fold, batches, r.value)
  {
    hide Indexed, Conflicting, IsMerge;
    var byId: map<string, Normal> := map[];
    assert Indexed(fold, [], [], byId) by { IndexNothing(fold); }
    for i := 0 to |batches|
      invariant WellFormed(batches[..i])
      invariant Indexed(fold, batches[..i], [], byId)
    {
      assert batches[..i + 1] == batches[..i] + [batches[i]];
      if batches[i].NotAList? { return None; }
      var added := AddBatch(fold, batches, i, batches[i].rows, byId);
      if added.None? { return None; }
      byId := added.value;
      IndexBatch(fold, batches, i, byId);
    }
    assert batches[..|batches|] == batches;
    NoConflict(fold, batches, byId);
    r := Some(byId.Values);
  }

  lemma IndexNothing(fold: string -> string)
    ensures Indexed(fold, [], [], map[])
  {
  }

  /** `byId` holds, under its folded id, the normal form of every assignment seen so far, and no more. */
  ghost predicate Indexed(fold: string -> string, batches: seq<Batch>, rows: seq<Listed>, byId: map<string, Normal>) {
    (forall a: Listed | a.Assignment? && (Lists(batches, a) || a in rows) ::
       fold(a.id) in byId && byId[fold(a.id)] == Normalize(fold, a)) &&
    (forall id | id in byId ::
       exists a: Listed | a.Assignment? && (Lists(batches, a) || a in rows) ::
         fold(a.id) == id && byId[id] == Normalize(fold, a))
  }

  lemma IndexOneMore(fold: string -> string, batches: seq<Batch>, rows: seq<Listed>, j: nat, byId: map<string, Normal>)
    requires j < |rows| && rows[j].Assignment? && Indexed(fold, batches, rows[..j], byId)
    requires fold(rows[j].id) in byId ==> byId[fold(rows[j].id)] == Normalize(fold, rows[j])
    ensures Indexed(fold, batches, rows[..j + 1], byId[fold(rows[j].id) := Normalize(fold, rows[j])])
  {
    hide Normalize, Lists;
    assert forall a :: a in rows[..j + 1] <==> a in rows[..j] || a == rows[j];
    var after := byId[fold(rows[j].id) := Normalize(fold, rows[j])];
    forall id | id in after
      ensures exists a: Listed | a.Assignment? && (Lists(batches, a) || a in rows[..j + 1]) ::
        fold(a.id) == id && after[id] == Normalize(fold, a)
    {
      if id == fold(rows[j].id) {
        assert rows[j] in rows[..j + 1];
      } else {
        var a: Listed :| a.Assignment? && (Lists(batches, a) || a in rows[..j]) &&
          fold(a.id) == id && byId[id] == Normalize(fold, a);
      }
    }
  }

  lemma IndexBatch(fold: string -> string, batches: seq<Batch>, i: nat, byId: map<string, Normal>)
    requires i < |batches| && batches[i].Rows? && Indexed(fold, batches[..i], batches[i].rows, byId)
    ensures Indexed(fold, batches[..i + 1], [], byId)
  {
    ListsOneMore(batches, i);
  }

  lemma ListsOneMore(batches: seq<Batch>, i: nat)
    requires i < |batches| && batches[i].Rows?
    ensures forall a :: Lists(batches[..i + 1], a) <==> Lists(batches[..i], a) || a in batches[i].rows
  {
    assert forall k | 0 <= k < i :: batches[..i + 1][k] == batches[..i][k];
    assert batches[..i + 1][i] == batches[i];
  }

  lemma ListsPrefix(batches: seq<Batch>, i: nat, a: Listed)
    requires i <= |batches| && Lists(batches[..i], a)
    ensures Lists(batches, a)
  {
    var k :| 0 <= k < i && batches[..i][k].Rows? && a in batches[..i][k].rows;
    assert batches[k] == batches[..i][k];
  }

  lemma ConflictFound(fold: string -> string, batches: seq<Batch>, i: nat, j: nat, byId: map<string, Normal>)
    requires i < |batches| && batches[i].Rows? && j < |batches[i].rows| && batches[i].rows[j].Assignment?
    requires Indexed(fold, batches[..i], batches[i].rows[..j], byId)
    requires var row := batches[i].rows[j]; fold(row.id) in byId && byId[fold(row.id)] != Normalize(fold, row)
    ensures Conflicting(fold, batches)
  {
    var rows := batches[i].rows;
    var id := fold(rows[j].id);
    var a: Listed :| a.Assignment? && (Lists(batches[..i], a) || a in rows[..j]) &&
      fold(a.id) == id && byId[id] == Normalize(fold, a);
    if Lists(batches[..i], a) { ListsPrefix(batches, i, a); }
    assert Lists(batches, a) && Lists(batches, rows[j]);
  }

  lemma NoConflict(fold: string -> string, batches: seq<Batch>, byId: map<string, Normal>)
    requires Indexed(fold, batches, [], byId)
    ensures !Conflicting(fold, batches) && IsMerge(fold, batches, byId.Values)
  {
    forall n
      ensures n in byId.Values <==> exists a | Lists(batches, a) && a.Assignment? :: Normalize(fold, a) == n
    {
      if n in byId.Values {
        var id :| id in byId && byId[id] == n;
      }
      if a :| Lists(batches, a) && a.Assignment? && Normalize(fold, a) == n {
        assert byId[fold(a.id)] == n;
      }
    }
  }

  /** Batches that list the same assignments, however ordered, repeated or cut, merge alike. */
  lemma MergeIgnoresBatching(
    fold: string -> string, batches: seq<Batch>, other: seq<Batch>, merged: set<Normal>, otherMerged: set<Normal>)
    requires WellFormed(batches) && WellFormed(other)
    requires forall a :: Lists(batches, a) <==> Lists(other, a)
    requires IsMerge(fold, batches, merged) && IsMerge(fold, other, otherMerged)
    ensures Conflicting(fold, batches) <==> Conflicting(fold, other)
    ensures merged == otherMerged
  {
    forall n
      ensures n in merged <==> n in otherMerged
    {
      if a :| Lists(batches, a) && a.Assignment? && Normalize(fold, a) == n { assert Lists(other, a); }
      if a :| Lists(other, a) && a.Assignment? && Normalize(fold, a) == n { assert Lists(batches, a); }
    }
  }

  // ---- The migration ----

  datatype Phase = LegacyOnly | OfficerOnly | OtherPhase

  datatype Code = PhaseInvalid | ReadFailed | AssignmentDrift | DeleteFailed

  /** One complete reading of the assignments of the principal. */
  datatype Reading = Unreadable | Batches(batches: seq<Batch>)

  datatype World = World(before: Reading, deletes: bool, after: Reading)

  /** The call sent: deleting one assignment by its id. */
  datatype Deletion = Deletion(id: string)

  function ExpectedBefore(phase: Phase, officer: Normal, legacy: Normal): Option<set<Normal>> {
    match phase
    case LegacyOnly => Some({officer, legacy})
    case OfficerOnly => Some({officer})
    case OtherPhase => None
  }

  method ReadSet(fold: string -> string, reading: Reading) returns (r: Result<set<Normal>, Code>)
    ensures r.Ok? <==>
      reading.Batches? && WellFormed(reading.batches) && !Conflicting(fold, reading.batches)
    ensures r.Ok? ==> IsMerge(fold, reading.batches, r.value)
    ensures r.Err? ==> r.error == if reading.Unreadable? then ReadFailed else AssignmentDrift
  {
    if reading.Unreadable? { return Err(ReadFailed); }
    var merged := CompleteSet(fold, reading.batches);
    r := if merged.Some? then Ok(merged.value) else Err(AssignmentDrift);
  }

  /** What a reading shows, when it can be read and merged. */
  ghost predicate Shows(fold: string -> string, reading: Reading, assignments: set<Normal>) {
    reading.Batches? && WellFormed(reading.batches) && !Conflicting(fold, reading.batches) &&
    IsMerge(fold, reading.batches, assignments)
  }

  /**
   What the migration may find: both assignments in the phase that still has the legacy one, and the officer's
   alone in the phase that no longer has it.
   */
  ghost predicate FindsDue(fold: string -> string, phase: Phase, officer: Normal, legacy: Normal, before: Reading) {
    (phase == LegacyOnly && Shows(fold, before, {officer, legacy})) ||
    (phase == OfficerOnly && Shows(fold, before, {officer}))
  }

  /** The legacy assignment is among those found: it always is where it is due, or when it is the officer's. */
  ghost predicate FindsLegacy(fold: string -> string, phase: Phase, officer: Normal, legacy: Normal, before: Reading) {
    (phase == LegacyOnly && Shows(fold, before, {officer, legacy})) ||
    (phase == OfficerOnly && officer == legacy && Shows(fold, before, {officer}))
  }

  /** The assignments due in this phase are seen, the legacy one can be deleted, and the officer's remains. */
  ghost predicate Succeeds(fold: string -> string, phase: Phase, officer: Normal, legacy: Normal, w: World) {
    FindsDue(fold, phase, officer, legacy, w.before) &&
    (FindsLegacy(fold, phase, officer, legacy, w.before) ==> w.deletes) && Shows(fold, w.after, {officer})
  }

  /**
   The end of `reconcile_admin_ai_secret_access`. It returns only when the assignments finally seen are
   exactly the officer's; it sends at most one deletion, of the legacy id, and only after having seen
   exactly the officer's and the legacy assignment in the phase that allows it. Its failures are those of the
   phase, of a reading, of the deletion and, for assignments that are not the due ones, drift.
   */
  method Migrate(
    fold: string -> string, phase: Phase, officer: Normal, legacy: Normal, legacyId: string, w: World)
    returns (r: Result<set<Normal>, Code>, deletions: seq<Deletion>)
    ensures r.Ok? ==> r.value == {officer} && Shows(fold, w.after, {officer})
    ensures r.Ok? <==> Succeeds(fold, phase, officer, legacy, w)
    ensures deletions == [] || deletions == [Deletion(legacyId)]
    ensures deletions != [] <==> FindsLegacy(fold, phase, officer, legacy, w.before)
    ensures r == Err(PhaseInvalid) <==> phase == OtherPhase
    ensures r == Err(DeleteFailed) <==> deletions != [] && !w.deletes
    ensures r == Err(ReadFailed) <==>
      phase != OtherPhase &&
      (w.before.Unreadable? ||
       (FindsDue(fold, phase, officer, legacy, w.before) && (deletions != [] ==> w.deletes) && w.after.Unreadable?))
  {
    deletions := [];
    var expected := ExpectedBefore(phase, officer, legacy);
    if expected.None? { return Err(PhaseInvalid), []; }
    var before := ReadSet(fold, w.before);
    if before.Err? { return Err(before.error), []; }
    MergeIsUnique(fold, w.before);
    if before.value != expected.value { return Err(AssignmentDrift), []; }
    if legacy in before.value {
      deletions := [Deletion(legacyId)];
      if !w.deletes { return Err(DeleteFailed), deletions; }
    }
    var after := ReadSet(fold, w.after);
    if after.Err? { return Err(after.error), deletions; }
    MergeIsUnique(fold, w.after);
    if after.value != {officer} { return Err(AssignmentDrift), deletions; }
    r := Ok(after.value);
  }

  lemma MergeIsUnique(fold: string -> string, reading: Reading)
    requires reading.Batches?
    ensures forall a, b | IsMerge(fold, reading.batches, a) && IsMerge(fold, reading.batches, b) :: a == b
  {
    forall a, b | IsMerge(fold, reading.batches, a) && IsMerge(fold, reading.batches, b)
      ensures a == b
    {
      assert forall n :: n in a <==> n in b;
    }
  }

  // ---- The principal type ----

  /** Two rows have one normal form exactly when their four kept fields agree up to case. */
  lemma NormalFormsAgree(fold: string -> string, a: Listed, b: Listed)
    requires a.Assignment? && b.Assignment?
    ensures Normalize(fold, a) == Normalize(fold, b) <==>
      fold(a.id) == fold(b.id) && fold(a.principalId) == fold(b.principalId) &&
      fold(a.roleDefinitionId) == fold(b.roleDefinitionId) && fold(a.scope) == fold(b.scope)
  {
  }

  /** The same row, but for the principal type. */
  predicate Retyped(a: Listed, b: Listed) {
    if a.Assignment? then b.Assignment? && a.(principalType := b.principalType) == b else b.Malformed?
  }

  predicate AllRetyped(a: seq<Batch>, b: seq<Batch>) {
    |a| == |b| &&
    forall i | 0 <= i < |a| ::
      if a[i].Rows? then
        b[i].Rows? && |a[i].rows| == |b[i].rows| &&
        forall j | 0 <= j < |a[i].rows| :: Retyped(a[i].rows[j], b[i].rows[j])
      else b[i].NotAList?
  }

  lemma ListsRetyped(a: seq<Batch>, b: seq<Batch>, x: Listed) returns (y: Listed)
    requires AllRetyped(a, b) && Lists(a, x)
    ensures Lists(b, y) && Retyped(x, y)
  {
    var i :| 0 <= i < |a| && a[i].Rows? && x in a[i].rows;
    var j :| 0 <= j < |a[i].rows| && a[i].rows[j] == x;
    y := b[i].rows[j];
    assert Retyped(a[i].rows[j], b[i].rows[j]) && y in b[i].rows;
  }

  lemma RetypedBack(a: seq<Batch>, b: seq<Batch>)
    requires AllRetyped(a, b)
    ensures AllRetyped(b, a)
  {
    forall i | 0 <= i < |b| && b[i].Rows?
      ensures forall j | 0 <= j < |b[i].rows| :: Retyped(b[i].rows[j], a[i].rows[j])
    {
      assert a[i].Rows?;
      assert forall j | 0 <= j < |a[i].rows| :: Retyped(a[i].rows[j], b[i].rows[j]);
    }
  }

  lemma ShowsRetyped(fold: string -> string, a: seq<Batch>, b: seq<Batch>, assignments: set<Normal>)
    requires AllRetyped(a, b) && Shows(fold, Batches(a), assignments)
    ensures Shows(fold, Batches(b), assignments)
  {
    hide Lists;
    RetypedBack(a, b);
    assert WellFormed(b) by {
      forall i | 0 <= i < |b|
        ensures b[i].Rows? && forall j | 0 <= j < |b[i].rows| :: b[i].rows[j].Assignment?
      {
        assert a[i].Rows?;
        assert forall j | 0 <= j < |a[i].rows| :: Retyped(a[i].rows[j], b[i].rows[j]) && a[i].rows[j].Assignment?;
      }
    }
    forall x, y | Lists(b, x) && Lists(b, y) && x.Assignment? && y.Assignment? && fold(x.id) == fold(y.id)
      ensures Normalize(fold, x) == Normalize(fold, y)
    {
      var x' := ListsRetyped(b, a, x);
      var y' := ListsRetyped(b, a, y);
      assert Normalize(fold, x') == Normalize(fold, y');
    }
    forall n
      ensures n in assignments <==> exists x | Lists(b, x) && x.Assignment? :: Normalize(fold, x) == n
    {
      if n in assignments {
        var x :| Lists(a, x) && x.Assignment? && Normalize(fold, x) == n;
        var y := ListsRetyped(a, b, x);
        assert Lists(b, y) && Normalize(fold, y) == n;
      }
      if x :| Lists(b, x) && x.Assignment? && Normalize(fold, x) == n {
        var y := ListsRetyped(b, a, x);
        assert Lists(a, y) && Normalize(fold, y) == n;
      }
    }
  }

  /** No principal type, in any row of either reading, ever changes whether the migration succeeds. */
  lemma TypesNeverMatter(
    fold: string -> string, phase: Phase, officer: Normal, legacy: Normal, deletes: bool,
    before: seq<Batch>, after: seq<Batch>, otherBefore: seq<Batch>, otherAfter: seq<Batch>)
    requires AllRetyped(before, otherBefore) && AllRetyped(after, otherAfter)
    ensures Succeeds(fold, phase, officer, legacy, World(Batches(before), deletes, Batches(after))) <==>
            Succeeds(fold, phase, officer, legacy, World(Batches(otherBefore), deletes, Batches(otherAfter)))
  {
    hide Shows, AllRetyped;
    forall due: set<Normal>
      ensures Shows(fold, Batches(before), due) <==> Shows(fold, Batches(otherBefore), due)
      ensures Shows(fold, Batches(after), due) <==> Shows(fold, Batches(otherAfter), due)
    {
      ShowsAlike(fold, before, otherBefore, due);
      ShowsAlike(fold, after, otherAfter, due);
    }
  }

  lemma ShowsAlike(fold: string -> string, a: seq<Batch>, b: seq<Batch>, due: set<Normal>)
    requires AllRetyped(a, b)
    ensures Shows(fold, Batches(a), due) <==> Shows(fold, Batches(b), due)
  {
    hide Shows, AllRetyped;
    RetypedBack(a, b);
    if Shows(fold, Batches(a), due) { ShowsRetyped(fold, a, b, due); }
    if Shows(fold, Batches(b), due) { ShowsRetyped(fold, b, a, due); }
  }

  /** An input: one officer row of any principal type at all, for which the migration succeeds. */
  lemma AnyTypePasses(fold: string -> string, row: Listed, legacy: Normal)
    requires row.Assignment? && legacy != Normalize(fold, row)
    ensures var seen := Batches([Rows([row])]);
      Succeeds(fold, OfficerOnly, Normalize(fold, row), legacy, World(seen, false, seen))
  {
    var batches := [Rows([row])];
    assert forall a :: Lists(batches, a) <==> a == row by {
      assert batches[0].Rows? && row in batches[0].rows;
    }
    assert IsMerge(fold, batches, {Normalize(fold, row)});
  }
}
