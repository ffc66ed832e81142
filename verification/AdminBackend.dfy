/**
 The hosted backend of the release adapter (bizpulse/scripts/admin_ai_release_operations.py): the admin
 control it mutates, the audit expectations it records, and the scan of the hosted log.
 */
module AdminBackend {
  import opened Wrappers

  // ---- Data ----

  datatype Control = Control(revision: int, operatorEnabled: bool, demoEnabled: bool, credential: string)

  datatype Action = KeyRotate | ChannelsUpdate

  /** What the server's audit trail must later say about one mutation. */
  datatype Expectation = Expectation(
    requestId: string, action: Action, succeeded: bool, priorRevision: int, resultingRevision: int,
    requestedOperator: Option<bool>, requestedDemo: Option<bool>)

  datatype Backend = Backend(control: Option<Control>, expectations: seq<Expectation>)

  /** Payload members are None when missing or of the wrong type; so is an unsafe request id. */
  datatype ChannelReply = ChannelsRefused | ChannelsAnswer(
    revision: Option<int>, operatorEnabled: Option<bool>, demoEnabled: Option<bool>,
    credential: string, requestId: Option<string>)

  datatype RotationReply = RotationRefused | RotationAnswer(
    rotated: bool, fingerprint: Option<string>, revision: Option<int>, requestId: Option<string>)

  /** The rejection of a known invalid key, and the control read back after it. */
  datatype RejectionReply = RejectionRefused | RejectionAnswer(
    rejected: bool, readback: Control, requestId: Option<string>)

  datatype Mutation =
    | Rotation(rotation: RotationReply)
    | Channels(operatorEnabled: bool, demoEnabled: bool, channels: ChannelReply)
    | Rejection(rejection: RejectionReply)

  // ---- One mutation ----

  function Remember(b: Backend, requestId: Option<string>, e: Expectation): (Backend, bool) {
    match requestId
    case None => (b, false)
    case Some(id) => (b.(expectations := b.expectations + [e.(requestId := id)]), true)
  }

  /** `_rotate_key_through_admin`. */
  function Rotate(b: Backend, r: RotationReply): (Backend, bool) {
    if b.control.None? || r.RotationRefused? || !r.rotated || r.fingerprint.None? || r.revision.None? then (b, false)
    else
      var c := b.control.value;
      Remember(b.(control := Some(c.(revision := r.revision.value, credential := r.fingerprint.value))), r.requestId,
               Expectation("", KeyRotate, true, c.revision, r.revision.value, None, None))
  }

  /** `_set_channels`: the server's answer becomes the control, before the request id is looked at. */
  function SetChannels(b: Backend, operatorEnabled: bool, demoEnabled: bool, r: ChannelReply): (Backend, bool) {
    if b.control.None? || r.ChannelsRefused? || r.operatorEnabled != Some(operatorEnabled) ||
       r.demoEnabled != Some(demoEnabled) || r.revision.None?
    then (b, false)
    else
      Remember(b.(control := Some(Control(r.revision.value, operatorEnabled, demoEnabled, r.credential))), r.requestId,
               Expectation("", ChannelsUpdate, true, b.control.value.revision, r.revision.value,
                           Some(operatorEnabled), Some(demoEnabled)))
  }

  /** The mutation of `_verify_invalid_candidate_rollback`: refused, and nothing changed by it. */
  function Reject(b: Backend, r: RejectionReply): (Backend, bool) {
    if b.control.None? || r.RejectionRefused? then (b, false)
    else
      var prior := b.control.value;
      var after := b.(control := Some(r.readback));
      if !r.rejected || r.readback != prior then (after, false)
      else
        Remember(after, r.requestId,
                 Expectation("", KeyRotate, false, prior.revision, r.readback.revision, None, None))
  }

  function Apply(b: Backend, m: Mutation): (Backend, bool) {
    match m
    case Rotation(r) => Rotate(b, r)
    case Channels(o, d, r) => SetChannels(b, o, d, r)
    case Rejection(r) => Reject(b, r)
  }

  /** The backend after mutations that all went well; None once one has failed. */
  function ApplyAll(b: Backend, ms: seq<Mutation>): Option<Backend> {
    if ms == [] then Some(b)
    else
      match ApplyAll(b, ms[..|ms| - 1])
      case None => None
      case Some(before) =>
        var (after, ok) := Apply(before, ms[|ms| - 1]);
        if ok then Some(after) else None
  }

  // ---- Success and state, mutation by mutation ----

  /** The answer taken over into the control: complete, and to what was asked. */
  predicate TakenOver(m: Mutation) {
    match m
    case Rotation(r) => r.RotationAnswer? && r.rotated && r.fingerprint.Some? && r.revision.Some?
    case Channels(o, d, r) =>
      r.ChannelsAnswer? && r.revision.Some? && r.operatorEnabled == Some(o) && r.demoEnabled == Some(d)
    case Rejection(r) => r.RejectionAnswer?
  }

  function RequestId(m: Mutation): Option<string>
    requires TakenOver(m)
  {
    match m
    case Rotation(r) => r.requestId
    case Channels(_, _, r) => r.requestId
    case Rejection(r) => r.requestId
  }

  /**
   A mutation succeeds exactly when there is a control, the answer is taken over and bears a usable request id
   and, for a rejection, the key was rejected and every field of the control was read back as it had been.
   */
  lemma MutationSucceedsExactly(b: Backend, m: Mutation)
    ensures Apply(b, m).1 <==>
      b.control.Some? && TakenOver(m) && RequestId(m).Some? &&
      (m.Rejection? ==>
        m.rejection.rejected &&
        var before, after := b.control.value, m.rejection.readback;
        after.revision == before.revision && after.credential == before.credential &&
        after.operatorEnabled == before.operatorEnabled && after.demoEnabled == before.demoEnabled)
  {
  }

  /**
   The control after any mutation, succeeded or failed: an answer taken over moves it, field by field, before
   anything else about the answer is looked at; without one it stays as it was.
   */
  lemma ControlExactly(b: Backend, m: Mutation)
    ensures var after := Apply(b, m).0.control;
      if b.control.None? || !TakenOver(m) then after == b.control
      else
        after.Some? &&
        var c, d := b.control.value, after.value;
        match m
        case Rotation(r) =>
          d.revision == r.revision.value && d.credential == r.fingerprint.value &&
          d.operatorEnabled == c.operatorEnabled && d.demoEnabled == c.demoEnabled
        case Channels(o, e, r) =>
          d.revision == r.revision.value && d.credential == r.credential && d.operatorEnabled == o && d.demoEnabled == e
        case Rejection(r) => d == r.readback
  {
  }

  /** What a mutation records: one expectation when it succeeds, under the request id of the answer, and else none. */
  lemma RecordExactly(b: Backend, m: Mutation)
    ensures var (after, ok) := Apply(b, m);
      (!ok ==> after.expectations == b.expectations) &&
      (ok ==>
        b.control.Some? && after.control.Some? && TakenOver(m) && RequestId(m).Some? &&
        |after.expectations| == |b.expectations| + 1 && after.expectations[..|b.expectations|] == b.expectations &&
        var e := after.expectations[|b.expectations|];
        e.requestId == RequestId(m).value && (e.action == ChannelsUpdate <==> m.Channels?) &&
        (e.succeeded <==> !m.Rejection?) && e.priorRevision == b.control.value.revision &&
        e.resultingRevision == after.control.value.revision &&
        e.requestedOperator == (if m.Channels? then Some(m.operatorEnabled) else None) &&
        e.requestedDemo == (if m.Channels? then Some(m.demoEnabled) else None))
  {
  }

  // ---- The audit chain ----

  /** Each mutation starts from the revision the one before it ended at; the last ends at `last`. */
  predicate Chained(first: int, es: seq<Expectation>, last: int) {
    if es == [] then first == last
    else Chained(first, es[..|es| - 1], es[|es| - 1].priorRevision) && es[|es| - 1].resultingRevision == last
  }

  /** The switches the mutations leave behind. */
  function Switches(c: Control, ms: seq<Mutation>): (bool, bool) {
    if ms == [] then (c.operatorEnabled, c.demoEnabled)
    else
      match ms[|ms| - 1]
      case Channels(o, d, _) => (o, d)
      case _ => Switches(c, ms[..|ms| - 1])
  }

  /** What a mutation must have recorded about itself. */
  predicate Records(m: Mutation, e: Expectation) {
    match m
    case Rotation(_) => e.action == KeyRotate && e.succeeded && e.requestedOperator == e.requestedDemo == None
    case Channels(o, d, _) =>
      e.action == ChannelsUpdate && e.succeeded && e.requestedOperator == Some(o) && e.requestedDemo == Some(d)
    case Rejection(_) =>
      e.action == KeyRotate && !e.succeeded && e.priorRevision == e.resultingRevision &&
      e.requestedOperator == e.requestedDemo == None
  }

  lemma OneMoreRecord(b: Backend, m: Mutation)
    requires Apply(b, m).1
    ensures var after := Apply(b, m).0;
      b.control.Some? && after.control.Some? && |after.expectations| == |b.expectations| + 1 &&
      after.expectations[..|b.expectations|] == b.expectations &&
      var e := after.expectations[|b.expectations|];
      Records(m, e) && e.priorRevision == b.control.value.revision &&
      e.resultingRevision == after.control.value.revision
  {
  }

  /** A chain has one end only. */
  lemma ChainEnds(first: int, es: seq<Expectation>, last: int, other: int)
    requires Chained(first, es, last) && Chained(first, es, other)
    ensures last == other
  {
  }

  /** Seen from its outcome: a mutation keeps the chain if it succeeds or leaves the revision alone. */
  lemma ChainKeptWhenUnmoved(first: int, b: Backend, m: Mutation)
    requires b.control.Some? && Chained(first, b.expectations, b.control.value.revision)
    ensures var (after, ok) := Apply(b, m);
      after.control.Some? &&
      (Chained(first, after.expectations, after.control.value.revision) <==>
       ok || after.control.value.revision == b.control.value.revision)
  {
    hide Chained;
    var (after, ok) := Apply(b, m);
    if ok {
      OneMoreRecord(b, m);
      var n := |b.expectations|;
      assert after.expectations[n].resultingRevision == after.control.value.revision;
      ChainGrows(first, b.expectations, after.expectations, after.control.value.revision);
    } else if Chained(first, after.expectations, after.control.value.revision) {
      assert after.expectations == b.expectations;
      ChainEnds(first, b.expectations, b.control.value.revision, after.control.value.revision);
    }
  }

  /**
   An answer that moves the revision of the control and is not recorded: a rotation or switching taken for
   good but without a usable request id, or a rejected key after which another revision is read back, be its
   answer in order or not.
   */
  predicate Unrecorded(b: Backend, m: Mutation)
    requires b.control.Some?
  {
    var prior := b.control.value.revision;
    match m
    case Rotation(r) =>
      r.RotationAnswer? && r.rotated && r.fingerprint.Some? && r.revision.Some? && r.requestId.None? &&
      r.revision.value != prior
    case Channels(o, d, r) =>
      r.ChannelsAnswer? && r.operatorEnabled == Some(o) && r.demoEnabled == Some(d) && r.revision.Some? &&
      r.requestId.None? && r.revision.value != prior
    case Rejection(r) => r.RejectionAnswer? && r.readback.revision != prior
  }

  /** A mutation keeps the records chained up to the present control exactly unless its answer goes unrecorded. */
  lemma ChainKeptExactly(first: int, b: Backend, m: Mutation)
    requires b.control.Some? && Chained(first, b.expectations, b.control.value.revision)
    ensures var (after, ok) := Apply(b, m);
      after.control.Some? &&
      (Chained(first, after.expectations, after.control.value.revision) <==> !Unrecorded(b, m)) &&
      (Unrecorded(b, m) ==> !ok)
  {
    hide Chained;
    ChainKeptWhenUnmoved(first, b, m);
  }

  /** An input: the server has moved the control on, and its answer bears no usable request id. */
  lemma UnrecordedMutation()
    ensures var b := Backend(Some(Control(1, false, false, "")), []);
      var answer := ChannelsAnswer(Some(2), Some(true), Some(false), "", None);
      var (after, ok) := Apply(b, Channels(true, false, answer));
      !ok && after.control == Some(Control(2, true, false, "")) && after.expectations == [] &&
      !Chained(1, after.expectations, after.control.value.revision)
  {
  }

  /** Another: a key duly rejected, with a usable request id, after which the control stands elsewhere. */
  lemma UnrecordedRejection()
    ensures var b := Backend(Some(Control(1, true, true, "")), []);
      var (after, ok) := Apply(b, Rejection(RejectionAnswer(true, Control(2, true, true, ""), Some("id"))));
      !ok && after.control == Some(Control(2, true, true, "")) && after.expectations == [] &&
      !Chained(1, after.expectations, after.control.value.revision)
  {
  }

  lemma ChainGrows(first: int, es: seq<Expectation>, longer: seq<Expectation>, last: int)
    requires |longer| == |es| + 1 && longer[..|es|] == es && longer[|es|].resultingRevision == last
    requires Chained(first, es, longer[|es|].priorRevision)
    ensures Chained(first, longer, last)
  {
  }

  /** In a chain each record starts where the one before it ended. */
  lemma {:induction false} ChainLinks(first: int, es: seq<Expectation>, last: int)
    requires Chained(first, es, last)
    ensures forall i | 0 < i < |es| :: es[i].priorRevision == es[i - 1].resultingRevision
  {
    if es != [] {
      var n := |es| - 1;
      ChainLinks(first, es[..n], es[n].priorRevision);
      assert forall i | 0 <= i < n :: es[i] == es[..n][i];
    }
  }

  /**
   Any run of mutations that all succeed leaves one record each, in order, that form an unbroken chain of
   revisions from the first control to the present one, and the switches as last requested.
   */
  lemma {:induction false} MutationsChain(c: Control, ms: seq<Mutation>)
    requires ApplyAll(Backend(Some(c), []), ms).Some?
    ensures var b := ApplyAll(Backend(Some(c), []), ms).value;
      b.control.Some? && |b.expectations| == |ms| &&
      (forall i | 0 <= i < |ms| :: Records(ms[i], b.expectations[i])) &&
      Chained(c.revision, b.expectations, b.control.value.revision) &&
      (b.control.value.operatorEnabled, b.control.value.demoEnabled) == Switches(c, ms)
  {
    if ms != [] {
      hide Apply, Records, Chained;
      var n := |ms| - 1;
      MutationsChain(c, ms[..n]);
      var before, after := ApplyAll(Backend(Some(c), []), ms[..n]).value, ApplyAll(Backend(Some(c), []), ms).value;
      assert (after, true) == Apply(before, ms[n]);
      OneMoreRecord(before, ms[n]);
      ChainGrows(c.revision, before.expectations, after.expectations, after.control.value.revision);
      RecordsGrow(ms, before.expectations, after.expectations);
      SwitchesMove(c, before, ms);
    } else {
      assert ApplyAll(Backend(Some(c), []), ms).value == Backend(Some(c), []);
    }
  }

  lemma RecordsGrow(ms: seq<Mutation>, es: seq<Expectation>, longer: seq<Expectation>)
    requires |ms| == |longer| == |es| + 1 && longer[..|es|] == es
    requires (forall i | 0 <= i < |es| :: Records(ms[..|es|][i], es[i])) && Records(ms[|es|], longer[|es|])
    ensures forall i | 0 <= i < |ms| :: Records(ms[i], longer[i])
  {
    hide Records;
    forall i | 0 <= i < |es|
      ensures Records(ms[i], longer[i])
    {
      assert ms[i] == ms[..|es|][i] && longer[i] == longer[..|es|][i];
    }
  }

  /** One mutation that succeeds sets the switches it asks for, or leaves them. */
  lemma SwitchesMove(c: Control, before: Backend, ms: seq<Mutation>)
    requires ms != [] && Apply(before, ms[|ms| - 1]).1 && before.control.Some?
    requires (before.control.value.operatorEnabled, before.control.value.demoEnabled) == Switches(c, ms[..|ms| - 1])
    ensures var after := Apply(before, ms[|ms| - 1]).0;
      after.control.Some? &&
      (after.control.value.operatorEnabled, after.control.value.demoEnabled) == Switches(c, ms)
  {
  }

  /** The mutations of one release: rotation, two verifications, four switchings, one rejected key. */
  function ReleaseMutations(r: RotationReply, c: seq<ChannelReply>, rejection: RejectionReply): seq<Mutation>
    requires |c| == 6
  {
    [Rotation(r), Channels(true, false, c[0]), Channels(true, true, c[1]),
     Channels(false, true, c[2]), Channels(true, true, c[3]), Channels(true, false, c[4]), Channels(true, true, c[5]),
     Rejection(rejection)]
  }

  /** `_mutation_audit_evidence`: at most 16 expectations, distinct request ids, server rows matching one by one. */
  predicate AuditPasses(b: Backend, items: seq<Expectation>) {
    1 <= |b.expectations| <= 16 &&
    (forall i, j | 0 <= i < j < |b.expectations| :: b.expectations[i].requestId != b.expectations[j].requestId) &&
    |items| == |b.expectations| && forall i | 0 <= i < |items| :: items[i] == b.expectations[i]
  }

  /** These mutations, all successful, record eight chained expectations and end with both switches on. */
  lemma ReleaseChain(control: Control, r: RotationReply, c: seq<ChannelReply>, rejection: RejectionReply)
    requires |c| == 6 && ApplyAll(Backend(Some(control), []), ReleaseMutations(r, c, rejection)).Some?
    ensures var b := ApplyAll(Backend(Some(control), []), ReleaseMutations(r, c, rejection)).value;
      |b.expectations| == 8 && b.control.Some? &&
      Chained(control.revision, b.expectations, b.control.value.revision) &&
      b.control.value.operatorEnabled && b.control.value.demoEnabled &&
      b.expectations[7].priorRevision == b.expectations[7].resultingRevision
  {
    hide ApplyAll, Chained;
    var ms := ReleaseMutations(r, c, rejection);
    MutationsChain(control, ms);
    assert ms[..7][6] == ms[6];
    assert Records(ms[7], ApplyAll(Backend(Some(control), []), ms).value.expectations[7]);
  }

  // ---- The hosted log ----

  /** One query: unavailable, or the number of secret matches and whether the marker request shows. */
  datatype Query = Unavailable | Rows(matches: nat, marker: bool)

  /** How many of the first `n` queries show the marker. */
  function Markers(queries: nat -> Query, n: nat): nat {
    if n == 0 then 0
    else Markers(queries, n - 1) + if queries(n - 1).Rows? && queries(n - 1).marker then 1 else 0
  }

  predicate CleanBefore(queries: nat -> Query, n: nat) {
    forall i | 0 <= i < n :: queries(i).Rows? && queries(i).matches == 0
  }

  const MAX_QUERIES := 6

  /**
   `_hosted_log_secret_matches`: zero is reported only when the marker has shown in two of at most six
   queries and none so far held a secret; a positive number is what the last query held. Anything else
   is None, the error that the scan is unavailable.
   */
  method ScanHostedLog(queries: nat -> Query) returns (r: Option<nat>, asked: nat, sleeps: nat)
    ensures 1 <= asked <= MAX_QUERIES && sleeps <= MAX_QUERIES - 1 && CleanBefore(queries, asked - 1)
    ensures r == Some(0) <==>
      CleanBefore(queries, asked) && Markers(queries, asked) == 2 && queries(asked - 1).marker
    ensures r.Some? && r.value > 0 <==> queries(asked - 1).Rows? && queries(asked - 1).matches > 0
    ensures r.Some? && r.value > 0 ==> r.value == queries(asked - 1).matches && Markers(queries, asked - 1) <= 1
    ensures r == None <==>
      queries(asked - 1).Unavailable? ||
      (asked == MAX_QUERIES && CleanBefore(queries, asked) && Markers(queries, asked) <= 1)
  {
    var markerObserved := false;
    asked, sleeps := 0, 0;
    while asked < MAX_QUERIES
      invariant asked <= MAX_QUERIES && sleeps == (if asked == MAX_QUERIES then asked - 1 else asked)
      invariant CleanBefore(queries, asked)
      invariant Markers(queries, asked) == if markerObserved then 1 else 0
    {
      var query := queries(asked);
      asked := asked + 1;
      if query.Unavailable? { return None, asked, sleeps; }
      if query.matches > 0 { return Some(query.matches), asked, sleeps; }
      if query.marker {
        if markerObserved { return Some(0), asked, sleeps; }
        markerObserved := true;
      }
      if asked < MAX_QUERIES { sleeps := sleeps + 1; }
    }
    r := None;
  }

  // ---- The object ----

  class AzureHostedAdminAIBackend {
    var control: Option<Control>
    var mutationAuditExpectations: seq<Expectation>

    function Fields(): Backend
      reads this
    {
      Backend(control, mutationAuditExpectations)
    }

    constructor ()
      ensures Fields() == Backend(None, [])
    {
      control, mutationAuditExpectations := None, [];
    }

    method RememberMutationAudit(requestId: Option<string>, e: Expectation) returns (ok: bool)
      modifies this
      ensures (Fields(), ok) == Remember(old(Fields()), requestId, e)
    {
      if requestId.None? { return false; }
      mutationAuditExpectations := mutationAuditExpectations + [e.(requestId := requestId.value)];
      ok := true;
    }

    method RotateKey(r: RotationReply) returns (ok: bool)
      modifies this
      ensures (Fields(), ok) == Rotate(old(Fields()), r)
    {
      if control.None? { return false; }
      var prior := control.value.revision;
      if r.RotationRefused? || !r.rotated || r.fingerprint.None? || r.revision.None? { return false; }
      control := Some(control.value.(revision := r.revision.value, credential := r.fingerprint.value));
      ok := RememberMutationAudit(
        r.requestId, Expectation("", KeyRotate, true, prior, r.revision.value, None, None));
    }

    method SwitchChannels(operatorEnabled: bool, demoEnabled: bool, r: ChannelReply) returns (ok: bool)
      modifies this
      ensures (Fields(), ok) == SetChannels(old(Fields()), operatorEnabled, demoEnabled, r)
    {
      if control.None? { return false; }
      var prior := control.value.revision;
      if r.ChannelsRefused? || r.operatorEnabled != Some(operatorEnabled) || r.demoEnabled != Some(demoEnabled) ||
         r.revision.None?
      {
        return false;
      }
      control := Some(Control(r.revision.value, operatorEnabled, demoEnabled, r.credential));
      ok := RememberMutationAudit(
        r.requestId,
        Expectation("", ChannelsUpdate, true, prior, r.revision.value, Some(operatorEnabled), Some(demoEnabled)));
    }

    /** The four switchings of `_verify_independent_channel_switches`. */
    method VerifyIndependentChannelSwitches(c: seq<ChannelReply>) returns (ok: bool)
      requires |c| == 4
      modifies this
      ensures ok ==>
        Some(Fields()) == ApplyAll(old(Fields()), [Channels(false, true, c[0]), Channels(true, true, c[1]),
                                                   Channels(true, false, c[2]), Channels(true, true, c[3])])
      ensures ok ==> control.Some? && control.value.operatorEnabled && control.value.demoEnabled
    {
      ghost var m0, m1 := Channels(false, true, c[0]), Channels(true, true, c[1]);
      ghost var m2, m3 := Channels(true, false, c[2]), Channels(true, true, c[3]);
      ghost var start := Fields();
      ok := SwitchChannels(false, true, c[0]);
      if !ok { return; }
      assert ApplyAll(start, [m0]) == Some(Fields()) by { assert [m0][..0] == []; }
      ok := SwitchChannels(true, true, c[1]);
      if !ok { return; }
      assert ApplyAll(start, [m0, m1]) == Some(Fields()) by { assert [m0, m1][..1] == [m0]; }
      ok := SwitchChannels(true, false, c[2]);
      if !ok { return; }
      assert ApplyAll(start, [m0, m1, m2]) == Some(Fields()) by { assert [m0, m1, m2][..2] == [m0, m1]; }
      ok := SwitchChannels(true, true, c[3]);
      assert [m0, m1, m2, m3][..3] == [m0, m1, m2];
    }

    method RejectInvalidKey(r: RejectionReply) returns (ok: bool)
      modifies this
      ensures (Fields(), ok) == Reject(old(Fields()), r)
    {
      if control.None? || r.RejectionRefused? { return false; }
      var prior := control.value;
      control := Some(r.readback);
      if !r.rejected || r.readback != prior { return false; }
      ok := RememberMutationAudit(
        r.requestId, Expectation("", KeyRotate, false, prior.revision, r.readback.revision, None, None));
    }
  }
}
