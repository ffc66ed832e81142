/**
 A concrete release (bizpulse/scripts/admin_ai_release_operations.py) whose nine states all succeed, and whose
 audit rows, accepted by the final check, do not form a chain: one switching was answered without a usable
 request id, and was tried again.
 */
module AuditGap {
  import opened Wrappers
  import opened ReleaseAdapter
  import opened AdminBackend
  import opened ReleaseRun

  // ---- The input ----

  const LOW := Control(1, false, false, "")

  function Switched(revision: int, operatorEnabled: bool, demoEnabled: bool, id: Option<string>): ChannelReply {
    ChannelsAnswer(Some(revision), Some(operatorEnabled), Some(demoEnabled), "", id)
  }

  /** A meeting at one revision: rotation, switching or rejection, as the state asks for. */
  function Meet(revision: int, operatorEnabled: bool, demoEnabled: bool, id: Option<string>): Meeting {
    Meeting(
      Some(LOW), RotationAnswer(true, Some("0"), Some(revision), id),
      _ => Switched(revision, operatorEnabled, demoEnabled, id),
      RejectionAnswer(true, Control(revision, operatorEnabled, demoEnabled, ""), id), ROWS, true)
  }

  const SWITCHES := Meet(9, true, true, None).(channels :=
    i => if i == 0 then Switched(6, false, true, Some("d")) else if i == 1 then Switched(7, true, true, Some("e"))
         else if i == 2 then Switched(8, true, false, Some("f")) else Switched(9, true, true, Some("g")))

  function Row(id: string, prior: int, resulting: int, operatorEnabled: bool, demoEnabled: bool): Expectation {
    Expectation(id, ChannelsUpdate, true, prior, resulting, Some(operatorEnabled), Some(demoEnabled))
  }

  const ROTATED := Expectation("a", KeyRotate, true, 1, 2, None, None)
  const REJECTED := Expectation("h", KeyRotate, false, 9, 9, None, None)
  const SECOND := Row("b", 3, 4, true, false)
  const THIRD := Row("c", 4, 5, true, true)
  const FOURTH := Row("d", 5, 6, false, true)
  const FIFTH := Row("e", 6, 7, true, true)
  const SIXTH := Row("f", 7, 8, true, false)
  const SEVENTH := Row("g", 8, 9, true, true)
  const ROWS: seq<Expectation> := [ROTATED, SECOND, THIRD, FOURTH, FIFTH, SIXTH, SEVENTH, REJECTED]

  const RUN: seq<Command> := [
    Ask(ReadonlyRevalidation, None, Meet(1, false, false, None)),
    Ask(PublishCandidateImage, None, Meet(1, false, false, None)),
    AskForRoles(Evidence),
    Ask(DeployAdminAiCapability, None, Meet(1, false, false, None)),
    Ask(VerifyAiDisabledCandidate, None, Meet(1, false, false, None)),
    Ask(RotateKeyThroughAdmin, Some("key"), Meet(2, false, false, Some("a"))),
    Ask(VerifyOperatorAi, None, Meet(3, true, false, None)),
    Ask(VerifyOperatorAi, None, Meet(4, true, false, Some("b"))),
    Ask(VerifyDemoAi, None, Meet(5, true, true, Some("c"))),
    Ask(VerifyIndependentChannelSwitches, None, SWITCHES),
    Ask(VerifyInvalidCandidateRollback, None, Meet(9, true, true, Some("h")))]

  // ---- One command after the other ----

  /** A state let through that succeeds, and one that fails. */
  lemma Succeeds(r: Release, state: State, secret: Option<string>, m: Meeting, after: Backend)
    requires Refusal(r.adapter, state, secret).None? && Execute(r.backend, state, m) == (after, true)
    ensures var next := Obey(r, Ask(state, secret, m));
      next.backend == after && next.adapter.next == r.adapter.next + 1 &&
      next.adapter.rbacReconciled == r.adapter.rbacReconciled &&
      (state != VerifyAiDisabledCandidate ==> next.first == r.first) &&
      (state == VerifyAiDisabledCandidate ==> next.first == m.read) &&
      (state == VerifyInvalidCandidateRollback ==> next.rows == m.rows)
  {
    hide Execute, MutationsOf;
  }

  lemma Fails(r: Release, state: State, secret: Option<string>, m: Meeting, after: Backend)
    requires Refusal(r.adapter, state, secret).None? && Execute(r.backend, state, m) == (after, false)
    ensures var next := Obey(r, Ask(state, secret, m));
      next.backend == after && next.adapter.next == r.adapter.next && next.first == r.first &&
      next.adapter.rbacReconciled == r.adapter.rbacReconciled
  {
    hide Execute, MutationsOf;
  }

  /** Where the run stands after its first commands. */
  predicate Stands(r: Release, next: nat, b: Backend) {
    r.adapter.next == next && r.adapter.rbacReconciled && r.backend == b && r.first == Some(LOW)
  }

  lemma Begins()
    ensures Stands(Run(RUN[..5]), 4, Backend(Some(LOW), []))
  {
    hide Run, Obey, Execute;
    Ready();
    var m := Meet(1, false, false, None);
    OneCommand(RUN, 3);
    Idles(OUTSET.backend, 2, m);
    Succeeds(Run(RUN[..3]), DeployAdminAiCapability, None, m, OUTSET.backend);
    OneCommand(RUN, 4);
    assert Execute(OUTSET.backend, VerifyAiDisabledCandidate, m) == (Backend(Some(LOW), []), true) by {
      ReadsLow(m);
    }
    Succeeds(Run(RUN[..4]), VerifyAiDisabledCandidate, None, m, Backend(Some(LOW), []));
  }

  lemma ReadsLow(m: Meeting)
    requires m.read == Some(LOW) && m.passes
    ensures Execute(OUTSET.backend, VerifyAiDisabledCandidate, m) == (Backend(Some(LOW), []), true)
  {
  }

  lemma Ready()
    ensures Run(RUN[..3]).adapter.next == 2 && Run(RUN[..3]).adapter.rbacReconciled
    ensures Run(RUN[..3]).backend == OUTSET.backend
  {
    hide Run, Obey, Execute;
    assert Run(RUN[..0]) == OUTSET by { OutsetFirst(); }
    var m := Meet(1, false, false, None);
    OneCommand(RUN, 0);
    Idles(OUTSET.backend, 0, m);
    Succeeds(OUTSET, ReadonlyRevalidation, None, m, OUTSET.backend);
    OneCommand(RUN, 1);
    Idles(OUTSET.backend, 1, m);
    Succeeds(Run(RUN[..1]), PublishCandidateImage, None, m, OUTSET.backend);
    OneCommand(RUN, 2);
    Reconciles(Run(RUN[..2]));
  }

  lemma OutsetFirst()
    ensures Run(RUN[..0]) == OUTSET
  {
    assert RUN[..0] == [];
  }

  lemma Reconciles(r: Release)
    requires r.adapter.next == 2 && !r.adapter.rbacReconciled
    ensures var after := Obey(r, AskForRoles(Evidence));
      after.adapter.next == 2 && after.adapter.rbacReconciled && after.backend == r.backend
  {
  }

  lemma Idles(b: Backend, n: nat, m: Meeting)
    requires n < 3 && m.passes
    ensures Execute(b, STATES[n], m) == (b, true)
  {
  }

  /** A state of one mutation. */
  lemma PerformsOne(b: Backend, state: State, m: Meeting, mutation: Mutation, after: Backend, ok: bool)
    requires state in [RotateKeyThroughAdmin, VerifyOperatorAi, VerifyDemoAi] && m.passes
    requires MutationsOf(state, m) == [mutation] && Apply(b, mutation) == (after, ok)
    ensures Execute(b, state, m) == (after, ok)
  {
    hide MutationsOf, Apply;
    assert [mutation][1..] == [] && [mutation][0] == mutation;
    assert Perform(b, [mutation]) == (after, ok);
  }

  lemma Rotates()
    ensures var m := Meet(2, false, false, Some("a"));
      Execute(Backend(Some(LOW), []), RotateKeyThroughAdmin, m) ==
      (Backend(Some(Control(2, false, false, "0")), ROWS[..1]), true)
  {
    hide Execute;
    var m := Meet(2, false, false, Some("a"));
    var after := Backend(Some(Control(2, false, false, "0")), [ROTATED]);
    assert [] + [ROTATED] == [ROTATED] == ROWS[..1];
    PerformsOne(Backend(Some(LOW), []), RotateKeyThroughAdmin, m, Rotation(m.rotation), after, true);
  }

  /** One switching, recorded when its answer bears a request id. */
  lemma Switches(
    b: Backend, revision: int, operatorEnabled: bool, demoEnabled: bool, id: Option<string>, after: Backend)
    requires b.control.Some?
    requires after.control == Some(Control(revision, operatorEnabled, demoEnabled, ""))
    requires after.expectations ==
      if id.None? then b.expectations
      else b.expectations + [Row(id.value, b.control.value.revision, revision, operatorEnabled, demoEnabled)]
    ensures Apply(b, Channels(operatorEnabled, demoEnabled, Switched(revision, operatorEnabled, demoEnabled, id))) ==
      (after, id.Some?)
  {
  }

  function On(revision: int, operatorEnabled: bool, demoEnabled: bool, records: nat): Backend
    requires records <= |ROWS|
  {
    Backend(Some(Control(revision, operatorEnabled, demoEnabled, "")), ROWS[..records])
  }

  lemma SwitchesOperator(b: Backend, revision: int, id: Option<string>, after: Backend)
    requires b.control.Some?
    requires after.control == Some(Control(revision, true, false, ""))
    requires after.expectations ==
      if id.None? then b.expectations
      else b.expectations + [Row(id.value, b.control.value.revision, revision, true, false)]
    ensures Execute(b, VerifyOperatorAi, Meet(revision, true, false, id)) == (after, id.Some?)
  {
    hide Execute, Apply;
    Switches(b, revision, true, false, id, after);
    PerformsOne(b, VerifyOperatorAi, Meet(revision, true, false, id),
                Channels(true, false, Switched(revision, true, false, id)), after, id.Some?);
  }

  /** The rotation, and the switching that goes unrecorded. */
  lemma LosesOne()
    ensures Stands(Run(RUN[..7]), 5, On(3, true, false, 1))
  {
    hide Run, Obey, Execute, Meet;
    Begins();
    OneCommand(RUN, 5);
    Rotates();
    var rotated := Backend(Some(Control(2, false, false, "0")), ROWS[..1]);
    Succeeds(Run(RUN[..5]), RotateKeyThroughAdmin, Some("key"), Meet(2, false, false, Some("a")), rotated);
    OneCommand(RUN, 6);
    SwitchesOperator(rotated, 3, None, On(3, true, false, 1));
    Fails(Run(RUN[..6]), VerifyOperatorAi, None, Meet(3, true, false, None), On(3, true, false, 1));
  }

  lemma Opens()
    ensures Stands(Run(RUN[..8]), 6, On(4, true, false, 2))
  {
    hide Run, Obey, Execute, Meet;
    LosesOne();
    OneCommand(RUN, 7);
    assert ROWS[..2] == ROWS[..1] + [SECOND];
    SwitchesOperator(On(3, true, false, 1), 4, Some("b"), On(4, true, false, 2));
    Succeeds(Run(RUN[..7]), VerifyOperatorAi, None, Meet(4, true, false, Some("b")), On(4, true, false, 2));
  }

  lemma SwitchesBoth()
    ensures Execute(On(4, true, false, 2), VerifyDemoAi, Meet(5, true, true, Some("c"))) == (On(5, true, true, 3), true)
  {
    hide Execute, Apply;
    assert ROWS[..3] == ROWS[..2] + [THIRD];
    Switches(On(4, true, false, 2), 5, true, true, Some("c"), On(5, true, true, 3));
    PerformsOne(On(4, true, false, 2), VerifyDemoAi, Meet(5, true, true, Some("c")),
                Channels(true, true, Switched(5, true, true, Some("c"))), On(5, true, true, 3), true);
  }

  lemma SwitchesFour()
    ensures Execute(On(5, true, true, 3), VerifyIndependentChannelSwitches, SWITCHES) == (On(9, true, true, 7), true)
  {
    hide Apply;
    var ms := MutationsOf(VerifyIndependentChannelSwitches, SWITCHES);
    assert ROWS[..4] == ROWS[..3] + [FOURTH] && ROWS[..5] == ROWS[..4] + [FIFTH];
    assert ROWS[..6] == ROWS[..5] + [SIXTH] && ROWS[..7] == ROWS[..6] + [SEVENTH];
    Switches(On(5, true, true, 3), 6, false, true, Some("d"), On(6, false, true, 4));
    Switches(On(6, false, true, 4), 7, true, true, Some("e"), On(7, true, true, 5));
    Switches(On(7, true, true, 5), 8, true, false, Some("f"), On(8, true, false, 6));
    Switches(On(8, true, false, 6), 9, true, true, Some("g"), On(9, true, true, 7));
    assert Perform(On(9, true, true, 7), ms[1..][1..][1..][1..]) == (On(9, true, true, 7), true);
    assert Perform(On(8, true, false, 6), ms[1..][1..][1..]) == (On(9, true, true, 7), true);
    assert Perform(On(7, true, true, 5), ms[1..][1..]) == (On(9, true, true, 7), true);
    assert Perform(On(6, false, true, 4), ms[1..]) == (On(9, true, true, 7), true);
    assert Perform(On(5, true, true, 3), ms) == (On(9, true, true, 7), true);
  }

  /** The rows pass the audit: they are the expectations, and their request ids differ. */
  lemma RowsPass()
    ensures AuditPasses(On(9, true, true, 8), ROWS)
  {
    assert ROWS[..8] == ROWS;
    forall i, j | 0 <= i < j < |ROWS|
      ensures ROWS[i].requestId != ROWS[j].requestId
    {
      IdsAre(i);
      IdsAre(j);
      assert ['a', 'b', 'c', 'd', 'e', 'f', 'g', 'h'][i] != ['a', 'b', 'c', 'd', 'e', 'f', 'g', 'h'][j];
    }
  }

  lemma IdsAre(i: nat)
    requires i < |ROWS|
    ensures |ROWS| == 8 && ROWS[i].requestId == [['a', 'b', 'c', 'd', 'e', 'f', 'g', 'h'][i]]
  {
  }

  lemma Rejects()
    ensures var m := Meet(9, true, true, Some("h"));
      Execute(On(9, true, true, 7), VerifyInvalidCandidateRollback, m) == (On(9, true, true, 8), true)
  {
    hide AuditPasses;
    RowsPass();
    var m := Meet(9, true, true, Some("h"));
    assert ROWS[..8] == ROWS[..7] + [REJECTED];
    assert Apply(On(9, true, true, 7), Rejection(m.rejection)) == (On(9, true, true, 8), true);
    assert [Rejection(m.rejection)][1..] == [];
    assert Perform(On(9, true, true, 7), [Rejection(m.rejection)]) == (On(9, true, true, 8), true);
  }

  lemma SwitchesAll()
    ensures Stands(Run(RUN[..10]), 8, On(9, true, true, 7))
  {
    hide Run, Obey, Execute, Meet, On;
    Opens();
    OneCommand(RUN, 8);
    SwitchesBoth();
    Succeeds(Run(RUN[..8]), VerifyDemoAi, None, Meet(5, true, true, Some("c")), On(5, true, true, 3));
    OneCommand(RUN, 9);
    SwitchesFour();
    Succeeds(Run(RUN[..9]), VerifyIndependentChannelSwitches, None, SWITCHES, On(9, true, true, 7));
  }

  lemma Ends()
    ensures Stands(Run(RUN), 9, On(9, true, true, 8)) && Run(RUN).rows == ROWS
  {
    hide Run, Obey, Execute, On;
    SwitchesAll();
    OneCommand(RUN, 10);
    Rejects();
    Succeeds(Run(RUN[..10]), VerifyInvalidCandidateRollback, None, Meet(9, true, true, Some("h")),
             On(9, true, true, 8));
    assert RUN[..11] == RUN;
  }

  // ---- The result ----

  /**
   All nine states have succeeded, the audit has passed, and yet the second audit row starts at revision 3
   where the first ended at revision 2: nothing in the audit accounts for the mutation in between.
   */
  lemma AuditHasGap()
    ensures var r := Run(RUN);
      Successes(r.adapter.log) == |STATES| && AuditPasses(r.backend, r.rows) &&
      |r.rows| == 8 && r.rows[0].resultingRevision == 2 && r.rows[1].priorRevision == 3 &&
      r.first.Some? && r.backend.control.Some? &&
      !Chained(r.first.value.revision, r.rows, r.backend.control.value.revision)
  {
    hide Run, Chained;
    Ends();
    RunOfAdapter(RUN);
    RowsPass();
    if Chained(1, ROWS, 9) { ChainLinks(1, ROWS, 9); }
  }
}
