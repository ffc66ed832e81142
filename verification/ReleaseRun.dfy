/**
 The release adapter in front of its hosted backend (bizpulse/scripts/admin_ai_release_operations.py): which
 mutations a run of states performs, and what a full run without failures leaves behind.
 */
module ReleaseRun {
  import opened Wrappers
  import opened ReleaseAdapter
  import opened AdminBackend

  // ---- The backend's dispatch ----

  /**
   What the backend meets while it executes one state: the control it reads, the answers to its mutations, the
   audit rows of the server, and whether all else it checks is in order.
   */
  datatype Meeting = Meeting(
    read: Option<Control>, rotation: RotationReply, channels: nat -> ChannelReply, rejection: RejectionReply,
    rows: seq<Expectation>, passes: bool)

  /** The mutations a state asks for, in order. */
  function MutationsOf(state: State, m: Meeting): seq<Mutation> {
    match state
    case RotateKeyThroughAdmin => [Rotation(m.rotation)]
    case VerifyOperatorAi => [Channels(true, false, m.channels(0))]
    case VerifyDemoAi => [Channels(true, true, m.channels(0))]
    case VerifyIndependentChannelSwitches =>
      [Channels(false, true, m.channels(0)), Channels(true, true, m.channels(1)),
       Channels(true, false, m.channels(2)), Channels(true, true, m.channels(3))]
    case VerifyInvalidCandidateRollback => [Rejection(m.rejection)]
    case _ => []
  }

  /** Mutations one after the other; the first that fails ends them. */
  function Perform(b: Backend, ms: seq<Mutation>): (Backend, bool)
    decreases |ms|
  {
    if ms == [] then (b, true)
    else
      var (after, ok) := Apply(b, ms[0]);
      if ok then Perform(after, ms[1..]) else (after, false)
  }

  /** `execute`: what the backend does for a state, and whether it returns. */
  function Execute(b: Backend, state: State, m: Meeting): (Backend, bool) {
    match state
    case VerifyAiDisabledCandidate =>
      if m.read.None? then (b, false)
      else
        (b.(control := m.read), m.passes && !m.read.value.operatorEnabled && !m.read.value.demoEnabled)
    case _ =>
      var (after, ok) := Perform(b, MutationsOf(state, m));
      (after, ok && m.passes && (state == VerifyInvalidCandidateRollback ==> AuditPasses(after, m.rows)))
  }

  /** The rows the server shows are the recorded expectations, one by one, and no request id occurs twice. */
  predicate AuditAgrees(b: Backend, rows: seq<Expectation>) {
    1 <= |rows| <= 16 && rows == b.expectations &&
    forall i, j | 0 <= i < j < |rows| :: rows[i].requestId != rows[j].requestId
  }

  lemma AuditExactly(b: Backend, rows: seq<Expectation>)
    ensures AuditPasses(b, rows) <==> AuditAgrees(b, rows)
  {
  }

  /**
   A state succeeds exactly when all of its mutations do and all else it checks is in order; the disabled candidate
   when the control can be read and both switches are off, and the last state only if the audit agrees as well.
   */
  lemma ExecuteExactly(b: Backend, state: State, m: Meeting)
    ensures var (after, ok) := Execute(b, state, m);
      if state == VerifyAiDisabledCandidate then
        (ok <==> m.passes && m.read.Some? && !m.read.value.operatorEnabled && !m.read.value.demoEnabled) &&
        after.expectations == b.expectations && after.control == if m.read.Some? then m.read else b.control
      else
        (ok <==>
          m.passes && ApplyAll(b, MutationsOf(state, m)).Some? &&
          (state == VerifyInvalidCandidateRollback ==> AuditAgrees(after, m.rows))) &&
        (ok ==> ApplyAll(b, MutationsOf(state, m)) == Some(after)) &&
        (state in [ReadonlyRevalidation, PublishCandidateImage, DeployAdminAiCapability] ==> after == b)
  {
    hide Apply, AuditPasses, MutationsOf;
    AuditExactly(Execute(b, state, m).0, m.rows);
    PerformIsApplyAll(b, [], MutationsOf(state, m));
    assert [] + MutationsOf(state, m) == MutationsOf(state, m);
    if state in [ReadonlyRevalidation, PublishCandidateImage, DeployAdminAiCapability] { NoMutations(state, m); }
  }

  /** The mutations of one state meet the answers of the server one after the other. */
  lemma AnswersInTurn(state: State, m: Meeting, k: nat)
    requires k < |MutationsOf(state, m)|
    ensures match MutationsOf(state, m)[k]
      case Rotation(r) => k == 0 && r == m.rotation
      case Channels(_, _, c) => c == m.channels(k)
      case Rejection(r) => k == 0 && r == m.rejection
  {
  }

  lemma NoMutations(state: State, m: Meeting)
    requires state in [ReadonlyRevalidation, PublishCandidateImage, DeployAdminAiCapability]
    ensures MutationsOf(state, m) == []
  {
  }

  /** Performing is applying all, but that it also tells what a failure leaves. */
  lemma {:induction false} PerformIsApplyAll(b: Backend, done: seq<Mutation>, ms: seq<Mutation>)
    requires ApplyAll(b, done).Some?
    ensures var (after, ok) := Perform(ApplyAll(b, done).value, ms);
      ApplyAll(b, done + ms) == if ok then Some(after) else None
    decreases |ms|
  {
    hide Apply;
    if ms == [] {
      assert done + ms == done;
    } else {
      var more := done + [ms[0]];
      assert more[..|more| - 1] == done;
      assert more + ms[1..] == done + ms;
      if ApplyAll(b, more).Some? { PerformIsApplyAll(b, more, ms[1..]); } else { FailureStays(b, more, ms[1..]); }
    }
  }

  lemma {:induction false} FailureStays(b: Backend, done: seq<Mutation>, ms: seq<Mutation>)
    requires ApplyAll(b, done).None?
    ensures ApplyAll(b, done + ms).None?
    decreases |ms|
  {
    hide Apply;
    if ms == [] {
      assert done + ms == done;
    } else {
      var all := done + ms;
      var n := |ms| - 1;
      assert all[..|all| - 1] == done + ms[..n];
      FailureStays(b, done, ms[..n]);
    }
  }

  // ---- Runs ----

  /**
   Adapter and backend, and three records the source does not keep: the mutations of the states that
   succeeded, the control first read, and the audit rows the last state was shown.
   */
  datatype Release = Release(
    adapter: Adapter, backend: Backend, performed: seq<Mutation>, first: Option<Control>, rows: seq<Expectation>)

  datatype Command = Ask(state: State, secret: Option<string>, meeting: Meeting) | AskForRoles(reply: Reply)

  const OUTSET := Release(FRESH, Backend(None, []), [], None, [])

  function Obey(r: Release, c: Command): Release {
    match c
    case AskForRoles(reply) => r.(adapter := Reconcile(r.adapter, reply).0)
    case Ask(state, secret, m) =>
      if Refusal(r.adapter, state, secret).Some? then r
      else
        var (after, ok) := Execute(r.backend, state, m);
        var adapter := Attempt(r.adapter, state, secret, if ok then Evidence else RaisesOwn).0;
        if !ok then r.(adapter := adapter, backend := after)
        else
          Release(adapter, after, r.performed + MutationsOf(state, m),
                  if state == VerifyAiDisabledCandidate then m.read else r.first,
                  if state == VerifyInvalidCandidateRollback then m.rows else r.rows)
  }

  function Run(cs: seq<Command>): Release {
    if cs == [] then OUTSET else Obey(Run(cs[..|cs| - 1]), cs[|cs| - 1])
  }

  /** The run as the adapter sees it: every call with the reply it got. */
  function CallOf(r: Release, c: Command): Call {
    match c
    case AskForRoles(reply) => Reconciling(reply)
    case Ask(state, secret, m) =>
      Running(state, secret, if Execute(r.backend, state, m).1 then Evidence else RaisesOwn)
  }

  function CallsOf(cs: seq<Command>): seq<Call> {
    if cs == [] then [] else CallsOf(cs[..|cs| - 1]) + [CallOf(Run(cs[..|cs| - 1]), cs[|cs| - 1])]
  }

  /** Such a run is a run of the adapter, so that everything proved of those holds here. */
  lemma {:induction false} RunOfAdapter(cs: seq<Command>)
    ensures Run(cs).adapter == After(CallsOf(cs)) && Orderly(Run(cs).adapter)
  {
    hide Execute, Orderly;
    if cs != [] {
      RunOfAdapter(cs[..|cs| - 1]);
      var calls := CallsOf(cs);
      assert calls[..|calls| - 1] == CallsOf(cs[..|cs| - 1]);
    }
    EveryRunIsOrderly(CallsOf(cs));
  }

  // ---- Which mutations a run performs ----

  /** A mutation without its answer. */
  datatype Request = KeyRequest | ChannelRequest(operatorEnabled: bool, demoEnabled: bool) | InvalidKeyRequest

  function RequestOf(m: Mutation): Request {
    match m
    case Rotation(_) => KeyRequest
    case Channels(o, d, _) => ChannelRequest(o, d)
    case Rejection(_) => InvalidKeyRequest
  }

  function RequestsOf(ms: seq<Mutation>): (rs: seq<Request>)
    ensures |rs| == |ms| && forall i | 0 <= i < |ms| :: rs[i] == RequestOf(ms[i])
  {
    seq(|ms|, i requires 0 <= i < |ms| => RequestOf(ms[i]))
  }

  /** What a full release asks of the server, in order. */
  const RELEASE_REQUESTS: seq<Request> := [
    KeyRequest, ChannelRequest(true, false), ChannelRequest(true, true), ChannelRequest(false, true),
    ChannelRequest(true, true), ChannelRequest(true, false), ChannelRequest(true, true), InvalidKeyRequest]

  /** How many of them are made in the first `n` states. */
  function RequestsDue(n: nat): nat {
    if n <= 4 then 0 else if n <= 7 then n - 4 else if n == 8 then 7 else 8
  }

  function RequestsAt(state: State): seq<Request> {
    match state
    case RotateKeyThroughAdmin => [KeyRequest]
    case VerifyOperatorAi => [ChannelRequest(true, false)]
    case VerifyDemoAi => [ChannelRequest(true, true)]
    case VerifyIndependentChannelSwitches =>
      [ChannelRequest(false, true), ChannelRequest(true, true), ChannelRequest(true, false), ChannelRequest(true, true)]
    case VerifyInvalidCandidateRollback => [InvalidKeyRequest]
    case _ => []
  }

  lemma RequestsOfState(state: State, m: Meeting)
    ensures RequestsOf(MutationsOf(state, m)) == RequestsAt(state)
  {
  }

  lemma RequestsGrow(n: nat)
    requires n < |STATES|
    ensures RequestsDue(n) <= RequestsDue(n + 1) <= |RELEASE_REQUESTS|
    ensures RELEASE_REQUESTS[..RequestsDue(n)] + RequestsAt(STATES[n]) == RELEASE_REQUESTS[..RequestsDue(n + 1)]
  {
    if n < 4 {
      assert RequestsAt(STATES[n]) == [];
    } else if n == 7 {
      assert STATES[7] == VerifyIndependentChannelSwitches;
    } else {
      assert |RequestsAt(STATES[n])| == 1 && RequestsAt(STATES[n])[0] == RELEASE_REQUESTS[RequestsDue(n)];
    }
  }

  // ---- Runs without failures ----

  predicate NothingFailed(log: seq<Event>) {
    forall i | 0 <= i < |log| && log[i].Executed? :: log[i].ok
  }

  /** Where a run without failures stands. */
  ghost predicate OnCourse(r: Release) {
    r.adapter.next <= |STATES| && RequestsOf(r.performed) == RELEASE_REQUESTS[..RequestsDue(r.adapter.next)] &&
    (r.adapter.next < 4 ==> r.backend == OUTSET.backend) &&
    (r.adapter.next >= 4 ==>
      r.first.Some? && !r.first.value.operatorEnabled && !r.first.value.demoEnabled &&
      ApplyAll(Backend(r.first, []), r.performed) == Some(r.backend)) &&
    (r.adapter.next == |STATES| ==> AuditPasses(r.backend, r.rows))
  }

  /** A state of the first three performs nothing, the fourth reads the control, the others perform mutations. */
  lemma ExecuteStays(b: Backend, n: nat, m: Meeting)
    requires n < |STATES| && Execute(b, STATES[n], m).1
    ensures n < 3 ==> Execute(b, STATES[n], m).0 == b
    ensures n == 3 ==>
      m.read.Some? && !m.read.value.operatorEnabled && !m.read.value.demoEnabled &&
      Execute(b, STATES[n], m).0 == b.(control := m.read)
    ensures n > 3 ==> Perform(b, MutationsOf(STATES[n], m)) == (Execute(b, STATES[n], m).0, true)
    ensures n == 8 ==> AuditPasses(Execute(b, STATES[n], m).0, m.rows)
  {
    hide AuditPasses;
    assert n == 0 || n == 1 || n == 2 || n == 3 || n == 4 || n == 5 || n == 6 || n == 7 || n == 8;
  }

  lemma RequestsAppend(a: seq<Mutation>, b: seq<Mutation>)
    ensures RequestsOf(a + b) == RequestsOf(a) + RequestsOf(b)
  {
  }

  lemma ObeyStaysOnCourse(r: Release, c: Command)
    requires NothingFailed(r.adapter.log) ==> OnCourse(r)
    requires NothingFailed(Obey(r, c).adapter.log)
    ensures OnCourse(Obey(r, c))
  {
    hide Execute, AuditPasses, MutationsOf, ApplyAll, Perform, RequestsOf, RequestsAt;
    var after := Obey(r, c);
    LogGrows(r, c);
    if c.Ask? && Refusal(r.adapter, c.state, c.secret).None? {
      assert after.adapter.log[|r.adapter.log|] ==
        Executed(c.state, c.secret, Execute(r.backend, c.state, c.meeting).1);
      var n := r.adapter.next;
      ExecuteStays(r.backend, n, c.meeting);
      RequestsOfState(c.state, c.meeting);
      RequestsAppend(r.performed, MutationsOf(c.state, c.meeting));
      RequestsGrow(n);
      if n == 3 { FourthStarts(r, c); }
      if n > 3 { PerformIsApplyAll(Backend(r.first, []), r.performed, MutationsOf(c.state, c.meeting)); }
    }
  }

  /** Once the control has been read, nothing has been performed yet. */
  lemma FourthStarts(r: Release, c: Command)
    requires OnCourse(r) && r.adapter.next == 3 && c.Ask? && c.state == STATES[3]
    ensures r.performed + MutationsOf(c.state, c.meeting) == []
    ensures ApplyAll(Backend(c.meeting.read, []), []) == Some(r.backend.(control := c.meeting.read))
  {
    assert |RequestsOf(r.performed)| == 0;
  }

  lemma LogGrows(r: Release, c: Command)
    ensures var log := Obey(r, c).adapter.log;
      |r.adapter.log| <= |log| && log[..|r.adapter.log|] == r.adapter.log &&
      (NothingFailed(log) ==> NothingFailed(r.adapter.log))
  {
    hide Execute;
    var log := Obey(r, c).adapter.log;
    assert log[..|r.adapter.log|] == r.adapter.log;
    assert forall i | 0 <= i < |r.adapter.log| :: r.adapter.log[i] == log[i];
  }

  lemma {:induction false} RunStaysOnCourse(cs: seq<Command>)
    ensures NothingFailed(Run(cs).adapter.log) ==> OnCourse(Run(cs))
  {
    hide Obey, OnCourse, NothingFailed;
    if cs == [] {
      OutsetIsOnCourse();
    } else {
      RunStaysOnCourse(cs[..|cs| - 1]);
      if NothingFailed(Run(cs).adapter.log) { ObeyStaysOnCourse(Run(cs[..|cs| - 1]), cs[|cs| - 1]); }
    }
  }

  lemma OutsetIsOnCourse()
    ensures OnCourse(OUTSET)
  {
  }

  /** The performed mutations of a full release, written out with their answers. */
  lemma FullReleasePerforms(ms: seq<Mutation>)
    requires RequestsOf(ms) == RELEASE_REQUESTS
    ensures |ms| == 8 && ms[0].Rotation? && ms[7].Rejection? && forall i | 1 <= i < 7 :: ms[i].Channels?
    ensures ms == ReleaseMutations(ms[0].rotation, seq(6, i requires 0 <= i < 6 => ms[i + 1].channels), ms[7].rejection)
  {
    var rs := RequestsOf(ms);
    assert |rs| == 8;
    assert forall i | 0 <= i < 8 :: RequestOf(ms[i]) == RELEASE_REQUESTS[i];
  }

  /**
   A run in which nothing that reached the backend failed, and all nine states succeeded: it has performed
   exactly the eight mutations of a release, from a control with both switches off to one with both on, and
   the server's own audit rows form one unbroken chain of revisions between the two.
   */
  lemma FullReleaseIsOneChain(cs: seq<Command>)
    requires NothingFailed(Run(cs).adapter.log) && Successes(Run(cs).adapter.log) == |STATES|
    ensures var r := Run(cs);
      RequestsOf(r.performed) == RELEASE_REQUESTS && r.first.Some? && r.backend.control.Some? &&
      ApplyAll(Backend(r.first, []), r.performed) == Some(r.backend) &&
      !r.first.value.operatorEnabled && !r.first.value.demoEnabled &&
      r.backend.control.value.operatorEnabled && r.backend.control.value.demoEnabled &&
      |r.rows| == 8 && Chained(r.first.value.revision, r.rows, r.backend.control.value.revision) &&
      r.rows[7].priorRevision == r.rows[7].resultingRevision
  {
    hide ApplyAll, Chained, RequestsOf, ReleaseMutations;
    RunStaysOnCourse(cs);
    RunOfAdapter(cs);
    var r := Run(cs);
    assert r.adapter.next == |STATES|;
    assert RELEASE_REQUESTS[..8] == RELEASE_REQUESTS;
    FullReleasePerforms(r.performed);
    ReleaseChain(
      r.first.value, r.performed[0].rotation,
      seq(6, i requires 0 <= i < 6 => r.performed[i + 1].channels), r.performed[7].rejection);
    assert r.rows == r.backend.expectations;
  }

  // ---- Runs with failures ----

  /** No answer among those the mutations meet, up to the first that fails, goes unrecorded. */
  predicate AllRecorded(b: Backend, ms: seq<Mutation>)
    decreases |ms|
  {
    ms == [] ||
    ((b.control.Some? ==> !Unrecorded(b, ms[0])) && (Apply(b, ms[0]).1 ==> AllRecorded(Apply(b, ms[0]).0, ms[1..])))
  }

  /** What a command has the backend do meets no unrecorded answer. */
  predicate Recorded(r: Release, c: Command) {
    c.Ask? && Refusal(r.adapter, c.state, c.secret).None? ==>
      AllRecorded(r.backend, MutationsOf(c.state, c.meeting))
  }

  /**
   The expectations lead from the control first read to the present one. Before that control has been read
   for good there are none.
   */
  predicate InChain(r: Release) {
    if r.adapter.next < 4 then r.backend.expectations == []
    else
      r.first.Some? && r.backend.control.Some? &&
      Chained(r.first.value.revision, r.backend.expectations, r.backend.control.value.revision)
  }

  lemma {:induction false} PerformChains(first: int, b: Backend, ms: seq<Mutation>)
    requires b.control.Some? && Chained(first, b.expectations, b.control.value.revision)
    ensures var after := Perform(b, ms).0;
      after.control.Some? &&
      (Chained(first, after.expectations, after.control.value.revision) <==> AllRecorded(b, ms))
    decreases |ms|
  {
    if ms != [] {
      hide Chained, Unrecorded, Apply;
      ChainKeptExactly(first, b, ms[0]);
      if Apply(b, ms[0]).1 { PerformChains(first, Apply(b, ms[0]).0, ms[1..]); }
    }
  }

  /** Executing a state after the fourth performs its mutations, whether or not it then succeeds. */
  lemma ExecutePerforms(b: Backend, n: nat, m: Meeting)
    requires 3 < n < |STATES|
    ensures Execute(b, STATES[n], m).0 == Perform(b, MutationsOf(STATES[n], m)).0
  {
  }

  /** The first four states ask for no mutation; a control read for good is the first. */
  lemma EarlyStates(b: Backend, n: nat, m: Meeting)
    requires n < 4
    ensures MutationsOf(STATES[n], m) == [] && Execute(b, STATES[n], m).0.expectations == b.expectations
    ensures n == 3 && Execute(b, STATES[n], m).1 ==> m.read.Some? && Execute(b, STATES[n], m).0.control == m.read
  {
  }

  /** A command keeps the chain if and only if it meets no unrecorded answer. */
  lemma ObeyChains(r: Release, c: Command)
    requires InChain(r)
    ensures InChain(Obey(r, c)) <==> Recorded(r, c)
  {
    hide Execute, MutationsOf, Chained, AllRecorded;
    if c.Ask? && Refusal(r.adapter, c.state, c.secret).None? {
      var n := r.adapter.next;
      if n < 4 {
        EarlyStates(r.backend, n, c.meeting);
        assert AllRecorded(r.backend, []) by { NothingToRecord(r.backend); }
        assert Chained(0, [], 0) by { EmptyChain(0); }
        if n == 3 && c.meeting.read.Some? { EmptyChain(c.meeting.read.value.revision); }
      } else {
        ExecutePerforms(r.backend, n, c.meeting);
        PerformChains(r.first.value.revision, r.backend, MutationsOf(c.state, c.meeting));
      }
    }
  }

  lemma NothingToRecord(b: Backend)
    ensures AllRecorded(b, [])
  {
  }

  lemma EmptyChain(revision: int)
    ensures Chained(revision, [], revision)
  {
  }

  /** The chain holds after every command so far. */
  predicate AlwaysInChain(cs: seq<Command>) {
    forall i | 0 <= i <= |cs| :: InChain(Run(cs[..i]))
  }

  predicate AllAnswersRecorded(cs: seq<Command>) {
    forall i | 0 <= i < |cs| :: Recorded(Run(cs[..i]), cs[i])
  }

  lemma OneCommand(cs: seq<Command>, i: nat)
    requires i < |cs|
    ensures Run(cs[..i + 1]) == Obey(Run(cs[..i]), cs[i])
  {
    assert cs[..i + 1][..i] == cs[..i];
  }

  lemma {:induction false} ChainedUpTo(cs: seq<Command>, n: nat)
    requires n <= |cs| && forall i | 0 <= i < n :: Recorded(Run(cs[..i]), cs[i])
    ensures InChain(Run(cs[..n]))
  {
    hide Obey, Recorded, InChain;
    if n == 0 {
      assert InChain(Run(cs[..0])) by { OutsetIsInChain(cs); }
    } else {
      ChainedUpTo(cs, n - 1);
      OneCommand(cs, n - 1);
      ObeyChains(Run(cs[..n - 1]), cs[n - 1]);
    }
  }

  lemma OutsetIsInChain(cs: seq<Command>)
    ensures InChain(Run(cs[..0]))
  {
    assert cs[..0] == [];
  }

  /**
   In any run at all, failures and second attempts included, the expectations stay chained from the control
   first read to the present one if and only if no answer goes unrecorded.
   */
  lemma ChainedExactly(cs: seq<Command>)
    ensures AlwaysInChain(cs) <==> AllAnswersRecorded(cs)
  {
    hide Obey, Recorded, InChain, Run;
    if AlwaysInChain(cs) {
      forall i | 0 <= i < |cs|
        ensures Recorded(Run(cs[..i]), cs[i])
      {
        assert InChain(Run(cs[..i])) && InChain(Run(cs[..i + 1]));
        OneCommand(cs, i);
        ObeyChains(Run(cs[..i]), cs[i]);
      }
    }
    if AllAnswersRecorded(cs) {
      forall i | 0 <= i <= |cs|
        ensures InChain(Run(cs[..i]))
      {
        ChainedUpTo(cs, i);
      }
    }
  }

  /** What a run that has passed its last state has been shown by the audit. */
  lemma {:induction false} RowsAreExpectations(cs: seq<Command>)
    ensures Run(cs).adapter.next <= |STATES|
    ensures Run(cs).adapter.next == |STATES| ==> AuditPasses(Run(cs).backend, Run(cs).rows)
  {
    if cs != [] {
      hide MutationsOf, AuditPasses, Perform;
      RowsAreExpectations(cs[..|cs| - 1]);
    }
  }

  /**
   However often its states had to be tried again: if all nine have succeeded in the end and no answer went
   unrecorded, the server's audit rows are one chain of revisions from the control first read to the last.
   */
  lemma RecordedReleaseIsOneChain(cs: seq<Command>)
    requires AllAnswersRecorded(cs) && Successes(Run(cs).adapter.log) == |STATES|
    ensures var r := Run(cs);
      r.first.Some? && r.backend.control.Some? &&
      Chained(r.first.value.revision, r.rows, r.backend.control.value.revision)
  {
    hide Obey, Recorded, Run, Chained;
    ChainedUpTo(cs, |cs|);
    assert cs[..|cs|] == cs;
    RunOfAdapter(cs);
    RowsAreExpectations(cs);
    assert Run(cs).rows == Run(cs).backend.expectations;
  }
}
