/**
 The order-checking release adapter (bizpulse/scripts/admin_ai_release_operations.py): which states reach
 the backend, with what secret, and where the role reconciliation stands among them.
 */
module ReleaseAdapter {
  import opened Wrappers

  datatype State =
    | ReadonlyRevalidation | PublishCandidateImage | DeployAdminAiCapability | VerifyAiDisabledCandidate
    | RotateKeyThroughAdmin | VerifyOperatorAi | VerifyDemoAi | VerifyIndependentChannelSwitches
    | VerifyInvalidCandidateRollback

  const STATES: seq<State> := [
    ReadonlyRevalidation, PublishCandidateImage, DeployAdminAiCapability, VerifyAiDisabledCandidate,
    RotateKeyThroughAdmin, VerifyOperatorAi, VerifyDemoAi, VerifyIndependentChannelSwitches,
    VerifyInvalidCandidateRollback]

  /** How the backend answers: with a dictionary, or in any way that counts as a failure. */
  datatype Reply = Evidence | NotADictionary | RaisesOwn | RaisesOther

  datatype Code =
    | StateOrderInvalid | SecretBoundaryInvalid | RbacBoundaryInvalid | OperationFailed | EvidenceInvalid
    | RbacFailed | RbacEvidenceInvalid | BackendCode

  /** A call that reached the backend, and whether it succeeded. */
  datatype Event = Executed(state: State, secret: Option<string>, ok: bool) | Reconciled(ok: bool)

  /** The adapter's fields, and the calls it has let through; the source keeps no such log. */
  datatype Adapter = Adapter(next: nat, rbacReconciled: bool, log: seq<Event>)

  const FRESH := Adapter(0, false, [])

  // ---- The two operations ----

  function Refusal(a: Adapter, state: State, secret: Option<string>): Option<Code> {
    if a.next >= |STATES| || state != STATES[a.next] then Some(StateOrderInvalid)
    else if (state == RotateKeyThroughAdmin) != secret.Some? then Some(SecretBoundaryInvalid)
    else if state == RotateKeyThroughAdmin && secret == Some("") then Some(SecretBoundaryInvalid)
    else if state == DeployAdminAiCapability && !a.rbacReconciled then Some(RbacBoundaryInvalid)
    else None
  }

  function Attempt(a: Adapter, state: State, secret: Option<string>, reply: Reply): (Adapter, Option<Code>) {
    match Refusal(a, state, secret)
    case Some(code) => (a, Some(code))
    case None =>
      (Adapter(if reply == Evidence then a.next + 1 else a.next, a.rbacReconciled,
               a.log + [Executed(state, secret, reply == Evidence)]),
       match reply
       case Evidence => None
       case NotADictionary => Some(EvidenceInvalid)
       case RaisesOwn => Some(BackendCode)
       case RaisesOther => Some(OperationFailed))
  }

  /** The adapter records the reconciliation as done before it asks the backend to do it. */
  function Reconcile(a: Adapter, reply: Reply): (Adapter, Option<Code>) {
    if a.rbacReconciled || a.next != 2 then (a, Some(RbacBoundaryInvalid))
    else
      (Adapter(a.next, true, a.log + [Reconciled(reply == Evidence)]),
       match reply
       case Evidence => None
       case NotADictionary => Some(RbacEvidenceInvalid)
       case RaisesOwn => Some(BackendCode)
       case RaisesOther => Some(RbacFailed))
  }

  datatype Call = Running(state: State, secret: Option<string>, reply: Reply) | Reconciling(reply: Reply)

  function Step(a: Adapter, c: Call): Adapter {
    match c
    case Running(state, secret, reply) => Attempt(a, state, secret, reply).0
    case Reconciling(reply) => Reconcile(a, reply).0
  }

  function After(calls: seq<Call>): Adapter {
    if calls == [] then FRESH else Step(After(calls[..|calls| - 1]), calls[|calls| - 1])
  }

  // ---- What every log satisfies ----

  /** How many states have succeeded. */
  function Successes(log: seq<Event>): nat {
    if log == [] then 0
    else Successes(log[..|log| - 1]) + if log[|log| - 1].Executed? && log[|log| - 1].ok then 1 else 0
  }

  function Reconciliations(log: seq<Event>): nat {
    if log == [] then 0
    else Reconciliations(log[..|log| - 1]) + if log[|log| - 1].Reconciled? then 1 else 0
  }

  /** The event `i` was let through rightly, judged by the events before it. */
  predicate Rightly(log: seq<Event>, i: nat)
    requires i < |log|
  {
    var before := log[..i];
    match log[i]
    case Executed(state, secret, _) =>
      Successes(before) < |STATES| && state == STATES[Successes(before)] &&
      (secret.Some? <==> state == RotateKeyThroughAdmin) && secret != Some("") &&
      (state == DeployAdminAiCapability ==> Reconciliations(before) == 1)
    case Reconciled(_) => Successes(before) == 2 && Reconciliations(before) == 0
  }

  predicate Orderly(a: Adapter) {
    a.next == Successes(a.log) <= |STATES| &&
    Reconciliations(a.log) == (if a.rbacReconciled then 1 else 0) &&
    forall i | 0 <= i < |a.log| :: Rightly(a.log, i)
  }

  lemma OneMoreEvent(log: seq<Event>, e: Event)
    requires forall i | 0 <= i < |log| :: Rightly(log, i)
    requires Rightly(log + [e], |log|)
    ensures forall i | 0 <= i < |log + [e]| :: Rightly(log + [e], i)
    ensures Successes(log + [e]) == Successes(log) + if e.Executed? && e.ok then 1 else 0
    ensures Reconciliations(log + [e]) == Reconciliations(log) + if e.Reconciled? then 1 else 0
  {
    assert (log + [e])[..|log|] == log;
    forall i | 0 <= i < |log|
      ensures Rightly(log + [e], i)
    {
      assert Rightly(log, i) && (log + [e])[..i] == log[..i];
    }
  }

  lemma StepKeepsOrder(a: Adapter, c: Call)
    requires Orderly(a)
    ensures Orderly(Step(a, c))
  {
    var after := Step(a, c);
    if after != a {
      var e := after.log[|a.log|];
      assert after.log == a.log + [e];
      assert (a.log + [e])[..|a.log|] == a.log;
      OneMoreEvent(a.log, e);
    }
  }

  /**
   Whatever the caller asks for and however the backend fails: a state reaches the backend only after all
   earlier states have succeeded, a secret goes with it exactly when it is the key rotation, and the role
   reconciliation reaches the backend at most once, after two states and before any deployment.
   */
  lemma {:induction false} EveryRunIsOrderly(calls: seq<Call>)
    ensures Orderly(After(calls))
  {
    if calls != [] {
      EveryRunIsOrderly(calls[..|calls| - 1]);
      StepKeepsOrder(After(calls[..|calls| - 1]), calls[|calls| - 1]);
    }
  }

  /**
   A deployment reaches the backend exactly when the reconciliation has been asked for, even if that
   failed: the adapter itself does not require it to have succeeded.
   */
  lemma DeploymentNeedsOnlyTheAttempt(calls: seq<Call>, reply: Reply)
    ensures var a := After(calls);
      a.next == 2 ==>
        (Attempt(a, DeployAdminAiCapability, None, reply).0.log != a.log <==>
         exists i | 0 <= i < |a.log| :: a.log[i].Reconciled?)
  {
    EveryRunIsOrderly(calls);
    ReconciliationsAre(After(calls).log);
  }

  lemma {:induction false} ReconciliationsAre(log: seq<Event>)
    ensures Reconciliations(log) > 0 <==> exists i | 0 <= i < |log| :: log[i].Reconciled?
  {
    if log != [] {
      ReconciliationsAre(log[..|log| - 1]);
      assert forall i | 0 <= i < |log| - 1 :: log[i] == log[..|log| - 1][i];
    }
  }

  lemma AfterOneMore(calls: seq<Call>, c: Call)
    ensures After(calls + [c]) == Step(After(calls), c)
  {
    assert (calls + [c])[..|calls|] == calls;
  }

  const REVALIDATED := Running(ReadonlyRevalidation, None, Evidence)
  const PUBLISHED := Running(PublishCandidateImage, None, Evidence)
  const NOT_RECONCILED := Reconciling(RaisesOther)
  const DEPLOYED := Running(DeployAdminAiCapability, None, Evidence)

  lemma FailsReconciliation()
    ensures After([REVALIDATED, PUBLISHED, NOT_RECONCILED]) ==
      Adapter(2, true, [Executed(ReadonlyRevalidation, None, true), Executed(PublishCandidateImage, None, true),
                        Reconciled(false)])
  {
    hide After;
    Publishes();
    AfterOneMore([REVALIDATED, PUBLISHED], NOT_RECONCILED);
    assert [REVALIDATED, PUBLISHED] + [NOT_RECONCILED] == [REVALIDATED, PUBLISHED, NOT_RECONCILED];
  }

  lemma Publishes()
    ensures After([REVALIDATED, PUBLISHED]) ==
      Adapter(2, false, [Executed(ReadonlyRevalidation, None, true), Executed(PublishCandidateImage, None, true)])
  {
    hide After;
    Revalidates();
    AfterOneMore([REVALIDATED], PUBLISHED);
    assert [REVALIDATED] + [PUBLISHED] == [REVALIDATED, PUBLISHED];
  }

  lemma Revalidates()
    ensures After([REVALIDATED]) == Adapter(1, false, [Executed(ReadonlyRevalidation, None, true)])
  {
    AfterOneMore([], REVALIDATED);
    assert [] + [REVALIDATED] == [REVALIDATED];
  }

  /** A concrete run in which the reconciliation fails and the deployment goes ahead. */
  lemma DeploysAfterFailedReconciliation()
    ensures After([REVALIDATED, PUBLISHED, NOT_RECONCILED, DEPLOYED]) ==
      Adapter(3, true, [Executed(ReadonlyRevalidation, None, true), Executed(PublishCandidateImage, None, true),
                        Reconciled(false), Executed(DeployAdminAiCapability, None, true)])
  {
    hide After;
    FailsReconciliation();
    AfterOneMore([REVALIDATED, PUBLISHED, NOT_RECONCILED], DEPLOYED);
    assert [REVALIDATED, PUBLISHED, NOT_RECONCILED] + [DEPLOYED] ==
           [REVALIDATED, PUBLISHED, NOT_RECONCILED, DEPLOYED];
  }

  // ---- Codes and fields, call by call ----

  /** Exactly the key rotation takes a secret, and not an empty one. */
  predicate SecretFits(state: State, secret: Option<string>) {
    if state == RotateKeyThroughAdmin then secret.Some? && |secret.value| > 0 else secret.None?
  }

  predicate Due(a: Adapter, state: State) {
    a.next < 9 && state == STATES[a.next]
  }

  /** What lets a state through to the backend. */
  predicate LetThrough(a: Adapter, state: State, secret: Option<string>) {
    Due(a, state) && SecretFits(state, secret) && (state == DeployAdminAiCapability ==> a.rbacReconciled)
  }

  /**
   A run of a state returns no code exactly when it was let through and the backend answered with evidence;
   only then does the adapter move on. The refusals come in the order of the checks, and leave no trace.
   */
  lemma AttemptExactly(a: Adapter, state: State, secret: Option<string>, reply: Reply)
    ensures var (after, code) := Attempt(a, state, secret, reply);
      (code.None? <==> LetThrough(a, state, secret) && reply == Evidence) &&
      (!Due(a, state) ==> code == Some(StateOrderInvalid)) &&
      (Due(a, state) && !SecretFits(state, secret) ==> code == Some(SecretBoundaryInvalid)) &&
      (Due(a, state) && SecretFits(state, secret) && !LetThrough(a, state, secret) ==>
        code == Some(RbacBoundaryInvalid)) &&
      (LetThrough(a, state, secret) && reply == NotADictionary ==> code == Some(EvidenceInvalid)) &&
      (LetThrough(a, state, secret) && reply == RaisesOwn ==> code == Some(BackendCode)) &&
      (LetThrough(a, state, secret) && reply == RaisesOther ==> code == Some(OperationFailed)) &&
      after.next == (if code.None? then a.next + 1 else a.next) && after.rbacReconciled == a.rbacReconciled &&
      after.log == a.log + if LetThrough(a, state, secret) then [Executed(state, secret, code.None?)] else []
  {
  }

  /**
   A reconciliation is let through once, after two states, and is then taken for done whatever comes of it; it
   returns no code exactly when the backend also answered with evidence.
   */
  lemma ReconcileExactly(a: Adapter, reply: Reply)
    ensures var (after, code) := Reconcile(a, reply);
      var through := a.next == 2 && !a.rbacReconciled;
      (code.None? <==> through && reply == Evidence) && (!through ==> code == Some(RbacBoundaryInvalid)) &&
      (through && reply == NotADictionary ==> code == Some(RbacEvidenceInvalid)) &&
      (through && reply == RaisesOwn ==> code == Some(BackendCode)) &&
      (through && reply == RaisesOther ==> code == Some(RbacFailed)) &&
      after.next == a.next && (after.rbacReconciled <==> a.rbacReconciled || through) &&
      after.log == a.log + if through then [Reconciled(code.None?)] else []
  {
  }

  /** The nine states in their order. */
  lemma StatesAre()
    ensures |STATES| == 9
    ensures STATES[0] == ReadonlyRevalidation && STATES[1] == PublishCandidateImage
    ensures STATES[2] == DeployAdminAiCapability && STATES[3] == VerifyAiDisabledCandidate
    ensures STATES[4] == RotateKeyThroughAdmin && STATES[5] == VerifyOperatorAi && STATES[6] == VerifyDemoAi
    ensures STATES[7] == VerifyIndependentChannelSwitches && STATES[8] == VerifyInvalidCandidateRollback
  {
  }

  // ---- The object ----

  class AdminAIReleaseOperations {
    var nextState: nat
    var rbacReconciled: bool
    /** The calls that reached the backend; kept for the specification only. */
    ghost var log: seq<Event>

    ghost function Fields(): Adapter
      reads this
    {
      Adapter(nextState, rbacReconciled, log)
    }

    constructor ()
      ensures Fields() == FRESH
    {
      nextState, rbacReconciled, log := 0, false, [];
    }

    method Run(state: State, secret: Option<string>, reply: Reply) returns (error: Option<Code>)
      modifies this
      ensures (Fields(), error) == Attempt(old(Fields()), state, secret, reply)
    {
      if nextState >= |STATES| || state != STATES[nextState] { return Some(StateOrderInvalid); }
      if (state == RotateKeyThroughAdmin) != secret.Some? { return Some(SecretBoundaryInvalid); }
      if state == RotateKeyThroughAdmin && secret == Some("") { return Some(SecretBoundaryInvalid); }
      if state == DeployAdminAiCapability && !rbacReconciled { return Some(RbacBoundaryInvalid); }
      log := log + [Executed(state, secret, reply == Evidence)];
      match reply {
        case RaisesOwn => return Some(BackendCode);
        case RaisesOther => return Some(OperationFailed);
        case NotADictionary => return Some(EvidenceInvalid);
        case Evidence =>
          nextState := nextState + 1;
          error := None;
      }
    }

    method ReconcileAdminAiSecretAccess(reply: Reply) returns (error: Option<Code>)
      modifies this
      ensures (Fields(), error) == Reconcile(old(Fields()), reply)
    {
      if rbacReconciled || nextState != 2 { return Some(RbacBoundaryInvalid); }
      rbacReconciled := true;
      log := log + [Reconciled(reply == Evidence)];
      match reply {
        case RaisesOwn => return Some(BackendCode);
        case RaisesOther => return Some(RbacFailed);
        case NotADictionary => return Some(RbacEvidenceInvalid);
        case Evidence => error := None;
      }
    }
  }
}
