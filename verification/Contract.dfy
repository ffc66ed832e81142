/**
 The progress machine and the receipt validators of one enablement package
 (bizpulse/scripts/ai_enablement_contract.py).
 */
module Contract {
  import opened Wrappers
  import opened Patterns
  import opened Json
  import opened Reconciliation

  // ---- Progress ----

  datatype State =
    | ReadonlyRevalidation | PublishCandidateImage | ActivateAiDisabledCandidate
    | VerifyAiDisabledCandidate | ReconcileResources | BudgetFailureRehearsal
    | ProviderFailurePlaceholderWrite | ProviderFailureRehearsal | PaidModelQualification
    | RealSecretWrite | ActivateAiEnabledRevision | VerifyAiEnabledRevision
    | PaidHostedManualSendSmoke | SanitizeReceipt

  const STATE_ORDER: seq<State> := [
    ReadonlyRevalidation, PublishCandidateImage, ActivateAiDisabledCandidate,
    VerifyAiDisabledCandidate, ReconcileResources, BudgetFailureRehearsal,
    ProviderFailurePlaceholderWrite, ProviderFailureRehearsal, PaidModelQualification,
    RealSecretWrite, ActivateAiEnabledRevision, VerifyAiEnabledRevision,
    PaidHostedManualSendSmoke, SanitizeReceipt]

  type Anchors = map<string, string>

  /** What a state must report: operation counts and evidence values. */
  datatype Report = Report(operations: map<string, int>, evidence: map<string, Json>)

  /** A progress value; any combination of its members may be offered. */
  datatype Progress = Progress(completed: seq<State>, next: Option<State>, token: string)

  /**
   The closed data of the contract: its state order (`STATE_ORDER`), which anchors are valid, what each
   state must report, and the digest that binds anchors and position into a resume token.
   */
  datatype Rules = Rules(
    order: seq<State>, validAnchors: Anchors -> bool, reports: State -> Report, token: (Anchors, nat) -> string)

  datatype Contract = Contract(current: bool, anchors: Anchors)

  datatype ContractError = ContractMalformed | TransitionInvalid | ReconciliationInvalid

  /** The schema, state order and state table are the current ones, and the anchors are valid. */
  predicate Sound(rules: Rules, c: Contract) {
    c.current && rules.validAnchors(c.anchors) && rules.order != []
  }

  function ProgressAt(rules: Rules, anchors: Anchors, k: nat): Progress
    requires k <= |rules.order|
  {
    Progress(rules.order[..k], if k < |rules.order| then Some(rules.order[k]) else None,
             rules.token(anchors, k))
  }

  function InitialProgress(rules: Rules, c: Contract): Result<Progress, ContractError> {
    if !Sound(rules, c) then Err(ContractMalformed)
    else Ok(Progress([], Some(rules.order[0]), rules.token(c.anchors, 0)))
  }

  function Advance(rules: Rules, c: Contract, p: Progress, state: State, report: Report)
    : Result<Progress, ContractError>
  {
    var done := |p.completed|;
    if !Sound(rules, c) then Err(ContractMalformed)
    else if done > |rules.order| || p.completed != rules.order[..done] || done >= |rules.order| ||
            p.next != Some(rules.order[done]) || p.token != rules.token(c.anchors, done) ||
            state != rules.order[done] || report != rules.reports(state)
    then Err(TransitionInvalid)
    else
      Ok(Progress(p.completed + [state],
                  if done + 1 < |rules.order| then Some(rules.order[done + 1]) else None,
                  rules.token(c.anchors, done + 1)))
  }

  /** Some state and report would be accepted next. */
  ghost predicate Accepts(rules: Rules, c: Contract, p: Progress) {
    exists state, report :: Advance(rules, c, p, state, report).Ok?
  }

  datatype Input = Input(state: State, report: Report)

  /** Feeding inputs one after the other; the first refusal is final. */
  function Run(rules: Rules, c: Contract, p: Progress, inputs: seq<Input>): Result<Progress, ContractError>
    decreases |inputs|
  {
    if inputs == [] then Ok(p)
    else
      match Advance(rules, c, p, inputs[0].state, inputs[0].report)
      case Err(e) => Err(e)
      case Ok(q) => Run(rules, c, q, inputs[1..])
  }

  /** The reports due in the `n` states from position `from` on, in order. */
  function Due(rules: Rules, from: nat, n: nat): (due: seq<Input>)
    requires from + n <= |rules.order|
    ensures |due| == n
    decreases n
  {
    if n == 0 then []
    else [Input(rules.order[from], rules.reports(rules.order[from]))] + Due(rules, from + 1, n - 1)
  }

  /** A contract is begun exactly when it is of the current form, with valid anchors and some state to run. */
  lemma BegunExactly(rules: Rules, c: Contract)
    ensures var r := InitialProgress(rules, c);
      (r.Ok? <==> c.current && rules.validAnchors(c.anchors) && |rules.order| > 0) &&
      (r.Ok? ==> r.value == ProgressAt(rules, c.anchors, 0)) && (r.Err? ==> r.error == ContractMalformed)
  {
  }

  /** One advance is accepted exactly at a position of the order, with the report due there. */
  lemma AdvanceExactly(rules: Rules, c: Contract, p: Progress, state: State, report: Report)
    ensures Advance(rules, c, p, state, report).Ok? <==>
      c.current && rules.validAnchors(c.anchors) && |p.completed| < |rules.order| &&
      p == ProgressAt(rules, c.anchors, |p.completed|) &&
      state == rules.order[|p.completed|] && report == rules.reports(state)
    ensures Advance(rules, c, p, state, report).Ok? ==>
      Advance(rules, c, p, state, report).value == ProgressAt(rules, c.anchors, |p.completed| + 1)
    ensures Advance(rules, c, p, state, report).Err? ==>
      Advance(rules, c, p, state, report).error ==
        if c.current && rules.validAnchors(c.anchors) && |rules.order| > 0 then TransitionInvalid else ContractMalformed
  {
    var done := |p.completed|;
    if done < |rules.order| {
      assert rules.order[..done + 1] == rules.order[..done] + [rules.order[done]];
    }
  }

  /** From a position, an accepted run consists of the inputs due there, and leads on by their number. */
  lemma {:induction false} RunIsDue(rules: Rules, c: Contract, k: nat, inputs: seq<Input>)
    requires Sound(rules, c) && k <= |rules.order|
    requires Run(rules, c, ProgressAt(rules, c.anchors, k), inputs).Ok?
    ensures k + |inputs| <= |rules.order| && inputs == Due(rules, k, |inputs|)
    ensures Run(rules, c, ProgressAt(rules, c.anchors, k), inputs).value ==
            ProgressAt(rules, c.anchors, k + |inputs|)
    decreases |inputs|
  {
    if inputs != [] {
      AdvanceExactly(rules, c, ProgressAt(rules, c.anchors, k), inputs[0].state, inputs[0].report);
      RunIsDue(rules, c, k + 1, inputs[1..]);
    }
  }

  /** And the inputs due there are accepted. */
  lemma {:induction false} DueRuns(rules: Rules, c: Contract, k: nat, n: nat)
    requires Sound(rules, c) && k + n <= |rules.order|
    ensures Run(rules, c, ProgressAt(rules, c.anchors, k), Due(rules, k, n)) ==
            Ok(ProgressAt(rules, c.anchors, k + n))
    decreases n
  {
    if n > 0 {
      hide Advance, Sound;
      var due := Due(rules, k, n);
      AdvanceExactly(rules, c, ProgressAt(rules, c.anchors, k), due[0].state, due[0].report);
      assert due[1..] == Due(rules, k + 1, n - 1);
      DueRuns(rules, c, k + 1, n - 1);
    }
  }

  /** Reached from the initial progress of the same contract by fewer accepted inputs than there are states. */
  ghost predicate Reachable(rules: Rules, c: Contract, p: Progress) {
    InitialProgress(rules, c).Ok? &&
    exists inputs :: |inputs| < |rules.order| && Run(rules, c, InitialProgress(rules, c).value, inputs) == Ok(p)
  }

  /** Progress is accepted for some next input if and only if it is reachable progress. */
  lemma AcceptedIsReachable(rules: Rules, c: Contract, p: Progress)
    ensures Accepts(rules, c, p) <==> Reachable(rules, c, p)
  {
    hide Advance, Run;
    if Accepts(rules, c, p) {
      var state, report :| Advance(rules, c, p, state, report).Ok?;
      AdvanceExactly(rules, c, p, state, report);
      var k := |p.completed|;
      DueRuns(rules, c, 0, k);
      assert InitialProgress(rules, c).value == ProgressAt(rules, c.anchors, 0);
    }
    if Reachable(rules, c, p) {
      var inputs :| |inputs| < |rules.order| && Run(rules, c, InitialProgress(rules, c).value, inputs) == Ok(p);
      assert InitialProgress(rules, c).value == ProgressAt(rules, c.anchors, 0);
      RunIsDue(rules, c, 0, inputs);
      var state := rules.order[|inputs|];
      AdvanceExactly(rules, c, p, state, rules.reports(state));
    }
  }

  /**
   Progress accepted by one package is accepted by another if and only if that one is sound too and the two
   have the same resume token at this very position; so, unless their digests collide there, never when
   their anchors differ.
   */
  lemma PackagesDoNotMix(rules: Rules, c: Contract, d: Contract, p: Progress)
    requires Accepts(rules, c, p)
    ensures Accepts(rules, d, p) <==>
      Sound(rules, d) && rules.token(d.anchors, |p.completed|) == rules.token(c.anchors, |p.completed|)
  {
    var s, r :| Advance(rules, c, p, s, r).Ok?;
    AdvanceExactly(rules, c, p, s, r);
    AdvanceExactly(rules, d, p, s, r);
    if Accepts(rules, d, p) {
      var t, q :| Advance(rules, d, p, t, q).Ok?;
      AdvanceExactly(rules, d, p, t, q);
    }
  }

  // ---- Reconciliation evidence ----

  const RECONCILIATION_ROLES: seq<Role> := [
    AiDisabledCandidate, BudgetEnabled, BudgetRecovery, ProviderEnabled, ProviderRecovery, AiEnabled]

  predicate ContractRole(role: Role) {
    role in RECONCILIATION_ROLES || role == EmergencyDisabled
  }

  /** `prohibited` finds key material or prohibited words in the serialised evidence. */
  predicate ValidEvidence(prohibited: Evidence -> bool, e: Evidence) {
    !prohibited(e) && e.applicationReads <= 25 && e.revisionReads <= 25 &&
    0 <= e.elapsedMilliseconds <= 120000 && ContractRole(e.role) && e.acknowledgement == Accepted &&
    RevisionName(e.predecessorRevision) && RevisionName(e.targetRevision) &&
    e.predecessorRevision != e.targetRevision && ImageDigest(e.targetImageDigest)
  }

  function Roles(es: seq<Evidence>): seq<Role> {
    seq(|es|, i requires 0 <= i < |es| => es[i].role)
  }

  /** The list a receipt may carry: healthy evidence of a prefix of the roles, or of all of them. */
  predicate ValidReconciliations(prohibited: Evidence -> bool, es: seq<Evidence>, complete: bool) {
    (forall i | 0 <= i < |es| :: ValidEvidence(prohibited, es[i])) &&
    Roles(es) == (if complete || |es| > |RECONCILIATION_ROLES| then RECONCILIATION_ROLES
                  else RECONCILIATION_ROLES[..|es|]) &&
    forall i | 0 <= i < |es| :: es[i].finalState == HealthyTarget
  }

  /** Evidence in form: of a known role, accepted, between two named revisions, within the bounds of one polling. */
  predicate InForm(prohibited: Evidence -> bool, e: Evidence) {
    !prohibited(e) && e.acknowledgement == Accepted && 0 <= e.elapsedMilliseconds <= 120000 &&
    e.applicationReads <= 25 && e.revisionReads <= 25 && ImageDigest(e.targetImageDigest) &&
    RevisionName(e.predecessorRevision) && RevisionName(e.targetRevision) &&
    e.targetRevision != e.predecessorRevision &&
    e.role in [EmergencyDisabled, AiDisabledCandidate, BudgetEnabled, BudgetRecovery, ProviderEnabled,
               ProviderRecovery, AiEnabled]
  }

  /** A list of evidence is one a receipt takes exactly when it is healthy evidence in form, role after role. */
  lemma ReceiptListExactly(prohibited: Evidence -> bool, es: seq<Evidence>, complete: bool)
    ensures ValidReconciliations(prohibited, es, complete) <==>
      |es| <= 6 && (complete ==> |es| == 6) &&
      forall i | 0 <= i < |es| ::
        InForm(prohibited, es[i]) && es[i].finalState == HealthyTarget &&
        es[i].role == [AiDisabledCandidate, BudgetEnabled, BudgetRecovery, ProviderEnabled, ProviderRecovery,
                       AiEnabled][i]
  {
    hide ImageDigest, RevisionName;
    assert forall e: Evidence :: ValidEvidence(prohibited, e) <==> InForm(prohibited, e);
    assert |Roles(es)| == |es| && forall i | 0 <= i < |es| :: Roles(es)[i] == es[i].role;
    if |es| <= 6 && (complete ==> |es| == 6) {
      var due := if complete then RECONCILIATION_ROLES else RECONCILIATION_ROLES[..|es|];
      assert Roles(es) == due <==> forall i | 0 <= i < |es| :: es[i].role == RECONCILIATION_ROLES[i];
    }
  }

  // ---- The receipt of a failed attempt ----

  datatype RecoveryRecord = RecoveryRecord(
    disabledConfirmed: bool, placeholderOverwritten: bool, reconciliation: Evidence)

  datatype FailedAttempt = FailedAttempt(
    packageSha256: string, failureCode: string, completed: seq<State>,
    reconciliations: seq<Evidence>, recovery: Option<RecoveryRecord>)

  predicate FailureCodeChar(c: char) {
    LowerAlnum(c) || c == '_'
  }

  /** `ai_enablement_[a-z0-9_]{3,96}` */
  predicate FailureCode(s: string) {
    17 <= |s| <= 110 && s[..14] == "ai_enablement_" && All(s[14..], FailureCodeChar)
  }

  predicate ValidRecovery(prohibited: Evidence -> bool, r: RecoveryRecord) {
    r.disabledConfirmed && r.placeholderOverwritten && ValidEvidence(prohibited, r.reconciliation) &&
    r.reconciliation.role == EmergencyDisabled && r.reconciliation.finalState == HealthyTarget
  }

  /** What `sanitize_failed_receipt` takes. */
  predicate ValidFailedAttempt(prohibited: Evidence -> bool, a: FailedAttempt) {
    Sha256Text(a.packageSha256) && FailureCode(a.failureCode) && a.completed <= STATE_ORDER &&
    ValidReconciliations(prohibited, a.reconciliations, false) &&
    (a.recovery.Some? ==> ValidRecovery(prohibited, a.recovery.value))
  }

  /** What a failed attempt must be for a receipt of it, part by part. */
  lemma FailedAttemptExactly(prohibited: Evidence -> bool, a: FailedAttempt)
    ensures ValidFailedAttempt(prohibited, a) <==>
      Sha256Text(a.packageSha256) &&
      |a.failureCode| >= 17 && |a.failureCode| <= 110 && a.failureCode[..14] == "ai_enablement_" &&
      (forall i | 14 <= i < |a.failureCode| :: LowerAlnum(a.failureCode[i]) || a.failureCode[i] == '_') &&
      (|a.completed| <= 14 && forall i | 0 <= i < |a.completed| :: a.completed[i] == STATE_ORDER[i]) &&
      ValidReconciliations(prohibited, a.reconciliations, false) &&
      (a.recovery.Some? ==>
        var r := a.recovery.value;
        r.disabledConfirmed && r.placeholderOverwritten && InForm(prohibited, r.reconciliation) &&
        r.reconciliation.role == EmergencyDisabled && r.reconciliation.finalState == HealthyTarget)
  {
    hide ImageDigest, RevisionName, Sha256Text, ValidReconciliations;
    if |a.failureCode| >= 14 {
      assert forall i | 0 <= i < |a.failureCode| - 14 :: a.failureCode[14..][i] == a.failureCode[i + 14];
      assert forall i | 14 <= i < |a.failureCode| :: a.failureCode[i] == a.failureCode[14..][i - 14];
    }
  }
}
