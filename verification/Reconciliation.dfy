/**
 Bounded reconciliation of one acknowledged PATCH
 (bizpulse/scripts/azure_ai_reconciliation.py): the polling loop, and the trace scan it refines.
 */
module Reconciliation {
  import opened Wrappers
  import opened Clock
  import opened Patterns
  import opened Json
  import opened Revision

  // ---- Data ----

  datatype Role =
    | AiDisabledCandidate | AdminAiCompatibleCandidate | BudgetEnabled | BudgetRecovery
    | ProviderEnabled | ProviderRecovery | AiEnabled | EmergencyDisabled
    | UnlistedRole(text: string)

  datatype Acknowledgement = Accepted | OtherAnswer

  datatype Configuration = Configuration(activeRevisionsMode: string, ingress: Json, registries: Json)

  datatype Pending = Pending(
    role: Role, acknowledgement: Acknowledgement, startedAt: Reading,
    predecessorRevision: string, targetRevision: string,
    predecessor: Projection, target: Projection, targetImage: string,
    configuration: Configuration)

  datatype AppProvisioning =
    | Succeeded | InProgress | Provisioning | Updating | AppFailed | AppUnhealthy
    | OtherProvisioning(text: string)

  datatype AppView = AppView(
    configuration: Configuration, projection: Projection,
    latest: string, ready: string, provisioning: AppProvisioning)

  /** One application read; the reader may also raise the reconciler's own exception. */
  datatype AppReply = AppSeen(view: AppView) | AppUnreadable | AppForwards

  datatype Health = Healthy | Unhealthy | OtherHealth(report: Option<string>)
  datatype RowProvisioning = Provisioned | RowFailed | OtherRow(report: Option<string>)

  datatype RevisionRow = RevisionRow(
    name: string, active: bool, health: Health, provisioning: RowProvisioning)

  datatype RevisionsReply = RevisionsSeen(rows: seq<RevisionRow>) | RevisionsUnreadable

  /** Everything the outside world answers during one polling cycle, were it asked. */
  datatype Cycle = Cycle(
    before: Reading, application: AppReply, revisions: RevisionsReply,
    after: Reading, sleeps: bool, closing: Reading)

  datatype FinalState = HealthyTarget | Drift | Failed | ReadFailed | Timeout

  datatype Evidence = Evidence(
    role: Role, acknowledgement: Acknowledgement,
    predecessorRevision: string, targetRevision: string, targetImageDigest: string,
    finalState: FinalState, applicationReads: nat, revisionReads: nat, elapsedMilliseconds: int)

  /** `Stopped` raises the code of its final state; `Forwarded` re-raises the reader's exception. */
  datatype Outcome = Confirmed(evidence: Evidence) | Stopped(evidence: Evidence) | ContractInvalid | Forwarded

  const MAX_MILLISECONDS := 120000
  const MAX_READS := 25
  const POLL_SECONDS := 5

  // ---- The contract of a pending transition ----

  predicate AllowedRole(role: Role) {
    !role.UnlistedRole?
  }

  predicate ValidConfiguration(c: Configuration) {
    c.activeRevisionsMode == "Single" && c.ingress.Object? && c.registries.Array?
  }

  predicate ValidPending(p: Pending) {
    AllowedRole(p.role) && p.acknowledgement == Accepted &&
    p.startedAt.Seconds? && p.startedAt.at >= 0.0 &&
    RevisionName(p.predecessorRevision) && RevisionName(p.targetRevision) &&
    p.targetRevision != p.predecessorRevision && ImageReference(p.targetImage) &&
    p.predecessor.location != "" && p.target.location != "" &&
    ValidConfiguration(p.configuration) &&
    |p.target.template.containers| == 1 && p.target.template.containers[0].image == p.targetImage
  }

  // ---- One cycle ----

  function Elapsed(p: Pending, r: Reading): (ms: Option<int>)
    requires p.startedAt.Seconds?
    ensures ms.Some? <==> r.Seconds? && p.startedAt.at <= r.at
    ensures ms.Some? ==>
      0 <= ms.value && ms.value as real <= (r.at - p.startedAt.at) * 1000.0 < ms.value as real + 1.0
  {
    if r.Unusable? || r.at < p.startedAt.at then None
    else Some(((r.at - p.startedAt.at) * 1000.0).Floor)
  }

  predicate Allowed(p: Pending, revision: string) {
    revision == p.predecessorRevision || revision == p.targetRevision
  }

  predicate Announces(p: Pending, v: AppView) {
    v.latest == p.targetRevision || v.ready == p.targetRevision
  }

  predicate AtPredecessor(p: Pending, v: AppView) {
    v.configuration == p.configuration && v.projection == p.predecessor
  }

  predicate AtTarget(p: Pending, v: AppView) {
    v.configuration == p.configuration && v.projection != p.predecessor && v.projection == p.target
  }

  predicate Drifts(p: Pending, v: AppView) {
    !(AtPredecessor(p, v) || AtTarget(p, v)) ||
    !Allowed(p, v.latest) || !Allowed(p, v.ready) ||
    v.provisioning.OtherProvisioning? ||
    (AtPredecessor(p, v) && Announces(p, v))
  }

  function FirstNamed(rows: seq<RevisionRow>, name: string): Option<RevisionRow> {
    if rows == [] then None
    else if rows[0].name == name then Some(rows[0])
    else FirstNamed(rows[1..], name)
  }

  datatype Finding = Waiting | Found(state: FinalState) | Foreign

  predicate Broken(v: AppView) {
    v.provisioning == AppFailed || v.provisioning == AppUnhealthy
  }

  /** Whether the cycle goes on to list revisions. */
  predicate ListsRevisions(p: Pending, c: Cycle) {
    c.application.AppSeen? && !Broken(c.application.view) &&
    !Drifts(p, c.application.view) && Announces(p, c.application.view)
  }

  function LookAtRevisions(p: Pending, v: AppView, reply: RevisionsReply): Finding {
    if reply.RevisionsUnreadable? || exists i | 0 <= i < |reply.rows| :: !RevisionName(reply.rows[i].name)
    then Found(ReadFailed)
    else if exists i | 0 <= i < |reply.rows| :: !Allowed(p, reply.rows[i].name) && reply.rows[i].active
    then Found(Drift)
    else
      match FirstNamed(reply.rows, p.targetRevision)
      case None => Waiting
      case Some(row) =>
        if row.health == Unhealthy || row.provisioning == RowFailed then Found(Failed)
        else if AtTarget(p, v) && v.latest == p.targetRevision && v.ready == p.targetRevision &&
                v.provisioning == Succeeded && row.active && row.health == Healthy &&
                row.provisioning == Provisioned
        then Found(HealthyTarget)
        else Waiting
  }

  /** What one cycle observes, under the priority of the source's checks. */
  function Look(p: Pending, c: Cycle): Finding {
    match c.application
    case AppForwards => Foreign
    case AppUnreadable => Found(ReadFailed)
    case AppSeen(v) =>
      if Broken(v) then Found(Failed)
      else if Drifts(p, v) then Found(Drift)
      else if Announces(p, v) then LookAtRevisions(p, v, c.revisions)
      else Waiting
  }

  function Close(p: Pending, state: FinalState, apps: nat, revisions: nat, closing: Reading): Outcome
    requires p.startedAt.Seconds?
  {
    match Elapsed(p, closing)
    case None => ContractInvalid
    case Some(ms) =>
      var e := Evidence(
        p.role, p.acknowledgement, p.predecessorRevision, p.targetRevision,
        AfterLast(p.targetImage, "@"), state, apps, revisions,
        if ms <= MAX_MILLISECONDS then ms else MAX_MILLISECONDS);
      if state == HealthyTarget then Confirmed(e) else Stopped(e)
  }

  // ---- The trace scan ----

  /** A cycle that ends in another poll: begun in time, nothing found, time left, sleep done. */
  predicate Quiet(p: Pending, c: Cycle)
    requires p.startedAt.Seconds?
  {
    Elapsed(p, c.before).Some? && Elapsed(p, c.before).value <= MAX_MILLISECONDS &&
    Look(p, c) == Waiting &&
    Elapsed(p, c.after).Some? && Elapsed(p, c.after).value < MAX_MILLISECONDS &&
    c.sleeps
  }

  function RevisionReads(p: Pending, run: nat -> Cycle, n: nat): (count: nat)
    ensures count <= n
  {
    if n == 0 then 0
    else RevisionReads(p, run, n - 1) + Listed(p, run(n - 1))
  }

  function Listed(p: Pending, c: Cycle): (count: nat)
    ensures count <= 1
  {
    if ListsRevisions(p, c) then 1 else 0
  }

  /** The verdict of the `n`th cycle, given the revision lists read before it. */
  function CycleVerdict(p: Pending, c: Cycle, n: nat, listed: nat): Outcome
    requires p.startedAt.Seconds?
  {
    var started := Elapsed(p, c.before);
    if started.None? then ContractInvalid
    else if started.value > MAX_MILLISECONDS then Close(p, Timeout, n, listed, c.closing)
    else
      var total := listed + Listed(p, c);
      match Look(p, c)
      case Foreign => Forwarded
      case Found(state) => Close(p, state, n + 1, total, c.closing)
      case Waiting =>
        var ended := Elapsed(p, c.after);
        if ended.None? then ContractInvalid
        else if n == MAX_READS - 1 || ended.value >= MAX_MILLISECONDS
        then Close(p, Timeout, n + 1, total, c.closing)
        else Close(p, ReadFailed, n + 1, total, c.closing)
  }

  /** The verdict given by cycle `n` when every earlier cycle was quiet and this one is not. */
  function VerdictAt(p: Pending, run: nat -> Cycle, n: nat): Outcome
    requires p.startedAt.Seconds?
  {
    CycleVerdict(p, run(n), n, RevisionReads(p, run, n))
  }

  /** `n` is the first cycle that is not quiet or, failing that, the last one allowed. */
  ghost predicate Decides(p: Pending, run: nat -> Cycle, n: nat)
    requires p.startedAt.Seconds?
  {
    n < MAX_READS && (forall m | 0 <= m < n :: Quiet(p, run(m))) &&
    (n == MAX_READS - 1 || !Quiet(p, run(n)))
  }

  lemma SomeCycleDecides(p: Pending, run: nat -> Cycle, from: nat) returns (n: nat)
    requires p.startedAt.Seconds? && from < MAX_READS
    requires forall m | 0 <= m < from :: Quiet(p, run(m))
    ensures Decides(p, run, n)
    decreases MAX_READS - from
  {
    if from == MAX_READS - 1 || !Quiet(p, run(from)) { n := from; }
    else { n := SomeCycleDecides(p, run, from + 1); }
  }

  ghost function DecidingCycle(p: Pending, run: nat -> Cycle): (n: nat)
    requires p.startedAt.Seconds?
    ensures Decides(p, run, n)
    ensures forall m :: Decides(p, run, m) ==> m == n
  {
    assert exists n :: Decides(p, run, n) by { var n := SomeCycleDecides(p, run, 0); }
    var n :| Decides(p, run, n);
    n
  }

  ghost function Verdict(p: Pending, run: nat -> Cycle): Outcome {
    if !ValidPending(p) then ContractInvalid else VerdictAt(p, run, DecidingCycle(p, run))
  }

  // ---- The loop ----

  /** The two reads of one cycle; the revision list is read only once the target is announced. */
  method Observe(pending: Pending, now: Cycle) returns (finding: Finding, listed: nat)
    ensures finding == Look(pending, now) && listed == Listed(pending, now)
  {
    listed := 0;
    if now.application.AppForwards? { return Foreign, 0; }
    if now.application.AppUnreadable? { return Found(ReadFailed), 0; }
    var view := now.application.view;
    if Broken(view) { return Found(Failed), 0; }
    if Drifts(pending, view) { return Found(Drift), 0; }
    finding := Waiting;
    if Announces(pending, view) {
      listed := 1;
      finding := LookAtRevisions(pending, view, now.revisions);
    }
  }

  /** The body of the polling loop: either a verdict, or one more sleep done. */
  method RunCycle(pending: Pending, now: Cycle, cycle: nat, apps: nat, revisions: nat)
    returns (end: Option<Outcome>, applicationReads: nat, revisionReads: nat, slept: nat)
    requires pending.startedAt.Seconds? && cycle < MAX_READS && apps == cycle && revisions <= cycle
    ensures end.None? <==> cycle < MAX_READS - 1 && Quiet(pending, now)
    ensures end.Some? ==> end.value == CycleVerdict(pending, now, cycle, revisions)
    ensures apps <= applicationReads <= apps + 1 && revisionReads <= applicationReads
    ensures slept <= 1 && (slept == 1 ==> cycle < MAX_READS - 1)
    ensures end.None? ==>
      slept == 1 && applicationReads == apps + 1 && revisionReads == revisions + Listed(pending, now)
  {
    hide Listed, LookAtRevisions, Drifts, AfterLast;
    end, applicationReads, revisionReads, slept := None, apps, revisions, 0;
    var started := Elapsed(pending, now.before);
    if started.None? { end := Some(ContractInvalid); return; }
    if started.value > MAX_MILLISECONDS {
      end := Some(Close(pending, Timeout, applicationReads, revisionReads, now.closing));
      return;
    }
    applicationReads := applicationReads + 1;
    var finding, listed := Observe(pending, now);
    revisionReads := revisionReads + listed;
    if finding.Foreign? { end := Some(Forwarded); return; }
    if finding.Found? {
      end := Some(Close(pending, finding.state, applicationReads, revisionReads, now.closing));
      return;
    }
    var elapsed := Elapsed(pending, now.after);
    if elapsed.None? { end := Some(ContractInvalid); return; }
    if cycle == MAX_READS - 1 || elapsed.value >= MAX_MILLISECONDS || revisionReads >= MAX_READS {
      end := Some(Close(pending, Timeout, applicationReads, revisionReads, now.closing));
      return;
    }
    slept := 1;
    if !now.sleeps {
      end := Some(Close(pending, ReadFailed, applicationReads, revisionReads, now.closing));
    }
  }

  /**
   Polls as the source does. The last statement of the source, which raises
   "unreachable", has no counterpart: the loop provably returns from inside.
   */
  method Poll(pending: Pending, run: nat -> Cycle)
    returns (outcome: Outcome, applicationReads: nat, revisionReads: nat, sleeps: nat)
    requires pending.startedAt.Seconds?
    ensures outcome == VerdictAt(pending, run, DecidingCycle(pending, run))
    ensures revisionReads <= applicationReads <= MAX_READS
    ensures DecidingCycle(pending, run) <= sleeps <= MAX_READS - 1
  {
    hide Quiet, CycleVerdict, Listed;
    applicationReads, revisionReads, sleeps := 0, 0, 0;
    var cycle := 0;
    while true
      invariant cycle < MAX_READS && cycle == applicationReads == sleeps
      invariant forall m | 0 <= m < cycle :: Quiet(pending, run(m))
      invariant revisionReads == RevisionReads(pending, run, cycle)
      decreases MAX_READS - cycle
    {
      var end, slept;
      end, applicationReads, revisionReads, slept :=
        RunCycle(pending, run(cycle), cycle, applicationReads, revisionReads);
      sleeps := sleeps + slept;
      if end.Some? {
        assert Decides(pending, run, cycle);
        outcome := end.value;
        return;
      }
      cycle := cycle + 1;
    }
  }

  method Reconcile(pending: Pending, run: nat -> Cycle)
    returns (outcome: Outcome, applicationReads: nat, revisionReads: nat, sleeps: nat)
    ensures outcome == Verdict(pending, run)
    ensures revisionReads <= applicationReads <= MAX_READS
    ensures sleeps * POLL_SECONDS <= 120
  {
    if !ValidPending(pending) { return ContractInvalid, 0, 0, 0; }
    outcome, applicationReads, revisionReads, sleeps := Poll(pending, run);
  }
}
