/** What the reconciler's verdict proves about the world it polled. */
module ReconciliationLaws {
  import opened Wrappers
  import opened Clock
  import opened Patterns
  import opened Reconciliation

  /** Within one cycle: the wanted configuration and projection, on a revision that is all well. */
  predicate Proven(p: Pending, c: Cycle) {
    c.application.AppSeen? && c.revisions.RevisionsSeen? &&
    var v, rows := c.application.view, c.revisions.rows;
    v.configuration == p.configuration && v.projection == p.target && p.target != p.predecessor &&
    v.latest == p.targetRevision && v.ready == p.targetRevision && v.provisioning == Succeeded &&
    (forall i | 0 <= i < |rows| :: RevisionName(rows[i].name)) &&
    (forall i | 0 <= i < |rows| && rows[i].active ::
       rows[i].name == p.predecessorRevision || rows[i].name == p.targetRevision) &&
    exists i | 0 <= i < |rows| :: FirstRow(rows, i, RevisionRow(p.targetRevision, true, Healthy, Provisioned))
  }

  /** The row stands at `i`, and no earlier row bears its name. */
  predicate FirstRow(rows: seq<RevisionRow>, i: nat, row: RevisionRow) {
    i < |rows| && rows[i] == row && forall j | 0 <= j < i :: rows[j].name != row.name
  }

  lemma {:induction false} FirstNamedIs(rows: seq<RevisionRow>, row: RevisionRow)
    ensures FirstNamed(rows, row.name) == Some(row) <==> exists i | 0 <= i < |rows| :: FirstRow(rows, i, row)
  {
    if rows != [] {
      if rows[0].name == row.name {
        assert rows[0] == row ==> FirstRow(rows, 0, row);
      } else {
        FirstNamedIs(rows[1..], row);
        if i :| 0 <= i < |rows| && FirstRow(rows, i, row) { assert FirstRow(rows[1..], i - 1, row); }
        if i :| 0 <= i < |rows| - 1 && FirstRow(rows[1..], i, row) {
          assert forall j | 0 < j < |rows| :: rows[j] == rows[1..][j - 1];
          assert FirstRow(rows, i + 1, row);
        }
      }
    }
  }

  lemma FirstNamedHasName(rows: seq<RevisionRow>, name: string)
    ensures FirstNamed(rows, name).Some? ==> FirstNamed(rows, name).value.name == name
  {
  }

  lemma LookIsHealthy(p: Pending, c: Cycle)
    requires p.targetRevision != p.predecessorRevision
    ensures Look(p, c) == Found(HealthyTarget) <==> Proven(p, c)
  {
    if c.application.AppSeen? && c.revisions.RevisionsSeen? {
      var rows := c.revisions.rows;
      FirstNamedIs(rows, RevisionRow(p.targetRevision, true, Healthy, Provisioned));
      FirstNamedHasName(rows, p.targetRevision);
    }
  }

  /** Time enough to begin the cycle, and a usable clock when the evidence is drawn up. */
  predicate InTime(p: Pending, c: Cycle)
    requires p.startedAt.Seconds?
  {
    Elapsed(p, c.before).Some? && Elapsed(p, c.before).value <= MAX_MILLISECONDS && Elapsed(p, c.closing).Some?
  }

  predicate ProvenAt(p: Pending, run: nat -> Cycle, n: nat)
    requires p.startedAt.Seconds?
  {
    (forall m | 0 <= m < n :: Quiet(p, run(m))) && InTime(p, run(n)) && Proven(p, run(n))
  }

  /**
   The reconciler confirms a transition if and only if, after some number (under 25) of
   quiet cycles, one cycle begun within 120 seconds proves the target in full.
   */
  lemma ConfirmedExactly(p: Pending, run: nat -> Cycle)
    requires ValidPending(p)
    ensures Verdict(p, run).Confirmed? <==>
      exists n | 0 <= n < MAX_READS :: ProvenAt(p, run, n)
  {
    var n := DecidingCycle(p, run);
    LookIsHealthy(p, run(n));
    if k :| 0 <= k < MAX_READS && ProvenAt(p, run, k) {
      LookIsHealthy(p, run(k));
      assert Decides(p, run, k);
    }
    if Verdict(p, run).Confirmed? { assert ProvenAt(p, run, n); }
  }

  /** A transition whose target equals its predecessor is never confirmed. */
  lemma EqualProjectionsNeverConfirmed(p: Pending, run: nat -> Cycle)
    requires p.predecessor == p.target
    ensures !Verdict(p, run).Confirmed?
  {
    if ValidPending(p) {
      LookIsHealthy(p, run(DecidingCycle(p, run)));
    }
  }

  predicate BoundedEvidence(p: Pending, e: Evidence) {
    e.role == p.role && e.acknowledgement == Accepted &&
    e.predecessorRevision == p.predecessorRevision && e.targetRevision == p.targetRevision &&
    ImageDigest(e.targetImageDigest) && |p.targetImage| >= 71 &&
    e.targetImageDigest == p.targetImage[|p.targetImage| - 71..] &&
    e.revisionReads <= e.applicationReads <= MAX_READS && 0 <= e.elapsedMilliseconds <= MAX_MILLISECONDS
  }

  /** Evidence, of a success or of a failure, is bounded and speaks of this transition only. */
  lemma VerdictEvidence(p: Pending, run: nat -> Cycle)
    ensures var v := Verdict(p, run);
      (v.Confirmed? ==> BoundedEvidence(p, v.evidence) && v.evidence.finalState == HealthyTarget &&
                        v.evidence.revisionReads >= 1) &&
      (v.Stopped? ==> BoundedEvidence(p, v.evidence) && v.evidence.finalState != HealthyTarget)
  {
    hide Look, Close, ListsRevisions, BoundedEvidence, Proven, Quiet, ImageReference, RevisionName;
    if ValidPending(p) {
      var n := DecidingCycle(p, run);
      var c, listed := run(n), RevisionReads(p, run, n);
      HealthyLists(p, c);
      assert Look(p, c) != Found(Timeout) by { LookNeverTimesOut(p, c); }
      forall state, apps: nat, revisions: nat | revisions <= apps <= MAX_READS {
        ClosedEvidence(p, state, apps, revisions, c.closing);
      }
    }
  }

  lemma LookNeverTimesOut(p: Pending, c: Cycle)
    ensures Look(p, c) != Found(Timeout)
  {
  }

  /** A target found healthy has been found in a revision list. */
  lemma HealthyLists(p: Pending, c: Cycle)
    ensures Look(p, c) == Found(HealthyTarget) ==> ListsRevisions(p, c)
  {
    hide LookAtRevisions, Drifts;
  }

  /** Closing with any state draws up bounded evidence of it. */
  lemma ClosedEvidence(p: Pending, state: FinalState, apps: nat, revisions: nat, closing: Reading)
    requires ValidPending(p) && revisions <= apps <= MAX_READS
    ensures var v := Close(p, state, apps, revisions, closing);
      (v.Confirmed? <==> state == HealthyTarget && Elapsed(p, closing).Some?) &&
      (v.Stopped? <==> state != HealthyTarget && Elapsed(p, closing).Some?) && !v.Forwarded? &&
      (v.Confirmed? || v.Stopped? ==>
        BoundedEvidence(p, v.evidence) && v.evidence.finalState == state && v.evidence.revisionReads == revisions)
  {
    hide ImageReference, ImageDigest, AfterLast, RevisionName;
    ImageDigestOf(p.targetImage);
  }

  // ---- Every finding, and every count ----

  /** The service itself calls the application broken. */
  predicate Failing(v: AppView) {
    v.provisioning == AppFailed || v.provisioning == AppUnhealthy
  }

  /**
   A view that fits neither side of the transition: another configuration, another projection, another
   revision, another provisioning state, or the target revision with the projection it was to replace.
   */
  predicate Strays(p: Pending, v: AppView) {
    v.configuration != p.configuration ||
    (v.projection != p.predecessor && v.projection != p.target) ||
    (v.latest != p.predecessorRevision && v.latest != p.targetRevision) ||
    (v.ready != p.predecessorRevision && v.ready != p.targetRevision) ||
    v.provisioning !in [Succeeded, InProgress, Provisioning, Updating] ||
    (v.projection == p.predecessor && (v.latest == p.targetRevision || v.ready == p.targetRevision))
  }

  /** The application is in order, and names the target revision as latest or ready. */
  predicate AtTargetRevision(p: Pending, c: Cycle) {
    c.application.AppSeen? && !Failing(c.application.view) && !Strays(p, c.application.view) &&
    (c.application.view.latest == p.targetRevision || c.application.view.ready == p.targetRevision)
  }

  predicate RevisionsReadable(c: Cycle) {
    c.revisions.RevisionsSeen? &&
    forall i | 0 <= i < |c.revisions.rows| :: RevisionName(c.revisions.rows[i].name)
  }

  predicate StrangerActive(p: Pending, c: Cycle)
    requires c.revisions.RevisionsSeen?
  {
    exists i | 0 <= i < |c.revisions.rows| ::
      c.revisions.rows[i].active && c.revisions.rows[i].name != p.predecessorRevision &&
      c.revisions.rows[i].name != p.targetRevision
  }

  predicate TargetRowBroken(p: Pending, c: Cycle)
    requires c.revisions.RevisionsSeen?
  {
    exists i | 0 <= i < |c.revisions.rows| ::
      FirstRow(c.revisions.rows, i, c.revisions.rows[i]) && c.revisions.rows[i].name == p.targetRevision &&
      (c.revisions.rows[i].health == Unhealthy || c.revisions.rows[i].provisioning == RowFailed)
  }

  /** The checks of one view, on its fields. */
  lemma ViewExactly(p: Pending, c: Cycle)
    ensures c.application.AppSeen? ==> (Broken(c.application.view) <==> Failing(c.application.view))
    ensures c.application.AppSeen? && !Failing(c.application.view) ==>
      (Drifts(p, c.application.view) <==> Strays(p, c.application.view))
    ensures ListsRevisions(p, c) <==> AtTargetRevision(p, c)
  {
  }

  /**
   Every finding, on what was read, in the priority of the checks: a broken application before drift, drift
   before the revision list, an unreadable list before strangers in it, strangers before a broken target row.
   */
  lemma FindingExactly(p: Pending, c: Cycle)
    ensures Look(p, c) == Foreign <==> c.application.AppForwards?
    ensures Look(p, c) == Found(ReadFailed) <==>
      c.application.AppUnreadable? || (AtTargetRevision(p, c) && !RevisionsReadable(c))
    ensures Look(p, c) == Found(Drift) <==>
      (c.application.AppSeen? && !Failing(c.application.view) && Strays(p, c.application.view)) ||
      (AtTargetRevision(p, c) && RevisionsReadable(c) && StrangerActive(p, c))
    ensures Look(p, c) == Found(Failed) <==>
      (c.application.AppSeen? && Failing(c.application.view)) ||
      (AtTargetRevision(p, c) && RevisionsReadable(c) && !StrangerActive(p, c) && TargetRowBroken(p, c))
    ensures Look(p, c) != Found(Timeout)
  {
    hide Drifts, Broken, Announces, AtTarget, Failing, Strays;
    ViewExactly(p, c);
    if c.revisions.RevisionsSeen? {
      var rows := c.revisions.rows;
      FirstNamedHasName(rows, p.targetRevision);
      var first := FirstNamed(rows, p.targetRevision);
      if first.Some? {
        FirstNamedIs(rows, first.value);
        var i :| 0 <= i < |rows| && FirstRow(rows, i, first.value);
        assert FirstRow(rows, i, rows[i]);
      }
      forall i | 0 <= i < |rows| && FirstRow(rows, i, rows[i]) && rows[i].name == p.targetRevision
        ensures first == Some(rows[i])
      {
        FirstNamedIs(rows, rows[i]);
      }
    }
  }

  /** The first `n` cycles that found the target revision announced. */
  function AnnouncingCycles(p: Pending, run: nat -> Cycle, n: nat): set<nat> {
    set k: nat | k < n && AtTargetRevision(p, run(k))
  }

  /** One revision list is counted for each of these cycles. */
  lemma {:induction false} RevisionReadsAre(p: Pending, run: nat -> Cycle, n: nat)
    ensures RevisionReads(p, run, n) == |AnnouncingCycles(p, run, n)|
  {
    hide AtTargetRevision, ListsRevisions;
    if n == 0 {
      assert AnnouncingCycles(p, run, 0) == {};
    } else {
      RevisionReadsAre(p, run, n - 1);
      ViewExactly(p, run(n - 1));
      var before := AnnouncingCycles(p, run, n - 1);
      assert n - 1 !in before;
      assert AnnouncingCycles(p, run, n) == before + if AtTargetRevision(p, run(n - 1)) then {n - 1} else {};
    }
  }

  /** A cycle, the `n`th, that ends the polling with this failure. */
  predicate EndsAs(p: Pending, c: Cycle, n: nat, state: FinalState)
    requires p.startedAt.Seconds?
  {
    Elapsed(p, c.before).Some? && Elapsed(p, c.closing).Some? &&
    var late := Elapsed(p, c.before).value > MAX_MILLISECONDS;
    var waited := !late && Look(p, c) == Waiting && Elapsed(p, c.after).Some?;
    match state
    case HealthyTarget => false
    case Timeout => late || (waited && (n == MAX_READS - 1 || Elapsed(p, c.after).value >= MAX_MILLISECONDS))
    case ReadFailed =>
      (!late && Look(p, c) == Found(ReadFailed)) ||
      (waited && n < MAX_READS - 1 && Elapsed(p, c.after).value < MAX_MILLISECONDS && !c.sleeps)
    case _ => !late && Look(p, c) == Found(state)
  }

  predicate StopsAt(p: Pending, run: nat -> Cycle, n: nat, state: FinalState)
    requires p.startedAt.Seconds?
  {
    (forall m | 0 <= m < n :: Quiet(p, run(m))) && EndsAs(p, run(n), n, state)
  }

  /**
   The reconciler raises a failure if and only if, after some number (under 25) of quiet cycles, one cycle
   ends in it: by what it observed, by running out of time or cycles, or by a sleep that fails.
   */
  lemma StoppedExactly(p: Pending, run: nat -> Cycle, state: FinalState)
    requires ValidPending(p)
    ensures Verdict(p, run).Stopped? && Verdict(p, run).evidence.finalState == state <==>
      exists n | 0 <= n < MAX_READS :: StopsAt(p, run, n, state)
  {
    hide EndsAs, Quiet, CycleVerdict, ImageReference, RevisionName;
    var n := DecidingCycle(p, run);
    CycleEndsAs(p, run(n), n, RevisionReads(p, run, n), state);
    if k :| 0 <= k < MAX_READS && StopsAt(p, run, k, state) {
      CycleEndsAs(p, run(k), k, 0, state);
      assert Decides(p, run, k);
    }
    if Verdict(p, run).Stopped? && Verdict(p, run).evidence.finalState == state {
      assert StopsAt(p, run, n, state);
    }
  }

  lemma CycleEndsAs(p: Pending, c: Cycle, n: nat, listed: nat, state: FinalState)
    requires p.startedAt.Seconds? && n < MAX_READS
    ensures EndsAs(p, c, n, state) ==> n == MAX_READS - 1 || !Quiet(p, c)
    ensures n == MAX_READS - 1 || !Quiet(p, c) ==>
      var v := CycleVerdict(p, c, n, listed);
      (v.Stopped? && v.evidence.finalState == state <==> EndsAs(p, c, n, state))
  {
    hide Look, AfterLast;
    FindingExactly(p, c);
  }

  /** Evidence counts the application reads begun in time and the revision lists read, no more. */
  lemma EvidenceCounts(p: Pending, run: nat -> Cycle)
    requires ValidPending(p)
    ensures var v, n := Verdict(p, run), DecidingCycle(p, run);
      v.Confirmed? || v.Stopped? ==>
        var late := Elapsed(p, run(n).before).Some? && Elapsed(p, run(n).before).value > MAX_MILLISECONDS;
        v.evidence.applicationReads == (if late then n else n + 1) &&
        v.evidence.revisionReads == RevisionReads(p, run, if late then n else n + 1) &&
        (late ==> v.evidence.finalState == Timeout) &&
        Elapsed(p, run(n).closing).Some? && v.evidence.elapsedMilliseconds <= Elapsed(p, run(n).closing).value &&
        (v.evidence.elapsedMilliseconds == Elapsed(p, run(n).closing).value ||
         v.evidence.elapsedMilliseconds == MAX_MILLISECONDS)
  {
    hide Look, AfterLast, ListsRevisions;
  }
}
