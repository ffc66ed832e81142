/**
 The operator credential as a whole: the hash the database stores, and the two pairs of the keychain. One of
 the pairs should always verify the stored hash. Shown here is what keeps it so and what loses it, and that
 the runner of a rotation (bizpulse/scripts/run_operator_rotation.py) never does lose it.
 */
module CredentialRotation {
  import opened Wrappers
  import opened Patterns
  import opened Keychain
  import opened RotationAuthority

  // ---- The credential ----

  datatype World = World(store: Store, stored: Bytes)

  /** A pair that verifies, of this very hash. */
  predicate Holds(verify: Verifier, pair: Option<Pair>, hash: Bytes) {
    Verifies(verify, pair) && pair.value.1 == hash
  }

  /** Somewhere in the keychain stands a password for this hash. */
  predicate Known(verify: Verifier, s: Store, hash: Bytes) {
    Holds(verify, Current(s), hash) || Holds(verify, Pending(s), hash)
  }

  predicate Intact(verify: Verifier, w: World) {
    Known(verify, w.store, w.stored)
  }

  // ---- The runner ----

  /** A job that never ran, that ran without its result being read, or that ran and reported. */
  datatype JobRun = NeverRan | RanUnheard | RanHeard

  /** What one run of the runner meets. */
  datatype Meeting = Meeting(
    readsCurrent: bool, readsPending: bool, app: App, healthy: bool, stages: bool, job: JobRun,
    activates: bool, cleans: bool, promotion: Schedule)

  datatype RunOutcome =
    | Completed | PackageInvalid | ApprovalInvalid | KeychainUnavailable | PreflightRefused | ApplyFailed
    | OutcomeUnknown | ManualInterventionRequired | CleanupFailed | PromotionFailed

  /** The worlds passed through, the given one first. */
  datatype RotationRun = RotationRun(worlds: seq<World>, outcome: RunOutcome) {
    function Last(): World
      requires worlds != []
    {
      worlds[|worlds| - 1]
    }
  }

  predicate IsInverse(a: Authority) {
    a.payload.operation == INVERSE
  }

  predicate Readable(sx: Syntax, a: Authority) {
    (Bound(sx, a, ROTATION) || Bound(sx, a, INVERSE)) && a.payload.delivery == CONTRACT
  }

  /** A forward package must be what would be built afresh; an inverse must pass its preflight. */
  predicate Preflight(sx: Syntax, a: Authority, current: Pair, pending: Pair, m: Meeting) {
    var p := a.payload;
    if IsInverse(a) then
      RefusesInverse(sx, a, current, pending, None) == None &&
      RefusesInverse(sx, a, current, pending, Some(m.app)) == None
    else
      BuildForward(sx, current, pending, p.target.subscriptionId, p.target.resourceGroup, p.target.app, p.source,
                   p.parameters, m.app, m.healthy) == Ok(a)
  }

  /** `run_operator_rotation`. */
  function Rotate(sx: Syntax, a: Authority, approved: string, w: World, m: Meeting): (r: RotationRun)
    ensures r.worlds != [] && r.worlds[0] == w
  {
    if !Readable(sx, a) then RotationRun([w], PackageInvalid)
    else if !Sha256Text(approved) || approved != a.rotationId then RotationRun([w], ApprovalInvalid)
    else
      match LoadPair(sx.verify, Current(w.store), m.readsCurrent, CurrentMissing, CurrentInvalid)
      case Err(_) => RotationRun([w], KeychainUnavailable)
      case Ok(current) =>
        match LoadPair(sx.verify, Pending(w.store), m.readsPending, PendingMissing, PendingInvalid)
        case Err(_) => RotationRun([w], KeychainUnavailable)
        case Ok(pending) =>
          if !Preflight(sx, a, current, pending, m) then RotationRun([w], PreflightRefused)
          else if !m.stages then RotationRun([w], ApplyFailed)
          else RunJob(sx, a, w, if IsInverse(a) then current else pending, m)
  }

  /** From the job on: run it, activate and verify the application, clean up, promote. */
  function RunJob(sx: Syntax, a: Authority, w: World, target: Pair, m: Meeting): (r: RotationRun)
    ensures r.worlds != [] && r.worlds[0] == w
  {
    if m.job == NeverRan then RotationRun([w], OutcomeUnknown)
    else
      var (stored, status) := RotateStored(sx, w.stored, a.payload.expected.oldHash, target.1);
      var after := World(w.store, stored);
      if m.job == RanUnheard || status == ExpectedHashMismatch then RotationRun([w, after], OutcomeUnknown)
      else if !m.activates then RotationRun([w, after], ManualInterventionRequired)
      else if !m.cleans then RotationRun([w, after], CleanupFailed)
      else if IsInverse(a) then RotationRun([w, after], Completed)
      else
        var promoted := Promote(sx.verify, w.store, true, m.promotion);
        RotationRun([w] + Among(promoted.stores, stored),
                    if promoted.outcome == Done then Completed else PromotionFailed)
  }

  /** These stores, each beside the same stored hash. */
  function Among(stores: seq<Store>, stored: Bytes): (ws: seq<World>)
    ensures |ws| == |stores| && forall i | 0 <= i < |ws| :: ws[i] == World(stores[i], stored)
  {
    seq(|stores|, i requires 0 <= i < |stores| => World(stores[i], stored))
  }

  /**
   Whatever package is run, however often, and whatever fails: at every moment of the run, between any two
   writes, a pair of the keychain verifies the stored hash, if one did at the start.
   */
  lemma RotationNeverLoses(sx: Syntax, a: Authority, approved: string, w: World, m: Meeting, i: nat)
    requires Intact(sx.verify, w) && i < |Rotate(sx, a, approved, w, m).worlds|
    ensures Intact(sx.verify, Rotate(sx, a, approved, w, m).worlds[i])
  {
    hide Promote, Readable, Preflight, RunJob, Intact, Sha256Text;
    if Rotate(sx, a, approved, w, m).outcome !in
        {PackageInvalid, ApprovalInvalid, KeychainUnavailable, PreflightRefused, ApplyFailed} {
      JobNeverLoses(sx, a, w, m, i);
    } else {
      OnlyStart(sx, a, approved, w, m);
    }
  }

  lemma OnlyStart(sx: Syntax, a: Authority, approved: string, w: World, m: Meeting)
    ensures Rotate(sx, a, approved, w, m).outcome in
              {PackageInvalid, ApprovalInvalid, KeychainUnavailable, PreflightRefused, ApplyFailed} ==>
            Rotate(sx, a, approved, w, m).worlds == [w]
  {
    hide Promote, Readable, Preflight, Sha256Text;
  }

  lemma JobNeverLoses(sx: Syntax, a: Authority, w: World, m: Meeting, i: nat)
    requires Intact(sx.verify, w)
    requires Verifies(sx.verify, Current(w.store)) && Verifies(sx.verify, Pending(w.store))
    ensures var r :=
        RunJob(sx, a, w, if IsInverse(a) then Current(w.store).value else Pending(w.store).value, m);
      i < |r.worlds| ==> Intact(sx.verify, r.worlds[i])
  {
    hide Promote;
    var target := if IsInverse(a) then Current(w.store).value else Pending(w.store).value;
    var r := RunJob(sx, a, w, target, m);
    if !IsInverse(a) && 0 < i < |r.worlds| && i - 1 < |Promote(sx.verify, w.store, true, m.promotion).stores| {
      NewPairAlwaysIntact(sx.verify, w.store, true, m.promotion, i - 1);
    }
  }

  /**
   A completed rotation: the database stores the target's hash, and Current verifies it. A forward one has
   promoted the pair that was pending; an inverse has left the keychain alone.
   */
  lemma CompletedRotation(sx: Syntax, a: Authority, approved: string, w: World, m: Meeting)
    requires Rotate(sx, a, approved, w, m).outcome == Completed
    ensures var end := Rotate(sx, a, approved, w, m).Last();
      Holds(sx.verify, Current(end.store), end.stored) &&
      if IsInverse(a) then end.store == w.store
      else Current(end.store) == Pending(w.store) && PendingPassword !in end.store && PendingHash !in end.store
    ensures w.stored == Rotate(sx, a, approved, w, m).Last().stored ||
      sx.fingerprint(w.stored) == a.payload.expected.oldHash
  {
    hide Promote, Readable, Preflight, Sha256Text;
    OutcomeMeans(sx.verify, w.store, true, m.promotion);
  }

  /** A package of either kind, in form, under its own digest, and approved by that digest. */
  predicate Approved(sx: Syntax, a: Authority, approved: string) {
    var p := a.payload;
    p.schema == SCHEMA && (p.operation == ROTATION || p.operation == INVERSE) && p.delivery == CONTRACT &&
    Sha256Text(a.rotationId) && a.rotationId == sx.digest(p) && approved == a.rotationId
  }

  /**
   Exactly when a run completes: an approved package, two pairs that can be read and verify, a preflight that
   passes, a job that ran, was heard and found the expected or the wanted hash, and every later step working.
   */
  lemma CompletedExactly(sx: Syntax, a: Authority, approved: string, w: World, m: Meeting)
    ensures var r := Rotate(sx, a, approved, w, m); var s := w.store;
      r.outcome == Completed <==>
        Approved(sx, a, approved) &&
        m.readsCurrent && Fits(sx.verify, s, CurrentPassword, CurrentHash) &&
        m.readsPending && Fits(sx.verify, s, PendingPassword, PendingHash) &&
        Preflight(sx, a, (s[CurrentPassword], s[CurrentHash]), (s[PendingPassword], s[PendingHash]), m) &&
        m.stages && m.job == RanHeard &&
        (w.stored == s[if IsInverse(a) then CurrentHash else PendingHash] ||
         sx.fingerprint(w.stored) == a.payload.expected.oldHash) &&
        m.activates && m.cleans &&
        (IsInverse(a) ||
         (m.promotion.readsCurrent && m.promotion.readsPending && Writes(m.promotion) &&
          m.promotion.removePassword == Works && m.promotion.removeHash == Works))
  {
    hide Promote, Preflight, Sha256Text;
    RefusalExactly(sx.verify, w.store, true, m.promotion);
    if Loadable(sx.verify, w.store, true, m.promotion) { OutcomeExactly(sx.verify, w.store, true, m.promotion); }
  }

  /** Nothing is written, in the database or in the keychain, without approval, both pairs and the preflight. */
  lemma UnapprovedTouchesNothing(sx: Syntax, a: Authority, approved: string, w: World, m: Meeting)
    ensures var s := w.store;
      !(Approved(sx, a, approved) &&
        m.readsCurrent && Fits(sx.verify, s, CurrentPassword, CurrentHash) &&
        m.readsPending && Fits(sx.verify, s, PendingPassword, PendingHash) &&
        Preflight(sx, a, (s[CurrentPassword], s[CurrentHash]), (s[PendingPassword], s[PendingHash]), m)) ==>
      Rotate(sx, a, approved, w, m).worlds == [w]
  {
    hide RunJob, Preflight, Sha256Text;
  }

  // ---- What keeps and what loses the credential ----

  /** A keychain operation, a guarded job on its own, or a whole rotation. */
  datatype Step =
    | Keeping(operation: Operation)
    | Installing(expected: string, replacement: Bytes)
    | Rotating(package: Authority, approved: string, meeting: Meeting)

  function Do(sx: Syntax, w: World, step: Step): World {
    match step
    case Keeping(operation) => World(Perform(sx.verify, w.store, operation).Last(), w.stored)
    case Installing(expected, replacement) =>
      World(w.store, RotateStored(sx, w.stored, expected, replacement).0)
    case Rotating(package, approved, meeting) => Rotate(sx, package, approved, w, meeting).Last()
  }

  /** The pair left in Pending by staging under these faults. */
  predicate StagedHolds(verify: Verifier, w: World, password: Bytes, hash: Bytes, f: Fault, g: Fault) {
    if f == Works && g != RaisesUndone then hash == w.stored && verify(hash, password)
    else PendingHash in w.store && w.store[PendingHash] == w.stored && verify(w.stored, password)
  }

  /** The halves left in Current when a promotion could neither write the new pair nor restore the old. */
  function LeftPassword(current: Pair, pending: Pair, f: Schedule): Bytes {
    if f.putPassword != RaisesUndone && f.restorePassword == RaisesUndone then pending.0 else current.0
  }

  function LeftHash(current: Pair, pending: Pair, f: Schedule): Bytes {
    if f.putPassword == Works && f.putHash == RaisesDone &&
       (f.restorePassword != Works || f.restoreHash == RaisesUndone)
    then pending.1 else current.1
  }

  /** The promotion is known to have written both halves, or to have put both back. */
  predicate Writes(f: Schedule) { f.putPassword == Works && f.putHash == Works }

  predicate Restores(f: Schedule) { f.restorePassword == Works && f.restoreHash == Works }

  /** When a step leaves a pair for the stored hash, judged before it is taken. */
  predicate Keeps(sx: Syntax, w: World, step: Step) {
    var verify := sx.verify;
    match step
    case Rotating(_, _, _) => Intact(verify, w)
    case Installing(expected, replacement) =>
      if w.stored != replacement && sx.fingerprint(w.stored) == expected
      then Known(verify, w.store, replacement) else Intact(verify, w)
    case Keeping(Discarding(f, _)) =>
      Holds(verify, Current(w.store), w.stored) ||
      (f == RaisesUndone && Holds(verify, Pending(w.store), w.stored))
    case Keeping(Preparing(password, blank, hash, f, g)) =>
      Holds(verify, Current(w.store), w.stored) ||
      if blank || hash.None? || f == RaisesUndone then Holds(verify, Pending(w.store), w.stored)
      else StagedHolds(verify, w, password, hash.value, f, g)
    case Keeping(Promoting(idValid, f)) =>
      if LoadBoth(verify, w.store, idValid, f).Err? || (!Writes(f) && Restores(f)) then Intact(verify, w)
      else
        var (current, pending) := LoadBoth(verify, w.store, idValid, f).value;
        pending.1 == w.stored ||
        (!Writes(f) && LeftHash(current, pending, f) == w.stored && verify(w.stored, LeftPassword(current, pending, f)))
  }

  lemma DiscardKeepsExactly(sx: Syntax, w: World, f: Fault, g: Fault)
    ensures Intact(sx.verify, Do(sx, w, Keeping(Discarding(f, g)))) <==> Keeps(sx, w, Keeping(Discarding(f, g)))
  {
  }

  lemma PrepareKeepsExactly(
    sx: Syntax, w: World, password: Bytes, blank: bool, hash: Option<Bytes>, f: Fault, g: Fault)
    ensures var step := Keeping(Preparing(password, blank, hash, f, g));
      Intact(sx.verify, Do(sx, w, step)) <==> Keeps(sx, w, step)
  {
  }

  /** What a promotion leaves that could neither write nor restore. */
  lemma LeftOver(verify: Verifier, s: Store, idValid: bool, f: Schedule)
    requires LoadBoth(verify, s, idValid, f).Ok? && !Writes(f) && !Restores(f)
    ensures var (current, pending) := LoadBoth(verify, s, idValid, f).value;
      var t := Promote(verify, s, idValid, f).Last();
      Pending(t) == Some(pending) && Verifies(verify, Some(pending)) &&
      Current(t) == Some((LeftPassword(current, pending, f), LeftHash(current, pending, f)))
  {
  }

  /** What a promotion leaves that has written the new pair, cleared or not. */
  lemma WrittenOver(verify: Verifier, s: Store, idValid: bool, f: Schedule)
    requires LoadBoth(verify, s, idValid, f).Ok? && Writes(f)
    ensures var pending := LoadBoth(verify, s, idValid, f).value.1;
      var t := Promote(verify, s, idValid, f).Last();
      Current(t) == Some(pending) && Verifies(verify, Some(pending)) &&
      (Pending(t) == None || Pending(t) == Some(pending))
  {
  }

  lemma PromoteKeepsExactly(sx: Syntax, w: World, idValid: bool, f: Schedule)
    ensures var step := Keeping(Promoting(idValid, f));
      Intact(sx.verify, Do(sx, w, step)) <==> Keeps(sx, w, step)
  {
    hide Promote, LeftHash, LeftPassword;
    OutcomeMeans(sx.verify, w.store, idValid, f);
    RefusalExactly(sx.verify, w.store, idValid, f);
    if LoadBoth(sx.verify, w.store, idValid, f).Ok? {
      OutcomeExactly(sx.verify, w.store, idValid, f);
      if Writes(f) {
        WrittenOver(sx.verify, w.store, idValid, f);
      } else if !Restores(f) {
        LeftOver(sx.verify, w.store, idValid, f);
      }
    } else {
      NewPairAlwaysIntact(sx.verify, w.store, idValid, f, 0);
    }
  }

  /**
   A step leaves a pair for the stored hash if and only if its condition held before it. A whole rotation
   never loses one.
   */
  lemma KeepsExactly(sx: Syntax, w: World, step: Step)
    ensures Keeps(sx, w, step) ==> Intact(sx.verify, Do(sx, w, step))
    ensures !step.Rotating? && Intact(sx.verify, Do(sx, w, step)) ==> Keeps(sx, w, step)
  {
    match step {
      case Rotating(package, approved, meeting) =>
        var r := Rotate(sx, package, approved, w, meeting);
        if Intact(sx.verify, w) { RotationNeverLoses(sx, package, approved, w, meeting, |r.worlds| - 1); }
      case Installing(_, _) =>
      case Keeping(Discarding(f, g)) => DiscardKeepsExactly(sx, w, f, g);
      case Keeping(Preparing(password, blank, hash, f, g)) =>
        PrepareKeepsExactly(sx, w, password, blank, hash, f, g);
      case Keeping(Promoting(idValid, f)) => PromoteKeepsExactly(sx, w, idValid, f);
    }
  }

  function AfterSteps(sx: Syntax, w: World, steps: seq<Step>): World {
    if steps == [] then w else Do(sx, AfterSteps(sx, w, steps[..|steps| - 1]), steps[|steps| - 1])
  }

  /** After every one of the steps a pair for the stored hash is there. */
  predicate NeverLost(sx: Syntax, w: World, steps: seq<Step>) {
    forall i | 0 <= i <= |steps| :: Intact(sx.verify, AfterSteps(sx, w, steps[..i]))
  }

  /**
   Any interleaving of staging, promoting, discarding, guarded jobs and whole rotations, under any faults,
   never loses the credential if and only if it starts with it and every step that is not a whole rotation
   meets its condition when it is taken.
   */
  lemma InterleavingExactly(sx: Syntax, w: World, steps: seq<Step>)
    ensures NeverLost(sx, w, steps) <==>
      Intact(sx.verify, w) &&
      forall i | 0 <= i < |steps| && !steps[i].Rotating? :: Keeps(sx, AfterSteps(sx, w, steps[..i]), steps[i])
  {
    hide Keeps, Do, Intact, AfterSteps;
    if NeverLost(sx, w, steps) {
      assert Intact(sx.verify, w) by { StepsBegin(sx, w, steps); }
      forall i | 0 <= i < |steps| && !steps[i].Rotating?
        ensures Keeps(sx, AfterSteps(sx, w, steps[..i]), steps[i])
      {
        OneStep(sx, w, steps, i);
      }
    } else if Intact(sx.verify, w) &&
       forall i | 0 <= i < |steps| && !steps[i].Rotating? :: Keeps(sx, AfterSteps(sx, w, steps[..i]), steps[i])
    {
      forall i | 0 <= i <= |steps|
        ensures Intact(sx.verify, AfterSteps(sx, w, steps[..i]))
      {
        StillIntact(sx, w, steps, i);
      }
    }
  }

  lemma StepsBegin(sx: Syntax, w: World, steps: seq<Step>)
    ensures AfterSteps(sx, w, steps[..0]) == w
    ensures NeverLost(sx, w, steps) ==> Intact(sx.verify, w)
  {
    hide Intact, Do;
    assert steps[..0] == [];
    assert NeverLost(sx, w, steps) ==> Intact(sx.verify, AfterSteps(sx, w, steps[..0]));
  }

  lemma OneStep(sx: Syntax, w: World, steps: seq<Step>, i: nat)
    requires i < |steps|
    ensures var before, after := AfterSteps(sx, w, steps[..i]), AfterSteps(sx, w, steps[..i + 1]);
      (Keeps(sx, before, steps[i]) ==> Intact(sx.verify, after)) &&
      (!steps[i].Rotating? && Intact(sx.verify, after) ==> Keeps(sx, before, steps[i]))
  {
    hide Keeps, Do, Intact;
    assert steps[..i + 1][..i] == steps[..i];
    KeepsExactly(sx, AfterSteps(sx, w, steps[..i]), steps[i]);
  }

  lemma {:induction false} StillIntact(sx: Syntax, w: World, steps: seq<Step>, i: nat)
    requires Intact(sx.verify, w) && i <= |steps|
    requires forall j | 0 <= j < |steps| && !steps[j].Rotating? ::
      Keeps(sx, AfterSteps(sx, w, steps[..j]), steps[j])
    ensures Intact(sx.verify, AfterSteps(sx, w, steps[..i]))
  {
    hide Do, Intact, AfterSteps;
    if i == 0 {
      StepsBegin(sx, w, steps);
    } else {
      StillIntact(sx, w, steps, i - 1);
      OneStep(sx, w, steps, i - 1);
    }
  }

  /**
   The trap: once the forward job has installed the pending hash, discarding the pending pair loses the
   credential, exactly when the first removal takes effect; running the inverse job first makes it safe.
   */
  lemma DiscardAfterForwardJob(
    sx: Syntax, forward: Authority, app: App, s: Store, f: Fault, g: Fault)
    requires Keychain.Current(s).Some? && Keychain.Pending(s).Some?
    requires BuildInverse(sx, forward, Keychain.Current(s).value, Keychain.Pending(s).value, app).Ok?
    requires Keychain.Current(s).value.1 != Keychain.Pending(s).value.1
    ensures var current, pending := Keychain.Current(s).value, Keychain.Pending(s).value;
      var inverse := BuildInverse(sx, forward, current, pending, app).value;
      var job := Installing(forward.payload.expected.oldHash, pending.1);
      var back := Installing(inverse.payload.expected.oldHash, current.1);
      var discard := Keeping(Discarding(f, g));
      var w := World(s, current.1);
      Intact(sx.verify, AfterSteps(sx, w, [job])) &&
      (Intact(sx.verify, AfterSteps(sx, w, [job, discard])) <==> f == RaisesUndone) &&
      Intact(sx.verify, AfterSteps(sx, w, [job, back, discard]))
  {
    var current, pending := Keychain.Current(s).value, Keychain.Pending(s).value;
    var inverse := BuildInverse(sx, forward, current, pending, app).value;
    var job := Installing(forward.payload.expected.oldHash, pending.1);
    var back := Installing(inverse.payload.expected.oldHash, current.1);
    var discard := Keeping(Discarding(f, g));
    var w := World(s, current.1);
    hide RefusesForward, InverseAppFine, Do;
    assert [job][..0] == [] && [job, discard][..1] == [job];
    assert [job, back, discard][..2] == [job, back] && [job, back][..1] == [job];
    assert Do(sx, w, job) == World(s, pending.1) by { Installs(sx, w, job); }
    assert Do(sx, World(s, pending.1), back) == w by { Installs(sx, World(s, pending.1), back); }
    KeepsExactly(sx, World(s, pending.1), discard);
    KeepsExactly(sx, w, discard);
  }

  lemma Installs(sx: Syntax, w: World, step: Step)
    requires step.Installing? && sx.fingerprint(w.stored) == step.expected
    ensures Do(sx, w, step) == World(w.store, step.replacement)
  {
  }
}
