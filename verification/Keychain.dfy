/**
 The two-slot operator credential (bizpulse/scripts/operator_rotation_keychain.py): staging a pair,
 promoting it over the current one, and discarding it, under a backend that may fail at any call.
 */
module Keychain {
  import opened Wrappers

  // ---- The backend ----

  datatype Slot = CurrentPassword | CurrentHash | PendingPassword | PendingHash

  type Store = map<Slot, Bytes>

  /** A call that works, or that raises with its effect not done or done. */
  datatype Fault = Works | RaisesUndone | RaisesDone

  function Put(s: Store, slot: Slot, value: Bytes, f: Fault): (Store, bool) {
    (if f == RaisesUndone then s else s[slot := value], f == Works)
  }

  function Remove(s: Store, slot: Slot, f: Fault): (Store, bool) {
    (if f == RaisesUndone then s else s - {slot}, f == Works)
  }

  /** The stores passed through, the given one first, and whether all calls worked. */
  datatype Visit = Visit(stores: seq<Store>, ok: bool) {
    function Last(): Store
      requires stores != []
    {
      stores[|stores| - 1]
    }
  }

  function PutPair(s: Store, a: Slot, b: Slot, pair: (Bytes, Bytes), f: Fault, g: Fault): (v: Visit)
    ensures |v.stores| >= 2 && v.stores[0] == s
  {
    var (s1, ok1) := Put(s, a, pair.0, f);
    if !ok1 then Visit([s, s1], false)
    else
      var (s2, ok2) := Put(s1, b, pair.1, g);
      Visit([s, s1, s2], ok2)
  }

  function RemovePair(s: Store, a: Slot, b: Slot, f: Fault, g: Fault): (v: Visit)
    ensures |v.stores| >= 2 && v.stores[0] == s
  {
    var (s1, ok1) := Remove(s, a, f);
    if !ok1 then Visit([s, s1], false)
    else
      var (s2, ok2) := Remove(s1, b, g);
      Visit([s, s1, s2], ok2)
  }

  // ---- The operations ----

  datatype Outcome =
    | Done | PasswordBlank | NotStaged | RotationIdInvalid | BackendRaised
    | CurrentMissing | CurrentInvalid | PendingMissing | PendingInvalid
    | NotPromoted | RestoreFailed | NotCleared

  /** Whether a hash verifies a password. */
  type Verifier = (Bytes, Bytes) -> bool

  function PairAt(s: Store, a: Slot, b: Slot): Option<(Bytes, Bytes)> {
    if a in s && b in s then Some((s[a], s[b])) else None
  }

  function Current(s: Store): Option<(Bytes, Bytes)> { PairAt(s, CurrentPassword, CurrentHash) }

  function Pending(s: Store): Option<(Bytes, Bytes)> { PairAt(s, PendingPassword, PendingHash) }

  predicate Verifies(verify: Verifier, pair: Option<(Bytes, Bytes)>) {
    pair.Some? && verify(pair.value.1, pair.value.0)
  }

  /** Reading and checking one pair; `readable` is false when the backend raises. */
  function LoadPair(
    verify: Verifier, pair: Option<(Bytes, Bytes)>, readable: bool, missing: Outcome, invalid: Outcome)
    : Result<(Bytes, Bytes), Outcome>
  {
    if !readable then Err(BackendRaised)
    else if pair.None? then Err(missing)
    else if Verifies(verify, pair) then Ok(pair.value)
    else Err(invalid)
  }

  /** How the backend behaves during one promotion. */
  datatype Schedule = Schedule(
    readsCurrent: bool, readsPending: bool,
    putPassword: Fault, putHash: Fault, restorePassword: Fault, restoreHash: Fault,
    removePassword: Fault, removeHash: Fault)

  const FAULT_FREE := Schedule(true, true, Works, Works, Works, Works, Works, Works)

  datatype Run = Run(stores: seq<Store>, outcome: Outcome) {
    function Last(): Store
      requires stores != []
    {
      stores[|stores| - 1]
    }
  }

  function LoadBoth(verify: Verifier, s: Store, idValid: bool, f: Schedule)
    : Result<((Bytes, Bytes), (Bytes, Bytes)), Outcome>
  {
    if !idValid then Err(RotationIdInvalid)
    else
      match LoadPair(verify, Current(s), f.readsCurrent, CurrentMissing, CurrentInvalid)
      case Err(e) => Err(e)
      case Ok(current) =>
        match LoadPair(verify, Pending(s), f.readsPending, PendingMissing, PendingInvalid)
        case Err(e) => Err(e)
        case Ok(pending) => Ok((current, pending))
  }

  /** `promote_pending`: write the pending pair over the current one, or put the current one back. */
  function Promote(verify: Verifier, s: Store, idValid: bool, f: Schedule): (r: Run)
    ensures r.stores != [] && r.stores[0] == s
  {
    match LoadBoth(verify, s, idValid, f)
    case Err(e) => Run([s], e)
    case Ok((current, pending)) =>
      var written := PutPair(s, CurrentPassword, CurrentHash, pending, f.putPassword, f.putHash);
      if written.ok then
        var cleared := RemovePair(written.Last(), PendingPassword, PendingHash, f.removePassword, f.removeHash);
        Run(written.stores + cleared.stores[1..], if cleared.ok then Done else NotCleared)
      else
        var restored :=
          PutPair(written.Last(), CurrentPassword, CurrentHash, current, f.restorePassword, f.restoreHash);
        Run(written.stores + restored.stores[1..], if restored.ok then NotPromoted else RestoreFailed)
  }

  /** `prepare_pending`: `hash` is None when the hasher raises. */
  function Prepare(s: Store, password: Bytes, blank: bool, hash: Option<Bytes>, f: Fault, g: Fault): (r: Run)
    ensures r.stores != [] && r.stores[0] == s
  {
    if blank then Run([s], PasswordBlank)
    else if hash.None? then Run([s], NotStaged)
    else
      var staged := PutPair(s, PendingPassword, PendingHash, (password, hash.value), f, g);
      Run(staged.stores, if staged.ok then Done else NotStaged)
  }

  /** `discard_pending` passes a backend exception on as it is. */
  function Discard(s: Store, f: Fault, g: Fault): (r: Run)
    ensures r.stores != [] && r.stores[0] == s
  {
    var removed := RemovePair(s, PendingPassword, PendingHash, f, g);
    Run(removed.stores, if removed.ok then Done else BackendRaised)
  }

  // ---- One promotion ----

  /** What holds in every store while a pair is written, and in the last. */
  lemma PutPairFacts(s: Store, a: Slot, b: Slot, pair: (Bytes, Bytes), f: Fault, g: Fault, i: nat)
    requires a != b && i < |PutPair(s, a, b, pair, f, g).stores|
    ensures var v := PutPair(s, a, b, pair, f, g); var t := v.stores[i];
      (forall x | x != a && x != b :: (x in t <==> x in s) && (x in t ==> t[x] == s[x])) &&
      (a in s ==> a in t && t[a] in [s[a], pair.0]) && (b in s ==> b in t && t[b] in [s[b], pair.1]) &&
      (v.ok <==> f == Works && g == Works) && (v.ok ==> v.Last() == s[a := pair.0][b := pair.1])
  {
  }

  /** While a pair is removed nothing else changes, and in the end it is gone. */
  lemma RemovePairFacts(s: Store, a: Slot, b: Slot, f: Fault, g: Fault, i: nat)
    requires a != b && i < |RemovePair(s, a, b, f, g).stores|
    ensures var v := RemovePair(s, a, b, f, g); var t := v.stores[i];
      (forall x | x != a && x != b :: (x in t <==> x in s) && (x in t ==> t[x] == s[x])) &&
      (v.ok <==> f == Works && g == Works) && (v.ok ==> v.Last() == s - {a, b})
  {
  }

  /** The three writes of a promotion that has loaded both pairs. */
  function Writing(s: Store, pending: (Bytes, Bytes), f: Schedule): Visit {
    PutPair(s, CurrentPassword, CurrentHash, pending, f.putPassword, f.putHash)
  }

  function Clearing(s: Store, f: Schedule): Visit {
    RemovePair(s, PendingPassword, PendingHash, f.removePassword, f.removeHash)
  }

  function Restoring(s: Store, current: (Bytes, Bytes), f: Schedule): Visit {
    PutPair(s, CurrentPassword, CurrentHash, current, f.restorePassword, f.restoreHash)
  }

  /** A promotion, store by store: the writes of the new pair, and then the clearing or the restoring. */
  lemma PromoteIs(verify: Verifier, s: Store, idValid: bool, f: Schedule)
    requires LoadBoth(verify, s, idValid, f).Ok?
    ensures var (current, pending) := LoadBoth(verify, s, idValid, f).value;
      Current(s) == Some(current) && Pending(s) == Some(pending) &&
      Verifies(verify, Current(s)) && Verifies(verify, Pending(s)) &&
      var w := Writing(s, pending, f);
      |w.stores| >= 2 &&
      var second := if w.ok then Clearing(w.Last(), f) else Restoring(w.Last(), current, f);
      |second.stores| >= 2 && second.stores[0] == w.Last() &&
      Promote(verify, s, idValid, f) ==
        Run(w.stores + second.stores[1..],
            if w.ok then if second.ok then Done else NotCleared
            else if second.ok then NotPromoted else RestoreFailed)
  {
    hide PutPair, RemovePair;
  }

  /** The store at a place in a promotion: among the writes, or in what follows them. */
  lemma StoreOf(w: Visit, second: Visit, i: nat)
    requires w.stores != [] && second.stores != [] && second.stores[0] == w.Last()
    requires i < |w.stores + second.stores[1..]|
    ensures var t := (w.stores + second.stores[1..])[i];
      if i < |w.stores| then t == w.stores[i]
      else i - |w.stores| + 1 < |second.stores| && t == second.stores[i - |w.stores| + 1]
    ensures |second.stores| >= 2 ==>
      (w.stores + second.stores[1..])[|w.stores + second.stores[1..]| - 1] == second.Last()
  {
  }

  /**
   Through every store a promotion passes, the pair being promoted is intact in Pending or in Current;
   a promotion that cannot load both pairs touches nothing.
   */
  lemma NewPairAlwaysIntact(verify: Verifier, s: Store, idValid: bool, f: Schedule, i: nat)
    requires i < |Promote(verify, s, idValid, f).stores|
    ensures var t := Promote(verify, s, idValid, f).stores[i];
      LoadBoth(verify, s, idValid, f).Ok? ==> Pending(t) == Pending(s) || Current(t) == Pending(s)
    ensures LoadBoth(verify, s, idValid, f).Err? ==> Promote(verify, s, idValid, f).stores == [s]
  {
    hide PutPair, RemovePair, LoadBoth;
    if LoadBoth(verify, s, idValid, f).Ok? {
      hide Promote;
      PromoteIs(verify, s, idValid, f);
      var (current, pending) := LoadBoth(verify, s, idValid, f).value;
      var w := Writing(s, pending, f);
      var second := if w.ok then Clearing(w.Last(), f) else Restoring(w.Last(), current, f);
      StoreOf(w, second, i);
      PutPairFacts(s, CurrentPassword, CurrentHash, pending, f.putPassword, f.putHash,
                   if i < |w.stores| then i else |w.stores| - 1);
      if i >= |w.stores| {
        var k := i - |w.stores| + 1;
        if w.ok {
          RemovePairFacts(w.Last(), PendingPassword, PendingHash, f.removePassword, f.removeHash, k);
        } else {
          PutPairFacts(w.Last(), CurrentPassword, CurrentHash, current, f.restorePassword, f.restoreHash, k);
        }
      }
    }
  }

  /** Each password or hash in Current is the old or the new one, at all times. */
  lemma CurrentIsOldOrNew(verify: Verifier, s: Store, idValid: bool, f: Schedule, i: nat)
    requires i < |Promote(verify, s, idValid, f).stores| && LoadBoth(verify, s, idValid, f).Ok?
    ensures CurrentPassword in s && PendingPassword in s && CurrentHash in s && PendingHash in s
    ensures var t := Promote(verify, s, idValid, f).stores[i];
      CurrentPassword in t && t[CurrentPassword] in [s[CurrentPassword], s[PendingPassword]] &&
      CurrentHash in t && t[CurrentHash] in [s[CurrentHash], s[PendingHash]]
  {
    hide PutPair, RemovePair, LoadBoth, Promote;
    PromoteIs(verify, s, idValid, f);
    var (current, pending) := LoadBoth(verify, s, idValid, f).value;
    var w := Writing(s, pending, f);
    var second := if w.ok then Clearing(w.Last(), f) else Restoring(w.Last(), current, f);
    StoreOf(w, second, i);
    PutPairFacts(s, CurrentPassword, CurrentHash, pending, f.putPassword, f.putHash,
                 if i < |w.stores| then i else |w.stores| - 1);
    if i >= |w.stores| {
      var k := i - |w.stores| + 1;
      if w.ok {
        RemovePairFacts(w.Last(), PendingPassword, PendingHash, f.removePassword, f.removeHash, k);
      } else {
        PutPairFacts(w.Last(), CurrentPassword, CurrentHash, current, f.restorePassword, f.restoreHash, k);
      }
    }
  }

  /** What each outcome guarantees of the final store. */
  lemma OutcomeMeans(verify: Verifier, s: Store, idValid: bool, f: Schedule)
    ensures var r := Promote(verify, s, idValid, f); var t := r.Last();
      match r.outcome
      case Done => Current(t) == Pending(s) && Verifies(verify, Current(t)) &&
                   PendingPassword !in t && PendingHash !in t
      case NotCleared => Current(t) == Pending(s) && Verifies(verify, Current(t))
      case NotPromoted => t == s && Verifies(verify, Current(s))
      case RestoreFailed => Pending(t) == Pending(s) && Verifies(verify, Pending(t))
      case _ => t == s
  {
    hide PutPair, RemovePair;
    if LoadBoth(verify, s, idValid, f).Ok? {
      hide LoadBoth, Promote;
      PromoteIs(verify, s, idValid, f);
      var (current, pending) := LoadBoth(verify, s, idValid, f).value;
      var w := Writing(s, pending, f);
      var second := if w.ok then Clearing(w.Last(), f) else Restoring(w.Last(), current, f);
      StoreOf(w, second, |w.stores + second.stores[1..]| - 1);
      PutPairFacts(s, CurrentPassword, CurrentHash, pending, f.putPassword, f.putHash, |w.stores| - 1);
      var k := |second.stores| - 1;
      if w.ok {
        RemovePairFacts(w.Last(), PendingPassword, PendingHash, f.removePassword, f.removeHash, k);
      } else {
        PutPairFacts(w.Last(), CurrentPassword, CurrentHash, current, f.restorePassword, f.restoreHash, k);
        if second.ok { assert second.Last() == s; }
      }
    }
  }

  /** Both records of a pair are there. */
  predicate There(s: Store, password: Slot, hash: Slot) {
    password in s && hash in s
  }

  /** Both are there, and the hash verifies the password. */
  predicate Fits(verify: Verifier, s: Store, password: Slot, hash: Slot) {
    There(s, password, hash) && verify(s[hash], s[password])
  }

  /** What a promotion needs before it writes anything. */
  predicate Loadable(verify: Verifier, s: Store, idValid: bool, f: Schedule) {
    idValid && f.readsCurrent && Fits(verify, s, CurrentPassword, CurrentHash) &&
    f.readsPending && Fits(verify, s, PendingPassword, PendingHash)
  }

  /**
   A promotion writes exactly when the rotation id is valid and both pairs can be read, are there and
   verify; otherwise it is refused, for the first of these that fails, and touches nothing.
   */
  lemma RefusalExactly(verify: Verifier, s: Store, idValid: bool, f: Schedule)
    ensures LoadBoth(verify, s, idValid, f).Ok? <==> Loadable(verify, s, idValid, f)
    ensures var r := Promote(verify, s, idValid, f); var o := r.outcome;
      var current := Fits(verify, s, CurrentPassword, CurrentHash);
      var pending := Fits(verify, s, PendingPassword, PendingHash);
      (o in {Done, NotCleared, NotPromoted, RestoreFailed} <==> Loadable(verify, s, idValid, f)) &&
      (o == RotationIdInvalid <==> !idValid) &&
      (o == BackendRaised <==> idValid && (!f.readsCurrent || (current && !f.readsPending))) &&
      (o == CurrentMissing <==> idValid && f.readsCurrent && !There(s, CurrentPassword, CurrentHash)) &&
      (o == CurrentInvalid <==>
       idValid && f.readsCurrent && There(s, CurrentPassword, CurrentHash) && !current) &&
      (o == PendingMissing <==>
       idValid && f.readsCurrent && current && f.readsPending && !There(s, PendingPassword, PendingHash)) &&
      (o == PendingInvalid <==>
       idValid && f.readsCurrent && current && f.readsPending && There(s, PendingPassword, PendingHash) && !pending) &&
      (!Loadable(verify, s, idValid, f) ==> r.stores == [s])
  {
    hide PutPair, RemovePair;
  }

  /** Which faults lead to which outcome; a restore can fail only after a failed write and a failed restoring write. */
  lemma OutcomeExactly(verify: Verifier, s: Store, idValid: bool, f: Schedule)
    requires Loadable(verify, s, idValid, f)
    ensures var o := Promote(verify, s, idValid, f).outcome;
      var writes := f.putPassword == Works && f.putHash == Works;
      var restores := f.restorePassword == Works && f.restoreHash == Works;
      var clears := f.removePassword == Works && f.removeHash == Works;
      (o == Done <==> writes && clears) && (o == NotCleared <==> writes && !clears) &&
      (o == NotPromoted <==> !writes && restores) && (o == RestoreFailed <==> !writes && !restores)
  {
    hide LoadBoth, Loadable;
    RefusalExactly(verify, s, idValid, f);
  }

  /** The store a promotion leaves when all goes well, record by record. */
  lemma PromotedStore(verify: Verifier, s: Store, idValid: bool, f: Schedule)
    requires Promote(verify, s, idValid, f).outcome == Done
    ensures There(s, PendingPassword, PendingHash)
    ensures Promote(verify, s, idValid, f).Last() ==
      map[CurrentPassword := s[PendingPassword], CurrentHash := s[PendingHash]]
  {
    hide Promote, LoadBoth, PutPair, RemovePair;
    RefusalExactly(verify, s, idValid, f);
    PromoteIs(verify, s, idValid, f);
    var (current, pending) := LoadBoth(verify, s, idValid, f).value;
    var w := Writing(s, pending, f);
    var second := Clearing(w.Last(), f);
    OutcomeExactly(verify, s, idValid, f);
    PutPairFacts(s, CurrentPassword, CurrentHash, pending, f.putPassword, f.putHash, 0);
    RemovePairFacts(w.Last(), PendingPassword, PendingHash, f.removePassword, f.removeHash, 0);
    StoreOf(w, second, 0);
  }

  // ---- Staging and discarding ----

  /** When staging succeeds, what it refuses, and the store it leaves; Current is never touched. */
  lemma StagingExactly(s: Store, password: Bytes, blank: bool, hash: Option<Bytes>, f: Fault, g: Fault)
    ensures var r := Prepare(s, password, blank, hash, f, g);
      (r.outcome == Done <==> !blank && hash.Some? && f == Works && g == Works) &&
      (r.outcome == PasswordBlank <==> blank) && r.outcome in {Done, PasswordBlank, NotStaged} &&
      (blank || hash.None? ==> r.stores == [s]) &&
      (r.outcome == Done ==> r.Last() == s[PendingPassword := password][PendingHash := hash.value]) &&
      forall i, x | 0 <= i < |r.stores| && x in {CurrentPassword, CurrentHash} ::
        (x in r.stores[i] <==> x in s) && (x in s ==> r.stores[i][x] == s[x])
  {
  }

  /** When discarding succeeds, and the store it leaves; Current is never touched. */
  lemma DiscardingExactly(s: Store, f: Fault, g: Fault)
    ensures var r := Discard(s, f, g);
      (r.outcome == Done <==> f == Works && g == Works) && r.outcome in {Done, BackendRaised} &&
      (r.outcome == Done ==> r.Last() == s - {PendingPassword, PendingHash}) &&
      forall i, x | 0 <= i < |r.stores| && x in {CurrentPassword, CurrentHash} ::
        (x in r.stores[i] <==> x in s) && (x in s ==> r.stores[i][x] == s[x])
  {
  }

  // ---- Any sequence of operations ----

  datatype Operation =
    | Preparing(password: Bytes, blank: bool, hash: Option<Bytes>, f: Fault, g: Fault)
    | Promoting(idValid: bool, schedule: Schedule)
    | Discarding(f: Fault, g: Fault)

  function Perform(verify: Verifier, s: Store, o: Operation): (r: Run)
    ensures r.stores != [] && r.stores[0] == s
  {
    match o
    case Preparing(password, blank, hash, f, g) => Prepare(s, password, blank, hash, f, g)
    case Promoting(idValid, schedule) => Promote(verify, s, idValid, schedule)
    case Discarding(f, g) => Discard(s, f, g)
  }

  /** The store after some operations, or None once a promotion could not restore the current pair. */
  function After(verify: Verifier, s: Store, os: seq<Operation>): Option<Store> {
    if os == [] then Some(s)
    else
      match After(verify, s, os[..|os| - 1])
      case None => None
      case Some(t) =>
        var r := Perform(verify, t, os[|os| - 1]);
        if r.outcome == RestoreFailed then None else Some(r.Last())
  }

  /** One operation leaves Current alone or, being a promotion, replaces it by the verified Pending pair. */
  lemma CurrentChangesOnlyByPromotion(verify: Verifier, s: Store, o: Operation)
    requires Perform(verify, s, o).outcome != RestoreFailed
    ensures var t := Perform(verify, s, o).Last();
      Current(t) == Current(s) ||
      (o.Promoting? && Verifies(verify, Pending(s)) && Current(t) == Pending(s))
  {
    if o.Promoting? { OutcomeMeans(verify, s, o.idValid, o.schedule); }
  }

  /** Until some promotion reports that it could not restore, Current stays a verifying pair. */
  lemma {:induction false} CurrentStaysVerified(verify: Verifier, s: Store, os: seq<Operation>)
    requires Verifies(verify, Current(s))
    ensures After(verify, s, os).Some? ==> Verifies(verify, Current(After(verify, s, os).value))
  {
    if os != [] {
      var before := os[..|os| - 1];
      CurrentStaysVerified(verify, s, before);
      if After(verify, s, os).Some? {
        CurrentChangesOnlyByPromotion(verify, After(verify, s, before).value, os[|os| - 1]);
      }
    }
  }

  /**
   After a failed restore the new pair is still pending, but promoting again, even without any fault,
   helps exactly when what is left in Current happens to verify; otherwise it is refused.
   */
  lemma RetryAfterRestoreFailure(verify: Verifier, s: Store, f: Schedule)
    requires Promote(verify, s, true, f).outcome == RestoreFailed
    ensures var t := Promote(verify, s, true, f).Last();
      var retry := Promote(verify, t, true, FAULT_FREE);
      Pending(t) == Pending(s) &&
      if Verifies(verify, Current(t)) then retry.outcome == Done && Current(retry.Last()) == Pending(s)
      else retry.outcome == CurrentInvalid && retry.Last() == t
  {
    OutcomeMeans(verify, s, true, f);
    CurrentIsOldOrNew(verify, s, true, f, |Promote(verify, s, true, f).stores| - 1);
    var t := Promote(verify, s, true, f).Last();
    OutcomeMeans(verify, t, true, FAULT_FREE);
    if Verifies(verify, Current(t)) { OutcomeExactly(verify, t, true, FAULT_FREE); }
  }

  /** Staging and promoting without faults installs exactly the new password and its hash. */
  lemma StageThenPromote(verify: Verifier, s: Store, password: Bytes, hash: Bytes)
    requires Verifies(verify, Current(s)) && verify(hash, password)
    ensures var staged := Prepare(s, password, false, Some(hash), Works, Works);
      var promoted := Promote(verify, staged.Last(), true, FAULT_FREE);
      staged.outcome == Done && promoted.outcome == Done &&
      Current(promoted.Last()) == Some((password, hash)) && Pending(promoted.Last()) == None
  {
    var staged := Prepare(s, password, false, Some(hash), Works, Works).Last();
    assert Current(staged) == Current(s) && Pending(staged) == Some((password, hash));
    OutcomeMeans(verify, staged, true, FAULT_FREE);
    OutcomeExactly(verify, staged, true, FAULT_FREE);
  }

  // ---- The object ----

  class OperatorRotationKeychain {
    const verify: Verifier
    var store: Store
    /** Every store since construction, the present one last. */
    ghost var visited: seq<Store>

    ghost predicate Valid()
      reads this
    {
      visited != [] && visited[|visited| - 1] == store
    }

    constructor (verify: Verifier, store: Store)
      ensures Valid() && this.verify == verify && this.store == store && visited == [store]
    {
      this.verify, this.store, visited := verify, store, [store];
    }

    method Upsert(slot: Slot, value: Bytes, f: Fault) returns (ok: bool)
      modifies this
      ensures (store, ok) == Put(old(store), slot, value, f) && visited == old(visited) + [store]
    {
      if f != RaisesUndone { store := store[slot := value]; }
      visited := visited + [store];
      ok := f == Works;
    }

    method Delete(slot: Slot, f: Fault) returns (ok: bool)
      modifies this
      ensures (store, ok) == Remove(old(store), slot, f) && visited == old(visited) + [store]
    {
      if f != RaisesUndone { store := store - {slot}; }
      visited := visited + [store];
      ok := f == Works;
    }

    method UpsertPair(a: Slot, b: Slot, pair: (Bytes, Bytes), f: Fault, g: Fault) returns (ok: bool)
      requires Valid()
      modifies this
      ensures Valid()
      ensures var v := PutPair(old(store), a, b, pair, f, g);
        store == v.Last() && ok == v.ok && visited == old(visited) + v.stores[1..]
    {
      ok := Upsert(a, pair.0, f);
      if ok { ok := Upsert(b, pair.1, g); }
    }

    method DeletePair(a: Slot, b: Slot, f: Fault, g: Fault) returns (ok: bool)
      requires Valid()
      modifies this
      ensures Valid()
      ensures var v := RemovePair(old(store), a, b, f, g);
        store == v.Last() && ok == v.ok && visited == old(visited) + v.stores[1..]
    {
      ok := Delete(a, f);
      if ok { ok := Delete(b, g); }
    }

    method PreparePending(password: Bytes, blank: bool, hash: Option<Bytes>, f: Fault, g: Fault)
      returns (outcome: Outcome)
      requires Valid()
      modifies this
      ensures Valid()
      ensures var r := Prepare(old(store), password, blank, hash, f, g);
        store == r.Last() && outcome == r.outcome && visited == old(visited) + r.stores[1..]
    {
      if blank { return PasswordBlank; }
      if hash.None? { return NotStaged; }
      var ok := UpsertPair(PendingPassword, PendingHash, (password, hash.value), f, g);
      outcome := if ok then Done else NotStaged;
    }

    method DiscardPending(f: Fault, g: Fault) returns (outcome: Outcome)
      requires Valid()
      modifies this
      ensures Valid()
      ensures var r := Discard(old(store), f, g);
        store == r.Last() && outcome == r.outcome && visited == old(visited) + r.stores[1..]
    {
      var ok := DeletePair(PendingPassword, PendingHash, f, g);
      outcome := if ok then Done else BackendRaised;
    }

    method PromotePending(idValid: bool, f: Schedule) returns (outcome: Outcome)
      requires Valid()
      modifies this
      ensures Valid()
      ensures var r := Promote(verify, old(store), idValid, f);
        store == r.Last() && outcome == r.outcome && visited == old(visited) + r.stores[1..]
    {
      hide PutPair, RemovePair, LoadBoth;
      var pairs := LoadBoth(verify, store, idValid, f);
      if pairs.Err? { return pairs.error; }
      var (current, pending) := pairs.value;
      ghost var w := Writing(store, pending, f);
      var ok := UpsertPair(CurrentPassword, CurrentHash, pending, f.putPassword, f.putHash);
      assert visited == old(visited) + w.stores[1..];
      ghost var second;
      if ok {
        second := Clearing(store, f);
        var cleared := DeletePair(PendingPassword, PendingHash, f.removePassword, f.removeHash);
        outcome := if cleared then Done else NotCleared;
        assert visited == old(visited) + w.stores[1..] + second.stores[1..];
      } else {
        second := Restoring(store, current, f);
        var restored := UpsertPair(CurrentPassword, CurrentHash, current, f.restorePassword, f.restoreHash);
        outcome := if restored then NotPromoted else RestoreFailed;
        assert visited == old(visited) + w.stores[1..] + second.stores[1..];
      }
      JoinedTail(old(visited), w.stores, second.stores[1..]);
      StoreOf(w, second, 0);
    }
  }

  lemma JoinedTail(before: seq<Store>, first: seq<Store>, rest: seq<Store>)
    requires first != []
    ensures before + first[1..] + rest == before + (first + rest)[1..]
  {
    assert (first + rest)[1..] == first[1..] + rest;
  }
}
