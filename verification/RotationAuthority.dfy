/**
 The packages that authorise one operator password rotation and its inverse
 (bizpulse/scripts/generate_operator_rotation_authority.py), and the guarded jobs that carry them out.
 */
module RotationAuthority {
  import opened Wrappers
  import opened Patterns
  import Json
  import Keychain

  // ---- Data ----

  /** A password and its hash. */
  type Pair = (Bytes, Bytes)

  type Parameters = map<string, Json.Json>

  datatype Target = Target(subscriptionId: string, resourceGroup: string, app: string, fqdn: string)

  datatype Source = Source(gitSha: string, image: string)

  datatype Expected = Expected(
    activeImage: Option<string>, activeRevision: string, oldHash: string, newHash: string)

  datatype Payload = Payload(
    schema: string, operation: string, inverseOf: Option<string>, target: Target, source: Source,
    parameters: Parameters, delivery: string, expected: Expected, preconditions: seq<string>,
    rollbackHash: string)

  datatype Authority = Authority(payload: Payload, rotationId: string)

  /** The application as read; a member of the wrong type is None. */
  datatype App = App(
    name: string, provisioning: string, mode: string, external: bool, fqdn: Option<string>,
    ready: Option<string>, latest: Option<string>, allTrafficOnLatest: bool, image: Option<string>)

  /**
   The formats underneath: identifiers, image references and deployment parameters, the digest of a
   canonical payload, the fingerprint of a hash, and the password hasher.
   */
  datatype Syntax = Syntax(
    uuid: string -> bool, name: string -> bool, image: string -> bool, sha1: string -> bool,
    parameters: Parameters -> bool, digest: Payload -> string, fingerprint: Bytes -> string,
    verify: Keychain.Verifier)

  datatype Code =
    | PairInvalid | PendingMatchesCurrent | InputInvalid | AppInvalid | HealthNotReady | ParametersInvalid
    | DeliveryInvalid | ForwardInvalid | InverseInvalid | KeychainDrift | InverseAppInvalid | PreflightDrift

  const SCHEMA := "newcaostone.operator-password-rotation.v3"
  const CONTRACT := "job-only-stage-v1"
  const ROTATION := "operator-password-rotation"
  const INVERSE := "operator-password-inverse"
  const DOMAIN := ".azurecontainerapps.io"
  const FORWARD_PRECONDITIONS := [
    "active_image_matches", "single_revision_mode", "latest_ready_revision_matches",
    "ready_health_all_checks_ok", "current_pair_matches", "pending_pair_matches",
    "pending_differs_from_current"]
  const INVERSE_PRECONDITIONS := [
    "single_revision_mode", "source_image_matches", "current_keychain_matches_forward_old",
    "pending_keychain_matches_forward_new", "exact_inverse_job_guard"]

  // ---- Checks ----

  predicate PairFine(sx: Syntax, p: Pair) {
    sx.verify(p.1, p.0)
  }

  predicate InDomain(fqdn: string) {
    |DOMAIN| <= |fqdn| && fqdn[|fqdn| - |DOMAIN|..] == DOMAIN
  }

  predicate AppSteady(a: App, name: string) {
    a.name == name && a.provisioning == "Succeeded" && a.mode == "Single" && a.external && a.allTrafficOnLatest
  }

  /** The application serves its latest revision, ready, from a well-formed image. */
  predicate AppFine(sx: Syntax, a: App, name: string) {
    AppSteady(a, name) && a.fqdn.Some? && InDomain(a.fqdn.value) &&
    a.ready.Some? && a.ready == a.latest && a.image.Some? && sx.image(a.image.value)
  }

  /** For an inverse the latest revision need not be ready, but must run the image of the forward source. */
  predicate InverseAppFine(a: App, t: Target, s: Source) {
    AppSteady(a, t.app) && a.fqdn == Some(t.fqdn) && a.latest.Some? && a.image == Some(s.image)
  }

  predicate TargetFine(sx: Syntax, t: Target, s: Source) {
    sx.uuid(t.subscriptionId) && sx.name(t.resourceGroup) && sx.name(t.app) && InDomain(t.fqdn) &&
    sx.image(s.image) && sx.sha1(s.gitSha)
  }

  predicate Bound(sx: Syntax, a: Authority, operation: string) {
    a.payload.schema == SCHEMA && a.payload.operation == operation &&
    Sha256Text(a.rotationId) && a.rotationId == sx.digest(a.payload)
  }

  /** `_validate_forward_authority`: the code it raises, or None. */
  function RefusesForward(sx: Syntax, a: Authority): Option<Code> {
    var p := a.payload;
    if !Bound(sx, a, ROTATION) || !TargetFine(sx, p.target, p.source) then Some(ForwardInvalid)
    else if !sx.parameters(p.parameters) then Some(ParametersInvalid)
    else if p.delivery != CONTRACT then Some(DeliveryInvalid)
    else if p.expected.activeImage.None? || !sx.image(p.expected.activeImage.value) ||
            !Sha256Text(p.expected.oldHash) || !Sha256Text(p.expected.newHash)
    then Some(ForwardInvalid)
    else None
  }

  // ---- Building ----

  function BuildForward(
    sx: Syntax, current: Pair, pending: Pair, subscriptionId: string, resourceGroup: string, appName: string,
    s: Source, parameters: Parameters, app: App, healthy: bool) : Result<Authority, Code>
  {
    if !PairFine(sx, current) || !PairFine(sx, pending) then Err(PairInvalid)
    else if current.0 == pending.0 then Err(PendingMatchesCurrent)
    else if !sx.uuid(subscriptionId) || !sx.name(resourceGroup) || !sx.name(appName) || !sx.image(s.image) ||
            !sx.sha1(s.gitSha)
    then Err(InputInvalid)
    else if !AppFine(sx, app, appName) then Err(AppInvalid)
    else if !healthy then Err(HealthNotReady)
    else if !sx.parameters(parameters) then Err(ParametersInvalid)
    else
      var before, after := sx.fingerprint(current.1), sx.fingerprint(pending.1);
      var payload := Payload(
        SCHEMA, ROTATION, None, Target(subscriptionId, resourceGroup, appName, app.fqdn.value), s, parameters,
        CONTRACT, Expected(app.image, app.ready.value, before, after), FORWARD_PRECONDITIONS, after);
      Ok(Authority(payload, sx.digest(payload)))
  }

  function BuildInverse(sx: Syntax, forward: Authority, current: Pair, pending: Pair, app: App)
    : Result<Authority, Code>
  {
    if !PairFine(sx, current) || !PairFine(sx, pending) then Err(PairInvalid)
    else if RefusesForward(sx, forward).Some? then Err(RefusesForward(sx, forward).value)
    else
      var f := forward.payload;
      if sx.fingerprint(current.1) != f.expected.oldHash || sx.fingerprint(pending.1) != f.expected.newHash ||
         current.0 == pending.0
      then Err(KeychainDrift)
      else if !InverseAppFine(app, f.target, f.source) then Err(InverseAppInvalid)
      else
        var payload := Payload(
          SCHEMA, INVERSE, Some(forward.rotationId), f.target, f.source, f.parameters, f.delivery,
          Expected(None, app.latest.value, sx.fingerprint(pending.1), sx.fingerprint(current.1)),
          INVERSE_PRECONDITIONS, sx.fingerprint(current.1));
        Ok(Authority(payload, sx.digest(payload)))
  }

  /** `validate_inverse_rotation_preflight`: the code it raises, or None. */
  function RefusesInverse(sx: Syntax, a: Authority, current: Pair, pending: Pair, app: Option<App>): Option<Code> {
    var p := a.payload;
    if !Bound(sx, a, INVERSE) || p.inverseOf.None? || !Sha256Text(p.inverseOf.value) ||
       !TargetFine(sx, p.target, p.source)
    then Some(InverseInvalid)
    else if !sx.parameters(p.parameters) then Some(ParametersInvalid)
    else if p.delivery != CONTRACT then Some(DeliveryInvalid)
    else if !Sha256Text(p.expected.oldHash) || !Sha256Text(p.expected.newHash) then Some(InverseInvalid)
    else if !PairFine(sx, current) || !PairFine(sx, pending) then Some(PairInvalid)
    else if sx.fingerprint(current.1) != p.expected.newHash || sx.fingerprint(pending.1) != p.expected.oldHash ||
            current.0 == pending.0
    then Some(KeychainDrift)
    else if app.None? then None
    else if !InverseAppFine(app.value, p.target, p.source) then Some(InverseAppInvalid)
    else if app.value.latest != Some(p.expected.activeRevision) then Some(PreflightDrift)
    else None
  }

  // ---- Laws ----

  /** Two hashes that the fingerprint tells apart, if they differ. */
  predicate ToldApart(sx: Syntax, h: Bytes, k: Bytes) {
    sx.fingerprint(h) == sx.fingerprint(k) ==> h == k
  }

  /** Two different payloads of one digest. */
  predicate Collide(sx: Syntax, p: Payload, q: Payload) {
    p != q && sx.digest(p) == sx.digest(q)
  }

  /**
   A forward package that is built is one an inverse may be built from, exactly as long as its digest and
   fingerprints have the form of SHA-256 texts.
   */
  lemma BuiltForwardIsAccepted(
    sx: Syntax, current: Pair, pending: Pair, subscriptionId: string, resourceGroup: string, appName: string,
    s: Source, parameters: Parameters, app: App, healthy: bool)
    ensures var f := BuildForward(
        sx, current, pending, subscriptionId, resourceGroup, appName, s, parameters, app, healthy);
      f.Ok? ==>
        (RefusesForward(sx, f.value) == None <==>
         Sha256Text(f.value.rotationId) && Sha256Text(sx.fingerprint(current.1)) &&
         Sha256Text(sx.fingerprint(pending.1)))
  {
  }

  /**
   An inverse that is built passes its preflight, and later for exactly these: two verifying pairs of
   different passwords and of the very hashes it was built from, and, if the application is looked at
   again, the same application at the same latest revision.
   */
  lemma PreflightExactly(
    sx: Syntax, forward: Authority, current: Pair, pending: Pair, app: App,
    laterCurrent: Pair, laterPending: Pair, later: Option<App>)
    requires BuildInverse(sx, forward, current, pending, app).Ok?
    requires Sha256Text(BuildInverse(sx, forward, current, pending, app).value.rotationId)
    requires ToldApart(sx, laterCurrent.1, current.1) && ToldApart(sx, laterPending.1, pending.1)
    ensures var a := BuildInverse(sx, forward, current, pending, app).value;
      RefusesInverse(sx, a, current, pending, Some(app)) == None &&
      (RefusesInverse(sx, a, laterCurrent, laterPending, later) == None <==>
       PairFine(sx, laterCurrent) && PairFine(sx, laterPending) && laterCurrent.0 != laterPending.0 &&
       laterCurrent.1 == current.1 && laterPending.1 == pending.1 &&
       (later.Some? ==>
         InverseAppFine(later.value, forward.payload.target, forward.payload.source) &&
         later.value.latest == app.latest))
  {
  }

  /** The inverse points back at its forward package, and swaps what is expected before and after. */
  lemma InverseSwaps(sx: Syntax, forward: Authority, current: Pair, pending: Pair, app: App)
    requires BuildInverse(sx, forward, current, pending, app).Ok?
    ensures var f, i := forward.payload, BuildInverse(sx, forward, current, pending, app).value.payload;
      i.inverseOf == Some(forward.rotationId) &&
      i.expected.oldHash == f.expected.newHash && i.expected.newHash == f.expected.oldHash &&
      i.(schema := f.schema, operation := f.operation, inverseOf := f.inverseOf, expected := f.expected,
         preconditions := f.preconditions, rollbackHash := f.rollbackHash) == f
  {
  }

  /** No package is both: a forward one never passes an inverse preflight, and no inverse has an inverse. */
  lemma KindsNeverMix(
    sx: Syntax, a: Authority, current: Pair, pending: Pair, app: App, later: Option<App>)
    ensures RefusesForward(sx, a) == None ==> RefusesInverse(sx, a, current, pending, later) != None
    ensures BuildInverse(sx, a, current, pending, app).Ok? ==>
      BuildInverse(sx, BuildInverse(sx, a, current, pending, app).value, current, pending, app).Err?
  {
    assert ROTATION[18] != INVERSE[18];
  }

  /**
   Two inverses of one rotation id are one package, of one forward package; otherwise the two exhibit a
   collision of the digest, between themselves or between the packages they were made from.
   */
  lemma RotationIdNamesOne(
    sx: Syntax, f: Authority, g: Authority, current: Pair, pending: Pair, app: App,
    otherCurrent: Pair, otherPending: Pair, otherApp: App)
    requires RefusesForward(sx, f) == RefusesForward(sx, g) == None
    ensures f.rotationId == g.rotationId ==> f == g || Collide(sx, f.payload, g.payload)
    ensures var i, j := BuildInverse(sx, f, current, pending, app),
                        BuildInverse(sx, g, otherCurrent, otherPending, otherApp);
      i.Ok? && j.Ok? && i.value.rotationId == j.value.rotationId ==>
        (f == g && i == j) || Collide(sx, f.payload, g.payload) || Collide(sx, i.value.payload, j.value.payload)
  {
    hide PairFine, InverseAppFine, TargetFine;
    var i, j := BuildInverse(sx, f, current, pending, app), BuildInverse(sx, g, otherCurrent, otherPending, otherApp);
    if i.Ok? && j.Ok? && i.value.payload == j.value.payload {
      assert i.value.payload.inverseOf == Some(f.rotationId);
      assert j.value.payload.inverseOf == Some(g.rotationId);
    }
  }

  /** Once the pending pair has been promoted in the keychain, the inverse is refused until it is staged anew. */
  lemma PromotionClosesInverse(
    sx: Syntax, forward: Authority, app: App, s: Keychain.Store, schedule: Keychain.Schedule, later: Option<App>,
    laterPending: Pair)
    requires Keychain.Current(s).Some? && Keychain.Pending(s).Some?
    requires Keychain.Current(s).value.1 != Keychain.Pending(s).value.1
    requires ToldApart(sx, Keychain.Pending(s).value.1, Keychain.Current(s).value.1)
    requires BuildInverse(sx, forward, Keychain.Current(s).value, Keychain.Pending(s).value, app).Ok?
    ensures var a := BuildInverse(sx, forward, Keychain.Current(s).value, Keychain.Pending(s).value, app).value;
      var r := Keychain.Promote(sx.verify, s, true, schedule);
      r.outcome == Keychain.Done || r.outcome == Keychain.NotCleared ==>
        Keychain.Current(r.Last()).Some? &&
        RefusesInverse(sx, a, Keychain.Current(r.Last()).value, laterPending, later) != None
  {
    hide Keychain.Promote, TargetFine, InverseAppFine;
    Keychain.OutcomeMeans(sx.verify, s, true, schedule);
  }

  // ---- The guarded jobs ----

  datatype Status = Rotated | AlreadyRotated | ExpectedHashMismatch

  /** `rotate_active_password_hash`: replaces the stored hash only when it is the expected one. */
  function RotateStored(sx: Syntax, stored: Bytes, expectedFingerprint: string, replacement: Bytes): (Bytes, Status) {
    if stored == replacement then (stored, AlreadyRotated)
    else if sx.fingerprint(stored) != expectedFingerprint then (stored, ExpectedHashMismatch)
    else (replacement, Rotated)
  }

  datatype Job = ForwardJob | InverseJob

  /** What is stored after some jobs: each expects what its package says, and installs a keychain hash. */
  function AfterJobs(sx: Syntax, forward: Authority, inverse: Authority, current: Pair, pending: Pair,
                     stored: Bytes, jobs: seq<Job>): Bytes
  {
    if jobs == [] then stored
    else
      var before := AfterJobs(sx, forward, inverse, current, pending, stored, jobs[..|jobs| - 1]);
      match jobs[|jobs| - 1]
      case ForwardJob => RotateStored(sx, before, forward.payload.expected.oldHash, pending.1).0
      case InverseJob => RotateStored(sx, before, inverse.payload.expected.oldHash, current.1).0
  }

  /**
   Forward and inverse jobs, run in any order and any number of times: a stored hash of either pair ends
   as the last job wants it, and any other stored hash is never touched.
   */
  lemma {:induction false} LastJobWins(
    sx: Syntax, forward: Authority, current: Pair, pending: Pair, app: App, stored: Bytes, jobs: seq<Job>)
    requires BuildInverse(sx, forward, current, pending, app).Ok?
    requires ToldApart(sx, stored, current.1) && ToldApart(sx, stored, pending.1)
    requires ToldApart(sx, pending.1, current.1)
    ensures var inverse := BuildInverse(sx, forward, current, pending, app).value;
      AfterJobs(sx, forward, inverse, current, pending, stored, jobs) ==
      if jobs == [] || (stored != current.1 && stored != pending.1) then stored
      else if jobs[|jobs| - 1].ForwardJob? then pending.1 else current.1
  {
    hide RefusesForward, PairFine, InverseAppFine;
    if jobs != [] { LastJobWins(sx, forward, current, pending, app, stored, jobs[..|jobs| - 1]); }
  }
}
