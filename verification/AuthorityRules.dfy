/**
 The rules of the rotation packages spelled out on the fields they read: when a package is built, what it then
 says, with which code it is refused, and how a run of the runner ends.
 */
module AuthorityRules {
  import opened Wrappers
  import opened Patterns
  import opened Keychain
  import opened RotationAuthority
  import opened CredentialRotation

  // ---- Readings ----

  predicate EndsInDomain(fqdn: string) {
    |fqdn| >= 22 && fqdn[|fqdn| - 22..] == ".azurecontainerapps.io"
  }

  /** The one revision of the named application is provisioned, exposed, and takes all traffic. */
  predicate Serves(a: App, name: string) {
    a.name == name && a.provisioning == "Succeeded" && a.mode == "Single" && a.external && a.allTrafficOnLatest &&
    a.latest.Some?
  }

  /** For a forward package, its latest revision is also ready, in the domain, and of a well-formed image. */
  predicate ServesForward(sx: Syntax, a: App, name: string) {
    Serves(a, name) && a.ready == a.latest && a.fqdn.Some? && EndsInDomain(a.fqdn.value) && a.image.Some? &&
    sx.image(a.image.value)
  }

  /** For an inverse, it is the application of the package under its own name, running its image. */
  predicate ServesInverse(a: App, t: Target, s: Source) {
    Serves(a, t.app) && a.fqdn.Some? && a.fqdn.value == t.fqdn && a.image.Some? && a.image.value == s.image
  }

  predicate Verify(sx: Syntax, current: Pair, pending: Pair) {
    sx.verify(current.1, current.0) && sx.verify(pending.1, pending.0)
  }

  lemma ReadingsExactly(sx: Syntax, a: App, name: string, t: RotationAuthority.Target, s: Source)
    ensures AppFine(sx, a, name) <==> ServesForward(sx, a, name)
    ensures InverseAppFine(a, t, s) <==> ServesInverse(a, t, s)
  {
  }

  // ---- Building a forward package ----

  /** What a forward package says: where and what, the fingerprints before and after, and its own digest. */
  predicate SaysForward(
    sx: Syntax, a: Authority, current: Pair, pending: Pair, subscriptionId: string, resourceGroup: string,
    appName: string, s: Source, parameters: Parameters, app: App)
  {
    var p := a.payload;
    p.schema == "newcaostone.operator-password-rotation.v3" && p.operation == "operator-password-rotation" &&
    p.inverseOf.None? && p.target.subscriptionId == subscriptionId && p.target.resourceGroup == resourceGroup &&
    p.target.app == appName && app.fqdn == Some(p.target.fqdn) && p.source == s && p.parameters == parameters &&
    p.delivery == "job-only-stage-v1" && p.expected.activeImage == app.image &&
    app.ready == Some(p.expected.activeRevision) && p.expected.oldHash == sx.fingerprint(current.1) &&
    p.expected.newHash == p.rollbackHash == sx.fingerprint(pending.1) && |p.preconditions| == 7 &&
    a.rotationId == sx.digest(p)
  }

  /** A forward package is built exactly for these inputs, and the first that fails gives the code. */
  lemma ForwardExactly(
    sx: Syntax, current: Pair, pending: Pair, subscriptionId: string, resourceGroup: string, appName: string,
    s: Source, parameters: Parameters, app: App, healthy: bool)
    ensures var r := BuildForward(
        sx, current, pending, subscriptionId, resourceGroup, appName, s, parameters, app, healthy);
      if !Verify(sx, current, pending) then r == Err(PairInvalid)
      else if current.0 == pending.0 then r == Err(PendingMatchesCurrent)
      else if !(sx.uuid(subscriptionId) && sx.name(resourceGroup) && sx.name(appName) && sx.image(s.image) &&
                sx.sha1(s.gitSha)) then r == Err(InputInvalid)
      else if !ServesForward(sx, app, appName) then r == Err(AppInvalid)
      else if !healthy then r == Err(HealthNotReady)
      else if !sx.parameters(parameters) then r == Err(ParametersInvalid)
      else
        r.Ok? &&
        SaysForward(sx, r.value, current, pending, subscriptionId, resourceGroup, appName, s, parameters, app)
  {
    hide AppFine, ServesForward;
    ReadingsExactly(sx, app, appName, RotationAuthority.Target("", "", "", ""), s);
    ServesMeans(sx, app, appName);
  }

  lemma ServesMeans(sx: Syntax, a: App, name: string)
    ensures AppFine(sx, a, name) ==> a.fqdn.Some? && a.ready.Some? && a.image.Some?
  {
  }

  // ---- Checking packages ----

  /** A package of this kind, under its own digest, of a well-formed target and source. */
  predicate Named(sx: Syntax, a: Authority, operation: string) {
    var p := a.payload;
    p.schema == "newcaostone.operator-password-rotation.v3" && p.operation == operation &&
    Sha256Text(a.rotationId) && a.rotationId == sx.digest(p) &&
    sx.uuid(p.target.subscriptionId) && sx.name(p.target.resourceGroup) && sx.name(p.target.app) &&
    EndsInDomain(p.target.fqdn) && sx.image(p.source.image) && sx.sha1(p.source.gitSha)
  }

  lemma NamedExactly(sx: Syntax, a: Authority, operation: string)
    ensures Named(sx, a, operation) <==>
      Bound(sx, a, operation) && TargetFine(sx, a.payload.target, a.payload.source)
  {
  }

  /** Which forward packages may be inverted, and the code of every other. */
  lemma ForwardRefusalExactly(sx: Syntax, a: Authority)
    ensures var p, code := a.payload, RefusesForward(sx, a);
      if !Named(sx, a, "operator-password-rotation") then code == Some(ForwardInvalid)
      else if !sx.parameters(p.parameters) then code == Some(ParametersInvalid)
      else if p.delivery != "job-only-stage-v1" then code == Some(DeliveryInvalid)
      else
        code == if p.expected.activeImage.Some? && sx.image(p.expected.activeImage.value) &&
                   Sha256Text(p.expected.oldHash) && Sha256Text(p.expected.newHash) then None
                else Some(ForwardInvalid)
  {
    hide Named, Bound, TargetFine, Sha256Text;
    NamedExactly(sx, a, "operator-password-rotation");
  }

  /** What an inverse says: its forward package, the same place and source, and the hashes the other way round. */
  predicate SaysInverse(sx: Syntax, a: Authority, forward: Authority, current: Pair, pending: Pair, app: App) {
    var p, f := a.payload, forward.payload;
    p.schema == "newcaostone.operator-password-rotation.v3" && p.operation == "operator-password-inverse" &&
    p.inverseOf == Some(forward.rotationId) && p.target == f.target && p.source == f.source &&
    p.parameters == f.parameters && p.delivery == f.delivery && p.expected.activeImage.None? &&
    app.latest == Some(p.expected.activeRevision) && p.expected.oldHash == sx.fingerprint(pending.1) &&
    p.expected.newHash == p.rollbackHash == sx.fingerprint(current.1) && |p.preconditions| == 5 &&
    a.rotationId == sx.digest(p)
  }

  /** An inverse is built exactly for these inputs, and the first that fails gives the code. */
  lemma InverseExactly(sx: Syntax, forward: Authority, current: Pair, pending: Pair, app: App)
    ensures var r, f := BuildInverse(sx, forward, current, pending, app), forward.payload;
      if !Verify(sx, current, pending) then r == Err(PairInvalid)
      else if RefusesForward(sx, forward).Some? then r == Err(RefusesForward(sx, forward).value)
      else if !(sx.fingerprint(current.1) == f.expected.oldHash && sx.fingerprint(pending.1) == f.expected.newHash &&
                current.0 != pending.0) then r == Err(KeychainDrift)
      else if !ServesInverse(app, f.target, f.source) then r == Err(InverseAppInvalid)
      else r.Ok? && SaysInverse(sx, r.value, forward, current, pending, app)
  {
    hide RefusesForward, InverseAppFine, ServesInverse;
    ReadingsExactly(sx, app, "", forward.payload.target, forward.payload.source);
    InverseMeans(app, forward.payload.target, forward.payload.source);
  }

  lemma InverseMeans(a: App, t: RotationAuthority.Target, s: Source)
    ensures InverseAppFine(a, t, s) ==> a.latest.Some?
  {
  }

  /** Which inverses pass their preflight, and the code of every other. */
  lemma InverseRefusalExactly(sx: Syntax, a: Authority, current: Pair, pending: Pair, app: Option<App>)
    ensures var p, code := a.payload, RefusesInverse(sx, a, current, pending, app);
      if !(Named(sx, a, "operator-password-inverse") && p.inverseOf.Some? && Sha256Text(p.inverseOf.value))
      then code == Some(InverseInvalid)
      else if !sx.parameters(p.parameters) then code == Some(ParametersInvalid)
      else if p.delivery != "job-only-stage-v1" then code == Some(DeliveryInvalid)
      else if !(Sha256Text(p.expected.oldHash) && Sha256Text(p.expected.newHash)) then code == Some(InverseInvalid)
      else if !Verify(sx, current, pending) then code == Some(PairInvalid)
      else if !(sx.fingerprint(current.1) == p.expected.newHash && sx.fingerprint(pending.1) == p.expected.oldHash &&
                current.0 != pending.0) then code == Some(KeychainDrift)
      else if app.Some? && !ServesInverse(app.value, p.target, p.source) then code == Some(InverseAppInvalid)
      else
        code == if app.Some? && app.value.latest != Some(p.expected.activeRevision) then Some(PreflightDrift) else None
  {
    hide Named, Bound, TargetFine, Sha256Text, InverseAppFine, ServesInverse;
    NamedExactly(sx, a, "operator-password-inverse");
    if app.Some? { ReadingsExactly(sx, app.value, "", a.payload.target, a.payload.source); }
  }

  // ---- The guarded job ----

  /** What a job leaves stored and reports: it never touches a hash other than the expected one. */
  lemma JobExactly(sx: Syntax, stored: Bytes, expected: string, replacement: Bytes)
    ensures var (after, status) := RotateStored(sx, stored, expected, replacement);
      var matches := sx.fingerprint(stored) == expected;
      (status == AlreadyRotated <==> stored == replacement) &&
      (status == Rotated <==> stored != replacement && matches) &&
      (status == ExpectedHashMismatch <==> stored != replacement && !matches) &&
      after == if matches then replacement else stored
  {
  }

  // ---- How a run ends ----

  /** The package of a kind the runner knows, for its delivery, under its own digest. */
  predicate Legible(sx: Syntax, a: Authority) {
    var p := a.payload;
    p.schema == "newcaostone.operator-password-rotation.v3" &&
    (p.operation == "operator-password-rotation" || p.operation == "operator-password-inverse") &&
    p.delivery == "job-only-stage-v1" && Sha256Text(a.rotationId) && a.rotationId == sx.digest(p)
  }

  /** Both pairs can be read, are there and verify. */
  predicate Loads(sx: Syntax, s: Store, m: Meeting) {
    m.readsCurrent && Fits(sx.verify, s, CurrentPassword, CurrentHash) &&
    m.readsPending && Fits(sx.verify, s, PendingPassword, PendingHash)
  }

  /** The job found the hash it expects, or the one it is to install. */
  predicate Matches(sx: Syntax, a: Authority, w: World)
    requires CurrentHash in w.store && PendingHash in w.store
  {
    sx.fingerprint(w.stored) == a.payload.expected.oldHash ||
    w.stored == w.store[if a.payload.operation == "operator-password-inverse" then CurrentHash else PendingHash]
  }

  /** The outcome of every run, by the first of its steps that fails. */
  lemma RunExactly(sx: Syntax, a: Authority, approved: string, w: World, m: Meeting)
    ensures var o, s := Rotate(sx, a, approved, w, m).outcome, w.store;
      if !Legible(sx, a) then o == PackageInvalid
      else if approved != a.rotationId then o == ApprovalInvalid
      else if !Loads(sx, s, m) then o == KeychainUnavailable
      else if !Preflight(sx, a, (s[CurrentPassword], s[CurrentHash]), (s[PendingPassword], s[PendingHash]), m)
      then o == PreflightRefused
      else if !m.stages then o == ApplyFailed
      else if m.job != RanHeard || !Matches(sx, a, w) then o == OutcomeUnknown
      else if !m.activates then o == ManualInterventionRequired
      else if !m.cleans then o == CleanupFailed
      else if a.payload.operation == "operator-password-inverse" then o == Completed
      else o == if Promote(sx.verify, s, true, m.promotion).outcome == Done then Completed else PromotionFailed
  {
    hide Promote, Preflight, Sha256Text;
    LegibleExactly(sx, a);
  }

  lemma LegibleExactly(sx: Syntax, a: Authority)
    ensures Legible(sx, a) <==> Readable(sx, a)
  {
    hide Sha256Text;
  }

  /** The preflight of a forward package is that it would be built afresh as it is; of an inverse, its own checks. */
  lemma PreflightMeans(sx: Syntax, a: Authority, current: Pair, pending: Pair, m: Meeting)
    ensures var p := a.payload;
      Preflight(sx, a, current, pending, m) <==>
        if p.operation == "operator-password-inverse"
        then RefusesInverse(sx, a, current, pending, Some(m.app)) == None
        else BuildForward(sx, current, pending, p.target.subscriptionId, p.target.resourceGroup, p.target.app,
                          p.source, p.parameters, m.app, m.healthy) == Ok(a)
  {
    hide Bound, TargetFine, BuildForward;
  }
}
