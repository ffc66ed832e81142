/**
 Concrete inputs on which the engine does not do what one might expect: a small but complete projection, the
 patch that turns the AI off in it, and a clock that raises after the service has accepted that patch; a start
 at the very revision that is created; a role the receipts do not know.
 */
module Counterexamples {
  import opened Wrappers
  import opened Patterns
  import opened Revision
  import opened RevisionLaws
  import opened Reconciliation
  import opened Enablement
  import opened EnablementLaws
  import opened EngineEvidence
  import opened ReconciliationLaws
  import opened Contract
  import opened Clock

  // ---- The input ----

  const SYNTAX := Syntax(s => s, s => s != "")

  const HEX: string := seq(64, _ => '0')
  const DIGEST: string := "sha256:" + HEX
  const PACKAGE := Package("app", HEX, "registry", "bizpulse", "/ai")
  const CONTEXT := Context(Some(DIGEST), None, None, None, None)
  const PATH: string := "registry" + ".azurecr.io/" + "bizpulse"
  const IMAGE: string := PATH + "@" + DIGEST

  function Sample(name: EnvName): Content {
    match name
    case OpenAiModel => Value(MODEL)
    case ReasoningEffort => Value("low")
    case RuntimeEnvironment => Value("cloud")
    case _ => match SecretOf(name) case Some(secret) => SecretRef(secret) case None => Value("1")
  }

  const UNTOUCHED_ROWS: seq<EnvRow> :=
    seq(|UNTOUCHED_NAMES|, i requires 0 <= i < |UNTOUCHED_NAMES| =>
      EnvRow(UNTOUCHED_NAMES[i], Sample(UNTOUCHED_NAMES[i])))
  const ENVIRONMENT: seq<EnvRow> := UNTOUCHED_ROWS + [EnvRow(ChatEnabled, Value("true"))]

  const PROJECTION := Projection(
    "eastus", "UserAssigned", map["/app" := Assigned],
    Template("r1", [Container("bizpulse", IMAGE, ENVIRONMENT, PROBES, RESOURCES)], SCALE))

  const CONFIGURATION := Configuration("Single", Json.Object(map[]), Json.Array([]))

  const START: Engine := Start("app--r1", PROJECTION, CONFIGURATION)

  // ---- It is valid ----

  lemma ImageIsReference()
    ensures CandidateImage(PACKAGE, CONTEXT) == Ok(IMAGE) && ImageReference(IMAGE)
  {
    hide ImageDigest, ImagePath, CandidateImage;
    DigestIsDigest();
    PathIsPath();
    ReferenceOf(PATH, DIGEST);
    ImageIsCandidate();
  }

  lemma ReferenceOf(path: string, digest: string)
    requires ImagePath(path) && ImageDigest(digest)
    ensures ImageReference(path + "@" + digest)
  {
    hide ImageDigest, ImagePath;
    var s := path + "@" + digest;
    assert |digest| == 71 by { DigestHasLength(digest); }
    assert s[|s| - 71..] == digest && s[..|s| - 72] == path && s[|s| - 72] == '@';
  }

  lemma DigestHasLength(digest: string)
    requires ImageDigest(digest)
    ensures |digest| == 71
  {
  }

  lemma ImageIsCandidate()
    ensures CandidateImage(PACKAGE, CONTEXT) == Ok(IMAGE)
  {
    hide ImageDigest;
    DigestIsDigest();
  }

  lemma DigestIsDigest()
    ensures |DIGEST| == 71 && DIGEST[..7] == "sha256:" && ImageDigest(DIGEST)
  {
    assert DIGEST[..7] == "sha256:" && DIGEST[7..] == HEX;
  }

  lemma PathIsPath()
    ensures ImagePath(PATH)
  {
    PathOf("registry", "bizpulse");
  }

  lemma PathOf(host: string, repository: string)
    requires 3 <= |host| <= 50 && 2 <= |repository| <= 128 && All(host, LowerAlnumDash) && LowerAlnum(host[0])
    requires All(repository, RepositoryChar) && LowerAlnum(repository[0])
    ensures ImagePath(host + ".azurecr.io/" + repository)
  {
    var path, n := host + ".azurecr.io/" + repository, |host|;
    assert path[..n] == host && path[n..n + 12] == ".azurecr.io/" && path[n + 12..] == repository;
    assert ImageSplit(path, n);
  }

  /** Where a name stands in the environment. */
  function Place(name: EnvName): int {
    match name
    case DatabaseUrl => 0
    case BlobConnectionString => 1
    case OperatorPasswordHash => 2
    case SessionPepper => 3
    case InsightsConnectionString => 4
    case AllowedOrigin => 5
    case DailyAttemptLimit => 6
    case GlobalAttemptLimit => 7
    case MaxConcurrentTurns => 8
    case MonthlyTokenLimit => 9
    case SessionAttemptLimit => 10
    case BlobContainer => 11
    case BlobEndpoint => 12
    case DemoSessionRateLimit => 13
    case OpenAiModel => 14
    case ReasoningEffort => 15
    case RuntimeEnvironment => 16
    case ChatEnabled => 17
    case _ => -1
  }

  lemma PlacesOfRows(i: nat)
    requires i < |ENVIRONMENT|
    ensures |ENVIRONMENT| == 18 && Place(ENVIRONMENT[i].name) == i
  {
    if i < 17 {
      assert ENVIRONMENT[i].name == UNTOUCHED_NAMES[i];
      PlacesOfNames(i);
    }
  }

  lemma PlacesOfNames(i: nat)
    requires i < 17
    ensures |UNTOUCHED_NAMES| == 17 && Place(UNTOUCHED_NAMES[i]) == i
  {
  }

  lemma RowIsValid(i: nat)
    requires i < |ENVIRONMENT|
    ensures ValidRow(ENVIRONMENT[i])
  {
    PlacesOfRows(i);
    SampleIsValid(ENVIRONMENT[i].name);
    assert i < 17 ==> ENVIRONMENT[i] == EnvRow(ENVIRONMENT[i].name, Sample(ENVIRONMENT[i].name));
  }

  lemma SampleIsValid(name: EnvName)
    requires Place(name) >= 0
    ensures ValidRow(EnvRow(name, Sample(name)))
  {
  }

  lemma EnvironmentIsValid()
    ensures ValidEnvironment(ENVIRONMENT)
  {
    hide ValidRow, SecretOf, Place, Sample;
    forall i | 0 <= i < |ENVIRONMENT|
      ensures ValidRow(ENVIRONMENT[i]) && Place(ENVIRONMENT[i].name) == i
    {
      PlacesOfRows(i);
      RowIsValid(i);
    }
    forall i | 0 <= i < |UNTOUCHED_NAMES|
      ensures Named(ENVIRONMENT, UNTOUCHED_NAMES[i])
    {
      assert ENVIRONMENT[i].name == UNTOUCHED_NAMES[i];
    }
    SwitchIsThere();
    PinsAreThere();
  }

  lemma SwitchIsThere()
    ensures ChatSwitched(ENVIRONMENT)
  {
    assert ENVIRONMENT[|UNTOUCHED_ROWS|] == EnvRow(ChatEnabled, Value("true"));
  }

  lemma PinsAreThere()
    ensures PinnedRows(ENVIRONMENT)
  {
    assert ENVIRONMENT[14] == EnvRow(OpenAiModel, Value(MODEL));
    assert ENVIRONMENT[15] == EnvRow(ReasoningEffort, Value("low"));
    assert ENVIRONMENT[16] == EnvRow(RuntimeEnvironment, Value("cloud"));
  }

  lemma IdentitiesAreValid()
    ensures ValidIdentities(SYNTAX, PROJECTION.identities) && OtherIdentity(SYNTAX, PROJECTION.identities, "/ai")
  {
    var ids := PROJECTION.identities;
    assert "/app" in ids && "/app"[2] != "/ai"[2];
  }

  lemma ProjectionIsValid()
    ensures ValidProjection(SYNTAX, PROJECTION)
  {
    hide ImageReference, ValidEnvironment, ValidIdentities;
    ImageIsReference();
    EnvironmentIsValid();
    IdentitiesAreValid();
    assert Location("eastus");
    assert RevisionSuffix("r1");
  }

  lemma SuffixIsValid()
    ensures RevisionSuffix(Suffix(PACKAGE, AiOff, IMAGE))
  {
    assert IMAGE == (PATH + "@sha256:") + HEX;
    assert PATH + "@sha256:" + HEX == IMAGE;
    AfterLastIsTail(PATH, "@sha256:", HEX);
    SuffixIs(PACKAGE, AiOff, IMAGE, "-" + HEX[..8] + "-" + HEX[..7]);
  }

  lemma PatchIsPrepared()
    ensures Prepare(SYNTAX, PACKAGE, START, false, AiOff, CONTEXT, false).Ok?
  {
    hide ValidProjection, ImageReference, RevisionSuffix, Canonical, PatchOf, CandidateImage;
    ImageIsReference();
    ProjectionIsValid();
    SuffixIsValid();
    IdentitiesAreValid();
    var s := SettingsFor(PACKAGE, CONTEXT, AiOff, IMAGE, false, false);
    PatchSucceeds(SYNTAX, PROJECTION, s);
    PatchClosure(SYNTAX, PROJECTION, s);
  }

  // ---- What happens ----

  /**
   The service accepts the patch, the clock raises, and the engine stands where it stood: at the old
   revision, with the old projection, and with no transition to reconcile.
   */
  lemma EngineMissesAcceptedPatch(role: Role, run: nat -> Cycle)
    ensures Apply(SYNTAX, PACKAGE, START, false, AiOff, role, CONTEXT, false, PatchWorld(PatchAccepted, None, run)) ==
            (START, Err(ForeignError))
  {
    PatchIsPrepared();
    AcceptedIsRecordedExactly(
      SYNTAX, PACKAGE, START, false, AiOff, role, CONTEXT, false, PatchWorld(PatchAccepted, None, run));
  }

  const ANSWERED := PatchWorld(PatchAccepted, Some(Seconds(0.0)), _ => UNREADABLE)
  const UNREADABLE := Cycle(Seconds(0.0), AppUnreadable, RevisionsUnreadable, Seconds(0.0), true, Seconds(0.0))

  /** The transition an accepted and timed patch creates from a start at this revision. */
  lemma TransitionFrom(revision: string, role: Role)
    requires AllowedRole(role)
    ensures var st := START.(revision := revision);
      var (after, r) := Apply(SYNTAX, PACKAGE, st, false, AiOff, role, CONTEXT, false, ANSWERED);
      r == Ok(RevisionOf(PACKAGE, AiOff, IMAGE)) && r.value in after.pending &&
      after.pending[r.value].role == role && after.pending[r.value].startedAt == Seconds(0.0) &&
      (ValidPending(after.pending[r.value]) <==>
       RevisionName(revision) && revision != RevisionOf(PACKAGE, AiOff, IMAGE))
  {
    hide Target, ImageReference, RevisionName;
    PatchIsPrepared();
    ImageIsReference();
    var st := START.(revision := revision);
    assert ValidConfiguration(CONFIGURATION);
    assert Prepare(SYNTAX, PACKAGE, st, false, AiOff, CONTEXT, false) ==
           Prepare(SYNTAX, PACKAGE, START, false, AiOff, CONTEXT, false);
    var ready := Prepare(SYNTAX, PACKAGE, START, false, AiOff, CONTEXT, false).value;
    NewTransitionValidExactly(SYNTAX, PACKAGE, st, false, AiOff, role, CONTEXT, false, ANSWERED, ready);
  }

  /** Started at the revision it is about to create, the engine creates a transition the reconciler refuses. */
  lemma OwnRevisionIsRefused(run: nat -> Cycle)
    ensures var revision := RevisionOf(PACKAGE, AiOff, IMAGE);
      var st := START.(revision := revision);
      var (after, r) := Apply(SYNTAX, PACKAGE, st, false, AiOff, AiDisabledCandidate, CONTEXT, false, ANSWERED);
      r.Ok? && Verify(after, revision, AiDisabledCandidate, IMAGE, run).Err?
  {
    hide Apply, RevisionOf, ValidPending;
    TransitionFrom(RevisionOf(PACKAGE, AiOff, IMAGE), AiDisabledCandidate);
  }

  /** Evidence in the role that only the reconciler knows fits no receipt, whatever text counts as prohibited. */
  lemma CandidateRoleFitsNoReceipt(prohibited: Evidence -> bool)
    ensures var after :=
        Apply(SYNTAX, PACKAGE, START, false, AiOff, AdminAiCompatibleCandidate, CONTEXT, false, ANSWERED).0;
      var revision := RevisionOf(PACKAGE, AiOff, IMAGE);
      revision in after.pending &&
      var v := Verdict(after.pending[revision], ANSWERED.run);
      v.Stopped? && !ValidEvidence(prohibited, v.evidence)
  {
    hide Apply, RevisionOf, ValidPending, Verdict;
    var revision := RevisionOf(PACKAGE, AiOff, IMAGE);
    assert START.(revision := "app--r1") == START;
    assert RevisionName("app--r1") && "app--r1" != revision by { StartIsForeign(); }
    TransitionFrom("app--r1", AdminAiCompatibleCandidate);
    var after :=
      Apply(SYNTAX, PACKAGE, START, false, AiOff, AdminAiCompatibleCandidate, CONTEXT, false, ANSWERED).0;
    var p := after.pending[revision];
    StopsUnread(p, prohibited);
  }

  lemma StartIsForeign()
    ensures RevisionName("app--r1") && "app--r1" != RevisionOf(PACKAGE, AiOff, IMAGE)
  {
    assert RevisionOf(PACKAGE, AiOff, IMAGE)[5] == 'a';
  }

  lemma StopsUnread(p: Pending, prohibited: Evidence -> bool)
    requires ValidPending(p) && p.startedAt == Seconds(0.0) && p.role == AdminAiCompatibleCandidate
    ensures var v := Verdict(p, ANSWERED.run);
      v.Stopped? && !ValidEvidence(prohibited, v.evidence)
  {
    assert StopsAt(p, ANSWERED.run, 0, ReadFailed);
    StoppedExactly(p, ANSWERED.run, ReadFailed);
    EvidenceFitsExactly(prohibited, p, ANSWERED.run);
  }
}
