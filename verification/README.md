# Verified model of the AI rollout, credential and release tooling

The scripts under `bizpulse/scripts` turn an AI feature of a hosted application on, in small steps that
can each fail, and always drive back to "AI off" when something goes wrong. This project models that
protocol in Dafny and proves what it keeps. Around it stand models of the neighbouring tools: the two-slot
operator credential and its rotation packages, the execution history of diagnostic jobs, the import closure
of a diagnostic package, the role migration, the release adapter, and the OCI archive check.

`dafny verify dfyconfig.toml` checks everything.

## How it is modelled

- **What changes in place is a class.** `EnablementActions.AzureAIEnablementActions`,
  `Keychain.OperatorRotationKeychain`, `ReleaseAdapter.AdminAIReleaseOperations` and
  `AdminBackend.AzureHostedAdminAIBackend` have the fields of their counterparts, and every method is proved
  to make exactly the step of a specification function. The laws are lemmas about those functions. Loops of
  the source are loops here, proved against functions or outright.
- **Exceptions** are `Err` values carrying the closed code of the source; any other exception is one value.
- **The outside world** (services, clocks, sleeps, the keychain backend, the file system) is a parameter: a
  record of what one call meets, or a function from the number of a turn to what that turn meets. Every law
  holds for all of them, so for every schedule of failures. A failing keychain write may or may not have taken effect.
- **Formats whose inner workings do not matter** (case folding, resource identifiers, SHA-256, JSON and tar
  decoding, password hashing) are function-valued parameters. A law that needs a hash to be free of collisions
  asks it of the very texts it speaks about, never of all texts.
- **Regular expressions that interact** (revision names, suffixes, digests, image references, failure codes)
  are spelled out character by character in `Patterns`, `EngineEvidence` and `Contract`. `Regex` defines what a full
  match of an expression is, and proves that each of these predicates is the full match of its own expression.
- **What a function means is stated apart from it.** The modules ending in `Rules` and `Outcomes` say on fields, texts
  and numbers alone when each operation succeeds, what it then leaves behind, and which code it fails with otherwise.

| file | subject |
|---|---|
| `Wrappers`, `Clock`, `Json`, `Patterns`, `Regex`, `Ordering` | results, clock readings, JSON with Merge Patch, text patterns and the expressions they stand for, sorting |
| `Revision`, `RevisionBuilder`, `RevisionLaws`, `RevisionRules`, `MergeLaw`, `Readback` | the patch of one revision: definition, loops, laws |
| `Reconciliation`, `ReconciliationLaws` | the bounded polling loop and the trace scan it refines |
| `ArmOperation` | one PATCH and its long-running operation |
| `Contract` | the progress machine and the receipt validators |
| `Enablement`, `EnablementActions`, `EnablementLaws`, `EngineEvidence`, `EngineOutcomes`, `ExecutorOutcomes`, `OrderedRuns`, `RunnerCheck`, `Counterexamples` | the rollout engine, its invariants over all runs, how each step and state ends, how it fits the other parts, the runner's check of its results, and concrete inputs |
| `Keychain`, `RotationAuthority`, `AuthorityRules`, `CredentialRotation` | the two-slot credential, the packages and jobs that rotate it, and what keeps a password for the stored hash at hand |
| `History`, `HistoryLaws`, `HistoryRules`, `ControlPaths`, `RoleMigration` | diagnostics and roles |
| `ReleaseAdapter`, `AdminBackend`, `ReleaseRun`, `AuditGap` | the release adapter, the audit chain, the log scan, runs of adapter and backend together, and a concrete one |
| `OciArtifact`, `OciLaws`, `OciRules` | the archive check |

## Where the code does not do what one might expect

Each of these is proved, with the exact condition, for all inputs.

- Patching twice gives the *same* target as patching once only if the AI identity is found under the same
  key; otherwise the two targets differ in the capitalisation of that one key
  (`RevisionLaws.LastWriteWins`). A disabling patch never has this exception.
- The release adapter marks the role reconciliation as done before it asks for it. A deployment is therefore
  let through exactly when the reconciliation was *attempted*, even if it failed
  (`ReleaseAdapter.DeploymentNeedsOnlyTheAttempt`; an input in `ReleaseAdapter.DeploysAfterFailedReconciliation`).
- After a promotion that could not restore the old pair, promoting again helps exactly when what is left in
  Current verifies (`Keychain.RetryAfterRestoreFailure`).
- The keychain tool discards a pending pair even when the database already stores its hash. Which steps lose
  the last password for the stored hash is given exactly, for every interleaving and every fault
  (`CredentialRotation.InterleavingExactly`; an input in `CredentialRotation.DiscardAfterForwardJob`); the runner of a
  rotation never does (`CredentialRotation.RotationNeverLoses`).
- The wait for a long-running operation ends exactly when some answer, reading or sleep is not that of a running
  operation (`ArmOperation.EndsExactly`); a clock that stands still is an input for which it never ends
  (`ArmOperation.StillClockWaitsForever`), one that advances by what is slept always ends it
  (`ArmOperation.AdvancingClockEnds`).
- The engine creates a transition the reconciler refuses exactly when the revision it stands at is badly
  named or is the very one being created, or the clock or the configuration is unusable
  (`EngineEvidence.NewTransitionValidExactly`; an input in `Counterexamples.OwnRevisionIsRefused`). In a run in order that
  starts, with a valid configuration, at a well-named revision no patch of the package could have created, and whose
  clock answers acknowledgements with non-negative numbers where it answers, every transition is one the reconciler
  takes (`OrderedRuns.EveryTransitionIsValid`).
- The engine's own resource deployer returns four outputs where the runner's check takes exactly three. With it no run
  ever gets past the resource state, and every attempt ends before a secret is written
  (`RunnerCheck.DefaultWiringStops`); the resource state passes exactly when the three expected outputs and no others
  are deployed (`RunnerCheck.PassesExactly`).
- The reconciler knows a role (`admin_ai_compatible_candidate`) that receipts do not, so its evidence fits a
  receipt exactly when the role is one of the contract's (`EngineEvidence.EvidenceFitsExactly`; an input in
  `Counterexamples.CandidateRoleFitsNoReceipt`).
- An accepted PATCH is recorded exactly when the clock then answers; when it raises, the service has been
  changed and the engine stands where it stood (`EnablementLaws.AcceptedIsRecordedExactly`; an input in
  `Counterexamples.EngineMissesAcceptedPatch`).
- A mutation of the admin control can move its revision and leave no record. It does so exactly when a rotation or a
  switching is answered in order but without a usable request id, or when another revision is read back after a
  rejected key, whatever its answer bears (`AdminBackend.ChainKeptExactly`; inputs in `AdminBackend.UnrecordedMutation` and
  `AdminBackend.UnrecordedRejection`). Over whole runs, second attempts included, the records stay chained exactly as long
  as no such answer is met (`ReleaseRun.ChainedExactly`), and the final audit does not notice the gap
  (`AuditGap.AuditHasGap`).
- The normal form of a role assignment holds a constant principal type, whatever type was observed: no type ever
  changes the outcome of the migration (`RoleMigration.TypesNeverMatter`; inputs in `RoleMigration.AnyTypePasses`).

## Model

| member | source | states |
|---|---|---|
| RevisionBuilder.ReadRows | bizpulse/scripts/azure_ai_revision.py:144-178 | a single pass decides whether all rows are valid and no name repeats, and keeps exactly the rows |
| RevisionBuilder.ValidateEnvironment | bizpulse/scripts/azure_ai_revision.py:144-190 | accepts exactly the environments with valid, unique rows, all required names and the pinned values |
| RevisionBuilder.FindIdentity | bizpulse/scripts/azure_ai_revision.py:385-392 | finds the identity key equal up to case, whatever order the keys come in |
| RevisionBuilder.RewriteEnvironment | bizpulse/scripts/azure_ai_revision.py:404-442 | the copying loop is the rewriting whose laws follow |
| RevisionBuilder.BuildPatch | bizpulse/scripts/azure_ai_revision.py:342-451 | the patch, or the error, for every projection and settings; what the patch then leads to is given member by member in RevisionRules.TargetIs |
| RevisionBuilder.CanonicalizeTarget | bizpulse/scripts/azure_ai_revision.py:454-471 | the popping loop removes exactly the deletion markers and then validates |
| RevisionLaws.RewriteElements | bizpulse/scripts/azure_ai_revision.py:404-442 | exactly which rows the rewritten environment holds |
| RevisionLaws.RewriteKeeps | bizpulse/scripts/azure_ai_revision.py:404-442 | rows that are not AI rows keep their values and their relative order |
| RevisionLaws.RewriteInPlace | bizpulse/scripts/azure_ai_revision.py:404-442 | the AI rows stand, in order, where the chat switch stood |
| RevisionLaws.RewriteTwice | bizpulse/scripts/azure_ai_revision.py:404-442 | a second rewriting forgets the first, ordered list included |
| RevisionLaws.RewriteDistinct | bizpulse/scripts/azure_ai_revision.py:404-442 | unique names stay unique |
| RevisionLaws.RewriteValid | bizpulse/scripts/azure_ai_revision.py:144-190 | a rewritten valid environment is valid |
| RevisionLaws.PatchClosure | bizpulse/scripts/azure_ai_revision.py:302-339 | every patch that is built canonicalises, to a valid projection |
| RevisionLaws.PatchSucceeds | bizpulse/scripts/azure_ai_revision.py:382-399 | patching fails exactly on bad input, or when disabling would leave no identity |
| RevisionLaws.TargetIdsAre | bizpulse/scripts/azure_ai_revision.py:393-397 | the identities of a target: those of the source without the AI identity, plus its key when enabled |
| RevisionLaws.IdentitiesTwice | bizpulse/scripts/azure_ai_revision.py:385-397 | the identity map after two patches equals that after the second alone, exactly when the key agrees |
| RevisionLaws.LastWriteWins | bizpulse/scripts/azure_ai_revision.py:342-471 | patching twice succeeds as patching once does, with the same target up to the case of one key, and exactly the same one if and only if the key agrees |
| RevisionLaws.DisablingForgets | bizpulse/scripts/azure_ai_revision.py:393-399 | a disabling patch undoes any earlier patch exactly |
| RevisionLaws.TargetAiRows | bizpulse/scripts/azure_ai_revision.py:405-440 | the AI rows of a target follow from the settings alone |
| RevisionRules.EnvironmentExactly | bizpulse/scripts/azure_ai_revision.py:144-190 | which environments are valid, on the names and contents of the rows: secret rows refer to their own secret, the pinned rows hold their value |
| RevisionRules.ProjectionExactly | bizpulse/scripts/azure_ai_revision.py:193-339 | which projections are valid, member by member |
| RevisionRules.PatchRefusals | bizpulse/scripts/azure_ai_revision.py:342-399 | exactly when a patch is refused, and for which of the two reasons |
| RevisionRules.TargetExactly | bizpulse/scripts/azure_ai_revision.py:342-471 | exactly which projections and settings have a target |
| RevisionRules.TargetIs | bizpulse/scripts/azure_ai_revision.py:443-451 | all of a target: suffix and image of the settings, the AI rows and the AI identity as the settings say, every other row, identity and member as it was |
| RevisionRules.CanonicalExactly | bizpulse/scripts/azure_ai_revision.py:454-471 | which patches canonicalise, and to what, for any patch at all |
| MergeLaw.MergeIdentities | bizpulse/scripts/azure_ai_revision.py:466-470 | deletion markers are what section 2 of RFC 7396 makes of null |
| MergeLaw.PatchIsMergePatch | bizpulse/scripts/azure_ai_revision.py:342-471 | the canonical target is the source with the patch applied under section 2 of RFC 7396 |
| Readback.ReadbackExact | bizpulse/scripts/azure_ai_revision.py:232-299 | the readbacks that canonicalise to a template are its two decorations and no others |
| Regex.ImageReferenceMatches | bizpulse/scripts/azure_ai_revision.py:11-14 | an image reference is a full match of the image expression, wherever its registry name ends |
| Regex.RevisionSuffixMatches | bizpulse/scripts/azure_ai_revision.py:15 | revision suffixes are the full matches of their expression |
| Regex.LocationMatches | bizpulse/scripts/azure_ai_revision.py:16 | locations are the full matches of theirs |
| Regex.VaultUrlMatches | bizpulse/scripts/azure_ai_revision.py:23-25 | vault URLs are the full matches of theirs |
| Regex.CanonicalUuid4Matches | bizpulse/scripts/azure_ai_revision.py:123-130 | canonical version-4 identifiers, as one expression |
| Regex.RevisionNameMatches | bizpulse/scripts/azure_ai_reconciliation.py:33 | revision names are the full matches of their expression |
| Regex.ImageDigestMatches | bizpulse/scripts/ai_enablement_contract.py:59 | image digests are the full matches of theirs |
| Regex.ResourceNameMatches | bizpulse/scripts/ai_enablement_contract.py:60 | resource names are the full matches of theirs |
| Regex.FailureCodeMatches | bizpulse/scripts/ai_enablement_contract.py:63 | failure codes are the full matches of theirs |
| Regex.ReferenceTextMatches | bizpulse/scripts/admin_ai_oci_artifact.py:19 | reference names are the full matches of theirs |
| Reconciliation.Observe | bizpulse/scripts/azure_ai_reconciliation.py:340-446 | one cycle observes what the scan says, and lists revisions only once the target is announced |
| Reconciliation.RunCycle | bizpulse/scripts/azure_ai_reconciliation.py:328-472 | one pass of the loop goes on exactly after a quiet cycle, and otherwise gives the verdict of that cycle |
| Reconciliation.Poll | bizpulse/scripts/azure_ai_reconciliation.py:321-474 | the loop returns, from inside, the verdict of the first cycle that is not quiet; reads and sleeps are bounded |
| Reconciliation.Reconcile | bizpulse/scripts/azure_ai_reconciliation.py:310-474 | the polling loop refines the trace scan; revision reads are at most application reads, these at most 25, and at most 120 seconds are slept |
| ReconciliationLaws.LookIsHealthy | bizpulse/scripts/azure_ai_reconciliation.py:269-276 | a cycle finds the target healthy exactly when configuration, projection, latest, ready, active, health and provisioning all agree in it |
| ReconciliationLaws.FindingExactly | bizpulse/scripts/azure_ai_reconciliation.py:359-430 | every finding of a cycle on what was read in it: configuration, projection, the two announced revisions, the provisioning states and the rows, under the priority of the checks |
| ReconciliationLaws.ViewExactly | bizpulse/scripts/azure_ai_reconciliation.py:359-391 | a view is broken, drifts or announces the target exactly by its fields: neither revision may be a stranger, and the target revision may not come with the old projection |
| ReconciliationLaws.ConfirmedExactly | bizpulse/scripts/azure_ai_reconciliation.py:328-446 | confirmation happens if and only if, after fewer than 25 quiet cycles, a cycle begun in time proves the target in full |
| ReconciliationLaws.StoppedExactly | bizpulse/scripts/azure_ai_reconciliation.py:221-474 | each failure is raised if and only if, after fewer than 25 quiet cycles, a cycle ends in it: by its finding, by time or cycles running out, or by a failing sleep |
| ReconciliationLaws.EqualProjectionsNeverConfirmed | bizpulse/scripts/azure_ai_reconciliation.py:271-276 | a transition to its own predecessor is never confirmed |
| ReconciliationLaws.VerdictEvidence | bizpulse/scripts/azure_ai_reconciliation.py:195-239 | evidence is bounded, speaks of this transition and of the digest of its target image, and is healthy exactly when returned rather than raised |
| ReconciliationLaws.EvidenceCounts | bizpulse/scripts/azure_ai_reconciliation.py:328-461 | the counts in the evidence are the reads begun in time, a late start is a timeout, and the time is the elapsed one up to 120 seconds |
| ReconciliationLaws.RevisionReadsAre | bizpulse/scripts/azure_ai_reconciliation.py:392-394 | one revision list is counted for each cycle that found the target announced, and for no other |
| ArmOperation.OnePatch | bizpulse/scripts/azure_arm_lro.py:154-157 | the PATCH is sent first and once; all else are GETs of the same URL |
| ArmOperation.CompletesExactly | bizpulse/scripts/azure_arm_lro.py:162-202 | the wait completes exactly on a matching 200 or 201 response to the PATCH, or a matching succeeded GET |
| ArmOperation.FailsExactly | bizpulse/scripts/azure_arm_lro.py:108-128 | the wait ends as a failed operation exactly when a request raises that code, or a matching GET reports failed, canceled or cancelled, after turns of a running operation only |
| ArmOperation.DelayExactly | bizpulse/scripts/azure_arm_lro.py:81-90 | the delay of a response, on its header: 5 without one, the number it holds from 1 to 15, and none otherwise |
| ArmOperation.SleptIsElapsed | bizpulse/scripts/azure_arm_lro.py:81-105 | under an advancing clock every turn sleeps a second or more, and all that is slept has elapsed |
| ArmOperation.GetsAreBounded | bizpulse/scripts/azure_arm_lro.py:189-193 | only the first 299 turns can send a GET |
| ArmOperation.RunIsBounded | bizpulse/scripts/azure_arm_lro.py:179-209 | at most 299 GETs and at most 300 seconds slept |
| ArmOperation.AsleepExactly | bizpulse/scripts/azure_arm_lro.py:108-209 | the wait goes on for exactly as long as the opening is a 202 and every turn a 202 or a matching 200 in one of the five running states, in time and with time left to sleep |
| ArmOperation.EndsExactly | bizpulse/scripts/azure_arm_lro.py:189-209 | the wait is over at some time if and only if the opening or some turn is not of that kind |
| ArmOperation.BadReadingEnds | bizpulse/scripts/azure_arm_lro.py:93-105 | any reading at the start of a turn that is unusable, behind the start or past the budget ends the wait |
| ArmOperation.AdvancingClockEnds | bizpulse/scripts/azure_arm_lro.py:189-209 | a clock that advances by what is slept ends the wait within 300 turns |
| ArmOperation.StillClockWaitsForever | bizpulse/scripts/azure_arm_lro.py:189-209 | an input, with a clock that stands still, for which the wait never ends |
| ArmOperation.WaitForArmPatch | bizpulse/scripts/azure_arm_lro.py:131-209 | whenever the wait has an end, the loop finds it, with the outcome, requests and sleeps of the turn sequence; under an advancing clock within both bounds |
| Contract.AdvanceExactly | bizpulse/scripts/ai_enablement_contract.py:366-398 | an advance is accepted exactly at a position of the order with the report due there, under a contract of the current form, and leads to the next position; which of the two codes refuses it otherwise |
| Contract.BegunExactly | bizpulse/scripts/ai_enablement_contract.py:345-363 | a contract is begun exactly when it is of the current form with valid anchors |
| Contract.RunIsDue | bizpulse/scripts/ai_enablement_contract.py:366-398 | every accepted run is the unique in-order path |
| Contract.DueRuns | bizpulse/scripts/ai_enablement_contract.py:345-398 | the in-order path is accepted from every position |
| Contract.AcceptedIsReachable | bizpulse/scripts/ai_enablement_contract.py:345-398 | progress is accepted for some next input if and only if it is reachable from the initial progress |
| Contract.PackagesDoNotMix | bizpulse/scripts/ai_enablement_contract.py:288-294 | progress of one package advances another if and only if both are sound and their resume tokens at that position are the same |
| Contract.ReceiptListExactly | bizpulse/scripts/ai_enablement_contract.py:401-453 | exactly which lists of evidence a receipt takes, on the fields of each piece and the role of its place |
| Contract.FailedAttemptExactly | bizpulse/scripts/ai_enablement_contract.py:551-613 | exactly which failed attempts get a receipt, part by part |
| EnablementActions.AzureAIEnablementActions.AzureRevalidator | bizpulse/scripts/azure_ai_enablement_actions.py:1098-1120 | the state after the read-only revalidation, for every way it can end |
| EnablementActions.AzureAIEnablementActions.PrepareRevision | bizpulse/scripts/azure_ai_enablement_actions.py:1251-1288 | what is computed before anything is sent, and with which error it fails |
| EnablementActions.AzureAIEnablementActions.Patch | bizpulse/scripts/azure_ai_enablement_actions.py:1289-1314 | acknowledgement and bookkeeping change the state as specified |
| EnablementActions.AzureAIEnablementActions.ApplyRevision | bizpulse/scripts/azure_ai_enablement_actions.py:1242-1314 | one revision applied is the specified step |
| EnablementActions.AzureAIEnablementActions.VerifyRevision | bizpulse/scripts/azure_ai_enablement_actions.py:1904-2059 | only a pending entry of the same role and image is reconciled; its verdict becomes the result |
| EnablementActions.AzureAIEnablementActions.ReconcileRevision | bizpulse/scripts/azure_ai_enablement_actions.py:1316-1337 | the entry is forgotten whatever comes out |
| EnablementActions.AzureAIEnablementActions.RecoverDisabled | bizpulse/scripts/azure_ai_enablement_actions.py:1339-1421 | one recovery is the specified step |
| EnablementActions.AzureAIEnablementActions.RecoverFromEmergency | bizpulse/scripts/azure_ai_enablement_actions.py:1423-1438 | recovery only after an attempted real write |
| EnablementActions.AzureAIEnablementActions.RunRehearsal | bizpulse/scripts/azure_ai_enablement_actions.py:2185-2270 | enabled half, recovery, and the precedence of their failures |
| EnablementActions.AzureAIEnablementActions.OperationExecutor | bizpulse/scripts/azure_ai_enablement_actions.py:2112-2332 | every state of the executor is the specified step |
| EnablementLaws.ReadyExactlyWhenRead | bizpulse/scripts/azure_ai_enablement_actions.py:1098-1120 | until the authority has been read in full no patch is sent and no recovery begun, even if the configuration is already stored |
| EnablementLaws.ApplyIsAllOrNothing | bizpulse/scripts/azure_ai_enablement_actions.py:1289-1314 | applying a revision either raises and changes nothing, or returns having added one transition, to the computed target |
| EnablementLaws.AcceptedIsRecordedExactly | bizpulse/scripts/azure_ai_enablement_actions.py:1298-1314 | an accepted patch is recorded if and only if the clock then answers |
| EnablementLaws.ReconciledOnce | bizpulse/scripts/azure_ai_enablement_actions.py:1325-1334 | a pending entry is consumed whatever happens and never confirmed again |
| EnablementLaws.ApplyKeepsChain | bizpulse/scripts/azure_ai_enablement_actions.py:1276-1313 | accepted patches stay an unbroken chain of revisions and projections, ending where the engine stands |
| EnablementLaws.RecoverLands | bizpulse/scripts/azure_ai_enablement_actions.py:1357-1416 | a recovery that does not raise ends at the disabled target of where it started |
| EnablementLaws.FinalAssignmentIsNoOp | bizpulse/scripts/azure_ai_enablement_actions.py:1416 | its last assignment changes nothing |
| EnablementLaws.OverwriteIsAttempted | bizpulse/scripts/azure_ai_enablement_actions.py:1347-1401 | a requested overwrite is attempted, exactly once, if and only if the recovery has a target to aim at |
| EnablementLaws.DisablingUnderAnyLabel | bizpulse/scripts/azure_ai_enablement_actions.py:1237-1240 | where disabling succeeds under one label, it does under every other |
| EnablementLaws.EmergencyOverwrites | bizpulse/scripts/azure_ai_enablement_actions.py:1423-1438 | in any run whose AI-off activation succeeded, an emergency recovery with the same image attempts the overwrite |
| EnablementLaws.PatchRecoversLike | bizpulse/scripts/azure_ai_enablement_actions.py:1357-1366 | no patch moves the place where a later recovery lands |
| EnablementLaws.RecoverLandsFromStart | bizpulse/scripts/azure_ai_enablement_actions.py:1339-1421 | a recovery at any later time lands where it would have from the start |
| EnablementLaws.RehearsalSettles | bizpulse/scripts/azure_ai_enablement_actions.py:2185-2270 | whatever ends the enabled half, a recovery that does not raise leaves the disabled target of the starting projection |
| EnablementLaws.ExecuteKeeps | bizpulse/scripts/azure_ai_enablement_actions.py:2112-2332 | every executor call, failed or not, keeps chain and landing place |
| EnablementLaws.CallsKeep | bizpulse/scripts/azure_ai_enablement_actions.py:2112-2332 | so does any sequence of calls in any order |
| EnablementLaws.EmergencyAlwaysSettles | bizpulse/scripts/azure_ai_enablement_actions.py:1423-1438 | after any run, an emergency recovery that does not raise lands at the disabled target of the projection the run began with |
| EngineOutcomes.PreparedExactly | bizpulse/scripts/azure_ai_enablement_actions.py:1251-1288 | when a patch is prepared, on context and projection, and the code of every other case in the order of the checks |
| EngineOutcomes.ApplyExactly | bizpulse/scripts/azure_ai_enablement_actions.py:1242-1314 | a patch is applied exactly when it is prepared, acknowledged and timed; every field of the transition it records, under the revision whose suffix its own target carries |
| EngineOutcomes.VerifyExactly | bizpulse/scripts/azure_ai_enablement_actions.py:1904-2059 | a verification succeeds exactly when its entry is pending in its role and for its image and the target is observed; how it fails otherwise |
| EngineOutcomes.RecoverExactly | bizpulse/scripts/azure_ai_enablement_actions.py:1339-1421 | a recovery succeeds exactly when its patch is sent and observed and a requested overwrite goes through; what it leaves and which evidence its failure keeps otherwise |
| EngineOutcomes.EnabledHalfExactly | bizpulse/scripts/azure_ai_enablement_actions.py:2189-2217 | the enabled half succeeds exactly when its patch is sent and observed and the browser passes; the first of these to fail gives its failure |
| EngineOutcomes.RehearseExactly | bizpulse/scripts/azure_ai_enablement_actions.py:2185-2270 | a rehearsal succeeds exactly when both halves do; otherwise a failure of the recovery comes first, then that of the enabled half, a foreign one as a failed browser check |
| EngineOutcomes.RehearsalSucceedsExactly | bizpulse/scripts/azure_ai_enablement_actions.py:2185-2270 | the success of a rehearsal on what it is given and meets: both patches can be built from the projection it starts at, are acknowledged and timed, both transitions are observed, and the browser passes |
| ExecutorOutcomes.UnboundedIsRefused | bizpulse/scripts/azure_ai_enablement_actions.py:2112-2123 | an environment or a secret given to any other state than its own is refused before anything is done |
| ExecutorOutcomes.PublicationExactly | bizpulse/scripts/azure_ai_enablement_actions.py:2124-2137 | publication passes exactly on a digest of the due form |
| ExecutorOutcomes.ResourcesExactly | bizpulse/scripts/azure_ai_enablement_actions.py:2171-2184 | the resource state passes exactly when the deployer does; its own failures are kept, others get one code |
| ExecutorOutcomes.QualificationExactly | bizpulse/scripts/azure_ai_enablement_actions.py:2271-2285 | the qualification passes exactly with a nonempty deployment key and twelve paid calls |
| ExecutorOutcomes.RealWriteExactly | bizpulse/scripts/azure_ai_enablement_actions.py:2286-2290 | the real secret is written exactly when there is one |
| ExecutorOutcomes.SmokeExactly | bizpulse/scripts/azure_ai_enablement_actions.py:2322-2329 | the hosted check passes exactly when the browser does |
| ExecutorOutcomes.ActivationExactly | bizpulse/scripts/azure_ai_enablement_actions.py:2138-2303 | an activation succeeds exactly when its patch is sent; its output names the revision of the transition it records |
| ExecutorOutcomes.VerificationExactly | bizpulse/scripts/azure_ai_enablement_actions.py:2151-2321 | exactly when the two verification states succeed, which entry they consume, and the one code of their failures |
| ExecutorOutcomes.RehearsalExactly | bizpulse/scripts/azure_ai_enablement_actions.py:2185-2270 | exactly when the two rehearsal states succeed, with their own labels and roles, and the two transitions they leave |
| ExecutorOutcomes.FailedRehearsal | bizpulse/scripts/azure_ai_enablement_actions.py:2185-2270 | with which failure a rehearsal state ends, and from which engine its recovery started |
| ExecutorOutcomes.EmergencyExactly | bizpulse/scripts/azure_ai_enablement_actions.py:1423-1438 | exactly when an emergency recovery succeeds; without an attempted write it does nothing |
| ExecutorOutcomes.RevalidationExactly | bizpulse/scripts/azure_ai_enablement_actions.py:1098-1120 | every field after a revalidation of any engine, and when it passes |
| EngineEvidence.RevisionIsNamed | bizpulse/scripts/azure_ai_enablement_actions.py:1237-1240 | revisions the engine creates have names the reconciler takes |
| EngineEvidence.NewTransitionValidExactly | bizpulse/scripts/azure_ai_reconciliation.py:124-174 | exactly when a new transition passes the reconciler's own contract |
| EngineEvidence.AcceptedMeansCompleted | bizpulse/scripts/azure_ai_enablement_actions.py:1455-1486 | behind every accepted transition stands an operation reported complete |
| EngineEvidence.RecoveryIsObserved | bizpulse/scripts/azure_ai_enablement_actions.py:1374-1421 | a recovery that does not raise has created one transition whose target its own polling has proven in full, after quiet cycles only; the engine holds that target, and AI is off in it |
| EngineEvidence.EvidenceFitsExactly | bizpulse/scripts/ai_enablement_contract.py:401-436 | evidence of the reconciler fits a receipt exactly when its role is known there and it holds no prohibited text |
| EngineEvidence.ExecutedEvidence | bizpulse/scripts/azure_ai_enablement_actions.py:2151-2321 | a state that succeeds reports healthy evidence for exactly its own roles, in order |
| EngineEvidence.GatheredRoles | bizpulse/scripts/azure_ai_enablement_actions.py:2112-2332 | so does any run of states |
| EngineEvidence.RolesInOrder | bizpulse/scripts/ai_enablement_contract.py:26-93 | the roles of the states in order are a prefix of the receipt's roles, complete at the end |
| EngineEvidence.EvidenceIsAReceiptPrefix | bizpulse/scripts/ai_enablement_contract.py:439-453 | the evidence gathered by any prefix of a run is a list a failed receipt takes, and after all states the complete list |
| OrderedRuns.RevisionsDiffer | bizpulse/scripts/azure_ai_enablement_actions.py:1237-1240 | patches under different labels never create the same revision |
| OrderedRuns.ApplyInOrder | bizpulse/scripts/azure_ai_enablement_actions.py:1276-1314 | a patch under a label not yet used leaves a valid transition |
| OrderedRuns.RunInOrder | bizpulse/scripts/azure_ai_enablement_actions.py:2112-2332 | along a run in order, all transitions so far are valid and the engine stands at a revision of an earlier label |
| OrderedRuns.EveryTransitionIsValid | bizpulse/scripts/azure_ai_reconciliation.py:124-174 | in a run in order from a revision of another package, cut off anywhere and recovered or not, every transition passes the reconciler's contract |
| OrderedRuns.ClosedCodeIsCode | bizpulse/scripts/run_ai_enablement.py:445-450 | whatever exception ended a run, the code reported has the form of a failure code, and is its own where it had that form |
| OrderedRuns.FailedRunHasReceipt | bizpulse/scripts/ai_enablement_contract.py:551-613 | whatever a failed run reports, with any exception, and with or without an emergency recovery that may itself raise, is a receipt the contract takes |
| RunnerCheck.OutputsExactly | bizpulse/scripts/run_ai_enablement.py:189-338 | of all outputs whatever, the ones that pass the check of each state, written down whole |
| RunnerCheck.PassesExactly | bizpulse/scripts/run_ai_enablement.py:189-338 | a successful result of the executor passes the runner's check exactly on a well-formed digest, the three expected resource outputs and evidence free of prohibited text, each where it applies |
| RunnerCheck.PassedRunReports | bizpulse/scripts/run_ai_enablement.py:541-603 | what a run that the runner let go on has gathered is a list its receipts take, with no assumption about prohibited text |
| RunnerCheck.DefaultWiringStops | bizpulse/scripts/run_ai_enablement.py:263-281 | with the engine's own deployer at most the three states before the resource state pass, and no secret has been written by then |
| Counterexamples.EngineMissesAcceptedPatch | bizpulse/scripts/azure_ai_enablement_actions.py:1289-1314 | an input whose patch is accepted and never recorded |
| Counterexamples.OwnRevisionIsRefused | bizpulse/scripts/azure_ai_reconciliation.py:124-174 | an input whose transition the reconciler refuses |
| Counterexamples.CandidateRoleFitsNoReceipt | bizpulse/scripts/ai_enablement_contract.py:83-93 | an input whose evidence fits no receipt |
| Keychain.NewPairAlwaysIntact | bizpulse/scripts/operator_rotation_keychain.py:456-485 | at every intermediate store the new pair is intact in Pending or in Current |
| Keychain.CurrentIsOldOrNew | bizpulse/scripts/operator_rotation_keychain.py:461-482 | each half of Current is the old or the new one at all times |
| Keychain.OutcomeMeans | bizpulse/scripts/operator_rotation_keychain.py:456-485 | what each outcome guarantees of both pairs |
| Keychain.OutcomeExactly | bizpulse/scripts/operator_rotation_keychain.py:461-485 | which backend failures lead to which outcome |
| Keychain.RefusalExactly | bizpulse/scripts/operator_rotation_keychain.py:456-459 | a promotion writes exactly when the rotation id is valid and both pairs can be read and verify; the exact condition of every refusal, in order, each of which touches nothing |
| Keychain.PromotedStore | bizpulse/scripts/operator_rotation_keychain.py:461-485 | slot by slot, what a promotion leaves behind |
| Keychain.StagingExactly | bizpulse/scripts/operator_rotation_keychain.py:425-438 | how staging ends, and what it leaves, under every fault |
| Keychain.DiscardingExactly | bizpulse/scripts/operator_rotation_keychain.py:487-489 | how discarding ends, and what it leaves, under every fault |
| Keychain.CurrentChangesOnlyByPromotion | bizpulse/scripts/operator_rotation_keychain.py:425-489 | Current changes only to a verified Pending pair |
| Keychain.CurrentStaysVerified | bizpulse/scripts/operator_rotation_keychain.py:425-489 | over every sequence of operations and failures Current stays verified until a restore fails |
| Keychain.RetryAfterRestoreFailure | bizpulse/scripts/operator_rotation_keychain.py:456-485 | after a failed restore a retry succeeds exactly when what is left in Current verifies |
| Keychain.StageThenPromote | bizpulse/scripts/operator_rotation_keychain.py:425-485 | without failures the staged password and its hash become current |
| Keychain.OperatorRotationKeychain.PreparePending | bizpulse/scripts/operator_rotation_keychain.py:425-438 | staging passes exactly the specified stores |
| Keychain.OperatorRotationKeychain.PromotePending | bizpulse/scripts/operator_rotation_keychain.py:456-485 | promotion passes exactly the specified stores |
| Keychain.OperatorRotationKeychain.DiscardPending | bizpulse/scripts/operator_rotation_keychain.py:487-489 | discarding passes exactly the specified stores |
| RotationAuthority.BuiltForwardIsAccepted | bizpulse/scripts/generate_operator_rotation_authority.py:103-174 | a forward package that is built is one an inverse may be built from, exactly as long as its digests have the form of SHA-256 texts |
| RotationAuthority.PreflightExactly | bizpulse/scripts/generate_operator_rotation_authority.py:534-619 | which later pairs and application readings an inverse passes its preflight with |
| RotationAuthority.RotationIdNamesOne | bizpulse/scripts/generate_operator_rotation_authority.py:805-808 | two packages of one rotation id are one package, or exhibit a collision of the digest |
| RotationAuthority.PromotionClosesInverse | bizpulse/scripts/generate_operator_rotation_authority.py:599-608 | once the pending pair is promoted the inverse is refused |
| AuthorityRules.ForwardExactly | bizpulse/scripts/generate_operator_rotation_authority.py:103-174 | exactly when a forward package is built, what it then says field by field, and the code of every other input in the order of the checks |
| AuthorityRules.ForwardRefusalExactly | bizpulse/scripts/generate_operator_rotation_authority.py:456-531 | exactly which forward packages may be inverted, and the code of every other |
| AuthorityRules.InverseExactly | bizpulse/scripts/generate_operator_rotation_authority.py:177-239 | exactly when an inverse is built, what it then says, and the code of every other input |
| AuthorityRules.InverseRefusalExactly | bizpulse/scripts/generate_operator_rotation_authority.py:534-619 | exactly which inverses pass their preflight, and the code of every other |
| AuthorityRules.RunExactly | bizpulse/scripts/run_operator_rotation.py:1001-1120 | the outcome of every run of the runner, by the first of its steps that fails |
| RotationAuthority.LastJobWins | bizpulse/src/repositories/operators.py:207-261 | forward and inverse jobs in any order and number leave a known stored hash as the last job wants it, and never touch any other |
| AuthorityRules.JobExactly | bizpulse/src/repositories/operators.py:207-261 | what a guarded job reports and leaves: a hash other than the expected one is never touched |
| CredentialRotation.RotationNeverLoses | bizpulse/scripts/run_operator_rotation.py:1001-1120 | at every moment of a run of the runner, whatever fails, a keychain pair verifies the stored hash if one did before |
| CredentialRotation.CompletedRotation | bizpulse/scripts/run_operator_rotation.py:1037-1107 | after a completed rotation Current verifies the stored hash; a forward one has promoted the pending pair, an inverse has left the keychain alone |
| CredentialRotation.CompletedExactly | bizpulse/scripts/run_operator_rotation.py:1001-1120 | exactly which runs complete, on the package, the pairs, the readings and the job |
| CredentialRotation.UnapprovedTouchesNothing | bizpulse/scripts/run_operator_rotation.py:1001-1036 | without approval, both pairs and the preflight, neither database nor keychain changes |
| CredentialRotation.KeepsExactly | bizpulse/scripts/operator_rotation_keychain.py:425-489 | exactly when staging, promoting, discarding or a guarded job leaves a pair for the stored hash, under every fault |
| CredentialRotation.InterleavingExactly | bizpulse/scripts/operator_rotation_keychain.py:425-489 | exactly which interleavings of keychain operations, guarded jobs and rotations never lose the credential |
| CredentialRotation.DiscardAfterForwardJob | bizpulse/scripts/operator_rotation_keychain.py:487-489 | discarding after the forward job loses it exactly when the first removal takes effect, and not after the inverse job |
| History.ParseRows | bizpulse/scripts/deployed_release_diagnostic_contract.py:311-325 | the reading loop, with its first error |
| History.DivideRows | bizpulse/scripts/deployed_release_diagnostic_contract.py:336-362 | the dividing loop |
| History.EvaluateHistory | bizpulse/scripts/deployed_release_diagnostic_contract.py:278-371 | the whole evaluation, with its error codes |
| HistoryLaws.ParseAllExactly | bizpulse/scripts/deployed_release_diagnostic_contract.py:243-275 | reading succeeds exactly on well-formed rows in the past with unique names |
| HistoryLaws.DivideConserves | bizpulse/scripts/deployed_release_diagnostic_contract.py:336-362 | dividing loses and invents nothing |
| HistoryLaws.AcceptedExactly | bizpulse/scripts/deployed_release_diagnostic_contract.py:278-371 | acceptance holds if and only if one valid bound execution gives every other row its place |
| HistoryLaws.ReportIsPartition | bizpulse/scripts/deployed_release_diagnostic_contract.py:336-371 | bound, historical and later rows are a permutation of the input, each of its kind |
| HistoryLaws.ReportIsOrdered | bizpulse/scripts/deployed_release_diagnostic_contract.py:364-371 | both lists are sorted, and manual jobs have no later rows |
| HistoryLaws.RowOrderIsIrrelevant | bizpulse/scripts/deployed_release_diagnostic_contract.py:311-371 | an accepted history is accepted in every row order, with the same report |
| HistoryRules.HistoryExactly | bizpulse/scripts/deployed_release_diagnostic_contract.py:243-371 | exactly which histories are accepted, on the rows: all well formed and past, one bound execution, every other row ended by its start or, for scheduled jobs, started at or after its end and succeeded or still running in time |
| HistoryRules.ReportExactly | bizpulse/scripts/deployed_release_diagnostic_contract.py:336-371 | what the report of an accepted history holds, on the rows, in the order of starting second and name |
| HistoryRules.FirstBadDecides | bizpulse/scripts/deployed_release_diagnostic_contract.py:243-325 | the first row that cannot be taken decides the code, and which rows are blamed on the bound execution |
| HistoryRules.RefusedThough | bizpulse/scripts/deployed_release_diagnostic_contract.py:326-362 | with all rows taken, the code tells a missing bound execution from rows without a place |
| HistoryRules.QueryRefused | bizpulse/scripts/deployed_release_diagnostic_contract.py:291-310 | an unusable query is refused whatever the rows |
| Ordering.TextLeExactly | bizpulse/scripts/deployed_release_diagnostic_contract.py:364-371 | the order of names is that of their first difference |
| ControlPaths.ClosureIsUnique | bizpulse/scripts/create_deployed_release_diagnostic_package.py:194-219 | only one list can be the closure, so iteration order cannot show |
| ControlPaths.Close | bizpulse/scripts/create_deployed_release_diagnostic_package.py:198-212 | the worklist terminates on every import graph, cyclic ones included, with exactly the reachable files |
| ControlPaths.DiscoverControlPaths | bizpulse/scripts/create_deployed_release_diagnostic_package.py:194-219 | succeeds exactly when everything reachable and bound is there, and returns it sorted and without duplicates |
| RoleMigration.AddBatch | bizpulse/scripts/azure_ai_enablement_actions.py:245-268 | one batch on top of those before it |
| RoleMigration.CompleteSet | bizpulse/scripts/azure_ai_enablement_actions.py:234-268 | merging fails exactly on malformed rows or two forms under one folded id, and else yields the set of all normal forms |
| RoleMigration.MergeIgnoresBatching | bizpulse/scripts/azure_ai_enablement_actions.py:234-268 | order, duplication and batching of the rows do not matter |
| RoleMigration.NormalFormsAgree | bizpulse/scripts/azure_ai_enablement_actions.py:214-231 | two rows have one normal form exactly when four fields agree up to case; the principal type is not one of them |
| RoleMigration.TypesNeverMatter | bizpulse/scripts/azure_ai_enablement_actions.py:1842-1887 | no principal type in any row changes whether the migration succeeds |
| RoleMigration.AnyTypePasses | bizpulse/scripts/azure_ai_enablement_actions.py:1885-1887 | inputs: one officer row of any principal type, for which the migration succeeds |
| RoleMigration.Migrate | bizpulse/scripts/azure_ai_enablement_actions.py:1842-1902 | returns exactly when the officer's assignment alone is finally seen; deletes the legacy one exactly after seeing officer and legacy assignment in the phase that has both, or when the two are one; and the conditions of its codes |
| ReleaseAdapter.AdminAIReleaseOperations.Run | bizpulse/scripts/admin_ai_release_operations.py:135-165 | one state attempted is the specified step |
| ReleaseAdapter.AdminAIReleaseOperations.ReconcileAdminAiSecretAccess | bizpulse/scripts/admin_ai_release_operations.py:167-185 | one reconciliation is the specified step |
| ReleaseAdapter.AttemptExactly | bizpulse/scripts/admin_ai_release_operations.py:135-165 | no code is returned exactly when the state was due, with a fitting secret and after any reconciliation it needs, and the backend answered with evidence; every other code by its condition, and all fields |
| ReleaseAdapter.ReconcileExactly | bizpulse/scripts/admin_ai_release_operations.py:167-185 | the same for the reconciliation, which is taken for done whatever comes of it |
| ReleaseAdapter.EveryRunIsOrderly | bizpulse/scripts/admin_ai_release_operations.py:135-185 | under all failures, states reach the backend in order, secrets go with the rotation only, and the reconciliation at most once, before any deployment |
| ReleaseAdapter.DeploymentNeedsOnlyTheAttempt | bizpulse/scripts/admin_ai_release_operations.py:148-174 | a deployment is let through exactly when the reconciliation was attempted |
| ReleaseAdapter.DeploysAfterFailedReconciliation | bizpulse/scripts/admin_ai_release_operations.py:172-185 | a run in which it failed and the deployment goes ahead |
| AdminBackend.OneMoreRecord | bizpulse/scripts/admin_ai_release_operations.py:705-730 | a mutation that succeeds records itself, from the old to the new revision |
| AdminBackend.MutationSucceedsExactly | bizpulse/scripts/admin_ai_release_operations.py:705-922 | exactly when each mutation succeeds; a rejection only with every field of the control unchanged, the credential included |
| AdminBackend.ControlExactly | bizpulse/scripts/admin_ai_release_operations.py:827-922 | the control after any mutation, field by field |
| AdminBackend.RecordExactly | bizpulse/scripts/admin_ai_release_operations.py:705-730 | what any mutation records, field by field, under the request id of the answer |
| AdminBackend.MutationsChain | bizpulse/scripts/admin_ai_release_operations.py:827-922 | any run of successful mutations leaves a chain of records and the switches as last requested |
| AdminBackend.ChainKeptExactly | bizpulse/scripts/admin_ai_release_operations.py:867-922 | a mutation, failed or not, keeps the records chained up to the present control exactly unless its answer moves the revision unrecorded, which it does for two kinds of answers |
| AdminBackend.UnrecordedMutation | bizpulse/scripts/admin_ai_release_operations.py:912-922 | an input whose mutation moves the control and records nothing |
| AdminBackend.UnrecordedRejection | bizpulse/scripts/admin_ai_release_operations.py:1345-1356 | an input whose rejected key is answered in order while another revision is read back |
| AdminBackend.ReleaseChain | bizpulse/scripts/admin_ai_release_operations.py:827-922 | the eight mutations of a release, all successful, record eight chained expectations and end with both switches on |
| ReleaseRun.RunOfAdapter | bizpulse/scripts/admin_ai_release_operations.py:135-185 | a run of adapter and backend together is a run of the adapter, and orderly |
| ReleaseRun.ExecuteExactly | bizpulse/scripts/admin_ai_release_operations.py:274-299 | exactly when the backend succeeds with a state: all its mutations, its other checks and, last, the audit row by row |
| ReleaseRun.RunStaysOnCourse | bizpulse/scripts/admin_ai_release_operations.py:274-299 | along a run without failures the mutations performed are those due in the states so far, applied to the control first read |
| ReleaseRun.FullReleaseIsOneChain | bizpulse/scripts/admin_ai_release_operations.py:982-1033 | any run without failures in which all nine states succeed performs exactly the eight mutations, from both switches off to both on, and the server's audit rows are one chain of revisions between |
| ReleaseRun.ChainedExactly | bizpulse/scripts/admin_ai_release_operations.py:705-922 | over any run, failures and second attempts included, the expectations stay chained from the control first read to the present one if and only if no answer goes unrecorded |
| ReleaseRun.RecordedReleaseIsOneChain | bizpulse/scripts/admin_ai_release_operations.py:982-1033 | if all states have succeeded in the end and no answer went unrecorded, the server's audit rows are one chain, however often states were tried again |
| AuditGap.AuditHasGap | bizpulse/scripts/admin_ai_release_operations.py:982-1033 | a run whose nine states all succeed and whose audit rows, accepted by the final check, have a gap |
| AdminBackend.ScanHostedLog | bizpulse/scripts/admin_ai_release_operations.py:1228-1299 | zero is reported exactly after two sightings of the marker in clean queries, a positive number is what was found, and at most six queries are asked |
| AdminBackend.AzureHostedAdminAIBackend.RotateKey | bizpulse/scripts/admin_ai_release_operations.py:827-884 | the state after a rotation, for every answer |
| AdminBackend.AzureHostedAdminAIBackend.SwitchChannels | bizpulse/scripts/admin_ai_release_operations.py:886-922 | the state after a switching, for every answer |
| AdminBackend.AzureHostedAdminAIBackend.VerifyIndependentChannelSwitches | bizpulse/scripts/admin_ai_release_operations.py:1143-1162 | four switchings in order that end with both switches on |
| AdminBackend.AzureHostedAdminAIBackend.RejectInvalidKey | bizpulse/scripts/admin_ai_release_operations.py:1320-1371 | a rejected key leaves the control as it was, or the step fails |
| OciArtifact.ReadMembers | bizpulse/scripts/admin_ai_oci_artifact.py:101-137 | the reading loop keeps every regular member once and stops at anything else |
| OciRules.FilesExactly | bizpulse/scripts/admin_ai_oci_artifact.py:87-137 | exactly which archives can be read, on their members, and which files they then hold |
| OciRules.AcceptedExactly | bizpulse/scripts/admin_ai_oci_artifact.py:140-249 | an archive is accepted for an image if and only if layout, index, platform, reference, manifest, config, layers, runtime user and labels are those of this image and authority, all blobs are verified, and no other file is there |
| OciRules.RuntimeExactly | bizpulse/scripts/admin_ai_oci_artifact.py:205-228 | the runtime settings pass exactly with the user `bizpulse` on linux and amd64 and the four labels of the authority; the condition of each of its codes |
| OciRules.EntryRefusals | bizpulse/scripts/admin_ai_oci_artifact.py:157-187 | the code of layout, index, descriptor and platform, in the order of the checks |
| OciRules.GraphRefusals | bizpulse/scripts/admin_ai_oci_artifact.py:188-201 | the code of manifest and config, in the order of the checks |
| OciRules.LayerRefusals | bizpulse/scripts/admin_ai_oci_artifact.py:202-204 | the first layer that fails decides the code |
| OciRules.InspectionRefusals | bizpulse/scripts/admin_ai_oci_artifact.py:140-249 | an inspection fails as its parts do, in their order |
| OciLaws.SameManifestSameImage | bizpulse/scripts/admin_ai_oci_artifact.py:185-228 | the image below a manifest depends on nothing but the manifest's bytes |
| OciLaws.EveryFileIsReachable | bizpulse/scripts/admin_ai_oci_artifact.py:229-236 | every file of an accepted archive is an entry file or a verified blob of its image |
| OciLaws.DigestFixesBlobs | bizpulse/scripts/admin_ai_oci_artifact.py:140-249 | unless two of their files collide, two accepted archives of one image digest hold the same blobs under the same names |
| OciLaws.Materialize | bizpulse/scripts/admin_ai_oci_artifact.py:252-301 | the layout written is exactly the inspected one, whatever happened to the file in between; the outcome by the first step that fails; after a failure at most one file of the layout, the one whose write failed, differs |

## Left out

- The runner around the executor (`run_ai_enablement.py`): its context, key buffer, observation file and receipt
  file; only the order of its states, its check of their outputs, its failure codes and what it reports on failure are
  modelled. Operations and evidence of a result, which the executor copies from the package, are taken to agree.
- Shape checks of untyped JSON: extra keys, wrong types and booleans passed as numbers are excluded by typed
  records wherever the source only rejects them.
- The terminal receipt and the observation: beside the complete evidence list they only compare constants.
- `KeyboardInterrupt` and crashes; only ordinary exceptions are modelled.
- Subprocess and `az` calls, HTTP requests and headers, the browser gate, file modes and `fsync`, wiping of key
  buffers, tar reading, the macOS Keychain interface: replaced by what they answer.
- Retry-After is modelled as absent, a natural number, or anything else; Unicode digits are not told apart.
- Times of execution rows are numbers of microseconds; parsing and printing of time texts is not modelled.
- `discover_control_paths` follows an abstract import graph; parsing of import statements, and files that are
  one file under two paths, are not part of this model.
- Role assignments: reading them (`_role_assignments_for_principal`) and building the expected ones is not modelled; the two expected
  assignments are parameters.
- `_hosted_log_secret_matches`: each query is either unavailable or a number of matches and a sighting of the marker; the
  checks before the first query, and text matching itself, are not modelled.
- The HTTP turns and their bindings in the release verification states: only their mutations are modelled.
- The runner of a rotation (`run_operator_rotation.py`): deployments, the job and the login check are parameters that say
  whether they worked; its receipt file is not modelled.
- Deployment parameters of a rotation package, and its health reading, are predicates and flags; writing and loading
  package files is not modelled.
- `read_sanitized_azure_authority`, recovery preflight and desired projections: long lists of equalities, each
  settled by one branch.
- The package generators, resume tools, exact-runtime snapshots, the API and the database schema.
- ArmOperation.WaitForArmPatch: asks that the wait has an end (`ArmOperation.EndsExactly`); without one the source
  does not return either (`ArmOperation.StillClockWaitsForever`).
- HistoryLaws.RowOrderIsIrrelevant: speaks of accepted histories; which error a refused history reports may
  depend on the order of its rows.
- OciLaws.DigestFixesBlobs: leaves out `oci-layout` and `index.json`, which the image digest does not cover.
