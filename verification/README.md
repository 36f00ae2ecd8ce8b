# Verified model of the assignmentd governance control plane

The control plane of `assignmentd` decides when a sandbox incarnation has authority: which
assignment is Ready, which tenant may create another sandbox, which temporary access request or
brokered credential is in force, and what the policies that administrators author actually allow.
It runs as several actors (API replicas, one controller, administrators, an expiry sweeper, the
credential broker, authorization checks) that interleave over versioned Kubernetes objects.

This project models that logic in Dafny and proves what the interleavings keep.

| file | subject |
|---|---|
| `Kube.dfy` | stored objects; Update and UpdateStatus as compare-and-swap |
| `Reconcile.dfy`, `ReconcileOrder.dfy`, `ReconcileCode.dfy` | one controller pass: its decision, the readiness gate, convergence; its checks one by one; the pass as imperative code |
| `Fence.dfy` | pause and resume handlers against controller passes that work from stale snapshots |
| `InUse.dfy` | the bundle finalizer, one controller against concurrent creates and deletes |
| `Admission.dfy`, `AdmissionRuns.dfy`, `AdmissionCode.dfy` | tenant Lease, quota, idempotent create; what an uninterrupted request gets done; the acquisition and counting loops |
| `Access.dfy`, `AccessRuns.dfy`, `GrantMatcher.dfy` | temporary access requests: approval, all interleavings, the exactly-one matcher |
| `Durations.dfy`, `Targets.dfy`, `Broker.dfy`, `GrantRuns.dfy` | 64-bit durations, target normalization, credential issue and parse, verification and revocation runs |
| `Rotation.dfy` | runs of the broker over runs of the fence: verifications that begin under a pause and end after it |
| `Commands.dfy`, `Harness.dfy` | exact command patterns, from the dashboard's parsers to the harness's selection |
| `Cel.dfy`, `Egress.dfy`, `Simulation.dfy` | egress rules, the expression text they compile to, an evaluator for that text, and the impact simulator |
| `Caches.dfy` | the compiled-program cache and the token cache |
| `Audit.dfy` | checks that record before they answer, and their counters |
| `Text.dfy`, `Seqs.dfy`, `Distinct.dfy`, `Sorting.dfy`, `Counting.dfy` | string and sequence functions the source takes from its libraries |

Protocols are step relations: `Enabled(s, step)` and `Do(s, step)` give one atomic step of one
actor, `IsRun` is any interleaving, and the main results hold in every state of every run. A pass
of the controller is a single function of what it read (`Reconcile.Decide`), and every protocol
that involves the controller uses that function. Code that works by loops and field updates is
modelled by methods and classes whose contracts tie them to the functions the lemmas are about.

Time is an integer number of nanoseconds. Versions and UIDs are never reused. Clocks, identifiers,
the answers of the API server and what other actors do in between are parameters or steps.

## What the code does not promise

Where a property one might expect is false of the code, the model keeps the code and proves when
the property holds.

- A revoked grant can verify once more: parsing the token and judging its revocation record read
  the clock separately, and an expired record is collected. This happens exactly when the clock
  passes the grant's expiry between the two readings (`RevokedVerifiesOnlyAcrossExpiry`,
  `RevokedVerifiesAcrossExpiry`).
- Reconciling need not come to rest: the bundle check ranges over a Go map and reports the first
  backend it rejects, so with two rejected backends the message changes with the random order and an
  unchanging cluster is written without end (`WritesWithoutEnd`). It comes to rest, after at most
  four writes, exactly when at most one backend is rejected or the passes end before that check
  (`ConvergesExactlyWhenSteady`).
- The resume fence needs the Pod reference: a bundle that is missing for one pass while the
  assignment is paused makes the controller drop the reference, and a resume after that fences
  nothing (`DroppedPodReferenceLosesTheFence`). `ClearedFenceAdmitsExactly` says exactly which Pods
  a write that removes the pause keeps out: the one it fences, if that had no authority.
- A verification that begins while the assignment is paused can succeed: a pause that times out is
  undone without fencing anything (`TimedOutPauseLetsThrough`). `VerifiesAcrossFenceOnlyIf` names the
  write that must have let it slip, over any number of fence writes, and `VerifiesAcrossFence` shows
  that each such write does; after a completed pause and a resume that saw the Pod, up to the next
  fence write, it cannot happen (`NoVerificationAcrossResume`).
- One object that does not convert, and is not being deleted, turns every grant of its assignment
  into an error (`GrantIgnoresOrderAndNoise`).
- Normalizing a target twice is the same as normalizing it once exactly when its host has no colon
  (`NormalizeIsIdempotentExactly`); a credential for a bracketed IPv6 host is issued and never
  parses (`IssueParseRoundTrip`).
- Numbers of minutes or seconds whose product wraps around 64 bits are accepted when it wraps into
  range. `MinutesAcceptedExactly` and `TtlAcceptedExactly` say which; `WrappedMinutesAreAccepted` and
  `WrappedTtlIsAccepted` are examples. The bounds on lifetimes hold all the same.
- The error counter is incremented before the deny counter, so between the two the errors can
  exceed the denies (`ErrorsCanRunAhead`); `CountersBalance` gives the exact equation.

## Model

| member | source | states |
|---|---|---|
| `Reconcile.ReadyExactlyWhenGateOpen` | internal/assignment/controller/controller.go:128-300 | a pass reports Ready if and only if every condition of the readiness gate holds for one workload and one Pod, whatever the order of the checks |
| `Reconcile.ReadyReportNamesTheGate` | internal/assignment/controller/controller.go:201-300 | a Ready report names exactly the bundle incarnation, workload and Pod that opened the gate, and the identity condition matches the bundle's egress |
| `Reconcile.RenderedReady` | internal/assignment/controller/controller.go:677-715 | the stored Ready condition is True for a report that binds a Pod and for no progress report |
| `Reconcile.EquivalentIgnoresTime` | internal/assignment/controller/controller.go:495-508 | whether a new status is equivalent to the stored one does not depend on its transition times |
| `Reconcile.PassMakesProgress` | internal/assignment/controller/controller.go:128-300 | in a steady world every pass over a live assignment writes nothing and changes nothing, or strictly decreases the four-part measure, at every instant and in every range order |
| `Reconcile.SettledAfterTell` | internal/assignment/controller/controller.go:474-508 | in a steady world a written status is found equivalent by the next pass, although that pass has a new transition time and a new range order |
| `Reconcile.ReconcileConverges` | internal/assignment/controller/controller.go:128-300 | in a steady world any number of passes write at most four times, and after four passes no pass at any instant and in any range order writes |
| `Reconcile.SilentStaysSilent` | internal/assignment/controller/controller.go:474-508 | once a pass over a steady world has nothing to write, the world is a fixed point of all later passes |
| `Reconcile.OrderIsHidden` | internal/assignment/controller/controller.go:533-546 | what a pass decides depends on the random order of the backends only if two of them are rejected and the pass gets that far |
| `Reconcile.WritesWithoutEnd` | internal/assignment/controller/controller.go:178-180 | with two rejected backends there is, for every n, a run of n passes on an unchanging cluster that all write |
| `Reconcile.ConvergesExactlyWhenSteady` | internal/assignment/controller/controller.go:533-546 | all runs of passes on an unchanging cluster write at most four times if and only if at most one backend is rejected or the passes end before they look at the backends |
| `ReconcileOrder.EarlyFailureDecides` | internal/assignment/controller/controller.go:128-206 | each check up to the pause, by its own condition: the first that fails decides; reports before the bundle is known name nothing, and a paused pass keeps both stored references |
| `ReconcileOrder.WorkloadFailureDecides` | internal/assignment/controller/controller.go:208-256 | likewise for the checks on the workload and the number of its Pods: the one workload is named, and no Pod when there is none or there are several |
| `ReconcileOrder.PodFailureDecides` | internal/assignment/controller/controller.go:257-296 | likewise for the checks on the one Pod: bundle, workload and Pod are named whatever the reason |
| `ReconcileOrder.PodReasonIsExact` | internal/assignment/controller/controller.go:257-296 | a reason about the Pod is reported if and only if its own check is the first that fails |
| `ReconcileOrder.NoFailureIsReady` | internal/assignment/controller/controller.go:299-299 | when no check fails the pass reports Ready and names the same objects |
| `ReconcileOrder.FoundObjectsAreNamed` | internal/assignment/controller/controller.go:257-299 | a pass that finds exactly one workload with exactly one Pod stores references to both and to the bundle, whatever its verdict |
| `ReconcileOrder.RenderedExactly` | internal/assignment/controller/controller.go:677-722 | a stored report has each condition once, with its value, generation, time and reason |
| `ReconcileOrder.EquivalentExactly` | internal/assignment/controller/controller.go:495-508 | statuses are equivalent exactly when they differ in transition times at most |
| `ReconcileOrder.MatchingWorkloadsExactly` | internal/assignment/controller/controller.go:302-316 | a workload belongs to the assignment exactly when it carries its name and its UID |
| `ReconcileOrder.MatchingPodsExactly` | internal/assignment/controller/controller.go:318-338 | and a Pod when the workload also controls it and it is live |
| `ReconcileOrder.PoolPodExactly` | internal/assignment/controller/controller.go:340-376 | a workload from a Pool is bound to a Pod exactly when the Pool replaces its Pods, the allocation names that Pod alone, and the Pod is live and owned by the Pool |
| `ReconcileOrder.ReadyPodHasItsIdentity` | internal/assignment/controller/controller.go:619-676 | a Ready Pod with mediated egress has no projected token in the external mode, and otherwise the short-lived one for the gateway, mounted somewhere |
| `ReconcileOrder.ReadyPodIsIsolated` | internal/assignment/controller/controller.go:619-655 | and then no container but egress mounts it, and that one read-only at the agreed place |
| `ReconcileCode.ReconcileAssignment` | internal/assignment/controller/controller.go:128-300 | against a store that others write to, one pass writes at most one object, is exactly a controller write of the fencing protocol, wins only over the version it read, stores Ready only when the gate was open and then names what opened it, does store it when nobody wrote meanwhile, and changes no bundle but its own, which gains the finalizer and nothing else |
| `ReconcileCode.DecidedWriteIsHonest` | internal/assignment/controller/controller.go:474-493 | whatever is stored by the time of the write, what a pass decided is an honest write in that sense |
| `ReconcileCode.ListWorkloads` | internal/assignment/controller/controller.go:302-316 | the loop keeps, in order, exactly the workloads that carry the assignment's UID |
| `ReconcileCode.ListPods` | internal/assignment/controller/controller.go:318-338 | the loop keeps, in order, exactly the live owned Pods that carry the assignment's UID |
| `Fence.EffectRespectsFence` | internal/assignment/controller/controller.go:201-300 | whatever it reads, a controller write that wins keeps the fence annotations, makes nothing Ready that is paused or whose Pod is fenced, and never replaces the Pod reference of a paused assignment |
| `Fence.InvInductive` | internal/assignment/store/kubernetes/store.go:179-214 | every step of every handler and pass keeps the fencing invariant |
| `Fence.StepRespectsFence` | internal/assignment/store/kubernetes/store.go:179-214 | only a fence write changes the annotations, and it leaves the status alone; every other step changes readiness only within what the annotations allow |
| `Fence.PauseSentOnlyWhenNotReady` | internal/assignment/opensandboxapi/handler.go:432-464 | in every interleaving, when the upstream pause is sent the assignment is paused and not Ready, unless somebody cleared the pause in between |
| `Fence.PausedStaysNotReady` | internal/assignment/controller/controller.go:202-206 | a paused assignment that is not Ready stays not Ready for as long as it stays paused, whatever snapshots are in flight |
| `Fence.ResumeFenceExact` | internal/assignment/opensandboxapi/handler.go:466-499 | after a resume fenced Pod UID u, no state up to the next fence write gives u authority, if and only if the state it wrote over did not |
| `Fence.ResumeKeepsOldPodOut` | internal/assignment/opensandboxapi/handler.go:466-499 | from a completed pause, with a cached read no older than it that still shows a Pod, resume keeps the paused Pod out until the next fence write |
| `Fence.HistoryIsStates` | internal/assignment/store/kubernetes/store.go:130-169 | every version a cache can serve is the stored object of some state of the run |
| `Fence.FenceWriteLeavesItsArguments` | internal/assignment/opensandboxapi/handler.go:445-494 | over whole runs and by the steps of a handler alone: its next fence write that goes through leaves exactly paused without a UID for a pause, not paused with the UID of the Pod in the version read for a resume, not paused without a UID for a pause that timed out, and paused without a UID for a resume that was refused; the status stays |
| `Fence.RefusedResumeIsPausedAgain` | internal/assignment/opensandboxapi/handler.go:485-498 | after a refused resume has written, the assignment is paused and no Pod gets authority it did not have, until another fence write |
| `Fence.DeletionEffect` | internal/assignment/controller/controller.go:433-437 | a pass over an assignment that is being deleted takes its finalizer away and nothing else |
| `Fence.AuthorityReachedExactly` | internal/assignment/controller/controller.go:202-300 | from any state whose assignment some cluster can make Ready, without a fence write, a Pod UID can get authority if and only if it has it already, or the assignment is not paused and the UID is not the fenced one |
| `Fence.ClearedFenceAdmitsExactly` | internal/assignment/opensandboxapi/handler.go:445-486 | after any write that removes the pause, a resume or the undoing of a pause that timed out, a Pod UID can get authority before the next fence write if and only if it had it already or is not the UID that the write fences; a resume that saw no Pod reference fences none |
| `Fence.DroppedPodReferenceLosesTheFence` | internal/assignment/controller/controller.go:170-173 | from every state with a live assignment that can be matched: one pass without its bundle drops the Pod reference, a resume that reads the newest version then fences nothing, and any Pod, the paused one included, can become Ready |
| `InUse.StatusWriteProtected` | internal/assignment/controller/controller.go:181-188 | Ready is only ever stored over a bundle incarnation that exists and holds the finalizer at that instant |
| `InUse.ReleaseKeepsInv` | internal/assignment/controller/controller.go:441-472 | removing the finalizer keeps the invariant, although creates and deletes happen between the list, the get and the update |
| `InUse.StepKeepsInv` | internal/assignment/controller/controller.go:378-472 | every step of the controller, the API and the administrators keeps the protection invariant |
| `InUse.ReadyAssignmentsHoldTheirBundle` | internal/assignment/controller/controller.go:441-472 | in every reachable state each live Ready assignment resolves to an existing bundle with that UID that holds the protection finalizer |
| `InUse.LastReleaseFreesTheBundle` | internal/assignment/controller/controller.go:378-472 | an uninterrupted finalize and release of the last assignment of a bundle takes both finalizers away; a bundle whose deletion was requested is then gone, unless other finalizers hold it |
| `InUse.UndisturbedPassActs` | internal/assignment/controller/controller.go:128-300 | an undisturbed pass stores exactly what its decision does to the assignment and the bundle |
| `Admission.AtMostOneHolder` | internal/assignment/admission/admission.go:122-185 | two live processes between acquisition and release of one Lease are the same process |
| `Admission.ExcludesInductive` | internal/assignment/admission/admission.go:122-185 | creating, taking over by compare-and-swap, conditional and unconditional release and the clock all keep the exclusion invariant |
| `Admission.WithinBudgetInductive` | internal/assignment/admission/admission.go:79-120 | counting under the Lease and creating later keep every tenant within budget |
| `Admission.QuotaNeverExceeded` | internal/assignment/admission/admission.go:79-185 | in every run with any number of replicas, no tenant has more live assignments than its budget and at most one live process is in the critical section, replays included |
| `AdmissionRuns.CountAdmitsExactly` | internal/assignment/admission/admission.go:115-117 | counting admits if and only if fewer live assignments are charged to the tenant than its budget |
| `AdmissionRuns.RunRecorded` | internal/assignment/admission/admission.go:122-177 | in every reachable state each stored Lease records a process that is between acquisition and release |
| `AdmissionRuns.RoomIsGranted` | internal/assignment/opensandboxapi/handler.go:263-360 | from every reachable state without a live holder, with room and with the name free, an uninterrupted request acquires the Lease, creates one assignment with its tenant, bundle, key and hash, releases the Lease and posts the new UID; one more assignment is then charged |
| `AdmissionRuns.RetryIsAnswered` | internal/assignment/store/kubernetes/store.go:99-127 | and an uninterrupted retry of a stored request with a sandbox ID is answered from that assignment; nothing is created or posted |
| `AdmissionRuns.TakenNameAnswersExactly` | internal/assignment/store/kubernetes/store.go:99-127 | a taken name is answered from the stored assignment if and only if tenant, key and hash agree, and is a conflict otherwise |
| `AdmissionRuns.PendingAnswersExactly` | internal/assignment/opensandboxapi/handler.go:300-324 | a stored assignment without a sandbox ID is answered for once it has one, dropped once it is too old, and left alone otherwise |
| `AdmissionRuns.StaleIsDropped` | internal/assignment/opensandboxapi/handler.go:310-317 | dropping it marks it for deletion and changes nothing else |
| `AdmissionRuns.ReleaseDeletesExactly` | internal/assignment/admission/admission.go:146-168 | a release deletes the Lease exactly when this holder created it or it still has the UID of the takeover |
| `Admission.IdempotentInductive` | internal/assignment/store/kubernetes/store.go:64-128 | every step keeps that each UID is posted at most once, by its creator, and that replay candidates agree with the request |
| `Admission.CreateIsIdempotent` | internal/assignment/opensandboxapi/handler.go:263-360 | over concurrent creates no assignment UID is posted upstream twice, and a replayed answer has the caller's tenant, key and hash even if names collide, unless the checked assignment was removed meanwhile |
| `AdmissionCode.AcquireTenantLease` | internal/assignment/admission/admission.go:122-177 | against arbitrary interference the first turn that does not just go on decides: the loop acquires exactly when that turn creates an absent Lease or replaces the very version it saw available, and fails exactly when the Lease it saw available is gone by the update; on success the Lease records it and the clock of that turn |
| `AdmissionCode.AcquireAndRelease` | internal/assignment/admission/admission.go:122-177 | releasing right after acquiring leaves no Lease |
| `AdmissionCode.TenantBundles` | internal/assignment/admission/admission.go:88-98 | the first loop collects exactly the tenant's bundle names |
| `AdmissionCode.CountActive` | internal/assignment/admission/admission.go:99-115 | the count is the number of stored live assignments charged to the tenant, in whatever order they are listed |
| `Access.ApprovalIsBounded` | cmd/aks-sandbox-dashboard/governance.go:428-512 | every approval, wrapped durations included, lasts a positive time within the requested duration, the tenant budget and eight hours |
| `Access.ApprovalRecords` | cmd/aks-sandbox-dashboard/governance.go:486-512 | an approval stores what the checker later demands: a valid approver, a reason, the approval instant |
| `Access.ApprovalExactly` | cmd/aks-sandbox-dashboard/governance.go:428-512 | an approval of m minutes that do not wrap is given exactly for 1 to 480 minutes within request and budget, for a pending valid request, by a valid administrator with a reason, and runs from now for m minutes |
| `Access.DenialExactly` | cmd/aks-sandbox-dashboard/governance.go:514-552 | a denial is given exactly for a pending request by a valid administrator with a reason, and records both |
| `Access.ValidSpecExactly` | internal/assignment/governance/validation.go:116-148 | a request may ask for 60 to 28800 seconds and for a canonical target |
| `Access.MinutesAcceptedExactly` | cmd/aks-sandbox-dashboard/governance.go:1154-1164 | a number of minutes is accepted if and only if its product with a minute, up to a multiple of 2^64, lies in range; without wrapping, which is up to 153722867 minutes, that is 1 to 480, and the accepted duration is the true one exactly without wrapping |
| `AccessRuns.InvInductive` | cmd/aks-sandbox-dashboard/governance.go:415-552 | creators, administrators, the unconditional patches of any number of sweepers with stale lists, and deletion all keep that a stored request is what its one decision says |
| `AccessRuns.DecidedAtMostOnce` | cmd/aks-sandbox-dashboard/governance.go:709-723 | in every interleaving each request is decided at most once, and every stored approval, expired or not, has the bounded lifetime of that decision |
| `AccessRuns.DecisionsAreFinal` | internal/assignment/authz/audit.go:250-272 | Denied and Expired are absorbing, and an approval never changes but to expire |
| `AccessRuns.ExpiresOnlyAfterExpiry` | internal/assignment/authz/audit.go:250-272 | a request becomes Expired only by a sweeper and only once its recorded expiry has passed |
| `AccessRuns.ApprovalIsStored` | cmd/aks-sandbox-dashboard/governance.go:498-512 | an uninterrupted approval is stored as decided, and nothing else changes |
| `AccessRuns.DenialIsStored` | cmd/aks-sandbox-dashboard/governance.go:540-552 | and so is a denial |
| `AccessRuns.SubmissionBecomesPending` | cmd/aks-sandbox-dashboard/governance.go:400-424 | a new request becomes Pending |
| `AccessRuns.SweepExpires` | internal/assignment/authz/audit.go:250-272 | an uninterrupted sweep expires an approved request whose expiry has been reached, and changes nothing else of it |
| `GrantMatcher.MatchAccessGrantObjects` | internal/assignment/authz/checker.go:524-573 | the loop gives the answer that is a property of the collection: an error if any object is fatal, a grant in its name if exactly one matches, and otherwise ambiguity, an unusable match or no match, told apart |
| `GrantMatcher.GrantIgnoresOrderAndNoise` | internal/assignment/authz/checker.go:524-573 | reordering and adding objects that do not match leaves the answer unchanged if and only if it was an error anyway, or no addition is fatal and, where nothing matched, none is unusable |
| `GrantMatcher.ApprovalMatchesExactlyItsWindow` | internal/assignment/authz/checker.go:575-589 | a dashboard approval matches a subject at an instant if and only if the subject is its own and approvedAt <= t < expiresAt: nothing is granted to another Pod, revision, assignment or target |
| `GrantMatcher.GrantIsForItsOwnSubject` | internal/assignment/authz/checker.go:524-573 | whatever is stored, a grant is in the name of a live approved object whose own subject asks, within its window |
| `GrantMatcher.MatchesExactly` | internal/assignment/authz/checker.go:540-589 | what matching asks of any stored request, in terms of its fields |
| `GrantMatcher.UnusableExactly` | internal/assignment/authz/checker.go:548-560 | a refusal is malformed exactly because of a live approved request for this incarnation that is invalid, or is for this target and not in force |
| `GrantMatcher.ErrorExactly` | internal/assignment/authz/checker.go:528-539 | the answer is an error if and only if some object is foreign, or does not convert and is not being deleted |
| `GrantMatcher.DeletedObjectsAreIgnored` | internal/assignment/authz/checker.go:528-542 | objects that are being deleted never matter |
| `Durations.StoredLifetime` | internal/assignment/credentialbroker/broker.go:151-194 | rounding both ends of a lifetime to seconds keeps every bound that is a whole number of seconds |
| `Targets.NormalizeIsIdempotentExactly` | internal/assignment/governance/validation.go:43-113 | a normalized target is a fixed point of normalization if and only if its host has no colon |
| `Targets.HostTextIsFixed` | internal/assignment/governance/validation.go:67-100 | every canonical DNS name or IPv4 text normalizes to itself |
| `Targets.ColonIsRejected` | internal/assignment/governance/validation.go:67-100 | IPv6 text without its brackets is never accepted |
| `Targets.TargetSpellingsNormalize` | internal/assignment/governance/validation.go:43-113 | every spelling of a canonical target, in case, surrounding white space, final dot or empty path, normalizes to it |
| `Targets.AcceptedTargetIsPlain` | internal/assignment/governance/validation.go:43-113 | what every accepted target looks like, character by character |
| `Broker.IssuedLifetime` | internal/assignment/credentialbroker/broker.go:151-194 | whatever 64-bit number of seconds is asked for, a credential lives between one and fifteen minutes and is in force when issued |
| `Broker.IssuedExactly` | internal/assignment/credentialbroker/broker.go:151-194 | a credential is issued exactly for a valid task, 60 to 900 seconds and a valid target, carries the decision's and the request's own values, and expires after the seconds asked for |
| `Broker.IssuedTarget` | internal/assignment/credentialbroker/broker.go:156-160 | its target is the normalization of the request's own four parts |
| `Broker.TaskIdExactly` | internal/assignment/credentialbroker/broker.go:312-326 | a task identifier is a letter or digit followed by at most 127 letters, digits, dots, underscores and dashes |
| `Broker.TtlAcceptedExactly` | internal/assignment/credentialbroker/broker.go:151-155 | a number of seconds is accepted if and only if its product with a second, up to a multiple of 2^64, lies in range; without wrapping, which is up to 9223372036 seconds, that is 60 to 900 |
| `Broker.IssueParseRoundTrip` | internal/assignment/credentialbroker/broker.go:137-303 | an issued credential presented to any broker parses back to its own claims if and only if that broker maps its key id to its key, has its issuer and audience and is asked from nbf up to exp; identifiers must not be empty and the host must have no colon |
| `Broker.Rotate` | internal/assignment/credentialbroker/broker.go:94-122 | rotation adds a key and changes the key of no existing key id |
| `GrantRuns.InvInductive` | internal/assignment/credentialbroker/kubernetes.go:86-137 | every step keeps that a revocation is recorded until the grant expires, garbage collection included |
| `GrantRuns.RevokedVerifiesOnlyAcrossExpiry` | internal/assignment/credentialbroker/kubernetes.go:112-137 | in every run, a verification of a grant revoked before it began succeeds only if the clock passes the expiry between parsing and judging |
| `GrantRuns.RevokedVerifiesAcrossExpiry` | internal/assignment/credentialbroker/broker.go:215-248 | and whenever the clock does pass it in between, there is a run in which it succeeds |
| `GrantRuns.VerificationSawAuthority` | internal/assignment/credentialbroker/kubernetes.go:43-80 | a verification that got past a read saw, after it began, the assignment bound and then the Pod of that assignment serving |
| `GrantRuns.ValidSawObjects` | internal/assignment/credentialbroker/kubernetes.go:43-74 | a successful verification began in force and saw, in this order, the assignment named, live, not paused, Ready, with the sandbox ID, Pod UID and bundle revision of the claims, and the Pod under the name in it with that UID, neither deleting nor failed |
| `GrantRuns.DeletionEndsAuthority` | internal/assignment/credentialbroker/kubernetes.go:48-52 | where deletions are not taken back, no verification begun after the deletion was requested succeeds, although the finalizer keeps the object and the Pod runs |
| `GrantRuns.MisdirectedVerificationFails` | internal/assignment/credentialbroker/kubernetes.go:43-74 | a verification fails if its claims name another assignment or sandbox than every state it can read, or if its Pod is failed or being deleted in all of them |
| `GrantRuns.GonePodStaysGone` | internal/assignment/credentialbroker/kubernetes.go:43-80 | a Pod UID that no longer serves never serves again |
| `GrantRuns.CredentialDiesWithItsPod` | internal/assignment/credentialbroker/kubernetes.go:43-80 | once a Pod is gone, no verification begun afterwards of any credential bound to it succeeds |
| `Rotation.VerifiesAcrossFenceOnlyIf` | internal/assignment/credentialbroker/kubernetes.go:43-74 | a verification that begins while the assignment is paused, however long it takes and however many fence writes follow, succeeds only if, at the last write that removes the pause before some state it reads, that write fences another UID or none, or the pause had never taken the authority away |
| `Rotation.VerifiesAcrossFence` | internal/assignment/opensandboxapi/handler.go:445-486 | and from every run that binds the claims at some state and ends paused with such a write pending, the run goes on without another fence write, and over it the broker issues the credential on the binding state, begins to verify it while paused, and answers valid |
| `Rotation.TimedOutPauseLetsThrough` | internal/assignment/opensandboxapi/handler.go:445-452 | from every start whose assignment some cluster can make Ready there is such a run: the pause times out, a verification begins, the pause is undone and the verification succeeds |
| `Rotation.NoVerificationAcrossResume` | internal/assignment/opensandboxapi/handler.go:466-486 | from a completed pause on Pod u, across a resume that still saw a Pod, up to the next fence write, no verification begun in that window of a credential bound to u succeeds |
| `Commands.PatternInjective` | cmd/aks-sandbox-dashboard/capabilities.go:172-172 | different commands have different patterns |
| `Commands.PatternMatchesExactly` | cmd/aks-sandbox-dashboard/capabilities.go:172-172 | read as a regular expression, the pattern of a command matches that command and nothing else |
| `Commands.ExactCommand` | harness/server.py:112-131 | accepts exactly the patterns the dashboard can write and returns the command each was written for, so patterns and literals correspond one to one |
| `Commands.DecodeBody` | harness/server.py:115-131 | the loop reads a body if and only if it is the quotation of some text, and returns that text |
| `Harness.ParseAllowedCommands` | cmd/aks-sandbox-dashboard/capabilities.go:161-187 | accepts a text exactly when each line is bounded, free of control characters and preceded by fewer than 32 distinct ones, and then returns one allow rule per distinct command in order |
| `Harness.AcceptedCommandsAreBounded` | cmd/aks-sandbox-dashboard/capabilities.go:161-187 | accepted commands are at most 32, short, not blank and without control characters, and any 32 such lines are accepted |
| `Harness.ParseValidationRules` | cmd/aks-sandbox-dashboard/capabilities.go:189-222 | returns the distinct rules in order, or the problem of the first line that has one |
| `Harness.NoProblemAnywhere` | cmd/aks-sandbox-dashboard/capabilities.go:189-222 | an accepted text has no line with a problem |
| `Harness.RuleReadsItsParts` | cmd/aks-sandbox-dashboard/capabilities.go:203-208 | a line prefix => command is read as that prefix and that command |
| `Harness.PrefixesExactly` | cmd/aks-sandbox-dashboard/capabilities.go:209-213 | both sides let exactly relative prefixes without two dots in a row through, within their own bounds |
| `Harness.EnforceCommandPolicy` | harness/server.py:134-153 | the verdict is that of the first rule whose pattern is the command's own, after the bounds; the empty command checks the policy itself |
| `Harness.NormalizeChangedPaths` | harness/server.py:156-173 | accepts 1 to 256 well-formed relative paths and returns them without repetitions in order, rejects everything else |
| `Harness.ChangedPathsExactly` | harness/server.py:156-173 | which lists of changed paths are accepted, character by character |
| `Harness.SelectValidationCommands` | harness/server.py:176-201 | when no rule is objected to, returns the selected commands without repetitions or refuses because there are none; otherwise refuses with what is wrong with the first rule objected to |
| `Harness.AuthoringImpliesExecution` | cmd/aks-sandbox-dashboard/capabilities.go:161-222 | for every bundle the dashboard accepts and every list of changed paths, the harness objects to no rule and blocks no selected command |
| `Harness.SelectionIsExact` | harness/server.py:176-201 | the selection is exactly the commands whose prefix is * or starts a changed path, without repetitions, in rule order |
| `Distinct.DedupFacts` | harness/server.py:156-173 | appending only what is not there yet loses nothing, adds nothing and repeats nothing |
| `Distinct.DedupInOrder` | harness/server.py:190-201 | and keeps the order of first occurrences |
| `Cel.ExactlyMeans` | cmd/aks-sandbox-dashboard/capabilities.go:108-111 | the expression text of a target reads back as a conjunction that is true of that request and of no other |
| `Cel.JoinedMeans` | cmd/aks-sandbox-dashboard/capabilities.go:117-122 | the joined clauses evaluate to whether the request is on the list |
| `Egress.ParseExactEgressTargets` | cmd/aks-sandbox-dashboard/capabilities.go:126-159 | accepts a text exactly when it has at most 32 bounded lines that each name an exact target, and returns the distinct targets in order |
| `Egress.AcceptedLinesExactly` | cmd/aks-sandbox-dashboard/capabilities.go:129-157 | a text is accepted exactly when it has at most 32 lines of at most 2048 bytes that each name a target |
| `Egress.LineReadsItsFields` | cmd/aks-sandbox-dashboard/capabilities.go:139-153 | a line names backend, method and URL in this order |
| `Egress.ParseExactEgressRules` | cmd/aks-sandbox-dashboard/capabilities.go:101-124 | grouping, sorting, wrapping and joining give the compiled policy of the parsed targets |
| `Egress.CompileTargets` | cmd/aks-sandbox-dashboard/capabilities.go:107-123 | the same policy results in whatever order the map yields the backends |
| `Egress.CompileGroup` | cmd/aks-sandbox-dashboard/capabilities.go:115-122 | sorting and wrapping the expressions in place gives the clauses of the sorted requests |
| `Egress.CompilationPreservesMeaning` | internal/assignment/authz/checker.go:333-366 | the checker allows a target under the compiled policy if and only if it was listed, and no compiled expression fails |
| `Egress.AuthoredPolicyAllowsItsLines` | cmd/aks-sandbox-dashboard/capabilities.go:101-159 | from text to decision: exactly the targets of the submitted lines are allowed |
| `Egress.PolicyTextIsCanonical` | cmd/aks-sandbox-dashboard/capabilities.go:114-122 | two duplicate-free lists compile to the same text if and only if they list the same targets |
| `Egress.AcceptedTargetsArePrintable` | cmd/aks-sandbox-dashboard/capabilities.go:143-153 | accepted targets are printable text, so quoting them needs no other escapes |
| `Simulation.SimulatePolicyImpact` | internal/assignment/governance/simulation.go:29-75 | counts the denied events and those whose target is listed, and reports each match, tenant and team once, sorted |
| `Simulation.SimulationAgreesWithPolicy` | internal/assignment/governance/simulation.go:29-75 | the simulator selects exactly the denied events that the policy compiled from the same targets would allow |
| `Sorting.SortFacts` | cmd/aks-sandbox-dashboard/capabilities.go:116-116 | sorting is an ascending permutation |
| `Sorting.SortIgnoresOrder` | cmd/aks-sandbox-dashboard/capabilities.go:116-116 | sorted text depends on the multiset of elements alone |
| `Caches.KeyInjective` | internal/assignment/authz/checker.go:489-489 | NUL-separated keys are unambiguous as soon as UIDs and revisions contain no NUL |
| `Caches.StoringKeepsProgramsOk` | internal/assignment/authz/checker.go:507-512 | storing, with or without a flush, keeps every cached program what compiling its expression gives, and at most 1024 of them |
| `Caches.ProgramCache.Program` | internal/assignment/authz/checker.go:488-514 | whatever is cached and whatever other calls store meanwhile, the answer is that of a fresh compile |
| `Caches.StoredProgramIsFound` | internal/assignment/authz/checker.go:507-512 | a stored program is found again, and only a full cache forgets others |
| `Caches.SectionKeepsTokensOk` | internal/assignment/authz/checker.go:431-477 | each locked section keeps that cached identities come from a review and lapse with the earlier of thirty seconds and the token's expiry, and at most 4096 of them |
| `Caches.EveryHitIsFresh` | internal/assignment/authz/checker.go:431-477 | over any interleaving of sections a hit is an identity reviewed for this token less than thirty seconds earlier, never at or past the token's expiry |
| `Caches.StoredReviewIsFound` | internal/assignment/authz/checker.go:431-477 | a stored review is answered from the cache until thirty seconds after the clock reading or the token's expiry, whichever is first; only a full cache forgets others, and a lookup drops exactly an expired entry |
| `Caches.TokenCache.ReviewToken` | internal/assignment/authz/checker.go:431-477 | without a hit the answer is the API server's own; with one it is fresh |
| `Audit.InvInductive` | internal/assignment/authz/checker.go:212-230 | every step of any number of concurrent checks keeps each counter equal to the checks it has counted |
| `Audit.CountersBalance` | internal/assignment/authz/audit.go:109-130 | at every instant allows + denies is the number of finished checks, enqueued + dropped + checks about to count is the number of Record calls, enqueued is written + failed + being written, and denies + checks between the two increments is errors + plain denies |
| `Audit.QuiescentCountersBalance` | internal/assignment/authz/audit.go:109-130 | when no check is in progress the plain equations hold and errors are at most denies |
| `Audit.EveryAllowWasRecorded` | internal/assignment/authz/checker.go:212-230 | with a sink, every allow that was returned was preceded by its own stored allow event, and allows are at most written |
| `Audit.AnswersAreExact` | internal/assignment/authz/checker.go:213-230 | a finished check answered an allow exactly when its body allowed and its record was neither dropped nor failed, and otherwise an error if the body allowed; only complete records are stored |
| `Audit.NextMoveIsExact` | internal/assignment/authz/audit.go:109-130 | which checks are skipped, dropped, admitted and counted as errors |
| `Audit.ShutdownIsFinal` | internal/assignment/authz/audit.go:133-136 | after a shutdown nothing is ever admitted |
| `Audit.ErrorsCanRunAhead` | internal/assignment/authz/checker.go:221-229 | a run in which errors exceed denies for an instant |
| `Audit.AuditSink.Record` | internal/assignment/authz/audit.go:109-130 | stores the decision exactly when it is complete, the sink accepts and the write succeeds; keeps the counter equations |
| `Audit.AuditSink.Shutdown` | internal/assignment/authz/audit.go:133-136 | nothing is accepted from then on, nothing else changes |
| `Audit.Checker.Conclude` | internal/assignment/authz/checker.go:213-230 | an allow is answered only if the body allowed and the event was stored; a failed audit turns it into an error and a deny |

## Left out

- HTTP routing, request decoding, pages, sessions and the reverse proxy: I/O and user interface.
- The API server beyond objects with compare-and-swap, deletion timestamps, finalizers and unique UIDs; informers beyond serving some stored version.
- SHA-256, HMAC and JSON: digests are arbitrary functions (names may collide), a token verifies under a key when it was signed with it, and the policy revision determines the specification.
- Reading IPv6 addresses: `NormalizeHost` takes a parser whose results begin with a hexadecimal digit or a colon, zones included, and are dotted IPv4 text when they have no colon; for the text of egress policies they are also printable.
- Reading URLs: `ParseExactEgressTargets` takes a reader that yields the host and the escaped path of an exact HTTPS URL.
- The text checks of ValidateIdentity and ValidateAccessRequestSpec on names, UIDs and reasons: a verdict per object, except for the target and the duration, which are modelled.
- The Common Expression Language beyond disjunctions of parenthesized string comparisons, and its runtime cost limit.
- Lease holders that act past the expiry of their Lease: a holder past it takes no more steps in `Admission`, which is the hypothesis under which the Lease excludes.
- Changes of tenant policies and of bundle tenants during a run of `Admission`; resource limits and bundle allow-lists are checks without state and add only easy members.
- The mutex that serializes creates inside one replica: the model lets all creates interleave.
- `Fence` follows one incarnation of one assignment, and lets upstream calls answer in any way; the bound on the number of fence retries is not modelled.
- The texts of conditions; where a condition's message is an error text, the model gives the Pod eligibility errors fixed texts.
- The body of Check before the policy is consulted: `Audit` takes its result as a step, with an allow only after an assignment was identified and without an error.
- Which credentials the authorization check allows to be issued: `GrantRuns` lets any be issued at any time, which only strengthens what no verification may do; the runs of `Rotation` that do succeed issue theirs on an assignment that binds it.
- Retention cleanup of audit events, hasActiveDuplicate, metadata patches and the deletion handler: filters and single calls that add only easy members.
- Signature, audience and issuer checks are modelled in `Broker`; audit events of the broker are not.
- Text that is not valid UTF-8: strings are sequences of characters.
- ReconcileAssignment: covers live assignments; the deletion branch is the FinalizeNow and Release steps of `InUse`.
- FindPods: Pods allocated from a Pool are taken from the same function as in `Reconcile`, since that code has no loop.
- SimulatePolicyImpact: events with equal names may come out in either order in the source; the model states a sorted permutation.
