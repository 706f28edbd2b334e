# nginx-atlas: the controller/agent protocol and the agent's file transactions

nginx-atlas runs many nginx hosts from one controller. The controller keeps nodes, jobs, domains and
certificates in one state that a store changes by atomic transactions; an agent on each node polls,
executes one job at a time and reports. This project models that logic in Dafny and proves what it keeps.

* **The controller.** `Model`, `Jobs` and `Protocol` give each handler and each background pass as a function
  from the state before to the state after; `Transitions` makes them the steps of one machine with a clock that
  never goes back. `Invariants` states what the code keeps without ever saying it. `Preservation`, `AgentSteps`,
  `MaintenanceSteps` and `AdminSteps` prove every step against it, and `Reachable`, `Bystanders`, `Progress`,
  `Acceptance`, `Revocation`, `RetryLinks`, `Renewal` and `Presence` draw the conclusions over whole runs. `Polls`,
  `Results`, `Requests` and `Passes` say of each operation, in terms of records and not of its function, when it is
  refused and what exactly it leaves behind. `Controller` is the
  object the server works on: its methods and loops change maps step by step, each loop in an arbitrary order, and
  are proved to compute the functions (`PassOrder` and `AdminLoops` describe the loops half way).
* **Self-update.** `UpdateConfirmation` is the online detector of a stable new version, proved equal to a predicate
  over the whole history of reports. `SelfUpdate` is the protocol of agent, watchdog and controller as a timed state
  machine in which steps interleave freely and operations fail; `Agent` is the agent's code, proved to be runs of it.
* **The store.** `Store` holds the store object and, beside it, the interleavings of commits, sends and readers.
* **The agent's files.** `ServerBlocks` is the line scanner that removes `server` blocks from a shared file, proved
  against a reading of the file as lines and blocks, and `Directives` says on the text itself what it recognises.
  `FileTransactions` gives apply, delete, sync and takeover on a
  map of files where any set of steps may fail, `Deployments` says when they succeed and what they leave, and
  `Executor` is the code, proved to compute them.
* **Arithmetic.** `LoginLimit` (login windows, token bucket) and `Pbkdf2` (over any function with 32-byte results).

Instants and durations are integers counting nanoseconds. Generated job ids are fresh and numbered in order, so a
link from an older to a newer job is a link to a larger number. Payloads are datatypes. A *node job* is any job that
is not an `issue_certificate` job. What a handler learns from outside becomes a parameter: whether a secret opens
(`opens`), the certificate that a result was found to carry (`prepared`), the order in which a loop comes to the
entries of a map (`Orders`), the branch a poll takes where several jobs qualify (`PollCase`), which steps fail
(`fails`), whether an agent version is recent enough (`supportsWildcardSync`). A rejected transaction leaves the
state as it was, as the store drops the copy it worked on.

## What does not hold

Where a property fails, the code is modelled as it is, an input is given, and the exact condition is proved.

* *Clearing jobs can lose a deletion.* A clear looks at a domain's last job only
  (`internal/server/admin.go:381-393`), and a renewal overwrites it even for a domain that is being deleted
  (`internal/server/scheduler.go:113-138`). The delete job is then removed and the flag stays, after which
  another request to delete is refused (`Reachable.ClearCanLoseDeletion`, `Reachable.ClearKeepsDeletionsIff`).
* *Three mishaps break the confirmation of an update*, and each does so alone. A late result: the controller accepts a
  result request of an attempt that was undone while the agent is at work on the next one, the three-minute wait starts
  too early, and the second attempt is confirmed while its watchdog is armed (`SelfUpdate.ConfirmedTooEarly`). A stuck
  marker: an undo that cannot remove the marker disarms the watchdog all the same, and on a host where the new version
  was on disk before, the update is confirmed with the marker in place (`SelfUpdate.ConfirmedWithMarker`). A failed
  watchdog: the rollback helper gives up while the new version is on disk, and the update is confirmed with the marker in
  place and nothing left to undo it (`SelfUpdate.ConfirmedUnwatched`). Each mishap is given by the state in which the step is taken
  (`SelfUpdate.MishapsOf`): results handled before the agent fetches another job, or when nothing but the rest of an
  attempt at the same version is under way, markers that stay beside an old binary, and helpers that fail where they
  leave nothing undone are none. Without the three the promise holds in every run, and not with any of them
  (`SelfUpdate.UpdateIsSafe`, `SelfUpdate.SafeIffNoMishap`). The second can be ruled out before an update, by the version
  on disk (`SelfUpdate.SafeIfBinaryIsNew`).
* *Three deployments are not rolled back in full*: a certificate with TLS off, a local certificate copied half way,
  and a second takeover of one file (`FileTransactions.AllOrNothingIff`).
* *A deletion can abort half way.* Where the original is back but its backup cannot be removed, the shared file keeps
  the original while the site is restored (`FileTransactions.StuckBackup`, `FileTransactions.EarlyDeleteUndoesIff`).
  A takeover refuses the site's own file as the shared one, a deletion does not: where the two coincide, a deletion
  moves the original into the place of the site, and one that fails afterwards loses the backup
  (`FileTransactions.FailedDeletionOfOwn`).
* *The block removal is not always idempotent.* Replacing CR LF by LF turns CR CR LF into CR LF, which the next
  removal normalises again (`ServerBlocks.SecondRemovalCanNormaliseAgain`, `ServerBlocks.IdempotentIff`,
  `ServerBlocks.IdempotentWithoutDoubleReturn`).
* *A login block ends with its window.* `normalizeLoginWindow` starts a window afresh a minute after it began and
  forgets `BlockedUntil` with it, so a client may try again a minute after its first attempt, not a minute after it
  was blocked as it is told (`LoginLimit.BlockEndsEarly`, `LoginLimit.BlockLastsIff`). The bound of 11 in
  `LoginLimit.ElevenAttemptsAMinute` is for the code as it is.

## Model

| member | source | states |
|---|---|---|
| Reachable.InvReachable | internal/server/agent_api.go:125-203 | from an empty controller, after any run of all seventeen kinds of step, records sit under their own ids, every job is within its bounds, pointers and running node jobs name each other, and retry links are consistent |
| AdminSteps.InvStep | internal/server/agent_api.go:281-343 | every single step keeps those invariants |
| AdminSteps.StepIsKept | internal/server/scheduler.go:31-188 | every step moves each job only by one of the named moves (taken, sent again, accepted, observed, requeued, ended, linked), adds only fresh jobs, and removes only queued or failed ones |
| Invariants.MovedKeepsJobInv | internal/server/agent_api.go:149-200 | a move keeps a job's own bounds: attempts, timestamps from the past, acceptance only on a self-update that is not queued |
| Reachable.OneRunningJobPerNode | internal/server/agent_api.go:125-203 | in every reachable state a node has at most one running node job, `RunningJobID` names a job exactly if it is that one, and a node with a running job is not revoked |
| Reachable.OrphanSearchFindsNothing | internal/server/agent_api.go:149-183 | the search for orphaned running jobs never finds one: a poll sends again only the job its node points at, and a pointer is always followed |
| AgentSteps.PollIsOk | internal/server/agent_api.go:106-228 | a poll, including a failed dispatch, keeps keys, pointers, links and deletion flags |
| AgentSteps.SelectedJobRunsIffItHasRecords | internal/server/agent_api.go:219-226 | a job that a poll selects is running afterwards exactly when the controller still has the records to send it; otherwise it failed and its node is free |
| AgentSteps.ResultIsOk | internal/server/agent_api.go:281-343 | a job result keeps them, whatever follow-up jobs it adds |
| MaintenanceSteps.MaintainIsOk | internal/server/scheduler.go:31-188 | a whole maintenance pass keeps them, in whatever order it visits its maps |
| AdminSteps.CommitIsOk | internal/server/certificate_issuer.go:90-124 | the issuer's fenced commit keeps them |
| AdminSteps.RevokeIsOk | internal/server/node_management.go:348-393 | a revocation keeps them |
| AdminSteps.RetryIsOk | internal/server/admin.go:298-345 | a manual retry keeps them: the flag of a domain comes back with its delete job |
| AdminSteps.ClearKeeps | internal/server/admin.go:362-398 | a clear keeps keys, pointers, links and job bounds |
| Reachable.DeletionRun | internal/server/agent_api.go:825-841 | in every run without a clear a domain flagged as being deleted has a queued or running delete job |
| AdminSteps.DeletionStep | internal/server/admin.go:1077-1113 | every step but a clear keeps it so: failure, timeout, queue expiry, retry, revocation and completion included |
| Reachable.ClearKeepsDeletionsIff | internal/server/admin.go:366-393 | a clear keeps it exactly when each flagged domain has a running delete job or a queued or failed delete job as its last job |
| Reachable.ClearCanLoseDeletion | internal/server/admin.go:366-393 | a run of six steps (renewal of a domain being deleted, then a clear) that leaves the domain flagged with no job, where a new deletion is refused |
| Progress.AttemptsAreBounded | internal/server/agent_api.go:149-200 | in every reachable state a node job's attempts are at most its maximum, and fewer while it is queued |
| Progress.MeasureFalls | internal/server/agent_api.go:315-332 | no move raises twice the attempts left plus one if running, and every change of status or attempts lowers it |
| Progress.StatusChangesAreBounded | internal/server/scheduler.go:56-103 | over any run the number of status changes of a node job and its final measure are together at most its first measure |
| Progress.SixChangesAtMost | internal/server/admin.go:2578-2594 | a freshly queued job with three attempts changes its status at most six times |
| Progress.SilentNodeJobsFail | internal/server/scheduler.go:52-104 | if a node sends nothing more, a pass more than 90 minutes later and one more than 10 minutes after that leave every unfinished job it had failed or cleared, whatever else happens |
| Progress.SilentStep | internal/server/scheduler.go:56-103 | without its node a job stays, is requeued from running by maintenance, or fails |
| Progress.LatePassEndsRunning | internal/server/scheduler.go:78-103 | a pass 90 minutes after everything on a silent node was started leaves nothing running on it |
| Progress.LatePassEndsQueued | internal/server/scheduler.go:66-77 | a pass 10 minutes after the job was queued fails it when its node runs nothing |
| Bystanders.BystanderStep | internal/server/agent_api.go:125-203 | steps other than maintenance, revocation and clears change a node job only through polls and results of its own node, but for a retry link |
| Bystanders.MaintenanceStep | internal/server/scheduler.go:52-104 | in a pass a job moves as the job loop moves it, whatever recovery and renewal add |
| UpdateConfirmation.DetectorEqualsHistory | internal/server/update_confirmation.go:13-53 | for every sequence of polls before the deadline the two timestamps decide exactly what a predicate over the whole history of reports decides; heartbeats change nothing |
| UpdateConfirmation.OutcomeOfPolls | internal/server/update_confirmation.go:26-76 | for every sequence of polls: success at the first confirming report in time, else failure at the first poll 30 minutes or more after acceptance, else still waiting |
| UpdateConfirmation.MatchesIff | internal/server/update_confirmation.go:36-42 | a report matches exactly if it and the job spell the same version, with or without a leading v and space around it, and it is not blank |
| UpdateConfirmation.RunStartIsMaximal | internal/server/update_confirmation.go:43-46 | the remembered instant is the start of the longest run of matching reports with gaps of at most 30 seconds |
| UpdateConfirmation.ConfirmsIffRunStart | internal/server/update_confirmation.go:47-50 | a report confirms exactly when it comes 3 minutes after acceptance and 30 seconds after that start |
| UpdateConfirmation.ObserveKeeps | internal/server/update_confirmation.go:26-53 | a poll changes outcome, error and the two timestamps only, and never queues the job |
| UpdateConfirmation.FinishedStays | internal/server/update_confirmation.go:22-24 | polls after the outcome leave the job as it is |
| Acceptance.WaitingRunIsDetector | internal/server/agent_api.go:140-148 | over any run of the whole controller in which its node is not revoked, a waiting update is what the detector makes of the node's polls and of the instants of the maintenance passes |
| Acceptance.AcceptedUpdateOutcome | internal/server/agent_api.go:287-304 | the outcome of an accepted update in any such run, in terms of the report history; while it waits its attempts and acceptance time stay and nothing else runs on the node |
| Acceptance.AcceptedResult | internal/server/agent_api.go:287-304 | a successful result starts the wait at that instant, and a repeated result changes nothing at all |
| Acceptance.NothingElseRuns | internal/server/agent_api.go:140-148 | while an update waits every poll of its node observes it, so it is not sent again and no other job starts |
| Acceptance.WaitingStep | internal/server/scheduler.go:56-65 | one step of the controller moves a waiting update exactly as the detector does |
| Acceptance.PassIsHeartbeat | internal/server/scheduler.go:56-65 | to a waiting update a maintenance pass is a poll without a report |
| Revocation.RevokeClearsReferences | internal/server/node_management.go:357-376 | no domain is owned by or synchronised to the node, no certificate is issued by or deployed on it |
| Revocation.RevokeKeepsOthers | internal/server/node_management.go:348-393 | jobs and records of other nodes and all other references stay |
| Revocation.RevokeFailsJobs | internal/server/node_management.go:378-392 | every active job of the node fails, its finished ones stay, and a domain whose delete job fails is not being deleted any more |
| Revocation.RevocationIsFinal | internal/server/agent_api.go:125-129 | in every later state the node is revoked, runs no node job, and every poll of it is rejected |
| Revocation.RevokedStays | internal/server/scheduler.go:34-37 | no step brings a revoked node back |
| Revocation.ChangeNamesLiveNodes | internal/server/admin.go:1317-1355 | a change of a domain names only live nodes and, for renewal, existing accounts: its node and, each once, its sync targets |
| RetryLinks.LinksAreInverse | internal/server/admin.go:298-345 | in every reachable state `RetryJobID` and `RetryOfID` are inverse and one-to-one on the jobs present, and only failed jobs carry `RetryJobID` |
| RetryLinks.RetriesNeverCycle | internal/server/admin.go:308-329 | a chain of retries never leads back to an earlier job |
| RetryLinks.LinkIsWrittenOnce | internal/server/admin.go:299-305 | a link that is set stays as it is while its job exists, over any run |
| RetryLinks.RecoveryRetriesOriginalsOnce | internal/server/certificate_sync_recovery.go:15-45 | automatic recovery links only originals that have no retry, adds one retry for each, and never retries a retry, in whatever order and however often it visits jobs |
| Renewal.PassRenewsAll | internal/server/scheduler.go:113-182 | after a maintenance pass every due domain and every due unlinked certificate has an active issue job |
| Renewal.RenewalsStayIffRenewed | internal/server/scheduler.go:113-182 | the renewal loops change nothing exactly when everything due already has an active issue job |
| Renewal.RepeatedRenewalsAddNothing | internal/server/scheduler.go:113-182 | repeating them at the same instant, in any order, adds nothing |
| Renewal.RenewDomainsAddsOneEach | internal/server/scheduler.go:131-141 | the domain loop adds at most one issue job for a domain, and none where one was active |
| Renewal.RenewCertificatesAddsOneEach | internal/server/scheduler.go:149-182 | the certificate loop adds at most one issue job for a certificate, and none where one was active |
| Renewal.DueIsStable | internal/server/scheduler.go:113-130 | what is due does not depend on what has been scheduled before |
| Presence.OnlineIffHeard | internal/server/scheduler.go:34-45 | over any run from one poll of a node to its next, the node, if not revoked, is online exactly if no maintenance pass came later than the configured time after it was last heard of, by that poll or by a result since; otherwise it is offline |
| Presence.PassPresence | internal/server/scheduler.go:34-45 | one pass turns a node that is not revoked offline exactly if it was never heard of or for longer than the configured time, and changes no other status and no last contact |
| Presence.ResultPresence | internal/server/agent_api.go:281-309 | a result that is taken renews the last contact and no status; one for a waiting update changes neither |
| Presence.PollPresence | internal/server/agent_api.go:125-139 | a poll of a live node makes it online and heard of at that instant, and no other node |
| Polls.PollTakes | internal/server/agent_api.go:140-200 | in a state that satisfies the invariants a poll is answered with the job the node points at, or observes it if it is an update that waits; a node that runs nothing gets the node job queued for it first, or nothing if there is none |
| Polls.SendingPollLeaves | internal/server/agent_api.go:149-228 | the job that is sent starts with one attempt more, or is sent again with one more while any are left; without its records it has failed and the node is free; nothing else changes but the node's report |
| Polls.ObservingPollLeaves | internal/server/agent_api.go:140-148 | a waiting update is observed with the version reported, and its node points at it exactly while it waits |
| Polls.IdlePollLeaves | internal/server/agent_api.go:125-203 | a poll with nothing to do records the report, and nothing else changes |
| Polls.IssueErrorIff | internal/server/agent_api.go:415-464 | an issue can be sent exactly if its name is known, both accounts exist and the secrets open, taken from its domain if it has one |
| Results.SuccessLeaves | internal/server/agent_api.go:281-314 | a successful result is taken exactly if its domain and certificate are there; the job has succeeded, the node is free and heard of, and the rest is exactly what the type of job leaves (`Leaves`): an applied domain enabled with its certificate and text and one sync job per sync node in order; an issued certificate linked and deployed, or sent to the nodes listed and the issuer; a captured, synchronised or deleted one likewise |
| Results.FailureLeaves | internal/server/agent_api.go:315-340 | a failed result queues the job again exactly while attempts are left and the error is not final; otherwise it has failed, and a domain it was to delete is an ordinary one again |
| Results.ResultIsRefusedIff | internal/server/agent_api.go:254-304 | a result is refused exactly for a job that is not running on the node, for a self-update without version, and where the domain or the certificate is missing |
| Results.CommitIsTakenIff | internal/server/certificate_issuer.go:90-99 | the issuer's commit is taken exactly for the attempt that was claimed and, if successful, with a certificate and its domain |
| Results.CommitLeaves | internal/server/certificate_issuer.go:95-103 | a successful commit leaves what its type of job leaves and touches no node |
| Results.FailedCommitLeaves | internal/server/certificate_issuer.go:104-121 | a failed issue waits as many minutes as it had attempts, and fails after the last |
| Requests.RetryIsTakenIff | internal/server/admin.go:298-327 | a retry is taken exactly for a failed job without retry, on a live node, whose records are there |
| Requests.RetryLeaves | internal/server/admin.go:308-343 | it queues a fresh copy with no attempt made and the old maximum, or three, linked both ways and the last job of its domain; the retry of a deletion flags and disables the domain |
| Requests.ClearLeaves | internal/server/admin.go:366-396 | exactly the running and the succeeded jobs stay, and a domain whose last job goes forgets it, and its deletion with it |
| Requests.DeletionRequestLeaves | internal/server/admin.go:1077-1108 | an unmanaged domain is dropped, one being deleted is refused, any other is disabled and flagged with one new delete job as its last |
| Requests.ChangeIsTakenIff | internal/server/admin.go:1317-1355 | a change is taken exactly if domain, node, accounts, certificate and sync targets are there and no custom configuration is under way |
| Requests.ChangeLeaves | internal/server/admin.go:1356-1412 | the domain takes the settings and is enabled, keeps name and text, one new job issues or applies as its source demands, and its certificate takes over the renewal settings if the domain renews |
| Requests.TargetsAreThoseListed | internal/server/admin.go:2560-2576 | the sync targets are the nodes listed, without blanks and the domain's own; a node that is not live rejects the list |
| Requests.RevocationLeaves | internal/server/node_management.go:348-393 | after a revocation the node points at nothing, its domains have no owner, are disabled and do not renew, its certificates have no issuer, and a domain whose deletion failed with it is an ordinary one again |
| Requests.ClaimLeaves | internal/server/certificate_issuer.go:51-66 | exactly a queued or running issue can be claimed; it runs with one attempt more, and its node does not point at it |
| Passes.PassMovesJobs | internal/server/scheduler.go:52-104 | in a pass a waiting update fails after 30 minutes, a running job is requeued or failed after the 20, 30 or 90 minutes of its type by whether attempts are left, a job queued for over ten minutes fails if its node is idle or gone, and every other job stays |
| Passes.PassMovesDomains | internal/server/scheduler.go:66-104 | a pass changes a domain only in its last job and where it fails the deletion of it |
| Passes.DomainLoopRenewsJust | internal/server/scheduler.go:113-142 | the domain loop adds one issue job for exactly those domains it visits that renew, have what that takes, run out and have none under way |
| Passes.CertificateLoopRenewsJust | internal/server/scheduler.go:143-182 | the certificate loop likewise, for certificates that no renewing domain uses: on the issuer, to be installed there and sent to the other nodes that have it |
| Passes.RecoveryOfOne | internal/server/certificate_sync_recovery.go:15-45 | recovery queues a sync of the same certificate to the same node, linked both ways, exactly if the failure was the old agent's and nothing stands in the way any more |
| Passes.PassRecoversAll | internal/server/certificate_sync_recovery.go:15-45 | after a pass no job that there was can still be recovered |
| PassOrder.JobLoopHasNoOrder | internal/server/scheduler.go:52-104 | visiting the jobs in any order gives the same jobs, pointers and domain flags: those of the pointwise pass |
| PassOrder.TurnAdvances | internal/server/scheduler.go:52-104 | one turn of the loop adds exactly its job to what has been done |
| Controller.Controller.constructor | internal/store/store.go:29-55 | a new controller is empty and satisfies the invariants |
| Controller.Controller.EnqueueJob | internal/server/admin.go:2578-2594 | inserts a queued job with three attempts under a fresh id and changes nothing else |
| Controller.Controller.EnqueueSyncJobs | internal/server/agent_api.go:843-852 | one sync job per node of the list, in its order |
| Controller.Controller.FinishUpdateConfirmation | internal/server/update_confirmation.go:55-76 | writes the finished job and releases the node only if it points at it |
| Controller.Controller.ObserveUpdate | internal/server/update_confirmation.go:26-53 | the step-by-step timestamps give the detector's next job, and the pointer follows its status |
| Controller.Controller.FindWaiting | internal/server/agent_api.go:140-148 | finds a waiting update of the node if there is one |
| Controller.Controller.OldestJob | internal/server/agent_api.go:164-188 | the node's job of the given status that was created first, or none if there is none |
| Controller.Controller.SelectJob | internal/server/agent_api.go:149-200 | the branch taken is the one that the order of the source's checks prescribes |
| Controller.Controller.HandlePoll | internal/server/agent_api.go:106-228 | a poll takes a branch it may take, does what the protocol's poll function says, and keeps the invariants |
| Controller.Controller.FailUnsent | internal/server/agent_api.go:521-536 | the job fails whatever it has become and its node is released |
| Controller.Controller.CompleteSuccessfulJob | internal/server/agent_api.go:714-823 | the follow-up of each job type as the function of `Results.SuccessLeaves`, and rejection exactly where a domain or certificate is missing |
| Controller.Controller.RestoreFailedDomainDeletion | internal/server/agent_api.go:825-841 | only a delete job's domain is changed: flag off, enabled exactly if it has a node |
| Controller.Controller.HandleResult | internal/server/agent_api.go:252-343 | a result is refused, or does what the protocol's result function says, of which `Results` gives the outcome for every type of job; the invariants hold either way |
| Controller.Controller.MarkNodesOffline | internal/server/scheduler.go:34-45 | every node becomes what the protocol's function makes of it, of which `Presence` gives the meaning over runs |
| Controller.Controller.BusyNodes | internal/server/scheduler.go:46-51 | the set of nodes on which a node job is running |
| Controller.Controller.VisitJob | internal/server/scheduler.go:52-104 | one turn of the job loop: deadline, queue expiry and timeout with their effects on node and domain |
| Controller.Controller.VisitJobs | internal/server/scheduler.go:52-104 | the job loop in an arbitrary order equals the pointwise pass |
| Controller.Controller.CanRecover | internal/server/certificate_sync_recovery.go:17-30 | the guards decide exactly whether a failed sync is recoverable |
| Controller.Controller.RecoverWildcardSyncs | internal/server/certificate_sync_recovery.go:15-45 | the recovery loop, which may come across the jobs it adds, is a recovery in some order that covers every job |
| Controller.Controller.AnyActiveNodeJob | internal/server/node_management.go:282-289 | true exactly if the node has a queued or running job |
| Controller.Controller.LatestCertificate | internal/server/certificate_sync_recovery.go:52-59 | true exactly if no other certificate of the domain is newer |
| Controller.Controller.ActiveJob | internal/server/scheduler.go:220-227 | true exactly if the domain has a queued or running issue job |
| Controller.Controller.ActiveCertificateJob | internal/server/scheduler.go:207-218 | true exactly if the certificate has a queued or running issue job |
| Controller.Controller.ScheduleDomains | internal/server/scheduler.go:113-142 | the domain loop is a renewal in some order that covers every domain |
| Controller.Controller.ScheduleCertificates | internal/server/scheduler.go:143-182 | the certificate loop, with the links computed before it, is a renewal in some order that covers every certificate |
| Controller.Controller.WithoutString | internal/server/node_management.go:395-403 | the list without the string, in order |
| Controller.Controller.RunMaintenancePass | internal/server/scheduler.go:31-188 | a pass does what the protocol's maintenance function says, keeps the invariants, and leaves everything due with an active issue job |
| Controller.Controller.NextIssueJob | internal/server/certificate_issuer.go:38-52 | the oldest issue job that is running or due, or none if there is none |
| Controller.Controller.ClaimIssueJob | internal/server/certificate_issuer.go:51-66 | a claim counts one attempt more, which is the fence for the commit |
| Controller.Controller.CommitIssueJob | internal/server/certificate_issuer.go:90-124 | a commit counts only for the attempt claimed; otherwise nothing changes |
| Controller.Controller.RevokeNodeState | internal/server/node_management.go:348-393 | the loops over domains, certificates and jobs, in any order, equal the pointwise revocation |
| Controller.Controller.HandleRevoke | internal/server/agent_api.go:230-250 | a known node is revoked, and the invariants hold |
| Controller.Controller.HandleAdminRevoke | internal/server/admin.go:486-507 | the same, refused for a node already revoked |
| Controller.Controller.HandleRetry | internal/server/admin.go:289-360 | a retry is refused, or queues a fresh linked copy and flags its domain; the invariants hold |
| Controller.Controller.HandleClear | internal/server/admin.go:362-404 | removes exactly the queued and failed jobs and says how many, and the invariants hold |
| Controller.Controller.HandleDeleteDomain | internal/server/admin.go:1074-1113 | a deletion is refused, dropped at once, or queued with its flag |
| Controller.Controller.ValidateNodeIds | internal/server/admin.go:2560-2576 | the list of live nodes without the excluded one, each once, or invalid as a whole |
| Controller.Controller.HandleUpdateDomain | internal/server/admin.go:1309-1412 | a change is refused for an unknown node, account, certificate or sync target or a pending custom configuration; otherwise it resets the flags, copies the renewal settings to the certificate and queues a deployment unless the domain is only observed |
| Store.Store.Update | internal/store/store.go:117-149 | commits exactly if the callback succeeds, changes something and persists: then one revision more and one non-blocking offer to every subscriber; otherwise state, revision and channels stay |
| Store.Store.Subscribe | internal/store/store.go:153-163 | a fresh empty channel under a new id, and the current revision |
| Store.Store.Cancel | internal/store/store.go:165-173 | exactly this subscriber is gone |
| Store.NoLostWakeUpInRun | internal/store/store.go:117-174 | under every interleaving a registered subscriber that has not read the committed revision has a signal waiting, is between receive and read, or is still on a send list |
| Store.QuietSubscriberIsCurrent | internal/store/store.go:142-149 | a subscriber with nothing waiting and no send left has read the committed state |
| Store.SendsOfferToAll | internal/store/store.go:142-147 | the sends of a commit, in any order, offer its revision once to each listed channel and touch nothing else |
| Store.RevisionCountsCommits | internal/store/store.go:133-134 | the revision grows by one with each commit and only then |
| SelfUpdate.UpdateIsSafe | internal/agent/client.go:256-299 | in every run of agent, watchdog and controller without one of three mishaps, whatever else fails and however the parties interleave: once an update is marked succeeded the expected binary is installed and running, the marker is gone and no armed timer is left |
| SelfUpdate.SafeIfBinaryIsNew | internal/agent/client.go:278-286 | where no update begins with the new version on disk already, markers may stay behind wherever their removal fails: runs without a late result and a failed watchdog end as promised |
| SelfUpdate.StuckMarkerNeedsInstalled | internal/agent/client.go:279-284 | a marker left by an undo is a mishap only of an update that found the new version installed when it wrote the marker |
| SelfUpdate.SafeIffNoMishap | internal/agent/client.go:277-290 | of any set of mishaps: the promise holds in all runs with no others exactly when the set is empty, so each of the three alone breaks it |
| SelfUpdate.ConfirmedWithMarker | internal/agent/client.go:280-283 | a run whose only mishap is a marker that an undo could not remove, in which the controller confirms an update that was undone |
| SelfUpdate.ConfirmedTooEarly | internal/server/update_confirmation.go:26-53 | a run whose only mishap is one late result, in which the controller confirms an update whose watchdog is still armed |
| SelfUpdate.ConfirmedUnwatched | internal/agent/update_rollback.go:74-97 | a run whose only mishap is a rollback helper that fails, in which the controller confirms an update whose marker is still in place, with no watchdog left |
| SelfUpdate.SuccessIsReachable | internal/agent/update_rollback.go:152-176 | an undisturbed update does reach success |
| SelfUpdate.InvStep | internal/agent/update_rollback.go:74-176 | every step of the three parties keeps the invariant behind it |
| Agent.Agent.InstallUpdate | internal/agent/executor.go:563-582 | marker first, then the binary; a failed rename leaves the binary and takes the marker back, unless its removal fails too |
| Agent.Agent.RunUpdate | internal/agent/client.go:250-300 | says of every combination of operations that work or fail which binary, marker, watchdog, restart order and job are there in the end, and that this is a run of the three-party protocol |
| Agent.Agent.Execute | internal/agent/executor.go:563-582 | the new binary and its marker are in place exactly if everything up to the rename works, and otherwise the old binary |
| Agent.Agent.Activate | internal/agent/client.go:256-300 | the same for what follows once the new binary is in place |
| Agent.Agent.Arm | internal/agent/client.go:256-275 | arming leaves a watchdog for the old binary; where it reports an error, the old binary is back unless that fails, and the marker gone if it can be removed; a step of the protocol in each case |
| Agent.Agent.ReportAndRestart | internal/agent/client.go:276-299 | a restart is ordered exactly after a successful result was delivered and if that works; after an undelivered one the old binary is back unless the restore fails, and then marker and watchdog are gone as far as they can be removed; a run of the protocol |
| Agent.Agent.Undo | internal/agent/client.go:279-287 | old binary first; only if that reports success, the marker, whether or not it can be removed, and then the watchdog |
| Agent.Agent.ConfirmPendingUpdate | internal/agent/update_rollback.go:152-176 | the marker goes exactly after 30 seconds of the expected version with all services healthy, and then the watchdog; if it cannot be removed nothing changes |
| ServerBlocks.RemoveServerBlocksForDomain | internal/agent/executor.go:990-1049 | refuses exactly the missing domain and the file that ends inside a block; otherwise returns the lines of the file without the blocks that name the domain, and their number |
| ServerBlocks.OneReading | internal/agent/executor.go:1019-1039 | a file can be read as single lines and whole blocks in at most one way |
| ServerBlocks.RemovalIsUnique | internal/agent/executor.go:990-1049 | so there is one result |
| ServerBlocks.SurgeryIsTheResult | internal/agent/executor.go:990-1049 | and the scanner computes it |
| ServerBlocks.NothingRemoved | internal/agent/executor.go:1045-1048 | nothing is counted exactly when no block names the domain, and then the text is the input with CR LF normalised |
| ServerBlocks.ResultHasNoMatch | internal/agent/executor.go:990-1049 | read again, the result has no block that names the domain |
| ServerBlocks.IdempotentIff | internal/agent/executor.go:990-1049 | removing again changes nothing exactly when, of the lines of the input that are kept, none but the last ends in CR |
| ServerBlocks.IdempotentWithoutDoubleReturn | internal/agent/executor.go:990-1049 | so for every input in which no CR stands before a CR LF |
| ServerBlocks.ReturnsAreLineEnds | internal/agent/executor.go:995-996 | a text holds CR LF exactly when a line of it other than the last ends in CR |
| ServerBlocks.NormaliseLeavesNoReturn | internal/agent/executor.go:995-996 | normalising leaves no CR LF where no CR stands before a CR LF |
| ServerBlocks.SecondRemovalCanNormaliseAgain | internal/agent/executor.go:995-996 | with a CR before a CR LF a second removal does change the text |
| ServerBlocks.ClosingLine | internal/agent/executor.go:1034-1038 | the empty line after a final newline closes no block |
| ServerBlocks.SplitJoin | internal/agent/executor.go:996-1048 | splitting undoes joining, so what is written is what was kept |
| Directives.NamesExactlyTheListed | internal/agent/executor.go:1051-1063 | a block is taken for the domain's exactly if its first `server_name` directive lists the domain, up to the case of letters, bare or quoted, with any spacing |
| Directives.NothingListed | internal/agent/executor.go:1051-1055 | a block without a line that begins with `server_name` is nobody's |
| Directives.RefusedIff | internal/agent/executor.go:990-1044 | a file is refused exactly if no domain is given or it ends inside a block |
| Directives.DomainBlocksGo | internal/agent/executor.go:990-1049 | otherwise exactly the blocks of the domain go, in whatever case it is written and with space around it, and are counted |
| Directives.OpensIff | internal/agent/nginx_inventory.go:14-17 | a line opens a block exactly if, comments aside, it is space, `server`, space and an opening brace |
| Directives.CommentedOpensNothing | internal/agent/nginx_inventory.go:133-138 | what is commented out opens nothing |
| Directives.BracesBeforeComment | internal/agent/nginx_inventory.go:140-142 | the depth of a line counts the braces before the comment, and no other |
| Directives.DepthAdds | internal/agent/executor.go:1031-1038 | the depth of lines is the sum of theirs |
| Directives.OnlyWhitespaceIff | internal/agent/executor.go:1065-1072 | a file counts as empty exactly if every line is space or comment |
| Directives.Trimmed | internal/agent/nginx_inventory.go:133-138 | trimming takes space away at both ends, and all of it |
| FileTransactions.SyncIsAllOrNothing | internal/agent/executor.go:318-344 | whichever step fails, a certificate sync writes both files or leaves every file as it was |
| FileTransactions.AllOrNothingIff | internal/agent/executor.go:146-250 | a failing deployment leaves every file as it was, whatever fails, exactly when no certificate comes with TLS off, none is copied from another directory, and the shared file was not taken over before with blocks of the domain left in it |
| FileTransactions.DeploymentKeepsFiles | internal/agent/executor.go:180-192 | outside those three cases the rollback restores every file |
| FileTransactions.StrayCertificateStays | internal/agent/executor.go:194-197 | a bundle with TLS off is left behind by a failure |
| FileTransactions.StrayCopyStays | internal/agent/executor.go:198-206 | a half copied local certificate is left behind |
| FileTransactions.SecondTakeoverIsLost | internal/agent/executor.go:655-660 | the rollback of a second takeover brings back the contents from before the first |
| FileTransactions.DisableIsSafe | internal/agent/executor.go:634-704 | a takeover that is refused changes nothing; a first one saves the original and changes nothing but the shared file |
| FileTransactions.TakeoverUndone | internal/agent/executor.go:711-761 | restoring brings the original back and removes the backup |
| FileTransactions.FirstDeployment | internal/agent/executor.go:146-250 | a first takeover leaves the new site, the shared file without the domain's blocks, and the original in the backup |
| FileTransactions.DeleteRestoresOriginal | internal/agent/executor.go:273-316 | a deletion leaves the original, no backup, and no site unless the original belongs in its place |
| FileTransactions.TakeoverRoundTrip | internal/agent/executor.go:273-316 | a first takeover and then a deletion leave every file but the certificate's as it was before, without site and backup |
| FileTransactions.DeleteUndoesIff | internal/agent/executor.go:295-309 | a deletion whose validation or reload fails leaves every file as it was, whatever fails, exactly when there is no takeover to undo (no backup, or a path that is refused), or the backup is the original and the shared file, which is not the site's own, what is left of it |
| FileTransactions.EarlyDeleteUndoesIff | internal/agent/executor.go:284-295 | a deletion that fails before its validation leaves every file as it was, whatever fails, exactly when it would not overwrite a shared file, other than the site's own, with a different original |
| FileTransactions.FailedDeletionOfOwn | internal/agent/executor.go:295-309 | where the shared file is the site's own, a deletion whose validation or reload fails leaves every file but the backup, which is lost |
| FileTransactions.PlainDeleteIsAllOrNothing | internal/agent/executor.go:273-316 | without a takeover a deletion removes the site or, early or late, leaves every file as it was |
| FileTransactions.RestoreUndoes | internal/agent/executor.go:1353-1387 | restoring what was captured undoes every change to the captured paths and touches no other |
| Deployments.DeploymentOutcome | internal/agent/executor.go:146-250 | a deployment that is not aborted, with or without takeover, leaves the rendered site, the certificate of the bundle or the copied one, the shared file without the domain's blocks, its first contents in the backup, and every other file as it was |
| Deployments.DeploymentSucceedsIff | internal/agent/executor.go:146-250 | it succeeds exactly if the configuration can be rendered, the certificate is at hand, the shared file can give way and none of its steps fails |
| Deployments.FailedTakeoverKeepsFiles | internal/agent/executor.go:212-217 | a deployment whose takeover fails leaves every file as it was, even where the shared file had been taken over before |
| Deployments.FailedTakeoverReportsNoChange | internal/agent/executor.go:634-704 | a takeover that fails reports no change, so that the rollback touches no backup |
| Deployments.DeletionSucceedsIff | internal/agent/executor.go:273-316 | a deletion succeeds exactly if the path of its takeover is allowed and none of its steps fails |
| Deployments.DeletionWithoutBackup | internal/agent/executor.go:711-725 | with nothing to give back a deletion removes the site alone |
| Deployments.SyncSucceedsIff | internal/agent/executor.go:318-344 | a sync succeeds exactly for a valid certificate and if none of its steps fails |
| Deployments.AllowedSourceIff | internal/agent/executor.go:1079-1092 | shared files may be taken over in two directories |
| Executor.Executor.Capture | internal/agent/executor.go:1353-1371 | the loop captures each path's contents or absence, or fails at the first that cannot be read |
| Executor.Executor.Restore | internal/agent/executor.go:1373-1387 | the loop tries every backup, whichever fails |
| Executor.Executor.InstallCertificate | internal/agent/executor.go:371-391 | chain, then key, as the transaction's function says |
| Executor.Executor.EnsureLocalCertificate | internal/agent/executor.go:798-842 | check, copy without overwriting, check again |
| Executor.Executor.DisableTakeoverConfig | internal/agent/executor.go:634-704 | backup, removal, rewrite and the cleanup of each failure, as the function says |
| Executor.Executor.ReapplyTakeoverRemoval | internal/agent/executor.go:763-793 | the removal again, without touching the backup |
| Executor.Executor.RestoreTakeoverConfig | internal/agent/executor.go:711-761 | the original back over the file or into its place |
| Executor.Executor.SyncCertificate | internal/agent/executor.go:318-344 | the whole sync equals the function proved all or nothing |
| Executor.Executor.ApplyDomain | internal/agent/executor.go:146-250 | the whole deployment equals the function of AllOrNothingIff, DeploymentOutcome and DeploymentSucceedsIff |
| Executor.Executor.DeleteDomain | internal/agent/executor.go:273-316 | the whole deletion equals the function of DeleteUndoesIff and DeletionSucceedsIff |
| LoginLimit.ElevenAttemptsAMinute | internal/server/login_limit.go:29-67 | in any run a client that is neither cleared nor evicted gets at most 11 attempts in any half-open minute |
| LoginLimit.ElevenIsReached | internal/server/login_limit.go:29-67 | eleven is attained: for every client and instant a legal run, without clearing or eviction, that grants it eleven attempts within one minute |
| LoginLimit.GrantsAreWindowed | internal/server/login_limit.go:123-135 | every grant lies in the minute of its window, windows do not overlap, begin with a grant and hold at most six |
| LoginLimit.TracksAtMost4096 | internal/server/login_limit.go:42-51 | at most 4096 clients are tracked in any run |
| LoginLimit.CleanupChangesNoDecision | internal/server/login_limit.go:34-51 | in any run, evictions included, every call gets the answer of a limiter that never cleans up, and whatever that one may evict this one may as well |
| LoginLimit.CleanupNeverMatters | internal/server/login_limit.go:34-51 | every run of the limiter has such a counterpart: the same calls, with a client named where only the other limiter must evict |
| LoginLimit.EvictionsAgree | internal/server/login_limit.go:42-51 | a limiter without room holds the same clients with and without cleanup; one with room loses nothing when the other evicts |
| LoginLimit.BlockLastsIff | internal/server/login_limit.go:54-62 | a refused client is refused for the whole time it is told to wait exactly when its window lasts as long |
| LoginLimit.BlockCountsDown | internal/server/login_limit.go:54-67 | while its window lasts, a refused client that comes back early is told what is left of its wait |
| LoginLimit.OldClientsGo | internal/server/login_limit.go:34-41 | in any run no client is tracked after an attempt that was not seen for eleven minutes |
| LoginLimit.BlockEndsEarly | internal/server/login_limit.go:54-67 | a legal run for every client and instant: six attempts at once and a seventh after 59 seconds, told to wait a minute and let in a second later |
| LoginLimit.EightAndOneASecond | internal/server/login_limit.go:76-98 | in any run the checks of any t seconds get at most 8 + t grants |
| LoginLimit.GrantsAndTokens | internal/server/login_limit.go:80-91 | grants and tokens left never exceed the burst and what time has refilled, and tokens stay between 0 and 8 |
| LoginLimit.LoginLimiter.ForgetOldClients | internal/server/login_limit.go:34-41 | exactly the clients not seen for ten minutes are forgotten |
| LoginLimit.LoginLimiter.OldestClient | internal/server/login_limit.go:43-50 | a client that was seen longest ago |
| LoginLimit.LoginLimiter.ReserveLoginAttempt | internal/server/login_limit.go:29-67 | cleanup, eviction, window and verdict are those of the run model |
| LoginLimit.LoginLimiter.ClearLoginAttempt | internal/server/login_limit.go:69-74 | exactly this client is forgotten |
| LoginLimit.LoginLimiter.ReservePasswordAttempt | internal/server/login_limit.go:76-98 | refill, grant and the wait that a refused check is told are those of the bucket model, the wait at least a millisecond |
| LoginLimit.BurstIsEight | internal/server/login_limit.go:80-91 | of any number of checks at one instant a bucket that is new or was left alone for eight seconds grants exactly the first eight |
| LoginLimit.WaitIsWorthIt | internal/server/login_limit.go:92-97 | with no other check in between, every check later than the wait is granted, and every earlier one refused unless the wait is the least one |
| Pbkdf2.DeriveKey | internal/server/password.go:56-82 | with fewer than 2^32 blocks the result is the derived key of section 5.2 of RFC 8018, always of exactly the length asked for, and empty for counts that are not positive |
| Pbkdf2.DeriveBlock | internal/server/password.go:64-78 | the in-place loop computes F of the RFC for the wrapped block counter |
| Pbkdf2.FirstBlock | internal/server/password.go:64-78 | the first 32 octets after one iteration are the function of the salt and 0, 0, 0, 1, and after two the exclusive or with its next value |
| Pbkdf2.IntIsBigEndian | internal/server/password.go:65-70 | the four octets of a block counter are its digits to the base 256, most significant first |
| Pbkdf2.XorInto | internal/server/password.go:75-77 | the buffer becomes the exclusive or, octet by octet |
| Pbkdf2.BlocksAt | internal/server/password.go:64-81 | octet k of the key is octet k mod 32 of block k div 32 + 1 |
| Pbkdf2.BlockAt | internal/server/password.go:71-78 | octet k of a block is the exclusive or of octet k of all its iterates |
| Pbkdf2.PrefixOfLonger | internal/server/password.go:61-81 | a shorter key is a prefix of a longer one |

## Left out

- HTTP routing, authentication, sessions, request limits per node, Turnstile, Cloudflare and GitHub clients, websockets, the web interface, the installer: plumbing.
- X.509 and chain checks, AES-GCM, JSON, base64 and HMAC: abstract results or parameters; HMAC-SHA-256 is any function with 32-byte results.
- Audit events, `LastError`, `UpdatedAt`, status samples, error wording: text without influence on the protocol; a job's `Error` is kept because recovery and retries read it, and the message of an update that missed its deadline is shortened to a fixed text.
- Enrollment records, batch updates of all nodes, certificate import and upload, DNS names of issue jobs, certificate modes: they add records or jobs as the modelled requests do.
- Checks of requests before their transaction: a request that fails them is a step that is not taken. Which certificate a change of a domain resolves to, whether it covers the domain, and a custom configuration that has changed since the request was read are settled outside the model.
- Delete jobs are taken to name a domain.
- `internal/server/certificate_sync_recovery.go:61-72`: implied by the check for any active job of the node two conditions before it.
- failDispatch is part of the poll that caused it, although the source runs it as a transaction of its own a moment later.
- Sorting of candidate jobs: the model picks a candidate created first, either one where two were created at the same instant.
- `normalize` of the store, persistence to disk and the order in which revision numbers reach a subscriber.
- Host reboots and clocks that run at different rates; reinstalls from outside. The watchdog helper runs, successfully or not, as one step within 91 seconds of arming; a restart and a report are handled within times that leave the three-minute wait its margin (`SelfUpdate.ValidEnv`).
- Downloading, unpacking and checking a release, nginx templates, package updates.
- Directories, file modes, symlinks and temporary files: contents only. A rename across devices in `internal/agent/executor.go:1121-1152` is one step. Paths are taken as cleaned, and the nginx, SSL and data directories as disjoint.
- `internal/agent/nginx_inventory.go:26-132`: the inventory of sites; its scanner primitives are those of `ServerBlocks`.
- Letters beyond ASCII in `strings.ToLower` and space beyond U+00FF in `strings.TrimSpace`.
- `normalizeLoginClientKey`: keys are what it returns, which is never empty. The token count is exact where the source uses floating point.
- The in-place reuse of a slice buffer by `removeString`: the loop works on values.
- Controller.Controller.Restore: stands for the copy that the store drops, so aliasing between the copy and the state is not captured.
- FileTransactions.AllOrNothingIff: says nothing of a failure in the final capture stage, after which the new configuration stays in place.
- Revocation.RevokeClearsReferences: for the state right after the revocation; of later requests `Revocation.ChangeNamesLiveNodes` covers the change of a domain, the others are not checked here.
- Pbkdf2.DeriveKey: says only the length where 2^32 blocks or more would be needed, which the RFC rules out and the source does not check.
