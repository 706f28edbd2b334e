/**
 The controller's job protocol as functions on values.  `Store.Update` runs each
 handler and each background pass as one transaction, so each is one function
 from the state before to the state after; a function that yields None stands
 for a transaction that is rejected and leaves the state as it was.
 */
module Protocol {
  import opened Model
  import opened Text
  import opened Jobs
  import opened UpdateConfirmation

  datatype State = State(
    nodes: map<NodeId, Node>,
    jobs: map<JobId, Job>,
    domains: map<DomainId, Domain>,
    certificates: map<CertificateId, Certificate>,
    acmeAccounts: set<AccountId>,
    dnsAccounts: set<AccountId>,
    nextJobId: JobId)

  predicate LiveNode(s: State, nodeId: NodeId) {
    nodeId in s.nodes && s.nodes[nodeId].status != Revoked
  }

  // ----- Enqueueing -----

  function Enqueue(s: State, nodeId: NodeId, domainId: DomainId, payload: Payload, now: Time): State {
    s.(jobs := s.jobs[s.nextJobId := NewJob(s.nextJobId, nodeId, domainId, payload, now)], nextJobId := s.nextJobId + 1)
  }

  /** One sync job per node, in the order of the list. */
  function EnqueueSyncs(
    s: State, nodeIds: seq<NodeId>, domainId: DomainId, certificateId: CertificateId, name: string, now: Time): State
    decreases |nodeIds|
  {
    if nodeIds == [] then s
    else
      var first := Enqueue(s, nodeIds[0], domainId, SyncCertificate(certificateId, name), now);
      EnqueueSyncs(first, nodeIds[1..], domainId, certificateId, name, now)
  }

  /** Enqueues a job for a domain and makes it the domain's last job. */
  function EnqueueForDomain(s: State, domain: Domain, payload: Payload, now: Time): State {
    var queued := Enqueue(s, domain.nodeId, domain.id, payload, now);
    queued.(domains := queued.domains[domain.id := domain.(lastJobId := Some(s.nextJobId))])
  }

  // ----- Poll and dispatch (agent_api.go) -----

  datatype NodeReport = NodeReport(agentVersion: string, nginxHealthy: bool)

  /** The branch a poll takes, and the job it acts on. */
  datatype PollCase = Rejected | ObserveUpdate(id: JobId) | Redispatch(id: JobId) | Dispatch(id: JobId) | NothingToDo

  predicate Waits(s: State, nodeId: NodeId, id: JobId) {
    id in s.jobs && s.jobs[id].nodeId == nodeId && AwaitingUpdateConfirmation(s.jobs[id])
  }

  predicate Runs(s: State, nodeId: NodeId, id: JobId) {
    id in s.jobs && s.jobs[id].nodeId == nodeId && IsRunningNodeJob(s.jobs[id])
  }

  predicate QueuedFor(s: State, nodeId: NodeId, id: JobId) {
    id in s.jobs && s.jobs[id].nodeId == nodeId && IsNodeJob(s.jobs[id]) && s.jobs[id].status == Queued
  }

  predicate PointsAtRunningJob(s: State, node: Node) {
    node.runningJobId.Some? && node.runningJobId.value in s.jobs && IsRunningNodeJob(s.jobs[node.runningJobId.value])
  }

  /** `case_` is a branch the poll may take; where several jobs qualify the oldest goes first, and
      jobs created at the same instant may go in either order. */
  ghost predicate Takes(s: State, nodeId: NodeId, case_: PollCase) {
    if !LiveNode(s, nodeId) then case_ == Rejected
    else if exists id :: Waits(s, nodeId, id) then case_.ObserveUpdate? && Waits(s, nodeId, case_.id)
    else if PointsAtRunningJob(s, s.nodes[nodeId]) then case_ == Redispatch(s.nodes[nodeId].runningJobId.value)
    else if exists id :: Runs(s, nodeId, id) then
      case_.Redispatch? && Runs(s, nodeId, case_.id)
      && forall id | Runs(s, nodeId, id) :: s.jobs[case_.id].createdAt <= s.jobs[id].createdAt
    else if exists id :: QueuedFor(s, nodeId, id) then
      case_.Dispatch? && QueuedFor(s, nodeId, case_.id)
      && forall id | QueuedFor(s, nodeId, id) :: s.jobs[case_.id].createdAt <= s.jobs[id].createdAt
    else case_ == NothingToDo
  }

  /** The part of Takes that the state change depends on. */
  predicate Possible(s: State, nodeId: NodeId, case_: PollCase) {
    match case_
    case Rejected => !LiveNode(s, nodeId)
    case ObserveUpdate(id) => LiveNode(s, nodeId) && Waits(s, nodeId, id)
    case Redispatch(id) => LiveNode(s, nodeId) && id in s.jobs && IsRunningNodeJob(s.jobs[id])
    case Dispatch(id) => LiveNode(s, nodeId) && QueuedFor(s, nodeId, id)
    case NothingToDo => LiveNode(s, nodeId)
  }

  function Reported(node: Node, report: Option<NodeReport>, now: Time): Node {
    var seen := node.(status := Online, lastSeenAt := Some(now));
    if report.None? then seen
    else seen.(agentVersion := Truncate(report.value.agentVersion, 64), nginxHealthy := report.value.nginxHealthy)
  }

  /** The transaction of handleAgentPoll. */
  function PollTransaction(s: State, nodeId: NodeId, report: Option<NodeReport>, now: Time, case_: PollCase): State
    requires Possible(s, nodeId, case_)
  {
    if case_.Rejected? then s
    else
      var node := Reported(s.nodes[nodeId], report, now);
      match case_
      case ObserveUpdate(id) =>
        var version := if report.None? then None else Some(report.value.agentVersion);
        var job := Observe(s.jobs[id], version, now);
        s.(jobs := s.jobs[id := job],
           nodes := s.nodes[nodeId := node.(runningJobId := if job.status == Running then Some(id) else None)])
      case Redispatch(id) =>
        s.(jobs := s.jobs[id := Redispatched(s.jobs[id], now)], nodes := s.nodes[nodeId := node.(runningJobId := Some(id))])
      case Dispatch(id) =>
        s.(jobs := s.jobs[id := Dispatched(s.jobs[id], now)], nodes := s.nodes[nodeId := node.(runningJobId := Some(id))])
      case NothingToDo => s.(nodes := s.nodes[nodeId := node.(runningJobId := None)])
  }

  function DecryptError(s: State, certificateId: CertificateId, opens: bool): Option<string> {
    if certificateId !in s.certificates then Some("certificate no longer exists")
    else if !opens then Some("decryption failed")
    else None
  }

  /** Why buildWireJob cannot produce the job for the wire; `opens` is whether the secret box opens. */
  function WireError(s: State, job: Job, opens: bool): Option<string> {
    match job.payload
    case ApplyDomain(domainId, certificateId, _) =>
      if domainId !in s.domains then Some("domain no longer exists")
      else if certificateId != "" then DecryptError(s, certificateId, opens)
      else None
    case SyncCertificate(certificateId, _) => DecryptError(s, certificateId, opens)
    case IssueCertificate(domainId, name, _, acmeId, dnsId, _, _) =>
      if domainId != "" && domainId !in s.domains then Some("domain no longer exists")
      else if (if domainId != "" then s.domains[domainId].name else name) == "" then Some("certificate domain is missing")
      else if (if domainId != "" then s.domains[domainId].dnsAccountId else dnsId) !in s.dnsAccounts then
        Some("DNS account no longer exists")
      else if (if domainId != "" then s.domains[domainId].acmeAccountId else acmeId) !in s.acmeAccounts then
        Some("ACME account no longer exists")
      else if !opens then Some("decryption failed")
      else None
    case CaptureCertificate(domainId, name, _) =>
      if (if domainId != "" && domainId in s.domains then s.domains[domainId].name else name) == ""
      then Some("certificate domain is missing") else None
    case DeleteDomain => None
    case ReloadNginx => None
    case UpdateAtlas(_) => None
    case UpdateSystem => None
  }

  /** failDispatch: the job fails whatever it has become, and its node is released. */
  function FailDispatch(s: State, id: JobId, error: string, now: Time): State
    requires id in s.jobs
  {
    var job := s.jobs[id].(status := Failed, error := Truncate(error, 2048), finishedAt := Some(now));
    s.(jobs := s.jobs[id := job],
       nodes := if job.nodeId in s.nodes
                then s.nodes[job.nodeId := s.nodes[job.nodeId].(runningJobId := None)] else s.nodes)
  }

  /** The job a poll answers with, before the wire form is built. */
  function Selected(case_: PollCase): Option<JobId> {
    if case_.Redispatch? || case_.Dispatch? then Some(case_.id) else None
  }

  /** handleAgentPoll, with failDispatch when the selected job cannot be sent. */
  function Poll(s: State, nodeId: NodeId, report: Option<NodeReport>, opens: bool, now: Time, case_: PollCase): State
    requires Possible(s, nodeId, case_)
  {
    var polled := PollTransaction(s, nodeId, report, now, case_);
    if Selected(case_).Some? && WireError(polled, polled.jobs[case_.id], opens).Some?
    then FailDispatch(polled, case_.id, WireError(polled, polled.jobs[case_.id], opens).value, now)
    else polled
  }

  // ----- Job results (agent_api.go) -----

  /** A result after prepareCertificateResult, which turns an unusable certificate into a failure. */
  datatype JobResult = JobResult(success: bool, error: string, prepared: Option<Certificate>)

  function AppendUnique(values: seq<string>, value: string): seq<string> {
    if value in values then values else values + [value]
  }

  function Deployed(s: State, certificateId: CertificateId, nodeId: NodeId): State {
    if certificateId !in s.certificates then s else Installed(s, s.certificates[certificateId], nodeId)
  }

  function Installed(s: State, certificate: Certificate, nodeId: NodeId): State {
    s.(certificates := s.certificates[certificate.id :=
         certificate.(deployedNodeIds := AppendUnique(certificate.deployedNodeIds, nodeId))])
  }

  function CertificateOrZero(s: State, certificateId: CertificateId): Certificate {
    if certificateId in s.certificates then s.certificates[certificateId] else NO_CERTIFICATE
  }

  /** An issued certificate: link and deploy it for its domain, or send it to the nodes that should have it. */
  function CompleteIssue(s: State, job: Job, issued: Certificate, now: Time): Option<State>
    requires job.payload.IssueCertificate?
  {
    if job.domainId != "" then
      if job.domainId !in s.domains then None
      else
        var domain := s.domains[job.domainId].(certificateId := issued.id);
        Some(EnqueueForDomain(s, domain, ApplyDomain(domain.id, issued.id, None), now))
    else
      var nodeIds := job.payload.issueSyncNodeIds;
      var targets := if job.payload.install then AppendUnique(nodeIds, job.nodeId) else nodeIds;
      Some(EnqueueSyncs(s, targets, "", issued.id, issued.domain, now))
  }

  function CompleteCapture(s: State, job: Job, captured: Certificate, now: Time): Option<State>
    requires job.payload.CaptureCertificate?
  {
    if job.domainId != "" && job.domainId !in s.domains then None
    else
      var linked := if job.domainId == "" then s
                    else s.(domains := s.domains[job.domainId := s.domains[job.domainId].(certificateId := captured.id)]);
      Some(EnqueueSyncs(linked, job.payload.captureSyncNodeIds, "", captured.id, captured.domain, now))
  }

  /** A deployed domain: enabled, its certificate on record, and sync jobs for its other nodes. */
  function AppliedDomain(before: Domain, job: Job, prepared: Option<Certificate>): Domain
    requires job.payload.ApplyDomain?
  {
    var customConfig := job.payload.customConfig;
    before.(certificateId := if prepared.Some? then prepared.value.id else before.certificateId,
            customConfig := if customConfig.Some? then customConfig.value else before.customConfig,
            enabled := true, deleting := false)
  }

  function CompleteApply(s: State, job: Job, prepared: Option<Certificate>, now: Time): Option<State>
    requires job.payload.ApplyDomain?
  {
    if job.domainId !in s.domains then None
    else
      var domain := AppliedDomain(s.domains[job.domainId], job, prepared);
      var applied := s.(domains := s.domains[job.domainId := domain]);
      if domain.certificateId == "" then Some(applied)
      else Some(EnqueueSyncs(Installed(applied, CertificateOrZero(applied, domain.certificateId), domain.nodeId),
                             domain.syncNodeIds, domain.id, domain.certificateId, domain.name, now))
  }

  /** A certificate that came with the result is on record before anything else happens. */
  function Recorded(s: State, prepared: Option<Certificate>): State {
    if prepared.None? then s else s.(certificates := s.certificates[prepared.value.id := prepared.value])
  }

  /** completeSuccessfulJob. */
  function Complete(s: State, job: Job, prepared: Option<Certificate>, now: Time): Option<State> {
    var s := Recorded(s, prepared);
    match job.payload
    case IssueCertificate(_, _, _, _, _, _, _) => if prepared.None? then None else CompleteIssue(s, job, prepared.value, now)
    case CaptureCertificate(_, _, _) => if prepared.None? then None else CompleteCapture(s, job, prepared.value, now)
    case ApplyDomain(_, _, _) => CompleteApply(s, job, prepared, now)
    case SyncCertificate(certificateId, _) => Some(Deployed(s, certificateId, job.nodeId))
    case DeleteDomain => Some(s.(domains := s.domains - {job.domainId}))
    case ReloadNginx => Some(s)
    case UpdateAtlas(_) => Some(s)
    case UpdateSystem => Some(s)
  }

  /** A domain whose delete job has failed is no longer being deleted. */
  function Restored(domain: Domain): Domain {
    domain.(deleting := false, enabled := domain.nodeId != "")
  }

  /** restoreFailedDomainDeletion. */
  function RestoreFailedDeletion(domains: map<DomainId, Domain>, job: Job): map<DomainId, Domain> {
    if job.payload.DeleteDomain? && job.domainId in domains
    then domains[job.domainId := Restored(domains[job.domainId])] else domains
  }

  /** handleAgentJobResult. */
  function Result(s: State, id: JobId, nodeId: NodeId, result: JobResult, now: Time): Option<State> {
    if nodeId !in s.nodes || !Runs(s, nodeId, id) then None
    else
      var current := s.jobs[id];
      var node := s.nodes[nodeId].(lastSeenAt := Some(now));
      if AwaitingUpdateConfirmation(current) then Some(s)
      else if result.success && current.payload.UpdateAtlas? then
        if TrimSpace(current.payload.expectedVersion) == "" then None
        else
          var accepted := current.(updateAcceptedAt := Some(now), error := "");
          Some(s.(jobs := s.jobs[id := accepted], nodes := s.nodes[nodeId := node.(runningJobId := Some(id))]))
      else if result.success then
        var succeeded := current.(status := Succeeded, error := "", finishedAt := Some(now));
        var completed := Complete(s, succeeded, result.prepared, now);
        if completed.None? then None
        else Some(completed.value.(jobs := completed.value.jobs[id := succeeded],
                                   nodes := completed.value.nodes[nodeId := node.(runningJobId := None)]))
      else
        var failed := AfterFailedResult(current, result.error, now);
        Some(s.(jobs := s.jobs[id := failed],
                nodes := s.nodes[nodeId := node.(runningJobId := None)],
                domains := if failed.status == Failed then RestoreFailedDeletion(s.domains, failed) else s.domains))
  }

  // ----- Maintenance (scheduler.go) -----

  /** What maintenance takes from the server's configuration. */
  datatype Config = Config(offlineAfter: int, supportsWildcardSync: string -> bool)

  function OfflineNode(node: Node, config: Config, now: Time): Node {
    if node.status != Revoked && (node.lastSeenAt.None? || now - node.lastSeenAt.value > config.offlineAfter)
    then node.(status := Offline) else node
  }

  function MarkOffline(s: State, config: Config, now: Time): State {
    s.(nodes := map n | n in s.nodes :: OfflineNode(s.nodes[n], config, now))
  }

  predicate RunningOn(s: State, nodeId: NodeId) {
    exists id | id in s.jobs :: Runs(s, nodeId, id)
  }

  /** A running job whose time is up: its confirmation deadline, or the timeout of its type. */
  predicate TimedOut(job: Job, now: Time) {
    && IsRunningNodeJob(job)
    && if AwaitingUpdateConfirmation(job) then now - job.updateAcceptedAt.value >= CONFIRMATION_TIMEOUT
       else job.startedAt.Some? && now - job.startedAt.value > TimeoutForJob(job.payload)
  }

  /** A queued job that nobody fetched, although its node was not busy with another one. */
  predicate QueueExpired(s: State, job: Job, now: Time) {
    && IsNodeJob(job) && job.status == Queued
    && now - QueueTime(job) > QUEUED_JOB_TIMEOUT
    && (!LiveNode(s, job.nodeId) || !RunningOn(s, job.nodeId))
  }

  function MaintainedJob(s: State, job: Job, now: Time): Job {
    if TimedOut(job, now) then
      if AwaitingUpdateConfirmation(job) then Finish(job, false, now)
      else if job.attempts < job.maxAttempts then
        job.(status := Queued, queuedAt := Some(now), startedAt := None,
             error := "agent did not report a result before the timeout")
      else job.(status := Failed, finishedAt := Some(now), error := "agent did not report a result before the timeout")
    else if QueueExpired(s, job, now) then
      job.(status := Failed, finishedAt := Some(now), error := "node did not pick up the queued task before the timeout")
    else job
  }

  function MaintainedNode(s: State, node: Node, now: Time): Node {
    if node.runningJobId.Some? && node.runningJobId.value in s.jobs
       && s.jobs[node.runningJobId.value].nodeId == node.id && TimedOut(s.jobs[node.runningJobId.value], now)
    then node.(runningJobId := None) else node
  }

  /** The pass fails this delete job, which makes its domain an ordinary one again. */
  predicate FailsDeletion(s: State, id: JobId, domainId: DomainId, now: Time) {
    && id in s.jobs && s.jobs[id].payload.DeleteDomain? && s.jobs[id].domainId == domainId
    && IsActive(s.jobs[id]) && MaintainedJob(s, s.jobs[id], now).status == Failed
  }

  function MaintainedDomain(s: State, domain: Domain, now: Time): Domain {
    if exists id | id in s.jobs :: FailsDeletion(s, id, domain.id, now) then Restored(domain) else domain
  }

  /** The job loop of runMaintenance, every job, node and domain on its own: no visiting order. */
  function MaintainJobs(s: State, now: Time): State {
    s.(jobs := map id | id in s.jobs :: MaintainedJob(s, s.jobs[id], now),
       nodes := map n | n in s.nodes :: MaintainedNode(s, s.nodes[n], now),
       domains := map d | d in s.domains :: MaintainedDomain(s, s.domains[d], now))
  }

  // ----- Wildcard recovery (certificate_sync_recovery.go) -----

  predicate HasAnyActiveNodeJob(s: State, nodeId: NodeId) {
    exists id | id in s.jobs :: s.jobs[id].nodeId == nodeId && IsActive(s.jobs[id])
  }

  predicate IsLatestCertificateForDomain(s: State, certificate: Certificate) {
    forall c | c in s.certificates ::
      s.certificates[c].id != certificate.id && s.certificates[c].domain == certificate.domain ==>
        s.certificates[c].createdAt <= certificate.createdAt
  }

  predicate RecoverableFailure(job: Job) {
    && job.payload.SyncCertificate? && job.status == Failed
    && job.retryOfId.None? && job.retryJobId.None?
    && TrimSpace(job.error) == "invalid certificate domain: invalid domain"
    && HasPrefix(job.payload.syncName, "*.")
  }

  predicate Recoverable(s: State, job: Job, config: Config, now: Time) {
    && RecoverableFailure(job)
    && job.nodeId in s.nodes
    && var node := s.nodes[job.nodeId];
    && node.status == Online && node.nginxHealthy && !HasAnyActiveNodeJob(s, node.id)
    && config.supportsWildcardSync(node.agentVersion)
    && job.payload.syncCertificateId in s.certificates
    && var certificate := s.certificates[job.payload.syncCertificateId];
    && certificate.domain == job.payload.syncName && job.payload.syncName in certificate.dnsNames
    && certificate.notAfter > now && node.id !in certificate.deployedNodeIds
    && IsLatestCertificateForDomain(s, certificate)
  }

  /** Links a fresh retry of a failed job to the original. */
  function LinkRetry(s: State, id: JobId, retry: Job): State
    requires id in s.jobs
  {
    s.(jobs := s.jobs[id := s.jobs[id].(retryJobId := Some(retry.id))][retry.id := retry], nextJobId := s.nextJobId + 1)
  }

  function RecoverJob(s: State, id: JobId, config: Config, now: Time): State {
    if id in s.jobs && Recoverable(s, s.jobs[id], config, now) then
      var failed := s.jobs[id];
      var certificate := s.certificates[failed.payload.syncCertificateId];
      var payload := SyncCertificate(certificate.id, certificate.domain);
      LinkRetry(s, id, NewJob(s.nextJobId, failed.nodeId, failed.domainId, payload, now).(retryOfId := Some(failed.id)))
    else s
  }

  /** requeueRecoverableWildcardSyncs, visiting the jobs in the given order. */
  function Recover(s: State, order: seq<JobId>, config: Config, now: Time): State {
    if order == [] then s
    else RecoverJob(Recover(s, order[..|order| - 1], config, now), order[|order| - 1], config, now)
  }

  // ----- Renewals (scheduler.go) -----

  predicate HasActiveJob(s: State, domainId: DomainId) {
    exists id | id in s.jobs ::
      s.jobs[id].domainId == domainId && s.jobs[id].payload.IssueCertificate? && IsActive(s.jobs[id])
  }

  predicate HasActiveCertificateJob(s: State, certificateId: CertificateId) {
    exists id | id in s.jobs ::
      && s.jobs[id].payload.IssueCertificate? && IsActive(s.jobs[id])
      && s.jobs[id].payload.issueCertificateId == certificateId
  }

  function NormalizeRenewBeforeDays(days: int): int {
    if days == 0 then 30 else days
  }

  /** The domain is set up for renewal and its certificate is missing or about to run out. */
  predicate DomainDue(s: State, domain: Domain, now: Time) {
    && domain.autoRenew && domain.acmeAccountId != "" && domain.dnsAccountId != ""
    && LiveNode(s, domain.nodeId)
    && domain.acmeAccountId in s.acmeAccounts && domain.dnsAccountId in s.dnsAccounts
    && (domain.certificateId in s.certificates ==>
          s.certificates[domain.certificateId].notAfter - now <= NormalizeRenewBeforeDays(domain.renewBeforeDays) * DAY)
  }

  function RenewDomain(s: State, domainId: DomainId, now: Time): State {
    if domainId in s.domains && DomainDue(s, s.domains[domainId], now) && !HasActiveJob(s, s.domains[domainId].id)
    then EnqueueForDomain(s, s.domains[domainId], IssueCertificate(domainId, "", "", "", "", false, []), now)
    else s
  }

  function RenewDomains(s: State, order: seq<DomainId>, now: Time): State {
    if order == [] then s
    else RenewDomain(RenewDomains(s, order[..|order| - 1], now), order[|order| - 1], now)
  }

  predicate Linked(s: State, certificateId: CertificateId) {
    certificateId != "" && exists d | d in s.domains :: s.domains[d].autoRenew && s.domains[d].certificateId == certificateId
  }

  /** The certificate renews by itself: no auto-renewing domain owns its schedule. */
  predicate CertificateDue(s: State, certificate: Certificate, now: Time) {
    && certificate.autoRenew && !Linked(s, certificate.id)
    && certificate.acmeAccountId != "" && certificate.dnsAccountId != "" && certificate.issuerNodeId != ""
    && certificate.notAfter - now <= NormalizeRenewBeforeDays(certificate.renewBeforeDays) * DAY
    && LiveNode(s, certificate.issuerNodeId)
    && certificate.acmeAccountId in s.acmeAccounts && certificate.dnsAccountId in s.dnsAccounts
  }

  function Without(values: seq<string>, target: string): (rest: seq<string>)
    ensures target !in rest
    ensures forall v | v != target :: v in rest <==> v in values
  {
    if values == [] then []
    else
      var rest := Without(values[1..], target);
      if values[0] == target then rest else [values[0]] + rest
  }

  function RenewCertificate(s: State, certificateId: CertificateId, now: Time): State {
    if certificateId in s.certificates && CertificateDue(s, s.certificates[certificateId], now)
       && !HasActiveCertificateJob(s, certificateId)
    then
      var certificate := s.certificates[certificateId];
      var payload := IssueCertificate("", certificate.domain, certificate.id, certificate.acmeAccountId,
                                      certificate.dnsAccountId, true,
                                      Without(certificate.deployedNodeIds, certificate.issuerNodeId));
      Enqueue(s, certificate.issuerNodeId, "", payload, now)
    else s
  }

  function RenewCertificates(s: State, order: seq<CertificateId>, now: Time): State {
    if order == [] then s
    else RenewCertificate(RenewCertificates(s, order[..|order| - 1], now), order[|order| - 1], now)
  }

  /** The orders in which Go happens to visit the maps in the loops where order can show. */
  datatype Orders = Orders(jobs: seq<JobId>, domains: seq<DomainId>, certificates: seq<CertificateId>)

  /** runMaintenance. */
  function Maintain(s: State, config: Config, orders: Orders, now: Time): State {
    var s := MaintainJobs(MarkOffline(s, config, now), now);
    var s := Recover(s, orders.jobs, config, now);
    RenewCertificates(RenewDomains(s, orders.domains, now), orders.certificates, now)
  }

  // ----- The certificate issuer (certificate_issuer.go) -----

  /** The claim: the job runs, and counts one more attempt even beyond its maximum. */
  function Claim(s: State, id: JobId, now: Time): Option<State> {
    if id !in s.jobs || IsNodeJob(s.jobs[id]) || !IsActive(s.jobs[id]) then None
    else
      var job := s.jobs[id];
      var claimed := job.(status := Running, attempts := job.attempts + 1, startedAt := Some(now));
      Some(s.(jobs := s.jobs[id := claimed],
              nodes := if job.nodeId in s.nodes && s.nodes[job.nodeId].runningJobId == Some(id)
                       then s.nodes[job.nodeId := s.nodes[job.nodeId].(runningJobId := None)] else s.nodes))
  }

  /** The fenced commit: it counts only for the attempt that was claimed. */
  function Commit(s: State, id: JobId, attempts: nat, result: JobResult, now: Time): Option<State> {
    if id !in s.jobs || IsNodeJob(s.jobs[id]) || s.jobs[id].status != Running || s.jobs[id].attempts != attempts then None
    else
      var current := s.jobs[id];
      if result.success then
        var completed := Complete(s, current, result.prepared, now);
        if completed.None? then None
        else
          var succeeded := current.(status := Succeeded, error := "", finishedAt := Some(now));
          Some(completed.value.(jobs := completed.value.jobs[id := succeeded]))
      else
        var failed := current.(error := Truncate(result.error, 2048));
        var next :=
          if failed.attempts < failed.maxAttempts
          then failed.(status := Queued, queuedAt := Some(now + failed.attempts * MINUTE), startedAt := None)
          else failed.(status := Failed, finishedAt := Some(now));
        Some(s.(jobs := s.jobs[id := next]))
  }

  // ----- Administration (admin.go, node_management.go) -----

  predicate RevokedActively(job: Job, nodeId: NodeId) {
    job.nodeId == nodeId && IsActive(job)
  }

  function RevokedJob(job: Job, nodeId: NodeId, now: Time): Job {
    if RevokedActively(job, nodeId)
    then job.(status := Failed, error := "node was removed before the task completed", finishedAt := Some(now)) else job
  }

  /** The domain without the node: no sync target, and disabled if the node was its owner. */
  function DisownedDomain(domain: Domain, nodeId: NodeId): Domain {
    var kept := domain.(syncNodeIds := Without(domain.syncNodeIds, nodeId));
    if domain.nodeId == nodeId
    then kept.(nodeId := "", enabled := false, deleting := false, autoRenew := false) else kept
  }

  /** The revocation fails this delete job. */
  predicate RevokesDeletion(s: State, id: JobId, domainId: DomainId, nodeId: NodeId) {
    id in s.jobs && RevokedActively(s.jobs[id], nodeId) && s.jobs[id].payload.DeleteDomain? && s.jobs[id].domainId == domainId
  }

  function RevokedDomain(s: State, domain: Domain, nodeId: NodeId): Domain {
    var disowned := DisownedDomain(domain, nodeId);
    if exists id | id in s.jobs :: RevokesDeletion(s, id, domain.id, nodeId) then Restored(disowned) else disowned
  }

  function RevokedCertificate(certificate: Certificate, nodeId: NodeId): Certificate {
    var kept := certificate.(deployedNodeIds := Without(certificate.deployedNodeIds, nodeId));
    if certificate.issuerNodeId == nodeId then kept.(issuerNodeId := "", autoRenew := false) else kept
  }

  /** revokeNodeState. */
  function Revoke(s: State, nodeId: NodeId, now: Time): Option<State> {
    if nodeId !in s.nodes then None
    else
      var node := s.nodes[nodeId].(status := Revoked, revokedAt := Some(now), runningJobId := None);
      Some(s.(nodes := s.nodes[nodeId := node],
              domains := map d | d in s.domains :: RevokedDomain(s, s.domains[d], nodeId),
              certificates := map c | c in s.certificates :: RevokedCertificate(s.certificates[c], nodeId),
              jobs := map id | id in s.jobs :: RevokedJob(s.jobs[id], nodeId, now)))
  }

  /** The copy of a failed job that handleRetryJob queues. */
  function RetryOf(failed: Job, id: JobId, now: Time): Job {
    failed.(id := id, status := Queued, attempts := 0,
            maxAttempts := if failed.maxAttempts < 1 then 3 else failed.maxAttempts,
            error := "", createdAt := now, queuedAt := Some(now), startedAt := None, finishedAt := None,
            updateAcceptedAt := None, updateVersionSeenAt := None, updateLastReportAt := None,
            retryOfId := Some(failed.id), retryJobId := None)
  }

  /** handleRetryJob. */
  function Retry(s: State, id: JobId, opens: bool, now: Time): Option<State> {
    if id !in s.jobs || s.jobs[id].status != Failed || s.jobs[id].retryJobId.Some? then None
    else if !LiveNode(s, s.jobs[id].nodeId) then None
    else
      var retry := RetryOf(s.jobs[id], s.nextJobId, now);
      if WireError(s, retry, opens).Some? then None
      else
        var linked := LinkRetry(s, id, retry);
        if retry.domainId !in s.domains then Some(linked)
        else
          var domain := s.domains[retry.domainId].(lastJobId := Some(retry.id));
          var retried := if retry.payload.DeleteDomain? then domain.(deleting := true, enabled := false) else domain;
          Some(linked.(domains := linked.domains[retry.domainId := retried]))
  }

  predicate Clearable(s: State, id: JobId) {
    id in s.jobs && (s.jobs[id].status == Queued || s.jobs[id].status == Failed)
  }

  function ClearedDomain(s: State, domain: Domain): Domain {
    if domain.lastJobId.None? || !Clearable(s, domain.lastJobId.value) then domain
    else
      var cleared := domain.(lastJobId := None);
      if s.jobs[domain.lastJobId.value].payload.DeleteDomain? then cleared.(deleting := false, enabled := true) else cleared
  }

  /** handleClearPendingJobs. */
  function Clear(s: State): State {
    s.(jobs := map id | id in s.jobs && !Clearable(s, id) :: s.jobs[id],
       nodes := map n | n in s.nodes ::
         if s.nodes[n].runningJobId.Some? && Clearable(s, s.nodes[n].runningJobId.value)
            && s.jobs[s.nodes[n].runningJobId.value].nodeId == n
         then s.nodes[n].(runningJobId := None) else s.nodes[n],
       domains := map d | d in s.domains :: ClearedDomain(s, s.domains[d]))
  }

  predicate DomainIsDeleting(s: State, domain: Domain) {
    || domain.deleting
    || (domain.lastJobId.Some? && domain.lastJobId.value in s.jobs
        && s.jobs[domain.lastJobId.value].payload.DeleteDomain? && s.jobs[domain.lastJobId.value].status != Failed)
  }

  /** handleDeleteDomain. */
  function DeleteDomainRequest(s: State, domainId: DomainId, now: Time): Option<State> {
    if domainId !in s.domains then None
    else
      var domain := s.domains[domainId];
      if domain.observedOnly || domain.nodeId == "" || !LiveNode(s, domain.nodeId) then
        Some(s.(domains := s.domains - {domainId}))
      else if DomainIsDeleting(s, domain) then None
      else Some(EnqueueForDomain(s, domain.(enabled := false, deleting := true), DeleteDomain, now))
  }

  predicate HasActiveCustomConfigJob(s: State, domainId: DomainId) {
    exists id | id in s.jobs ::
      && s.jobs[id].domainId == domainId && s.jobs[id].payload.ApplyDomain? && IsActive(s.jobs[id])
      && s.jobs[id].payload.customConfig.Some?
  }

  /** Where a domain's certificate comes from. */
  datatype Source = NoSource | UploadSource | AcmeSource | LocalSource

  /** validateNodeIDs: live nodes, trimmed, each once and without the excluded one; None if one is not live. */
  function ValidatedNodeIds(s: State, values: seq<string>, exclude: NodeId): Option<seq<NodeId>> {
    if values == [] then Some([])
    else
      var before := ValidatedNodeIds(s, values[..|values| - 1], exclude);
      var nodeId := TrimSpace(values[|values| - 1]);
      if before.None? then None
      else if nodeId == "" || nodeId == exclude || nodeId in before.value then before
      else if LiveNode(s, nodeId) then Some(before.value + [nodeId])
      else None
  }

  /** The job that deploys a changed domain: issue first where an ACME certificate is still missing. */
  function Deployment(domain: Domain, source: Source): Payload {
    if source.AcmeSource? && domain.certificateId == "" then IssueCertificate(domain.id, "", "", "", "", false, [])
    else ApplyDomain(domain.id, if source.UploadSource? || source.AcmeSource? then domain.certificateId else "", None)
  }

  /** The certificate of a domain that renews automatically takes over the domain's renewal settings. */
  function WithRenewalSettings(s: State, domain: Domain): State {
    if domain.certificateId !in s.certificates || !domain.autoRenew then s
    else
      var certificate := s.certificates[domain.certificateId].(
        autoRenew := true, renewBeforeDays := domain.renewBeforeDays,
        acmeAccountId := domain.acmeAccountId, dnsAccountId := domain.dnsAccountId);
      s.(certificates := s.certificates[certificate.id := certificate])
  }

  /** What handleUpdateDomain checks about the settings inside its transaction; `covers` is whether the chosen
      certificate covers the domain. */
  predicate SettingsHold(s: State, settings: Domain, source: Source, covers: bool) {
    && (settings.certificateId != "" ==> settings.certificateId in s.certificates && covers)
    && (source.AcmeSource? || settings.autoRenew ==>
          settings.acmeAccountId in s.acmeAccounts && settings.dnsAccountId in s.dnsAccounts)
    && ValidatedNodeIds(s, settings.syncNodeIds, settings.nodeId).Some?
  }

  /** The state change of handleUpdateDomain: new settings, and a deployment unless the domain is only observed. */
  function UpdateDomain(s: State, settings: Domain, source: Source, covers: bool, now: Time): Option<State> {
    if settings.id !in s.domains || HasActiveCustomConfigJob(s, settings.id) || !LiveNode(s, settings.nodeId) then None
    else if !SettingsHold(s, settings, source, covers) then None
    else
      var domain := ChangedDomain(s, settings);
      var changed := if domain.certificateId == "" then s else WithRenewalSettings(s, domain);
      if domain.observedOnly then Some(changed.(domains := changed.domains[domain.id := domain]))
      else Some(EnqueueForDomain(changed, domain, Deployment(domain, source), now))
  }

  function ChangedDomain(s: State, settings: Domain): Domain
    requires settings.id in s.domains && ValidatedNodeIds(s, settings.syncNodeIds, settings.nodeId).Some?
  {
    var before := s.domains[settings.id];
    settings.(name := before.name, observedOnly := before.observedOnly, customConfig := before.customConfig,
              lastJobId := before.lastJobId, enabled := true, deleting := false,
              syncNodeIds := ValidatedNodeIds(s, settings.syncNodeIds, settings.nodeId).value)
  }
}
