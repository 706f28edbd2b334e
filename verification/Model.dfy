/**
 The records the controller keeps, after internal/model/model.go and the job
 payloads of internal/protocol/protocol.go.  As in Go, a node, job, domain or
 certificate is a value that a handler copies out of a map, changes and writes
 back; an empty string is a missing node, domain, certificate or account id.
 */
module Model {

  datatype Option<+T> = None | Some(value: T)

  // Instants and durations count nanoseconds, as Go's time.Duration does.
  type Time = int
  // Go's zero time.
  const ZERO_TIME: Time := 0
  const SECOND: int := 1_000_000_000
  const MINUTE: int := 60_000_000_000
  const DAY: int := 86_400_000_000_000

  type NodeId = string
  type DomainId = string
  type CertificateId = string
  type AccountId = string
  // Generated job ids are fresh, so the model numbers them in issue order.
  type JobId = nat

  datatype NodeStatus = Pending | Online | Offline | Revoked

  datatype Node = Node(
    id: NodeId,
    status: NodeStatus,
    lastSeenAt: Option<Time>,
    revokedAt: Option<Time>,
    agentVersion: string,
    nginxHealthy: bool,
    runningJobId: Option<JobId>)

  datatype JobStatus = Queued | Running | Succeeded | Failed

  datatype Payload =
    | ApplyDomain(applyDomainId: DomainId, applyCertificateId: CertificateId, customConfig: Option<string>)
    | DeleteDomain
    | SyncCertificate(syncCertificateId: CertificateId, syncName: string)
    | IssueCertificate(
        issueDomainId: DomainId, issueName: string, issueCertificateId: CertificateId,
        issueAcmeId: AccountId, issueDnsId: AccountId, install: bool, issueSyncNodeIds: seq<NodeId>)
    | CaptureCertificate(captureDomainId: DomainId, captureName: string, captureSyncNodeIds: seq<NodeId>)
    | ReloadNginx
    | UpdateAtlas(expectedVersion: string)
    | UpdateSystem

  datatype Job = Job(
    id: JobId,
    nodeId: NodeId,
    domainId: DomainId,
    payload: Payload,
    status: JobStatus,
    attempts: nat,
    maxAttempts: int,
    error: string,
    createdAt: Time,
    queuedAt: Option<Time>,
    startedAt: Option<Time>,
    finishedAt: Option<Time>,
    retryOfId: Option<JobId>,
    retryJobId: Option<JobId>,
    updateAcceptedAt: Option<Time>,
    updateVersionSeenAt: Option<Time>,
    updateLastReportAt: Option<Time>)

  datatype Domain = Domain(
    id: DomainId,
    name: string,
    nodeId: NodeId,
    certificateId: CertificateId,
    acmeAccountId: AccountId,
    dnsAccountId: AccountId,
    autoRenew: bool,
    renewBeforeDays: int,
    syncNodeIds: seq<NodeId>,
    enabled: bool,
    deleting: bool,
    observedOnly: bool,
    customConfig: string,
    lastJobId: Option<JobId>)

  datatype Certificate = Certificate(
    id: CertificateId,
    domain: string,
    dnsNames: seq<string>,
    notAfter: Time,
    autoRenew: bool,
    renewBeforeDays: int,
    acmeAccountId: AccountId,
    dnsAccountId: AccountId,
    issuerNodeId: NodeId,
    deployedNodeIds: seq<NodeId>,
    createdAt: Time)

  // Go's zero value, which a look-up of a certificate that does not exist yields.
  const NO_CERTIFICATE := Certificate("", "", [], ZERO_TIME, false, 0, "", "", "", [], ZERO_TIME)

  /** Jobs that an agent executes; issue jobs run on the controller itself. */
  predicate IsNodeJob(job: Job) {
    !job.payload.IssueCertificate?
  }

  predicate IsActive(job: Job) {
    job.status == Queued || job.status == Running
  }

  predicate IsRunningNodeJob(job: Job) {
    job.status == Running && IsNodeJob(job)
  }
}
