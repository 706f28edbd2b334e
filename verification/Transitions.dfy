/** Everything that can happen to the controller's state, and runs of it. */
module Transitions {
  import opened Model
  import opened Protocol

  datatype Action =
    | Enroll(node: Node)
    | AddDomain(domain: Domain, deploy: Option<Payload>)          // create, adopt or observe a domain
    | EditDomain(domain: Domain)                                  // settings only; owner and flags stay
    | ChangeDomain(domain: Domain, source: Source, covers: bool)  // handleUpdateDomain
    | RemoveDomain(domainId: DomainId)                            // handleDeleteDomain
    | PutCertificate(certificate: Certificate)
    | DropCertificates(ids: set<CertificateId>)
    | SetAccounts(acme: set<AccountId>, dns: set<AccountId>)
    | EnqueueJob(nodeId: NodeId, domainId: DomainId, payload: Payload, last: bool)
    | PollNode(nodeId: NodeId, report: Option<NodeReport>, opens: bool, case_: PollCase)
    | ReportResult(id: JobId, nodeId: NodeId, result: JobResult)
    | RunMaintenance(config: Config, orders: Orders)
    | ClaimIssue(id: JobId)
    | CommitIssue(id: JobId, attempts: nat, result: JobResult)
    | RevokeNode(nodeId: NodeId)
    | RetryJob(id: JobId, opens: bool)
    | ClearPending

  /** What a handler checks, or what a pass finds, before it does anything. */
  ghost predicate Legal(s: State, action: Action) {
    match action
    case Enroll(node) => node.id !in s.nodes && node.status == Online && node.runningJobId.None?
    case AddDomain(domain, deploy) =>
      && domain.id !in s.domains && !domain.deleting && LiveNode(s, domain.nodeId)
      && (deploy.Some? ==> !deploy.value.DeleteDomain?)
    case EditDomain(domain) =>
      && domain.id in s.domains
      && domain.nodeId == s.domains[domain.id].nodeId && domain.lastJobId == s.domains[domain.id].lastJobId
      && domain.deleting == s.domains[domain.id].deleting && domain.enabled == s.domains[domain.id].enabled
    case EnqueueJob(_, domainId, payload, last) => !payload.DeleteDomain? && (last ==> domainId in s.domains)
    case PollNode(nodeId, _, _, case_) => Takes(s, nodeId, case_)
    case _ => true
  }

  function Else(s: State, next: Option<State>): State {
    if next.Some? then next.value else s
  }

  function Apply(s: State, action: Action, now: Time): State
    requires action.PollNode? ==> Possible(s, action.nodeId, action.case_)
  {
    match action
    case Enroll(node) => s.(nodes := s.nodes[node.id := node])
    case AddDomain(domain, deploy) =>
      var added := s.(domains := s.domains[domain.id := domain]);
      if deploy.None? then added else EnqueueForDomain(added, domain, deploy.value, now)
    case EditDomain(domain) => s.(domains := s.domains[domain.id := domain])
    case ChangeDomain(domain, source, covers) => Else(s, UpdateDomain(s, domain, source, covers, now))
    case RemoveDomain(domainId) => Else(s, DeleteDomainRequest(s, domainId, now))
    case PutCertificate(certificate) => s.(certificates := s.certificates[certificate.id := certificate])
    case DropCertificates(ids) => s.(certificates := s.certificates - ids)
    case SetAccounts(acme, dns) => s.(acmeAccounts := acme, dnsAccounts := dns)
    case EnqueueJob(nodeId, domainId, payload, last) =>
      var queued := Enqueue(s, nodeId, domainId, payload, now);
      if last && domainId in s.domains
      then queued.(domains := s.domains[domainId := s.domains[domainId].(lastJobId := Some(s.nextJobId))]) else queued
    case PollNode(nodeId, report, opens, case_) => Poll(s, nodeId, report, opens, now, case_)
    case ReportResult(id, nodeId, result) => Else(s, Result(s, id, nodeId, result, now))
    case RunMaintenance(config, orders) => Maintain(s, config, orders, now)
    case ClaimIssue(id) => Else(s, Claim(s, id, now))
    case CommitIssue(id, attempts, result) => Else(s, Commit(s, id, attempts, result, now))
    case RevokeNode(nodeId) => Else(s, Revoke(s, nodeId, now))
    case RetryJob(id, opens) => Else(s, Retry(s, id, opens, now))
    case ClearPending => Clear(s)
  }

  // ----- Runs: the clock never goes back -----

  datatype System = System(state: State, clock: Time)
  datatype Event = Event(action: Action, at: Time)

  ghost predicate Enabled(sys: System, event: Event) {
    sys.clock <= event.at && Legal(sys.state, event.action)
  }

  ghost function Next(sys: System, event: Event): System
    requires Enabled(sys, event)
  {
    System(Apply(sys.state, event.action, event.at), event.at)
  }

  ghost predicate LegalRun(sys: System, events: seq<Event>)
    decreases |events|
  {
    events == [] || (Enabled(sys, events[0]) && LegalRun(Next(sys, events[0]), events[1..]))
  }

  ghost function Run(sys: System, events: seq<Event>): System
    requires LegalRun(sys, events)
    decreases |events|
  {
    if events == [] then sys else Run(Next(sys, events[0]), events[1..])
  }

  function EmptyState(): State {
    State(map[], map[], map[], map[], {}, {}, 0)
  }
}
