/** The issuer and the administrator's requests keep the invariants. */
module AdminSteps {
  import opened Model
  import opened Jobs
  import opened UpdateConfirmation
  import opened Protocol
  import opened Transitions
  import opened Invariants
  import opened Preservation
  import opened AgentSteps
  import opened MaintenanceSteps

  // ----- The certificate issuer -----

  lemma IssueJobPointers(s: State, t: State, id: JobId)
    requires PointersInv(s) && id in s.jobs && !IsNodeJob(s.jobs[id])
    requires id in t.jobs && !IsNodeJob(t.jobs[id]) && t.nodes == s.nodes
    requires t.jobs == s.jobs[id := t.jobs[id]]
    ensures PointersInv(t)
  {
    PointersFrame(s, t);
  }

  lemma IssueJobMoves(s: State, t: State, id: JobId, now: Time)
    requires StateInv(s) && id in s.jobs && !IsNodeJob(s.jobs[id]) && IsActive(s.jobs[id])
    requires id in t.jobs && t == s.(jobs := s.jobs[id := t.jobs[id]])
    requires SameIdentity(s.jobs[id], t.jobs[id]) && t.jobs[id].retryJobId == s.jobs[id].retryJobId
    ensures StepOk(s, t, now)
  {
    hide PointersInv, LinksInv, DeletionInv;
    forall k | k in s.jobs ensures Moved(s.jobs[k], t.jobs[k], now) {
      if k != id { assert Unmoved(s.jobs[k], t.jobs[k]); }
    }
    assert NoNewLinks(s, t);
    LinksFrame(s, t);
    IssueJobPointers(s, t, id);
    if DeletionInv(s) {
      assert KeepsDeletions(s, t);
      DeletionFrame(s, t);
    }
  }

  lemma ClaimIsOk(s: State, id: JobId, now: Time)
    requires StateInv(s) && Claim(s, id, now).Some?
    ensures StepOk(s, Claim(s, id, now).value, now)
  {
    hide StepOk, Keyed, LinksInv;
    var t := Claim(s, id, now).value;
    assert t.nodes == s.nodes;
    IssueJobMoves(s, t, id, now);
  }

  lemma CommitIsOk(s: State, id: JobId, attempts: nat, result: JobResult, now: Time)
    requires StateInv(s) && Commit(s, id, attempts, result, now).Some?
    ensures StepOk(s, Commit(s, id, attempts, result, now).value, now)
  {
    hide LinksInv, PointersInv, StepOk, Complete, Grows;
    var t := Commit(s, id, attempts, result, now).value;
    var current := s.jobs[id];
    if result.success {
      CommitSuccessIsOk(s, current, result.prepared, now);
    } else {
      IssueJobMoves(s, t, id, now);
    }
  }

  lemma CommitSuccessIsOk(s: State, job: Job, prepared: Option<Certificate>, now: Time)
    requires StateInv(s) && job.id in s.jobs && job == s.jobs[job.id] && !IsNodeJob(job) && IsActive(job)
    requires Complete(s, job, prepared, now).Some?
    ensures
      var c := Complete(s, job, prepared, now).value;
      StepOk(s, c.(jobs := c.jobs[job.id := job.(status := Succeeded, error := "", finishedAt := Some(now))]), now)
  {
    hide Complete, LinksInv, PointersInv, DeletionInv, JobsMoved;
    var c := Complete(s, job, prepared, now).value;
    CompleteGrows(s, job, prepared, now);
    GrowsIsOk(s, c, now);
    var t := c.(jobs := c.jobs[job.id := job.(status := Succeeded, error := "", finishedAt := Some(now))]);
    IssueJobMoves(c, t, job.id, now);
    GrowsThenMoves(s, c, t, job.id, now);
  }

  // ----- Revocation -----

  lemma RevokedJobMoves(job: Job, nodeId: NodeId, now: Time)
    requires IsNodeJob(job) ==> job.attempts <= job.maxAttempts
    ensures Moved(job, RevokedJob(job, nodeId, now), now)
    ensures RevokedJob(job, nodeId, now).retryJobId == job.retryJobId
  {
    var k := RevokedJob(job, nodeId, now);
    assert if RevokedActively(job, nodeId) then Ended(job, k, now) || !IsNodeJob(job) else Unmoved(job, k);
  }

  lemma RevokePointers(s: State, nodeId: NodeId, now: Time)
    requires PointersInv(s) && nodeId in s.nodes
    ensures PointersInv(Revoke(s, nodeId, now).value)
  {
  }

  lemma RevokeDeletions(s: State, nodeId: NodeId, now: Time)
    requires Keyed(s) && nodeId in s.nodes
    ensures KeepsDeletions(s, Revoke(s, nodeId, now).value)
  {
    var t := Revoke(s, nodeId, now).value;
    forall d, id | d in t.domains && t.domains[d].deleting && DeletesDomain(s, id, d) ensures DeletesDomain(t, id, d) {
      assert !RevokesDeletion(s, id, d, nodeId);
    }
  }

  lemma RevokeMovesJobs(s: State, nodeId: NodeId, now: Time)
    requires AttemptsLeft(s) && nodeId in s.nodes
    ensures JobsMoved(s, Revoke(s, nodeId, now).value, now)
  {
    hide Moved, RevokedJob, RevokedDomain, RevokedCertificate;
    var t := Revoke(s, nodeId, now).value;
    forall id | id in s.jobs ensures Moved(s.jobs[id], t.jobs[id], now) {
      RevokedJobMoves(s.jobs[id], nodeId, now);
    }
  }

  lemma RevokeKeepsKeys(s: State, nodeId: NodeId, now: Time)
    requires Keyed(s) && nodeId in s.nodes
    ensures var t := Revoke(s, nodeId, now).value; Keyed(t) && NoNewLinks(s, t)
  {
    hide Without, RevokesDeletion, RevokedActively;
  }

  lemma RevokeIsOk(s: State, nodeId: NodeId, now: Time)
    requires StateInv(s) && AttemptsLeft(s) && nodeId in s.nodes
    ensures StepOk(s, Revoke(s, nodeId, now).value, now)
  {
    assert Revoke(s, nodeId, now).Some?;
    hide Keyed, PointersInv, LinksInv, DeletionInv, JobsMoved, NoNewLinks, KeepsDeletions, Revoke, AttemptsLeft;
    RevokeMovesJobs(s, nodeId, now);
    RevokeKeepsKeys(s, nodeId, now);
    var t := Revoke(s, nodeId, now).value;
    LinksFrame(s, t);
    RevokePointers(s, nodeId, now);
    if DeletionInv(s) {
      RevokeDeletions(s, nodeId, now);
      DeletionFrame(s, t);
    }
  }

  // ----- Manual retry, deletion and the other requests -----

  lemma RetryExtends(s: State, id: JobId, opens: bool, now: Time)
    requires Keyed(s) && LinksInv(s) && Retry(s, id, opens, now).Some?
    ensures var t := Retry(s, id, opens, now).value;
      Extends(s, t, now) && t.nodes == s.nodes && Keyed(t) && LinksInv(t)
  {
    hide LinksInv, WireError, Extends;
    var retry := RetryOf(s.jobs[id], s.nextJobId, now);
    var linked := LinkRetry(s, id, retry);
    var t := Retry(s, id, opens, now).value;
    assert FreshJob(retry, s.nextJobId, now);
    LinkRetryExtends(s, id, retry, now);
    ExtendsSameJobs(s, linked, t, now);
  }

  lemma RetryIsOk(s: State, id: JobId, opens: bool, now: Time)
    requires StateInv(s) && Retry(s, id, opens, now).Some?
    ensures StepOk(s, Retry(s, id, opens, now).value, now)
  {
    hide StepOk, LinksInv, PointersInv, WireError, Extends;
    var t := Retry(s, id, opens, now).value;
    var retry := RetryOf(s.jobs[id], s.nextJobId, now);
    RetryExtends(s, id, opens, now);
    if retry.domainId in s.domains && retry.payload.DeleteDomain? {
      assert DeletesDomain(t, retry.id, retry.domainId);
    }
    assert FlagsJustified(s, t);
    ExtendsIsOk(s, t, now);
  }

  lemma ExtendsSameJobs(s: State, t: State, u: State, now: Time)
    requires Extends(s, t, now) && u.jobs == t.jobs && u.nextJobId == t.nextJobId
    ensures Extends(s, u, now) && (LinksInv(t) ==> LinksInv(u))
  {
  }

  function DeletionQueued(s: State, domainId: DomainId, now: Time): State
    requires domainId in s.domains
  {
    EnqueueForDomain(s, s.domains[domainId].(enabled := false, deleting := true), DeleteDomain, now)
  }

  lemma QueuedDeletionExtends(s: State, domainId: DomainId, now: Time)
    requires Keyed(s) && domainId in s.domains
    ensures var t := DeletionQueued(s, domainId, now); Extends(s, t, now) && NoNewLinks(s, t)
  {
  }

  /** The delete job and the flag come together. */
  lemma QueuedDeletionIsOk(s: State, domainId: DomainId, now: Time)
    requires StateInv(s) && domainId in s.domains
    ensures StepOk(s, DeletionQueued(s, domainId, now), now)
  {
    hide StepOk, LinksInv, PointersInv, Extends, NoNewLinks;
    var t := DeletionQueued(s, domainId, now);
    QueuedDeletionExtends(s, domainId, now);
    LinksFrame(s, t);
    assert DeletesDomain(t, s.nextJobId, domainId);
    ExtendsIsOk(s, t, now);
  }

  lemma DeleteDomainExtends(s: State, domainId: DomainId, now: Time)
    requires Keyed(s) && DeleteDomainRequest(s, domainId, now).Some?
    ensures Extends(s, DeleteDomainRequest(s, domainId, now).value, now)
  {
    hide Keyed, Extends, Grows, EnqueueForDomain;
    var removed := s.(domains := s.domains - {domainId});
    RemovedGrows(s, domainId, now);
    GrowsExtends(s, removed, now);
    QueuedDeletionExtends(s, domainId, now);
  }

  lemma DeleteDomainIsOk(s: State, domainId: DomainId, now: Time)
    requires StateInv(s) && DeleteDomainRequest(s, domainId, now).Some?
    ensures StepOk(s, DeleteDomainRequest(s, domainId, now).value, now)
  {
    hide StepOk, LinksInv, PointersInv, Grows, EnqueueForDomain;
    RemovedGrows(s, domainId, now);
    GrowsIsOk(s, s.(domains := s.domains - {domainId}), now);
    QueuedDeletionIsOk(s, domainId, now);
  }

  lemma RenewalSettingsGrow(s: State, domain: Domain, now: Time)
    requires Keyed(s)
    ensures Grows(s, WithRenewalSettings(s, domain), now) && Keyed(WithRenewalSettings(s, domain))
    ensures WithRenewalSettings(s, domain).domains == s.domains
  {
  }

  lemma ChangeDomainGrows(s: State, settings: Domain, source: Source, covers: bool, now: Time)
    requires Keyed(s) && UpdateDomain(s, settings, source, covers, now).Some?
    ensures Grows(s, UpdateDomain(s, settings, source, covers, now).value, now)
  {
    hide Keyed, Grows, EnqueueForDomain, HasActiveCustomConfigJob, WithRenewalSettings, ValidatedNodeIds, Deployment;
    var domain := ChangedDomain(s, settings);
    var t := UpdateDomain(s, settings, source, covers, now).value;
    var changed := if domain.certificateId == "" then s else WithRenewalSettings(s, domain);
    RenewalSettingsGrow(s, domain, now);
    GrowsNot(s, now);
    PutDomainGrows(changed, domain, now);
    EnqueueForDomainGrows(changed, domain, Deployment(domain, source), now);
    GrowsTwice(s, changed, t, now);
  }

  lemma AddDomainGrows(s: State, domain: Domain, deploy: Option<Payload>, now: Time)
    requires Keyed(s) && Legal(s, AddDomain(domain, deploy))
    ensures Grows(s, Apply(s, AddDomain(domain, deploy), now), now)
  {
    hide Grows, Keyed, EnqueueForDomain;
    PutDomainGrows(s, domain, now);
    var added := s.(domains := s.domains[domain.id := domain]);
    if deploy.Some? {
      EnqueueForDomainGrows(added, domain, deploy.value, now);
      GrowsTwice(s, added, Apply(s, AddDomain(domain, deploy), now), now);
    }
  }

  lemma EnqueueJobGrows(s: State, action: Action, now: Time)
    requires Keyed(s) && action.EnqueueJob?
    ensures Grows(s, Apply(s, action, now), now)
  {
    hide Grows;
    var queued := Enqueue(s, action.nodeId, action.domainId, action.payload, now);
    EnqueueGrows(s, action.nodeId, action.domainId, action.payload, now);
    if action.last && action.domainId in s.domains {
      PutDomainGrows(queued, s.domains[action.domainId].(lastJobId := Some(s.nextJobId)), now);
      GrowsTwice(s, queued, Apply(s, action, now), now);
    }
  }

  lemma RecordsGrow(s: State, action: Action, now: Time)
    requires Keyed(s) && (action.PutCertificate? || action.DropCertificates? || action.SetAccounts?)
    ensures Grows(s, Apply(s, action, now), now)
  {
  }

  /** Requests that at most add a job and a domain or certificate record. */
  predicate IsRequest(action: Action) {
    || action.AddDomain? || action.EditDomain? || action.PutCertificate? || action.DropCertificates?
    || action.SetAccounts? || action.EnqueueJob?
  }

  lemma RequestGrows(s: State, action: Action, now: Time)
    requires Keyed(s) && Legal(s, action) && IsRequest(action)
    ensures Grows(s, Apply(s, action, now), now)
  {
    hide Grows, Keyed;
    match action {
      case AddDomain(domain, deploy) => AddDomainGrows(s, domain, deploy, now);
      case EditDomain(domain) => PutDomainGrows(s, domain, now);
      case EnqueueJob(_, _, _, _) => EnqueueJobGrows(s, action, now);
      case _ => RecordsGrow(s, action, now);
    }
  }

  lemma RequestIsOk(s: State, action: Action, now: Time)
    requires StateInv(s) && Legal(s, action) && IsRequest(action)
    ensures StepOk(s, Apply(s, action, now), now)
  {
    hide Grows, Keyed, LinksInv, PointersInv, StepOk;
    RequestGrows(s, action, now);
    GrowsIsOk(s, Apply(s, action, now), now);
  }

  lemma EnrollIsOk(s: State, node: Node, now: Time)
    requires StateInv(s) && Legal(s, Enroll(node))
    ensures StepOk(s, Apply(s, Enroll(node), now), now)
  {
    hide StepOk, LinksInv, PointersInv;
    SameJobsIsOk(s, s.(nodes := s.nodes[node.id := node]), now);
  }

  // ----- Clearing -----

  lemma ClearPointers(s: State)
    requires Keyed(s) && PointersInv(s)
    ensures Clear(s).nodes == s.nodes && PointersInv(Clear(s))
  {
    hide ClearedDomain;
    assert Clear(s).nodes == s.nodes;
  }

  lemma ClearLinks(s: State)
    requires Keyed(s) && LinksInv(s)
    ensures Keyed(Clear(s)) && LinksInv(Clear(s))
  {
  }

  /** A clear keeps everything but the deletion flags. */
  lemma ClearKeeps(s: State, now: Time)
    requires StateInv(s)
    ensures var t := Clear(s); JobsMoved(s, t, now) && Keyed(t) && PointersInv(t) && LinksInv(t)
  {
    hide Keyed, PointersInv, LinksInv, ClearedDomain;
    var t := Clear(s);
    ClearPointers(s);
    ClearLinks(s);
    forall id | id in t.jobs ensures Moved(s.jobs[id], t.jobs[id], now) {
      assert Unmoved(s.jobs[id], t.jobs[id]);
    }
  }

  // ----- Every step -----

  /** What every step does. */
  ghost predicate StepKept(s: State, t: State, now: Time) {
    JobsMoved(s, t, now) && Keyed(t) && PointersInv(t) && LinksInv(t)
  }

  lemma StayIsOk(s: State, now: Time)
    requires StateInv(s)
    ensures StepOk(s, s, now)
  {
    hide LinksInv, Keyed;
    SameJobsIsOk(s, s, now);
  }

  lemma RejectableIsOk(s: State, action: Action, now: Time)
    requires StateInv(s) && AttemptsLeft(s) && Legal(s, action)
    requires action.ChangeDomain? || action.RemoveDomain? || action.ReportResult? || action.ClaimIssue?
             || action.CommitIssue? || action.RevokeNode? || action.RetryJob?
    ensures StepOk(s, Apply(s, action, now), now)
  {
    hide Keyed, PointersInv, LinksInv, AttemptsLeft, StepOk, Grows, UpdateDomain, DeleteDomainRequest, Result, Claim, Commit, Retry;
    StayIsOk(s, now);
    match action {
      case ChangeDomain(domain, source, covers) =>
        if UpdateDomain(s, domain, source, covers, now).Some? {
          ChangeDomainGrows(s, domain, source, covers, now);
          GrowsIsOk(s, UpdateDomain(s, domain, source, covers, now).value, now);
        }
      case RemoveDomain(domainId) =>
        if DeleteDomainRequest(s, domainId, now).Some? { DeleteDomainIsOk(s, domainId, now); }
      case ReportResult(id, nodeId, result) =>
        if Result(s, id, nodeId, result, now).Some? { ResultIsOk(s, id, nodeId, result, now); }
      case ClaimIssue(id) =>
        if Claim(s, id, now).Some? { ClaimIsOk(s, id, now); }
      case CommitIssue(id, attempts, result) =>
        if Commit(s, id, attempts, result, now).Some? { CommitIsOk(s, id, attempts, result, now); }
      case RevokeNode(nodeId) =>
        if nodeId in s.nodes { RevokeIsOk(s, nodeId, now); }
      case RetryJob(id, opens) =>
        if Retry(s, id, opens, now).Some? { RetryIsOk(s, id, opens, now); }
    }
  }

  lemma StepIsOk(s: State, action: Action, now: Time)
    requires StateInv(s) && AttemptsLeft(s) && Legal(s, action) && !action.ClearPending?
    ensures StepOk(s, Apply(s, action, now), now)
  {
    hide Keyed, PointersInv, LinksInv, AttemptsLeft, StepOk, Poll, Maintain, Grows;
    match action {
      case Enroll(node) => EnrollIsOk(s, node, now);
      case PollNode(nodeId, report, opens, case_) => PollIsOk(s, nodeId, report, opens, now, case_);
      case RunMaintenance(config, orders) => MaintainIsOk(s, config, orders, now);
      case _ =>
        if IsRequest(action) {
          RequestIsOk(s, action, now);
        } else {
          RejectableIsOk(s, action, now);
        }
    }
  }

  lemma JobsInvAttempts(s: State, clock: Time)
    requires JobsInv(s, clock)
    ensures AttemptsLeft(s)
  {
  }

  /** Every step keeps the jobs within their moves, and the keys, pointers and links consistent. */
  lemma StepIsKept(sys: System, event: Event)
    requires Inv(sys) && Enabled(sys, event)
    ensures StepKept(sys.state, Next(sys, event).state, event.at)
  {
    hide Keyed, JobsInv, PointersInv, LinksInv, JobsMoved, DeletionInv, Apply;
    JobsInvAttempts(sys.state, sys.clock);
    if event.action.ClearPending? {
      assert Apply(sys.state, event.action, event.at) == Clear(sys.state) by { ApplyClear(sys.state, event.at); }
      ClearKeeps(sys.state, event.at);
    } else {
      StepIsOk(sys.state, event.action, event.at);
    }
  }

  lemma ApplyClear(s: State, now: Time)
    ensures Apply(s, ClearPending, now) == Clear(s)
  {
  }

  /** Every step keeps the invariants of jobs, pointers and retry links. */
  lemma InvStep(sys: System, event: Event)
    requires Inv(sys) && Enabled(sys, event)
    ensures Inv(Next(sys, event))
  {
    hide Keyed, JobsInv, PointersInv, LinksInv, JobsMoved, Apply;
    StepIsKept(sys, event);
    JobsMovedKeepsJobsInv(sys.state, Next(sys, event).state, sys.clock, event.at);
  }

  /** Every step but a clear keeps a flagged domain's delete job queued or running. */
  lemma DeletionStep(sys: System, event: Event)
    requires Inv(sys) && Enabled(sys, event) && DeletionInv(sys.state) && !event.action.ClearPending?
    ensures DeletionInv(Next(sys, event).state)
  {
    hide Keyed, JobsInv, PointersInv, LinksInv, JobsMoved, Apply, DeletionInv;
    JobsInvAttempts(sys.state, sys.clock);
    StepIsOk(sys.state, event.action, event.at);
  }
}
