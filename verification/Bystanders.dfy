/** What a step leaves alone: a node job changes only through its own node, maintenance,
    revocation of its node, a manual retry that links to it, or a clear. */
module Bystanders {
  import opened Model
  import opened Jobs
  import opened UpdateConfirmation
  import opened Protocol
  import opened Transitions
  import opened Invariants
  import opened Preservation
  import opened AgentSteps
  import opened MaintenanceSteps
  import opened AdminSteps

  /** A poll or a job result of this node. */
  predicate FromNode(action: Action, nodeId: NodeId) {
    (action.PollNode? || action.ReportResult?) && action.nodeId == nodeId
  }

  /** The job is still there, with at most a retry link more. */
  ghost predicate Untouched(s: State, t: State, id: JobId)
    requires id in s.jobs
  {
    id in t.jobs && LinkOnly(s.jobs[id], t.jobs[id])
  }

  lemma ExtendsUntouched(s: State, t: State, id: JobId, now: Time)
    requires Extends(s, t, now) && id in s.jobs
    ensures Untouched(s, t, id)
  {
  }

  lemma PollBystander(
    s: State, nodeId: NodeId, report: Option<NodeReport>, opens: bool, now: Time, case_: PollCase, id: JobId)
    requires StateInv(s) && Takes(s, nodeId, case_) && id in s.jobs && IsNodeJob(s.jobs[id]) && s.jobs[id].nodeId != nodeId
    ensures id in Poll(s, nodeId, report, opens, now, case_).jobs
    ensures Poll(s, nodeId, report, opens, now, case_).jobs[id] == s.jobs[id]
  {
    hide LinksInv, Keyed, PointersInv, Takes, WireError;
    if !case_.Rejected? && !case_.NothingToDo? {
      PollActsOnPointer(s, nodeId, case_);
    }
  }

  lemma ResultBystander(s: State, resultId: JobId, nodeId: NodeId, result: JobResult, now: Time, id: JobId)
    requires Keyed(s) && Result(s, resultId, nodeId, result, now).Some?
    requires id in s.jobs && s.jobs[id].nodeId != nodeId
    ensures id in Result(s, resultId, nodeId, result, now).value.jobs
    ensures Result(s, resultId, nodeId, result, now).value.jobs[id] == s.jobs[id]
  {
    hide Complete;
    if !AwaitingUpdateConfirmation(s.jobs[resultId]) && result.success && !s.jobs[resultId].payload.UpdateAtlas? {
      CompleteGrows(s, s.jobs[resultId].(status := Succeeded, error := "", finishedAt := Some(now)), result.prepared, now);
    }
  }

  lemma CommitBystander(s: State, issueId: JobId, attempts: nat, result: JobResult, now: Time, id: JobId)
    requires Keyed(s) && Commit(s, issueId, attempts, result, now).Some? && id in s.jobs && IsNodeJob(s.jobs[id])
    ensures id in Commit(s, issueId, attempts, result, now).value.jobs
    ensures Commit(s, issueId, attempts, result, now).value.jobs[id] == s.jobs[id]
  {
    hide Complete;
    if result.success {
      CompleteGrows(s, s.jobs[issueId], result.prepared, now);
    }
  }

  lemma AddingBystander(s: State, action: Action, now: Time, id: JobId)
    requires StateInv(s) && Legal(s, action) && id in s.jobs
    requires IsRequest(action) || action.ChangeDomain? || action.RemoveDomain? || action.RetryJob? || action.Enroll?
    ensures Untouched(s, Apply(s, action, now), id)
  {
    hide Keyed, LinksInv, PointersInv, Grows, Extends, UpdateDomain, DeleteDomainRequest, Retry;
    match action {
      case ChangeDomain(domain, source, covers) =>
        if UpdateDomain(s, domain, source, covers, now).Some? {
          var t := UpdateDomain(s, domain, source, covers, now).value;
          ChangeDomainGrows(s, domain, source, covers, now);
          GrowsExtends(s, t, now);
          ExtendsUntouched(s, t, id, now);
        }
      case RemoveDomain(domainId) =>
        if DeleteDomainRequest(s, domainId, now).Some? {
          DeleteDomainExtends(s, domainId, now);
          ExtendsUntouched(s, DeleteDomainRequest(s, domainId, now).value, id, now);
        }
      case RetryJob(retried, opens) =>
        if Retry(s, retried, opens, now).Some? {
          RetryExtends(s, retried, opens, now);
          ExtendsUntouched(s, Retry(s, retried, opens, now).value, id, now);
        }
      case Enroll(_) =>
      case _ => RequestUntouched(s, action, now, id);
    }
  }

  lemma RequestUntouched(s: State, action: Action, now: Time, id: JobId)
    requires Keyed(s) && Legal(s, action) && IsRequest(action) && id in s.jobs
    ensures Untouched(s, Apply(s, action, now), id)
  {
    hide Keyed, Grows, Extends, Apply, Untouched;
    RequestGrows(s, action, now);
    GrowsExtends(s, Apply(s, action, now), now);
    ExtendsUntouched(s, Apply(s, action, now), id, now);
  }

  /** Steps other than maintenance, revocation and clears touch a node job only through its node. */
  lemma BystanderStep(s: State, action: Action, now: Time, id: JobId)
    requires StateInv(s) && Legal(s, action) && id in s.jobs && IsNodeJob(s.jobs[id])
    requires !FromNode(action, s.jobs[id].nodeId)
    requires !action.RunMaintenance? && !action.RevokeNode? && !action.ClearPending?
    ensures Untouched(s, Apply(s, action, now), id)
  {
    hide Keyed, LinksInv, PointersInv, Poll, Result, Commit;
    match action {
      case PollNode(nodeId, report, opens, case_) => PollBystander(s, nodeId, report, opens, now, case_, id);
      case ReportResult(resultId, nodeId, result) =>
        if Result(s, resultId, nodeId, result, now).Some? { ResultBystander(s, resultId, nodeId, result, now, id); }
      case CommitIssue(issueId, attempts, result) =>
        if Commit(s, issueId, attempts, result, now).Some? { CommitBystander(s, issueId, attempts, result, now, id); }
      case ClaimIssue(_) =>
      case _ => AddingBystander(s, action, now, id);
    }
  }

  /** A revocation fails the active jobs of its node and leaves every other job as it is. */
  lemma RevokeBystander(s: State, nodeId: NodeId, now: Time, id: JobId)
    requires nodeId in s.nodes && id in s.jobs && s.jobs[id].nodeId != nodeId
    ensures var t := Revoke(s, nodeId, now).value; id in t.jobs && t.jobs[id] == s.jobs[id]
  {
  }

  /** In a maintenance pass a job moves as the job loop moves it, whatever the rest of the pass adds. */
  lemma MaintenanceStep(s: State, config: Config, orders: Orders, now: Time, id: JobId)
    requires StateInv(s) && AttemptsLeft(s) && id in s.jobs
    ensures var t := Maintain(s, config, orders, now);
      id in t.jobs && LinkOnly(MaintainedJob(s, s.jobs[id], now), t.jobs[id])
  {
    hide Keyed, LinksInv, PointersInv, DeletionInv, JobsMoved, AttemptsLeft, Extends, Grows, MaintainedJob,
         Recover, RenewDomains, RenewCertificates;
    var o := MarkOffline(s, config, now);
    var m := MaintainJobs(o, now);
    var r := Recover(m, orders.jobs, config, now);
    var t := Maintain(s, config, orders, now);
    OfflineThenMaintainedIsOk(s, config, now);
    RecoverExtends(m, orders.jobs, config, now);
    RenewalsGrow(r, orders, now);
    GrowsExtends(r, t, now);
    ExtendsTwice(m, r, t, now);
    ExtendsUntouched(m, t, id, now);
    MarkingChangesNoJob(s, config, s.jobs[id], now);
  }

  lemma MarkingChangesNoJob(s: State, config: Config, job: Job, now: Time)
    ensures MaintainedJob(MarkOffline(s, config, now), job, now) == MaintainedJob(s, job, now)
  {
    MarkingExpiresNoJob(s, config, job, now);
    hide QueueExpired, MarkOffline, TimedOut;
  }

  lemma MarkingExpiresNoJob(s: State, config: Config, job: Job, now: Time)
    ensures QueueExpired(MarkOffline(s, config, now), job, now) <==> QueueExpired(s, job, now)
  {
    var o := MarkOffline(s, config, now);
    assert LiveNode(o, job.nodeId) <==> LiveNode(s, job.nodeId);
    assert forall id :: Runs(o, job.nodeId, id) <==> Runs(s, job.nodeId, id);
  }
}
