/** Polls and job results keep the invariants. */
module AgentSteps {
  import opened Model
  import opened Jobs
  import opened UpdateConfirmation
  import opened Protocol
  import opened Transitions
  import opened Invariants
  import opened Preservation

  /** The node of `id` points at it while it runs, and at nothing once it does not. */
  ghost predicate NodeFollowsJob(s: State, t: State, id: JobId)
    requires id in s.jobs && id in t.jobs
  {
    var nodeId := s.jobs[id].nodeId;
    && nodeId in s.nodes && t.nodes.Keys == s.nodes.Keys
    && (forall n | n in s.nodes && n != nodeId :: t.nodes[n] == s.nodes[n])
    && t.nodes[nodeId].id == nodeId
    && t.nodes[nodeId].runningJobId == (if t.jobs[id].status == Running then Some(id) else None)
    && (t.nodes[nodeId].status == Revoked ==> t.jobs[id].status != Running)
    && (s.nodes[nodeId].runningJobId.Some? ==> s.nodes[nodeId].runningJobId == Some(id))
  }

  ghost predicate OnlyJobMoves(s: State, t: State, id: JobId) {
    && id in s.jobs && IsNodeJob(s.jobs[id]) && t.jobs.Keys == s.jobs.Keys
    && (forall k | k in s.jobs && k != id :: t.jobs[k] == s.jobs[k])
    && SameIdentity(s.jobs[id], t.jobs[id]) && t.jobs[id].retryJobId == s.jobs[id].retryJobId
    && t == s.(jobs := t.jobs, nodes := t.nodes, domains := t.domains)
    && (forall d | d in t.domains :: t.domains[d].id == d)
  }

  lemma OneJobPointers(s: State, t: State, id: JobId)
    requires PointersInv(s) && OnlyJobMoves(s, t, id) && NodeFollowsJob(s, t, id)
    ensures PointersInv(t)
  {
  }

  /** One job and its node change; everything about other jobs stays. */
  lemma OneJobMoves(s: State, t: State, id: JobId, now: Time)
    requires StateInv(s) && OnlyJobMoves(s, t, id) && NodeFollowsJob(s, t, id)
    requires Moved(s.jobs[id], t.jobs[id], now)
    requires DeletionInv(s) ==> DeletionInv(t)
    ensures StepOk(s, t, now)
  {
    hide PointersInv, LinksInv, DeletionInv;
    assert NoNewLinks(s, t);
    LinksFrame(s, t);
    OneJobPointers(s, t, id);
    forall k | k in s.jobs && k in t.jobs ensures Moved(s.jobs[k], t.jobs[k], now) {
      if k != id { assert Unmoved(s.jobs[k], t.jobs[k]); }
    }
  }

  /** A job that the poll may act on is the only running one of its node, if any is. */
  lemma PollActsOnPointer(s: State, nodeId: NodeId, case_: PollCase)
    requires StateInv(s) && Takes(s, nodeId, case_) && !case_.Rejected? && !case_.NothingToDo?
    ensures LiveNode(s, nodeId) && case_.id in s.jobs && s.jobs[case_.id].nodeId == nodeId && IsNodeJob(s.jobs[case_.id])
    ensures s.nodes[nodeId].runningJobId.Some? ==> s.nodes[nodeId].runningJobId == Some(case_.id)
    ensures case_.Redispatch? ==>
      s.nodes[nodeId].runningJobId == Some(case_.id) && s.jobs[case_.id].status == Running
      && !AwaitingUpdateConfirmation(s.jobs[case_.id])
    ensures case_.Dispatch? ==> s.jobs[case_.id].status == Queued
  {
    assert Waits(s, nodeId, case_.id) || case_.Redispatch? || case_.Dispatch?;
    assert case_.Redispatch? ==> !Waits(s, nodeId, case_.id);
  }

  /** The state after one job and its node were written back. */
  function Written(s: State, job: Job, node: Node): State {
    s.(jobs := s.jobs[job.id := job], nodes := s.nodes[node.id := node])
  }

  /** Flagged domains were flagged before, and a delete job that ends takes its flag with it. */
  ghost predicate FlagsFollow(s: State, domains: map<DomainId, Domain>, job: Job) {
    && (forall d | d in domains :: domains[d].id == d)
    && forall d | d in domains && domains[d].deleting ::
         && d in s.domains && s.domains[d].deleting
         && (job.payload.DeleteDomain? && !IsActive(job) ==> d != job.domainId)
  }

  lemma WrittenKeepsDeletions(s: State, job: Job, node: Node, domains: map<DomainId, Domain>)
    requires Keyed(s) && job.id in s.jobs && SameIdentity(s.jobs[job.id], job) && FlagsFollow(s, domains, job)
    ensures KeepsDeletions(s, Written(s, job, node).(domains := domains))
  {
  }

  lemma WrittenIsOk(s: State, job: Job, node: Node, domains: map<DomainId, Domain>, now: Time)
    requires StateInv(s) && job.id in s.jobs && IsNodeJob(s.jobs[job.id]) && s.jobs[job.id].nodeId == node.id && node.id in s.nodes
    requires s.nodes[node.id].runningJobId.Some? ==> s.nodes[node.id].runningJobId == Some(job.id)
    requires Moved(s.jobs[job.id], job, now) && job.retryJobId == s.jobs[job.id].retryJobId
    requires node.runningJobId == (if job.status == Running then Some(job.id) else None)
    requires node.status == Revoked ==> job.status != Running
    requires FlagsFollow(s, domains, job)
    ensures StepOk(s, Written(s, job, node).(domains := domains), now)
  {
    var t := Written(s, job, node).(domains := domains);
    assert OnlyJobMoves(s, t, job.id) && NodeFollowsJob(s, t, job.id);
    if DeletionInv(s) {
      WrittenKeepsDeletions(s, job, node, domains);
      DeletionFrame(s, t);
    }
    OneJobMoves(s, t, job.id, now);
  }

  lemma ObserveIsOk(s: State, nodeId: NodeId, report: Option<NodeReport>, opens: bool, now: Time, id: JobId)
    requires StateInv(s) && Takes(s, nodeId, ObserveUpdate(id))
    ensures StepOk(s, Poll(s, nodeId, report, opens, now, ObserveUpdate(id)), now)
  {
    PollActsOnPointer(s, nodeId, ObserveUpdate(id));
    var version := if report.None? then None else Some(report.value.agentVersion);
    var job := Observe(s.jobs[id], version, now);
    ObserveKeeps(s.jobs[id], version, now);
    assert Observed(s.jobs[id], job, now);
    var node := Reported(s.nodes[nodeId], report, now).(runningJobId := if job.status == Running then Some(id) else None);
    WrittenIsOk(s, job, node, s.domains, now);
  }

  function Sent(s: State, case_: PollCase, now: Time): Job
    requires (case_.Redispatch? || case_.Dispatch?) && case_.id in s.jobs
  {
    if case_.Dispatch? then Dispatched(s.jobs[case_.id], now) else Redispatched(s.jobs[case_.id], now)
  }

  lemma FailDispatchForm(s: State, job: Job, node: Node, error: string, now: Time)
    requires job.nodeId == node.id
    ensures
      var failed := FailDispatch(Written(s, job, node), job.id, error, now);
      && job.id in failed.jobs
      && failed == Written(s, job.(status := Failed, error := failed.jobs[job.id].error, finishedAt := Some(now)),
                           node.(runningJobId := None))
  {
  }

  lemma SentMoves(s: State, nodeId: NodeId, case_: PollCase, now: Time, failed: Job)
    requires StateInv(s) && AttemptsLeft(s) && Takes(s, nodeId, case_) && (case_.Redispatch? || case_.Dispatch?)
    requires case_.id in s.jobs
    requires failed == Sent(s, case_, now).(status := Failed, error := failed.error, finishedAt := Some(now))
    ensures Moved(s.jobs[case_.id], Sent(s, case_, now), now)
    ensures Moved(s.jobs[case_.id], failed, now)
  {
    PollActsOnPointer(s, nodeId, case_);
    var j, sent := s.jobs[case_.id], Sent(s, case_, now);
    assert Taken(j, sent, now) || SentAgain(j, sent, now);
    assert Ended(j, failed, now);
  }

  lemma SentForm(s: State, nodeId: NodeId, report: Option<NodeReport>, now: Time, case_: PollCase) returns (node: Node)
    requires StateInv(s) && Takes(s, nodeId, case_) && (case_.Redispatch? || case_.Dispatch?)
    ensures LiveNode(s, nodeId) && case_.id in s.jobs && s.jobs[case_.id].nodeId == nodeId && IsNodeJob(s.jobs[case_.id])
    ensures s.nodes[nodeId].runningJobId.Some? ==> s.nodes[nodeId].runningJobId == Some(case_.id)
    ensures node.id == nodeId && node.runningJobId == Some(case_.id) && node.status == Online
    ensures PollTransaction(s, nodeId, report, now, case_) == Written(s, Sent(s, case_, now), node)
    ensures Sent(s, case_, now).id == case_.id && Sent(s, case_, now).status == Running
    ensures SameIdentity(s.jobs[case_.id], Sent(s, case_, now))
    ensures Sent(s, case_, now).retryJobId == s.jobs[case_.id].retryJobId
  {
    PollActsOnPointer(s, nodeId, case_);
    node := Reported(s.nodes[nodeId], report, now).(runningJobId := Some(case_.id));
  }

  /** The job that a poll sends. */
  lemma SentIsOk(s: State, nodeId: NodeId, report: Option<NodeReport>, now: Time, case_: PollCase)
    requires StateInv(s) && AttemptsLeft(s) && Takes(s, nodeId, case_) && (case_.Redispatch? || case_.Dispatch?)
    ensures StepOk(s, PollTransaction(s, nodeId, report, now, case_), now)
  {
    var node := SentForm(s, nodeId, report, now, case_);
    var sent := Sent(s, case_, now);
    SentMoves(s, nodeId, case_, now, sent.(status := Failed, finishedAt := Some(now)));
    WrittenIsOk(s, sent, node, s.domains, now);
  }

  /** The job that a poll selected and could not send. */
  lemma UnsentIsOk(s: State, nodeId: NodeId, report: Option<NodeReport>, error: string, now: Time, case_: PollCase)
    requires StateInv(s) && AttemptsLeft(s) && Takes(s, nodeId, case_) && (case_.Redispatch? || case_.Dispatch?)
    requires case_.id in s.jobs && !s.jobs[case_.id].payload.DeleteDomain?
    ensures StepOk(s, FailDispatch(PollTransaction(s, nodeId, report, now, case_), case_.id, error, now), now)
  {
    var node := SentForm(s, nodeId, report, now, case_);
    var sent := Sent(s, case_, now);
    FailDispatchForm(s, sent, node, error, now);
    var failed := FailDispatch(Written(s, sent, node), case_.id, error, now).jobs[case_.id];
    SentMoves(s, nodeId, case_, now, failed);
    WrittenIsOk(s, failed, node.(runningJobId := None), s.domains, now);
  }

  lemma IdlePollIsOk(s: State, nodeId: NodeId, report: Option<NodeReport>, now: Time, case_: PollCase)
    requires StateInv(s) && Takes(s, nodeId, case_) && (case_.Rejected? || case_.NothingToDo?)
    ensures StepOk(s, PollTransaction(s, nodeId, report, now, case_), now)
  {
    hide StepOk;
    assert case_.NothingToDo? ==> s.nodes[nodeId].runningJobId.None?;
    SameJobsIsOk(s, PollTransaction(s, nodeId, report, now, case_), now);
  }

  lemma PollIsOk(s: State, nodeId: NodeId, report: Option<NodeReport>, opens: bool, now: Time, case_: PollCase)
    requires StateInv(s) && AttemptsLeft(s) && Takes(s, nodeId, case_)
    ensures StepOk(s, Poll(s, nodeId, report, opens, now, case_), now)
  {
    hide StateInv, AttemptsLeft, StepOk, PollTransaction, FailDispatch;
    if case_.Rejected? || case_.NothingToDo? {
      IdlePollIsOk(s, nodeId, report, now, case_);
    } else if case_.ObserveUpdate? {
      ObserveIsOk(s, nodeId, report, opens, now, case_.id);
    } else {
      var node := SentForm(s, nodeId, report, now, case_);
      var polled := PollTransaction(s, nodeId, report, now, case_);
      var error := WireError(polled, polled.jobs[case_.id], opens);
      if error.Some? {
        UnsentIsOk(s, nodeId, report, error.value, now, case_);
      } else {
        SentIsOk(s, nodeId, report, now, case_);
      }
    }
  }

  /** The controller still has what the job needs to be sent, and can decrypt it. */
  predicate HasRecords(s: State, job: Job, opens: bool) {
    match job.payload
    case ApplyDomain(domainId, certificateId, _) =>
      domainId in s.domains && (certificateId != "" ==> certificateId in s.certificates && opens)
    case SyncCertificate(certificateId, _) => certificateId in s.certificates && opens
    case CaptureCertificate(domainId, name, _) =>
      if domainId in s.domains && domainId != "" then s.domains[domainId].name != "" else name != ""
    case _ => true
  }

  lemma WireErrorIff(s: State, job: Job, opens: bool)
    requires IsNodeJob(job)
    ensures WireError(s, job, opens).None? <==> HasRecords(s, job, opens)
  {
  }

  /** A job that a poll selects is running afterwards exactly when its records are there; otherwise it has
      failed for good and its node is free again. */
  lemma SelectedJobRunsIffItHasRecords(
    s: State, nodeId: NodeId, report: Option<NodeReport>, opens: bool, now: Time, case_: PollCase)
    requires StateInv(s) && Takes(s, nodeId, case_) && (case_.Redispatch? || case_.Dispatch?)
    ensures
      var t := Poll(s, nodeId, report, opens, now, case_);
      && case_.id in t.jobs && nodeId in t.nodes
      && (if HasRecords(s, s.jobs[case_.id], opens)
          then t.jobs[case_.id].status == Running && t.nodes[nodeId].runningJobId == Some(case_.id)
          else t.jobs[case_.id].status == Failed && t.nodes[nodeId].runningJobId.None?)
  {
    hide WireError, HasRecords, PollTransaction, Takes, StateInv;
    var node := SentForm(s, nodeId, report, now, case_);
    var sent := Sent(s, case_, now);
    var polled := Written(s, sent, node);
    WireErrorIff(polled, sent, opens);
    SameRecords(s, polled, s.jobs[case_.id], sent, opens);
  }

  lemma SameRecords(s: State, t: State, job: Job, sent: Job, opens: bool)
    requires t.domains == s.domains && t.certificates == s.certificates && sent.payload == job.payload
    ensures HasRecords(t, sent, opens) <==> HasRecords(s, job, opens)
  {
  }

  lemma RunningJobOf(s: State, nodeId: NodeId, id: JobId)
    requires PointersInv(s) && nodeId in s.nodes && Runs(s, nodeId, id)
    ensures s.nodes[nodeId].runningJobId == Some(id) && s.nodes[nodeId].status != Revoked
  {
  }

  lemma AcceptIsOk(s: State, id: JobId, nodeId: NodeId, result: JobResult, now: Time)
    requires StateInv(s) && Result(s, id, nodeId, result, now).Some?
    requires result.success && s.jobs[id].payload.UpdateAtlas? && !AwaitingUpdateConfirmation(s.jobs[id])
    ensures StepOk(s, Result(s, id, nodeId, result, now).value, now)
  {
    RunningJobOf(s, nodeId, id);
    var accepted := s.jobs[id].(updateAcceptedAt := Some(now), error := "");
    assert Accepted(s.jobs[id], accepted, now);
    WrittenIsOk(s, accepted, s.nodes[nodeId].(lastSeenAt := Some(now), runningJobId := Some(id)), s.domains, now);
  }

  lemma FailureIsOk(s: State, id: JobId, nodeId: NodeId, result: JobResult, now: Time)
    requires StateInv(s) && AttemptsLeft(s) && Result(s, id, nodeId, result, now).Some?
    requires !result.success && !AwaitingUpdateConfirmation(s.jobs[id])
    ensures StepOk(s, Result(s, id, nodeId, result, now).value, now)
  {
    RunningJobOf(s, nodeId, id);
    var failed := AfterFailedResult(s.jobs[id], result.error, now);
    assert Requeued(s.jobs[id], failed, now) || Ended(s.jobs[id], failed, now);
    var domains := if failed.status == Failed then RestoreFailedDeletion(s.domains, failed) else s.domains;
    WrittenIsOk(s, failed, s.nodes[nodeId].(lastSeenAt := Some(now), runningJobId := None), domains, now);
  }

  /** What a completion added stays as it is when the finished job itself is written. */
  lemma GrowsThenMoves(s: State, c: State, t: State, id: JobId, now: Time)
    requires StateInv(s) && Grows(s, c, now) && StepOk(c, t, now) && id in s.jobs
    requires t.jobs.Keys == c.jobs.Keys && t.nextJobId == c.nextJobId
    requires forall k | k in c.jobs && k != id :: t.jobs[k] == c.jobs[k]
    requires DeletionInv(s) ==> DeletionInv(c)
    ensures StepOk(s, t, now)
  {
    forall k | k in s.jobs && k in t.jobs ensures Moved(s.jobs[k], t.jobs[k], now) {
      assert s.jobs[k] == c.jobs[k];
    }
  }

  lemma FinishedIsOk(c: State, job: Job, node: Node, now: Time)
    requires StateInv(c) && job.id in c.jobs && IsRunningNodeJob(c.jobs[job.id])
    requires c.jobs[job.id].nodeId == node.id && node.id in c.nodes
    requires job.status == Succeeded && job.retryJobId == c.jobs[job.id].retryJobId && node.runningJobId.None?
    requires Moved(c.jobs[job.id], job, now)
    requires job.payload.DeleteDomain? ==> job.domainId !in c.domains
    ensures StepOk(c, Written(c, job, node), now)
  {
    RunningJobOf(c, node.id, job.id);
    WrittenIsOk(c, job, node, c.domains, now);
    assert Written(c, job, node).(domains := c.domains) == Written(c, job, node);
  }

  /** A finished job written back over the state that its completion produced. */
  lemma CompletedIsOk(s: State, c: State, job: Job, node: Node, now: Time)
    requires StateInv(s) && Grows(s, c, now)
    requires job.id in s.jobs && IsRunningNodeJob(s.jobs[job.id]) && s.jobs[job.id].nodeId == node.id && node.id in s.nodes
    requires job.status == Succeeded && job.retryJobId == s.jobs[job.id].retryJobId && node.runningJobId.None?
    requires Moved(s.jobs[job.id], job, now)
    requires job.payload.DeleteDomain? ==> job.domainId !in c.domains
    ensures StepOk(s, Written(c, job, node), now)
  {
    hide Keyed, PointersInv, LinksInv, DeletionInv, JobsMoved, Moved;
    GrowsIsOk(s, c, now);
    FinishedIsOk(c, job, node, now);
    GrowsThenMoves(s, c, Written(c, job, node), job.id, now);
  }

  lemma SuccessIsOk(s: State, id: JobId, nodeId: NodeId, result: JobResult, now: Time)
    requires StateInv(s) && AttemptsLeft(s) && Result(s, id, nodeId, result, now).Some?
    requires result.success && !s.jobs[id].payload.UpdateAtlas?
    ensures StepOk(s, Result(s, id, nodeId, result, now).value, now)
  {
    var succeeded := s.jobs[id].(status := Succeeded, error := "", finishedAt := Some(now));
    assert Ended(s.jobs[id], succeeded, now);
    CompleteGrows(s, succeeded, result.prepared, now);
    var c := Complete(s, succeeded, result.prepared, now).value;
    CompletedIsOk(s, c, succeeded, s.nodes[nodeId].(lastSeenAt := Some(now), runningJobId := None), now);
  }

  lemma ResultIsOk(s: State, id: JobId, nodeId: NodeId, result: JobResult, now: Time)
    requires StateInv(s) && AttemptsLeft(s) && Result(s, id, nodeId, result, now).Some?
    ensures StepOk(s, Result(s, id, nodeId, result, now).value, now)
  {
    if AwaitingUpdateConfirmation(s.jobs[id]) {
      SameJobsIsOk(s, s, now);
    } else if !result.success {
      FailureIsOk(s, id, nodeId, result, now);
    } else if s.jobs[id].payload.UpdateAtlas? {
      AcceptIsOk(s, id, nodeId, result, now);
    } else {
      SuccessIsOk(s, id, nodeId, result, now);
    }
  }
}
