/** What a poll is answered with and what it leaves behind, and what a node must still have to be sent a job. */
module Polls {
  import opened Model
  import opened Text
  import opened Jobs
  import opened UpdateConfirmation
  import opened Protocol
  import opened Transitions
  import opened Invariants
  import opened Preservation
  import opened AgentSteps

  // ----- The answer -----

  /** In a state that satisfies the invariants a live node that runs a job is told of that job, an update that waits is
      observed instead, and a node that runs nothing gets the job that was queued for it first, if there is one. */
  lemma PollTakes(s: State, nodeId: NodeId, case_: PollCase)
    requires StateInv(s) && LiveNode(s, nodeId)
    ensures Takes(s, nodeId, case_) <==>
      match s.nodes[nodeId].runningJobId
      case Some(id) =>
        case_ == (if s.jobs[id].payload.UpdateAtlas?
            && s.jobs[id].updateAcceptedAt.Some? then ObserveUpdate(id) else Redispatch(id))
      case None =>
        if case_.Dispatch? then
          && QueuedOn(s, nodeId, case_.id)
          && forall id | QueuedOn(s, nodeId, id) :: s.jobs[case_.id].createdAt <= s.jobs[id].createdAt
        else case_ == NothingToDo && forall id :: !QueuedOn(s, nodeId, id)
  {
    hide Keyed, LinksInv;
    forall id ensures QueuedOn(s, nodeId, id) <==> QueuedFor(s, nodeId, id) {
    }
    forall id ensures Waits(s, nodeId, id) ==> Runs(s, nodeId, id) {
    }
    var running := s.nodes[nodeId].runningJobId;
    if running.Some? {
      assert Runs(s, nodeId, running.value);
      assert AwaitingUpdateConfirmation(s.jobs[running.value]) ==> Waits(s, nodeId, running.value);
    } else {
      assert forall id :: !Runs(s, nodeId, id);
    }
  }

  /** In any other state a running job that no pointer names is found, the oldest first. */
  lemma OldestOrphanFirst(s: State, nodeId: NodeId, case_: PollCase, id: JobId)
    requires LiveNode(s, nodeId) && Takes(s, nodeId, case_) && case_.Redispatch? && Runs(s, nodeId, id)
    requires !PointsAtRunningJob(s, s.nodes[nodeId])
    ensures Runs(s, nodeId, case_.id) && s.jobs[case_.id].createdAt <= s.jobs[id].createdAt
  {
  }

  ghost predicate QueuedOn(s: State, nodeId: NodeId, id: JobId) {
    id in s.jobs && s.jobs[id].nodeId == nodeId && s.jobs[id].status == Queued && !s.jobs[id].payload.IssueCertificate?
  }

  // ----- The state afterwards -----

  /** The node is online and heard of, and has the version and health that it reported. */
  ghost predicate NodeReported(before: Node, after: Node, report: Option<NodeReport>, running: Option<JobId>, now: Time) {
    after == before.(
      status := Online, lastSeenAt := Some(now), runningJobId := running,
      agentVersion := if report.Some? then Truncate(report.value.agentVersion, 64) else before.agentVersion,
      nginxHealthy := if report.Some? then report.value.nginxHealthy else before.nginxHealthy)
  }

  /** Only this node and at most this job are touched. */
  ghost predicate TouchesOnly(s: State, t: State, nodeId: NodeId, id: Option<JobId>) {
    && nodeId in s.nodes && nodeId in t.nodes
    && t == s.(nodes := s.nodes[nodeId := t.nodes[nodeId]], jobs := t.jobs)
    && (id.None? ==> t.jobs == s.jobs)
    && (id.Some? ==> id.value in s.jobs && id.value in t.jobs && t.jobs == s.jobs[id.value := t.jobs[id.value]])
  }

  /** A queued job starts with one attempt more; a running one is sent again, with one attempt more while any are left. */
  ghost predicate JobSent(before: Job, after: Job, now: Time) {
    if before.status == Queued then after == before.(status := Running, attempts :=
        before.attempts + 1, startedAt := Some(now))
    else
      && after == before.(attempts := after.attempts, startedAt := after.startedAt)
      && after.attempts == (if before.attempts < before.maxAttempts then before.attempts + 1 else before.attempts)
      && after.startedAt == (if before.startedAt.Some? then before.startedAt else Some(now))
  }

  /** A job that cannot be sent has failed, with the attempt it was about to make. */
  ghost predicate JobUnsent(before: Job, after: Job, now: Time) {
    && JobSent(before, after.(status := Running, error := before.error, finishedAt := before.finishedAt), now)
    && after.status == Failed && after.finishedAt == Some(now)
  }

  lemma IdlePollLeaves(s: State, nodeId: NodeId, report: Option<NodeReport>, opens: bool, now: Time)
    requires LiveNode(s, nodeId) && Takes(s, nodeId, NothingToDo)
    ensures
      var t := Poll(s, nodeId, report, opens, now, NothingToDo);
      TouchesOnly(s, t, nodeId, None) && NodeReported(s.nodes[nodeId], t.nodes[nodeId], report, None, now)
  {
    hide Takes;
  }

  lemma RevokedPollLeaves(s: State, nodeId: NodeId, report: Option<NodeReport>, opens: bool, now: Time, case_: PollCase)
    requires !LiveNode(s, nodeId) && Takes(s, nodeId, case_)
    ensures case_ == Rejected && Poll(s, nodeId, report, opens, now, case_) == s
  {
  }

  lemma TransactionSends(s: State, nodeId: NodeId, report: Option<NodeReport>, now: Time, case_: PollCase)
    requires StateInv(s) && Takes(s, nodeId, case_) && (case_.Redispatch? || case_.Dispatch?)
    ensures
      var t := PollTransaction(s, nodeId, report, now, case_);
      && TouchesOnly(s, t, nodeId, Some(case_.id)) && JobSent(s.jobs[case_.id], t.jobs[case_.id], now)
      && NodeReported(s.nodes[nodeId], t.nodes[nodeId], report, Some(case_.id), now)
      && t.jobs[case_.id].nodeId == nodeId && t.jobs[case_.id].payload == s.jobs[case_.id].payload
          && IsNodeJob(s.jobs[case_.id])
      && t.jobs[case_.id].status == Running
      && t.jobs[case_.id].error == s.jobs[case_.id].error && t.jobs[case_.id].finishedAt == s.jobs[case_.id].finishedAt
  {
    hide Keyed, LinksInv;
    PollActsOnPointer(s, nodeId, case_);
    hide PointersInv, Takes;
  }

  lemma FailingUndoes(s: State, sent: State, nodeId: NodeId, id: JobId, report: Option<NodeReport>, error: string, now: Time)
    requires TouchesOnly(s, sent, nodeId, Some(id)) && JobSent(s.jobs[id], sent.jobs[id], now)
        && sent.jobs[id].nodeId == nodeId
    requires NodeReported(s.nodes[nodeId], sent.nodes[nodeId], report, Some(id), now)
    requires sent.jobs[id].status == Running
    requires sent.jobs[id].error == s.jobs[id].error && sent.jobs[id].finishedAt == s.jobs[id].finishedAt
    ensures
      var t := FailDispatch(sent, id, error, now);
      && TouchesOnly(s, t, nodeId, Some(id)) && JobUnsent(s.jobs[id], t.jobs[id], now)
      && NodeReported(s.nodes[nodeId], t.nodes[nodeId], report, None, now)
  {
  }

  /** A job that is selected is sent exactly if the controller still has its records. */
  lemma SendingPollLeaves(s: State, nodeId: NodeId, report: Option<NodeReport>, opens: bool, now: Time, case_: PollCase)
    requires StateInv(s) && Takes(s, nodeId, case_) && (case_.Redispatch? || case_.Dispatch?)
    ensures
      var t := Poll(s, nodeId, report, opens, now, case_);
      && TouchesOnly(s, t, nodeId, Some(case_.id))
      && var before, after := s.jobs[case_.id], t.jobs[case_.id];
      && var sent := HasRecords(s, before, opens);
      && NodeReported(s.nodes[nodeId], t.nodes[nodeId], report, if sent then Some(case_.id) else None, now)
      && (if sent then JobSent(before, after, now) else JobUnsent(before, after, now))
  {
    assert Possible(s, nodeId, case_);
    hide WireError, HasRecords, StateInv, Takes, PollTransaction, FailDispatch, JobSent, JobUnsent, NodeReported;
    TransactionSends(s, nodeId, report, now, case_);
    var before := s.jobs[case_.id];
    var polled := PollTransaction(s, nodeId, report, now, case_);
    WireErrorIff(polled, polled.jobs[case_.id], opens);
    SameRecords(s, polled, before, polled.jobs[case_.id], opens);
    var error := WireError(polled, polled.jobs[case_.id], opens);
    if error.Some? {
      FailingUndoes(s, polled, nodeId, case_.id, report, error.value, now);
    }
  }

  /** A waiting update is observed; the node runs it as long as it waits. */
  lemma ObservingPollLeaves(s: State, nodeId: NodeId, report: Option<NodeReport>, opens: bool, now: Time, id: JobId)
    requires Takes(s, nodeId, ObserveUpdate(id))
    ensures
      var t := Poll(s, nodeId, report, opens, now, ObserveUpdate(id));
      && TouchesOnly(s, t, nodeId, Some(id)) && AwaitingUpdateConfirmation(s.jobs[id])
      && t.jobs[id] == Observe(s.jobs[id], if report.None? then None else Some(report.value.agentVersion), now)
      && NodeReported(s.nodes[nodeId], t.nodes[nodeId], report, if t.jobs[id].status == Running then Some(id) else None, now)
  {
    hide Observe;
  }

  // ----- What an issue needs -----

  /** An issue needs a name, a DNS account and an ACME account that exist, taken from its domain if it has one, and
      secrets that open. */
  lemma IssueErrorIff(s: State, job: Job, opens: bool)
    requires job.payload.IssueCertificate?
    ensures WireError(s, job, opens).None? <==>
      var p := job.payload;
      && opens
      && (if p.issueDomainId == "" then
            p.issueName != "" && p.issueDnsId in s.dnsAccounts && p.issueAcmeId in s.acmeAccounts
          else
            && p.issueDomainId in s.domains
            && var domain := s.domains[p.issueDomainId];
               domain.name != "" && domain.dnsAccountId in s.dnsAccounts && domain.acmeAccountId in s.acmeAccounts)
  {
  }
}
