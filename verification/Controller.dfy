/**
 The controller as the object the server works on: maps that the handlers and the background
 passes change step by step.  Every operation is proved to do what the function of the same
 name in Protocol says, and so to keep the invariants.
 */
module Controller {
  import opened Model
  import opened Text
  import opened Jobs
  import opened UpdateConfirmation
  import opened Protocol
  import opened Transitions
  import opened Invariants
  import opened PassOrder
  import opened Renewal
  import Loops = AdminLoops
  import AdminSteps

  /** One step of a controller that satisfies the invariants, as the handlers need it. */
  lemma Stepped(before: State, from: Time, action: Action, now: Time)
    requires Inv(System(before, from)) && from <= now && Legal(before, action)
    ensures Inv(System(Apply(before, action, now), now))
  {
    hide Inv, Legal, Apply;
    AdminSteps.InvStep(System(before, from), Event(action, now));
  }

  predicate Candidate(s: State, nodeId: NodeId, status: JobStatus, id: JobId) {
    id in s.jobs && s.jobs[id].nodeId == nodeId && IsNodeJob(s.jobs[id]) && s.jobs[id].status == status
  }

  lemma CandidatesAre(s: State, nodeId: NodeId)
    ensures forall id :: Runs(s, nodeId, id) <==> Candidate(s, nodeId, Running, id)
    ensures forall id :: QueuedFor(s, nodeId, id) <==> Candidate(s, nodeId, Queued, id)
  {
  }

  predicate Issuable(s: State, id: JobId, now: Time) {
    && id in s.jobs && !IsNodeJob(s.jobs[id])
    && (s.jobs[id].status == Running || (s.jobs[id].status == Queued && QueueTime(s.jobs[id]) <= now))
  }

  class Controller {
    var nodes: map<NodeId, Node>
    var jobs: map<JobId, Job>
    var domains: map<DomainId, Domain>
    var certificates: map<CertificateId, Certificate>
    var acmeAccounts: set<AccountId>
    var dnsAccounts: set<AccountId>
    var nextJobId: JobId
    ghost var clock: Time

    function Value(): State
      reads this
    {
      State(nodes, jobs, domains, certificates, acmeAccounts, dnsAccounts, nextJobId)
    }

    ghost predicate Valid()
      reads this
    {
      Inv(System(Value(), clock))
    }

    constructor (start: Time)
      ensures Valid() && Value() == EmptyState() && clock == start
    {
      nodes, jobs, domains, certificates := map[], map[], map[], map[];
      acmeAccounts, dnsAccounts, nextJobId := {}, {}, 0;
      clock := start;
    }

    /** The store drops the copy that a rejected transaction has worked on. */
    method Restore(snapshot: State)
      modifies this
      ensures Value() == snapshot && clock == old(clock)
    {
      nodes, jobs, domains, certificates := snapshot.nodes, snapshot.jobs, snapshot.domains, snapshot.certificates;
      acmeAccounts, dnsAccounts, nextJobId := snapshot.acmeAccounts, snapshot.dnsAccounts, snapshot.nextJobId;
    }

    // ----- Enqueueing -----

    method EnqueueJob(nodeId: NodeId, domainId: DomainId, payload: Payload, now: Time) returns (id: JobId)
      modifies this
      ensures Value() == Enqueue(old(Value()), nodeId, domainId, payload, now)
      ensures id == old(nextJobId) && clock == old(clock)
    {
      id := nextJobId;
      nextJobId := nextJobId + 1;
      jobs := jobs[id := NewJob(id, nodeId, domainId, payload, now)];
    }

    method EnqueueSyncJobs(nodeIds: seq<NodeId>, domainId: DomainId, certificateId: CertificateId, name: string, now: Time)
      modifies this
      ensures Value() == EnqueueSyncs(old(Value()), nodeIds, domainId, certificateId, name, now)
      ensures clock == old(clock)
    {
      var i := 0;
      while i < |nodeIds|
        invariant 0 <= i <= |nodeIds| && clock == old(clock)
        invariant EnqueueSyncs(Value(), nodeIds[i..], domainId, certificateId, name, now)
               == EnqueueSyncs(old(Value()), nodeIds, domainId, certificateId, name, now)
      {
        var _ := EnqueueJob(nodeIds[i], domainId, SyncCertificate(certificateId, name), now);
        assert nodeIds[i..][1..] == nodeIds[i + 1..];
        i := i + 1;
      }
    }

    method EnqueueDomainJob(domain: Domain, payload: Payload, now: Time)
      modifies this
      ensures Value() == EnqueueForDomain(old(Value()), domain, payload, now)
      ensures clock == old(clock)
    {
      var id := EnqueueJob(domain.nodeId, domain.id, payload, now);
      domains := domains[domain.id := domain.(lastJobId := Some(id))];
    }

    // ----- Update confirmation -----

    method FinishUpdateConfirmation(node: Node, job: Job, success: bool, now: Time) returns (released: Node)
      modifies this`jobs
      ensures jobs == old(jobs)[job.id := Finish(job, success, now)]
      ensures released == if node.runningJobId == Some(job.id) then node.(runningJobId := None) else node
    {
      released := node;
      var finished := job.(finishedAt := Some(now));
      if released.runningJobId == Some(job.id) {
        released := released.(runningJobId := None);
      }
      if success {
        finished := finished.(status := Succeeded, error := "");
      } else {
        finished := finished.(status := Failed, error := "update activation was not confirmed before timeout");
      }
      jobs := jobs[job.id := finished];
    }

    method ObserveUpdate(node: Node, job: Job, report: Option<NodeReport>, now: Time) returns (observed: Node)
      requires AwaitingUpdateConfirmation(job) && job.id in jobs && jobs[job.id] == job
      modifies this`jobs
      ensures
        var after := Observe(job, if report.None? then None else Some(report.value.agentVersion), now);
        && jobs == old(jobs)[job.id := after]
        && observed == node.(runningJobId := if after.status == Running then Some(job.id) else None)
    {
      observed := node.(runningJobId := Some(job.id));
      if now - job.updateAcceptedAt.value >= CONFIRMATION_TIMEOUT {
        observed := FinishUpdateConfirmation(observed, job, false, now);
        return;
      }
      if report.None? {
        assert jobs == jobs[job.id := job];
        return;
      }
      var current := job;
      var expected := TrimPrefix(TrimSpace(job.payload.expectedVersion), "v");
      var actual := TrimPrefix(TrimSpace(report.value.agentVersion), "v");
      if expected == "" || actual != expected {
        current := current.(updateVersionSeenAt := None);
      } else {
        if current.updateVersionSeenAt.None? || current.updateLastReportAt.None?
           || now - current.updateLastReportAt.value > MAX_REPORT_GAP
        {
          current := current.(updateVersionSeenAt := Some(now));
        }
        if now - current.updateAcceptedAt.value >= OBSERVATION_DELAY
           && now - current.updateVersionSeenAt.value >= STABLE_DURATION
        {
          observed := FinishUpdateConfirmation(observed, current, true, now);
          return;
        }
      }
      current := current.(updateLastReportAt := Some(now));
      jobs := jobs[job.id := current];
    }

    // ----- Poll -----

    method FindWaiting(nodeId: NodeId) returns (found: Option<JobId>)
      ensures found.Some? ==> Waits(Value(), nodeId, found.value)
      ensures found.None? ==> forall id :: !Waits(Value(), nodeId, id)
    {
      var todo := jobs.Keys;
      while todo != {}
        invariant todo <= jobs.Keys
        invariant forall id | id in jobs && id !in todo :: !Waits(Value(), nodeId, id)
      {
        var id :| id in todo;
        if jobs[id].nodeId == nodeId && AwaitingUpdateConfirmation(jobs[id]) {
          return Some(id);
        }
        todo := todo - {id};
      }
      return None;
    }

    /** Collects the node's jobs with the given status and picks the one created first. */
    method OldestJob(nodeId: NodeId, status: JobStatus) returns (oldest: Option<JobId>)
      ensures oldest.Some? ==>
        && Candidate(Value(), nodeId, status, oldest.value)
        && forall id | Candidate(Value(), nodeId, status, id) :: jobs[oldest.value].createdAt <= jobs[id].createdAt
      ensures oldest.None? ==> forall id :: !Candidate(Value(), nodeId, status, id)
    {
      oldest := None;
      var todo := jobs.Keys;
      while todo != {}
        invariant todo <= jobs.Keys
        invariant oldest.Some? ==>
          && Candidate(Value(), nodeId, status, oldest.value)
          && forall id | Candidate(Value(), nodeId, status, id) && id !in todo ::
               jobs[oldest.value].createdAt <= jobs[id].createdAt
        invariant oldest.None? ==> forall id | id !in todo :: !Candidate(Value(), nodeId, status, id)
      {
        var id :| id in todo;
        todo := todo - {id};
        if jobs[id].nodeId == nodeId && IsNodeJob(jobs[id]) && jobs[id].status == status {
          if oldest.None? || jobs[id].createdAt < jobs[oldest.value].createdAt {
            oldest := Some(id);
          }
        }
      }
    }

    method SendAgain(id: JobId, now: Time)
      requires id in jobs && jobs[id].id == id
      modifies this`jobs
      ensures jobs == old(jobs)[id := Redispatched(old(jobs)[id], now)]
    {
      var job := jobs[id];
      if job.attempts < job.maxAttempts {
        job := job.(attempts := job.attempts + 1);
      }
      if job.startedAt.None? {
        job := job.(startedAt := Some(now));
      }
      jobs := jobs[job.id := job];
    }

    /** The transaction of a poll; `case_` says which branch it took. */
    method PollOnce(nodeId: NodeId, report: Option<NodeReport>, now: Time) returns (selected: Option<JobId>, ghost case_: PollCase)
      requires Keyed(Value())
      modifies this
      ensures Takes(old(Value()), nodeId, case_) && Possible(old(Value()), nodeId, case_)
      ensures Value() == PollTransaction(old(Value()), nodeId, report, now, case_)
      ensures selected == Selected(case_) && clock == old(clock)
    {
      hide Observe, Redispatched;
      ghost var before := Value();
      selected := None;
      if nodeId !in nodes || nodes[nodeId].status == Revoked {
        case_ := Rejected;
        return;
      }
      var node := nodes[nodeId].(status := Online, lastSeenAt := Some(now));
      if report.Some? {
        node := node.(agentVersion := Truncate(report.value.agentVersion, 64), nginxHealthy := report.value.nginxHealthy);
      }
      var waiting := FindWaiting(nodeId);
      if waiting.Some? {
        node := ObserveUpdate(node, jobs[waiting.value], report, now);
        nodes := nodes[nodeId := node];
        case_ := PollCase.ObserveUpdate(waiting.value);
        return;
      }
      assert Value() == before;
      selected, case_ := SelectJob(nodeId, node, now);
    }

    /** No update of the node waits: the job it points at again, or the one Pick finds. */
    method SelectJob(nodeId: NodeId, reported: Node, now: Time) returns (selected: Option<JobId>, ghost case_: PollCase)
      requires Keyed(Value()) && LiveNode(Value(), nodeId) && reported.runningJobId == nodes[nodeId].runningJobId
      requires forall id :: !Waits(Value(), nodeId, id)
      modifies this`nodes, this`jobs
      ensures Takes(old(Value()), nodeId, case_)
      ensures !case_.Rejected? && !case_.ObserveUpdate? && selected == Selected(case_)
      ensures nodes == old(nodes)[nodeId := reported.(runningJobId := selected)]
      ensures
        match case_
        case Redispatch(id) => id in old(jobs) && jobs == old(jobs)[id := Redispatched(old(jobs)[id], now)]
        case Dispatch(id) => id in old(jobs) && jobs == old(jobs)[id := Dispatched(old(jobs)[id], now)]
        case _ => jobs == old(jobs)
    {
      hide Redispatched, AwaitingUpdateConfirmation;
      ghost var before := Value();
      var node := reported;
      if node.runningJobId.Some? {
        var id := node.runningJobId.value;
        if id in jobs && jobs[id].status == Running && IsNodeJob(jobs[id]) {
          assert PointsAtRunningJob(before, before.nodes[nodeId]);
          SendAgain(id, now);
          selected, case_ := Some(id), Redispatch(id);
          nodes := nodes[nodeId := node];
          assert node == node.(runningJobId := selected);
          return;
        }
        node := node.(runningJobId := None);
      }
      assert !PointsAtRunningJob(before, before.nodes[nodeId]);
      selected, case_ := Pick(nodeId, node, now);
    }

    /** The node has no valid pointer: an orphaned running job, else the next job in the queue. */
    method Pick(nodeId: NodeId, node: Node, now: Time) returns (selected: Option<JobId>, ghost case_: PollCase)
      requires Keyed(Value()) && nodeId in nodes && node.runningJobId.None?
      modifies this`nodes, this`jobs
      ensures case_.Redispatch? || case_.Dispatch? || case_.NothingToDo?
      ensures case_.Redispatch? ==>
        && Runs(old(Value()), nodeId, case_.id)
        && (forall id | Runs(old(Value()), nodeId, id) :: old(jobs)[case_.id].createdAt <= old(jobs)[id].createdAt)
        && jobs == old(jobs)[case_.id := Redispatched(old(jobs)[case_.id], now)]
      ensures !case_.Redispatch? ==> forall id :: !Runs(old(Value()), nodeId, id)
      ensures case_.Dispatch? ==>
        && QueuedFor(old(Value()), nodeId, case_.id)
        && (forall id | QueuedFor(old(Value()), nodeId, id) :: old(jobs)[case_.id].createdAt <= old(jobs)[id].createdAt)
        && jobs == old(jobs)[case_.id := Dispatched(old(jobs)[case_.id], now)]
      ensures case_.NothingToDo? ==> (forall id :: !QueuedFor(old(Value()), nodeId, id)) && jobs == old(jobs)
      ensures selected == Selected(case_) && nodes == old(nodes)[nodeId := node.(runningJobId := selected)]
    {
      hide Redispatched;
      ghost var before := Value();
      var picked := node;
      var orphan := OldestJob(nodeId, Running);
      assert Value() == before;
      CandidatesAre(before, nodeId);
      if orphan.Some? {
        SendAgain(orphan.value, now);
        picked := picked.(runningJobId := orphan);
        selected, case_ := orphan, Redispatch(orphan.value);
      } else {
        var next := OldestJob(nodeId, Queued);
        assert Value() == before;
        if next.Some? {
          var job := jobs[next.value];
          job := job.(status := Running, attempts := job.attempts + 1, startedAt := Some(now));
          jobs := jobs[job.id := job];
          picked := picked.(runningJobId := next);
          selected, case_ := next, Dispatch(next.value);
        } else {
          selected, case_ := None, NothingToDo;
        }
      }
      nodes := nodes[nodeId := picked];
    }

    method FailUnsent(id: JobId, error: string, now: Time)
      requires Keyed(Value()) && id in jobs
      modifies this`nodes, this`jobs
      ensures Value() == FailDispatch(old(Value()), id, error, now)
    {
      var current := jobs[id].(status := Failed, error := Truncate(error, 2048), finishedAt := Some(now));
      jobs := jobs[current.id := current];
      if current.nodeId in nodes {
        var node := nodes[current.nodeId].(runningJobId := None);
        nodes := nodes[node.id := node];
      }
    }

    /** handleAgentPoll. */
    method HandlePoll(nodeId: NodeId, report: Option<NodeReport>, opens: bool, now: Time) returns (ghost case_: PollCase)
      requires Valid() && clock <= now
      modifies this
      ensures Takes(old(Value()), nodeId, case_)
      ensures Value() == Apply(old(Value()), PollNode(nodeId, report, opens, case_), now)
      ensures Valid() && clock == now
    {
      hide Inv, Takes, WireError, PollTransaction, FailDispatch;
      ghost var before := Value();
      assert Keyed(before) by { InvIsKeyed(System(before, clock)); }
      var selected;
      selected, case_ := PollOnce(nodeId, report, now);
      Stepped(before, clock, PollNode(nodeId, report, opens, case_), now);
      if selected.Some? {
        PolledJobs(before, nodeId, report, now, case_);
        var error := WireError(Value(), jobs[selected.value], opens);
        if error.Some? {
          FailUnsent(selected.value, error.value, now);
        }
      }
      clock := now;
    }

    // ----- Job results -----

    /** completeSuccessfulJob; after `false` the transaction is rejected. */
    method CompleteSuccessfulJob(job: Job, prepared: Option<Certificate>, now: Time) returns (ok: bool)
      requires Keyed(Value())
      modifies this
      ensures ok <==> Complete(old(Value()), job, prepared, now).Some?
      ensures ok ==> Value() == Complete(old(Value()), job, prepared, now).value
      ensures clock == old(clock)
    {
      if prepared.Some? {
        certificates := certificates[prepared.value.id := prepared.value];
      }
      match job.payload {
        case IssueCertificate(_, _, _, _, _, install, syncNodeIds) =>
          if prepared.None? { return false; }
          if job.domainId != "" {
            if job.domainId !in domains { return false; }
            EnqueueDomainJob(domains[job.domainId].(certificateId := prepared.value.id),
                             ApplyDomain(domains[job.domainId].id, prepared.value.id, None), now);
          } else {
            var targets := if install then AppendUnique(syncNodeIds, job.nodeId) else syncNodeIds;
            EnqueueSyncJobs(targets, "", prepared.value.id, prepared.value.domain, now);
          }
        case CaptureCertificate(_, _, syncNodeIds) =>
          if prepared.None? { return false; }
          if job.domainId != "" {
            if job.domainId !in domains { return false; }
            domains := domains[job.domainId := domains[job.domainId].(certificateId := prepared.value.id)];
          }
          EnqueueSyncJobs(syncNodeIds, "", prepared.value.id, prepared.value.domain, now);
        case ApplyDomain(_, _, _) =>
          if job.domainId !in domains { return false; }
          CompleteApplyJob(job, prepared, now);
        case SyncCertificate(certificateId, _) =>
          MarkDeployed(certificateId, job.nodeId);
        case DeleteDomain =>
          domains := domains - {job.domainId};
        case _ =>
      }
      ok := true;
    }

    method MarkDeployed(certificateId: CertificateId, nodeId: NodeId)
      modifies this`certificates
      ensures Value() == Deployed(old(Value()), certificateId, nodeId)
    {
      if certificateId in certificates {
        AddDeployment(certificates[certificateId], nodeId);
      }
    }

    method AddDeployment(certificate: Certificate, nodeId: NodeId)
      modifies this`certificates
      ensures Value() == Installed(old(Value()), certificate, nodeId)
    {
      var deployed := certificate.(deployedNodeIds := AppendUnique(certificate.deployedNodeIds, nodeId));
      certificates := certificates[deployed.id := deployed];
    }

    /** As in Go a certificate that is gone reads as the zero value, and is written back under the empty id. */
    method CompleteApplyJob(job: Job, prepared: Option<Certificate>, now: Time)
      requires job.payload.ApplyDomain? && job.domainId in domains && domains[job.domainId].id == job.domainId
      modifies this
      ensures Some(Value()) == CompleteApply(old(Value()), job, prepared, now) && clock == old(clock)
    {
      hide Installed, EnqueueSyncs, CertificateOrZero, AppliedDomain;
      var domain := DeployedDomain(domains[job.domainId], job, prepared);
      domains := domains[job.domainId := domain];
      if domain.certificateId != "" {
        AddDeployment(CertificateOrZero(Value(), domain.certificateId), domain.nodeId);
        EnqueueSyncJobs(domain.syncNodeIds, domain.id, domain.certificateId, domain.name, now);
      }
    }

    method DeployedDomain(before: Domain, job: Job, prepared: Option<Certificate>) returns (domain: Domain)
      requires job.payload.ApplyDomain?
      ensures domain == AppliedDomain(before, job, prepared)
    {
      domain := before;
      if prepared.Some? {
        domain := domain.(certificateId := prepared.value.id);
      }
      if job.payload.customConfig.Some? {
        domain := domain.(customConfig := job.payload.customConfig.value);
      }
      domain := domain.(enabled := true, deleting := false);
    }

    method RestoreFailedDomainDeletion(job: Job)
      modifies this`domains
      ensures domains == RestoreFailedDeletion(old(domains), job)
    {
      if !job.payload.DeleteDomain? || job.domainId !in domains {
        return;
      }
      var domain := domains[job.domainId];
      domain := domain.(deleting := false, enabled := domain.nodeId != "");
      domains := domains[job.domainId := domain];
    }

    /** A failed attempt goes back into the queue while attempts are left and the error may pass. */
    method FailAttempt(id: JobId, nodeId: NodeId, error: string, now: Time)
      requires Keyed(Value()) && nodeId in nodes && id in jobs
      modifies this`nodes, this`jobs, this`domains
      ensures
        var failed := AfterFailedResult(old(jobs)[id], error, now);
        && jobs == old(jobs)[id := failed]
        && nodes == old(nodes)[nodeId := old(nodes)[nodeId].(lastSeenAt := Some(now), runningJobId := None)]
        && domains == if failed.status == Failed then RestoreFailedDeletion(old(domains), failed) else old(domains)
    {
      var current := jobs[id].(error := Truncate(error, 2048));
      var nonRetryable := NonRetryableUpdateError(current);
      if current.attempts < current.maxAttempts && !nonRetryable {
        current := current.(status := Queued, queuedAt := Some(now), startedAt := None);
      } else {
        current := current.(status := Failed, finishedAt := Some(now));
        RestoreFailedDomainDeletion(current);
      }
      jobs := jobs[current.id := current];
      nodes := nodes[nodeId := nodes[nodeId].(runningJobId := None, lastSeenAt := Some(now))];
    }

    /** The transaction of a job result. */
    method RecordResult(id: JobId, nodeId: NodeId, result: JobResult, now: Time) returns (ok: bool)
      requires Keyed(Value())
      modifies this
      ensures ok <==> Result(old(Value()), id, nodeId, result, now).Some?
      ensures Value() == Else(old(Value()), Result(old(Value()), id, nodeId, result, now)) && clock == old(clock)
    {
      hide AfterFailedResult, RestoreFailedDeletion, Complete;
      var snapshot := Value();
      if nodeId !in nodes || id !in jobs || jobs[id].nodeId != nodeId || !IsRunningNodeJob(jobs[id]) {
        return false;
      }
      var current := jobs[id];
      var node := nodes[nodeId];
      if AwaitingUpdateConfirmation(current) {
        return true;
      }
      if result.success && current.payload.UpdateAtlas? {
        if TrimSpace(current.payload.expectedVersion) == "" {
          return false;
        }
        current := current.(updateAcceptedAt := Some(now), error := "");
        node := node.(runningJobId := Some(current.id), lastSeenAt := Some(now));
        jobs := jobs[current.id := current];
        nodes := nodes[nodeId := node];
        return true;
      }
      if !result.success {
        FailAttempt(id, nodeId, result.error, now);
        return true;
      }
      node := node.(runningJobId := None, lastSeenAt := Some(now));
      current := current.(status := Succeeded, error := "", finishedAt := Some(now));
      ok := CompleteSuccessfulJob(current, result.prepared, now);
      if !ok {
        Restore(snapshot);
        return;
      }
      jobs := jobs[current.id := current];
      nodes := nodes[nodeId := node];
    }

    /** handleAgentJobResult. */
    method HandleResult(id: JobId, nodeId: NodeId, result: JobResult, now: Time) returns (ok: bool)
      requires Valid() && clock <= now
      modifies this
      ensures ok <==> Result(old(Value()), id, nodeId, result, now).Some?
      ensures Value() == Apply(old(Value()), ReportResult(id, nodeId, result), now)
      ensures Valid() && clock == now
    {
      hide Inv, Result;
      InvIsKeyed(System(Value(), clock));
      Stepped(Value(), clock, ReportResult(id, nodeId, result), now);
      ok := RecordResult(id, nodeId, result, now);
      clock := now;
    }

    // ----- Maintenance -----

    method MarkNodesOffline(config: Config, now: Time)
      modifies this`nodes
      ensures Value() == MarkOffline(old(Value()), config, now)
    {
      ghost var before := nodes;
      var todo := nodes.Keys;
      while todo != {}
        invariant todo <= nodes.Keys == before.Keys
        invariant forall n | n in nodes :: nodes[n] == if n in todo then before[n] else OfflineNode(before[n], config, now)
      {
        var id :| id in todo;
        todo := todo - {id};
        var node := nodes[id];
        if node.status == Revoked {
          continue;
        }
        if node.lastSeenAt.None? || now - node.lastSeenAt.value > config.offlineAfter {
          nodes := nodes[id := node.(status := Offline)];
        }
      }
    }

    method BusyNodes() returns (busy: set<NodeId>)
      ensures forall n :: n in busy <==> RunningOn(Value(), n)
    {
      busy := {};
      var todo := jobs.Keys;
      while todo != {}
        invariant todo <= jobs.Keys
        invariant forall n :: n in busy <==> exists id | id in jobs && id !in todo :: Runs(Value(), n, id)
      {
        var id :| id in todo;
        if jobs[id].status == Running && IsNodeJob(jobs[id]) {
          busy := busy + {jobs[id].nodeId};
          assert Runs(Value(), jobs[id].nodeId, id);
        }
        todo := todo - {id};
      }
    }

    /** One turn of the job loop: deadlines of waiting updates, queue expiry and running timeouts. */
    method VisitJob(id: JobId, busy: set<NodeId>, ghost s: State, now: Time)
      requires Keyed(s) && Keyed(Value()) && id in s.jobs && id in jobs && jobs[id] == s.jobs[id]
      requires forall n :: LiveNode(Value(), n) <==> LiveNode(s, n)
      requires forall n :: n in busy <==> RunningOn(s, n)
      modifies this`nodes, this`jobs, this`domains
      ensures Value() == Turn(s, old(Value()), id, now)
    {
      hide Keyed, RunningOn, LiveNode, Turn;
      var job := jobs[id];
      assert job.id == id by { KeyedJob(s, id); }
      if job.payload.IssueCertificate? {
        NoTurn(s, Value(), id, now);
        return;
      }
      if AwaitingUpdateConfirmation(job) {
        VisitWaiting(job, s, now);
        return;
      }
      if job.status == Queued {
        VisitQueued(job, busy, s, now);
        return;
      }
      if job.status != Running || job.startedAt.None? || now - job.startedAt.value <= TimeoutForJob(job.payload) {
        NoTurn(s, Value(), id, now);
        return;
      }
      TimeOutJob(job, now);
      OverdueTurn(s, old(Value()), id, now);
    }

    method VisitWaiting(job: Job, ghost s: State, now: Time)
      requires AwaitingUpdateConfirmation(job) && job.id in s.jobs && job == s.jobs[job.id]
      requires job.id in jobs && jobs[job.id] == job
      modifies this`nodes, this`jobs
      ensures Value() == Turn(s, old(Value()), job.id, now)
    {
      if now - job.updateAcceptedAt.value >= CONFIRMATION_TIMEOUT {
        if job.nodeId in nodes {
          var node := FinishUpdateConfirmation(nodes[job.nodeId], job, false, now);
          nodes := nodes[job.nodeId := node];
        } else {
          jobs := jobs[job.id := Finish(job, false, now)];
        }
      }
    }

    method VisitQueued(job: Job, busy: set<NodeId>, ghost s: State, now: Time)
      requires IsNodeJob(job) && job.status == Queued && job.id in s.jobs && job == s.jobs[job.id]
      requires job.id in jobs && jobs[job.id] == job
      requires forall n :: LiveNode(Value(), n) <==> LiveNode(s, n)
      requires forall n :: n in busy <==> RunningOn(s, n)
      modifies this`jobs, this`domains
      ensures Value() == Turn(s, old(Value()), job.id, now)
    {
      hide RunningOn;
      if now - QueueTime(job) > QUEUED_JOB_TIMEOUT {
        if job.nodeId !in nodes || nodes[job.nodeId].status == Revoked || job.nodeId !in busy {
          ExpireJob(job, now);
        }
      }
    }

    /** A queued job that its node did not fetch in time. */
    method ExpireJob(overdue: Job, now: Time)
      modifies this`jobs, this`domains
      ensures jobs == old(jobs)[overdue.id := overdue.(status := Failed, finishedAt := Some(now),
                                                       error := "node did not pick up the queued task before the timeout")]
      ensures domains == RestoreFailedDeletion(old(domains), overdue)
    {
      var job := overdue.(status := Failed, error := "node did not pick up the queued task before the timeout",
                          finishedAt := Some(now));
      RestoreFailedDomainDeletion(job);
      jobs := jobs[job.id := job];
    }

    /** A running job whose result is overdue: its node is released, and it is queued again or failed. */
    method TimeOutJob(overdue: Job, now: Time)
      modifies this`nodes, this`jobs, this`domains
      ensures
        var again := overdue.attempts < overdue.maxAttempts;
        var next := if again
                    then overdue.(status := Queued, queuedAt := Some(now), startedAt := None,
                                  error := "agent did not report a result before the timeout")
                    else overdue.(status := Failed, finishedAt := Some(now),
                                  error := "agent did not report a result before the timeout");
        && jobs == old(jobs)[overdue.id := next]
        && nodes == (if overdue.nodeId in old(nodes) && old(nodes)[overdue.nodeId].runningJobId == Some(overdue.id)
                     then old(nodes)[overdue.nodeId := old(nodes)[overdue.nodeId].(runningJobId := None)] else old(nodes))
        && domains == if again then old(domains) else RestoreFailedDeletion(old(domains), overdue)
    {
      var job := overdue;
      if job.nodeId in nodes && nodes[job.nodeId].runningJobId == Some(job.id) {
        nodes := nodes[job.nodeId := nodes[job.nodeId].(runningJobId := None)];
      }
      if job.attempts < job.maxAttempts {
        job := job.(status := Queued, queuedAt := Some(now), startedAt := None,
                    error := "agent did not report a result before the timeout");
      } else {
        job := job.(status := Failed, error := "agent did not report a result before the timeout", finishedAt := Some(now));
        RestoreFailedDomainDeletion(job);
      }
      jobs := jobs[job.id := job];
    }

    /** The job loop, in whatever order the map hands out its keys. */
    method VisitJobs(now: Time)
      requires Keyed(Value())
      modifies this`nodes, this`jobs, this`domains
      ensures Value() == MaintainJobs(old(Value()), now)
    {
      hide Keyed, PassDone, MaintainJobs, Turn, RunningOn, LiveNode;
      ghost var s := Value();
      var busy := BusyNodes();
      var todo := jobs.Keys;
      ghost var done: set<JobId> := {};
      PassStart(s, now);
      while todo != {}
        invariant todo + done == s.jobs.Keys && todo !! done
        invariant Value() == PassDone(s, done, now)
      {
        var id :| id in todo;
        PassDoneKeeps(s, done, now);
        VisitJob(id, busy, s, now);
        TurnAdvances(s, done, id, now);
        todo, done := todo - {id}, done + {id};
      }
      assert done == s.jobs.Keys;
      PassEnd(s, now);
    }

    method AnyActiveNodeJob(nodeId: NodeId) returns (active: bool)
      ensures active <==> HasAnyActiveNodeJob(Value(), nodeId)
    {
      var todo := jobs.Keys;
      while todo != {}
        invariant todo <= jobs.Keys
        invariant forall id | id in jobs && id !in todo :: !(jobs[id].nodeId == nodeId && IsActive(jobs[id]))
      {
        var id :| id in todo;
        if jobs[id].nodeId == nodeId && (jobs[id].status == Queued || jobs[id].status == Running) {
          return true;
        }
        todo := todo - {id};
      }
      return false;
    }

    method LatestCertificate(certificate: Certificate) returns (latest: bool)
      ensures latest <==> IsLatestCertificateForDomain(Value(), certificate)
    {
      var todo := certificates.Keys;
      while todo != {}
        invariant todo <= certificates.Keys
        invariant forall c | c in certificates && c !in todo ::
          certificates[c].id != certificate.id && certificates[c].domain == certificate.domain ==>
            certificates[c].createdAt <= certificate.createdAt
      {
        var c :| c in todo;
        var candidate := certificates[c];
        if candidate.id != certificate.id && candidate.domain == certificate.domain
           && candidate.createdAt > certificate.createdAt
        {
          return false;
        }
        todo := todo - {c};
      }
      return true;
    }

    method CanRecover(failed: Job, config: Config, now: Time) returns (can: bool)
      ensures can <==> Recoverable(Value(), failed, config, now)
    {
      hide HasAnyActiveNodeJob, IsLatestCertificateForDomain;
      if !failed.payload.SyncCertificate? || failed.status != Failed || failed.retryOfId.Some? || failed.retryJobId.Some?
         || TrimSpace(failed.error) != "invalid certificate domain: invalid domain"
         || !HasPrefix(failed.payload.syncName, "*.") || failed.nodeId !in nodes
      {
        return false;
      }
      var node := nodes[failed.nodeId];
      var busy := AnyActiveNodeJob(node.id);
      if node.status != Online || !node.nginxHealthy || busy || !config.supportsWildcardSync(node.agentVersion) {
        return false;
      }
      if failed.payload.syncCertificateId !in certificates {
        return false;
      }
      var certificate := certificates[failed.payload.syncCertificateId];
      var latest := LatestCertificate(certificate);
      return certificate.domain == failed.payload.syncName && failed.payload.syncName in certificate.dnsNames
             && certificate.notAfter > now && node.id !in certificate.deployedNodeIds && latest;
    }

    method RecoverOne(id: JobId, config: Config, now: Time)
      requires Keyed(Value()) && id in jobs
      modifies this`jobs, this`nextJobId
      ensures Value() == RecoverJob(old(Value()), id, config, now)
      ensures Visited(old(jobs), jobs, id) && Keyed(Value())
    {
      hide Recoverable;
      var failed := jobs[id];
      var can := CanRecover(failed, config, now);
      if !can {
        return;
      }
      NotRecoverableUnless(Value(), failed, config, now);
      var certificate := certificates[failed.payload.syncCertificateId];
      var payload := SyncCertificate(certificate.id, certificate.domain);
      var retry := NewJob(nextJobId, failed.nodeId, failed.domainId, payload, now).(retryOfId := Some(failed.id));
      nextJobId := nextJobId + 1;
      jobs := jobs[failed.id := failed.(retryJobId := Some(retry.id))];
      jobs := jobs[retry.id := retry];
    }

    /** requeueRecoverableWildcardSyncs.  As in Go the loop may or may not come across the jobs it adds. */
    method RecoverWildcardSyncs(config: Config, now: Time) returns (ghost order: seq<JobId>)
      requires Keyed(Value())
      modifies this`jobs, this`nextJobId
      ensures Value() == Recover(old(Value()), order, config, now)
      ensures Keyed(Value()) && forall id | id in old(jobs) :: id in order
    {
      hide Keyed, Recover, RecoverJob, Visiting, Visited;
      order := [];
      RecoverAppend(Value(), [], 0, config, now);
      var todo, visited := jobs.Keys, {};
      VisitingStarts(jobs);
      while todo != {}
        invariant Keyed(Value()) && Visiting(old(jobs), jobs, todo, visited, order)
        invariant Value() == Recover(old(Value()), order, config, now)
        decreases |todo|, |jobs.Keys - visited|
      {
        VisitingGoesOn(old(jobs), jobs, todo, visited, order);
        var id :| id in jobs && id !in visited;
        ghost var before := jobs;
        RecoverAppend(old(Value()), order, id, config, now);
        RecoverOne(id, config, now);
        VisitingAdvances(old(jobs), before, jobs, todo, visited, order, id);
        order := order + [id];
        todo, visited := todo - {id}, visited + {id};
      }
      VisitingEnds(old(jobs), jobs, visited, order);
    }

    method ActiveJob(domainId: DomainId) returns (active: bool)
      ensures active <==> HasActiveJob(Value(), domainId)
    {
      var todo := jobs.Keys;
      while todo != {}
        invariant todo <= jobs.Keys
        invariant forall id | id in jobs && id !in todo ::
          !(jobs[id].domainId == domainId && jobs[id].payload.IssueCertificate? && IsActive(jobs[id]))
      {
        var id :| id in todo;
        if jobs[id].domainId == domainId && jobs[id].payload.IssueCertificate? && IsActive(jobs[id]) {
          return true;
        }
        todo := todo - {id};
      }
      return false;
    }

    method ActiveCertificateJob(certificateId: CertificateId) returns (active: bool)
      ensures active <==> HasActiveCertificateJob(Value(), certificateId)
    {
      var todo := jobs.Keys;
      while todo != {}
        invariant todo <= jobs.Keys
        invariant forall id | id in jobs && id !in todo ::
          !(jobs[id].payload.IssueCertificate? && IsActive(jobs[id]) && jobs[id].payload.issueCertificateId == certificateId)
      {
        var id :| id in todo;
        if jobs[id].payload.IssueCertificate? && IsActive(jobs[id]) && jobs[id].payload.issueCertificateId == certificateId {
          return true;
        }
        todo := todo - {id};
      }
      return false;
    }

    method ScheduleDomain(id: DomainId, now: Time)
      requires Keyed(Value()) && id in domains
      modifies this
      ensures Value() == RenewDomain(old(Value()), id, now) && clock == old(clock)
      ensures domains.Keys == old(domains).Keys
    {
      hide HasActiveJob;
      var domain := domains[id];
      if !domain.autoRenew || domain.acmeAccountId == "" || domain.dnsAccountId == "" {
        return;
      }
      if domain.nodeId !in nodes || nodes[domain.nodeId].status == Revoked {
        return;
      }
      if domain.acmeAccountId !in acmeAccounts || domain.dnsAccountId !in dnsAccounts {
        return;
      }
      if domain.certificateId in certificates
         && certificates[domain.certificateId].notAfter - now > NormalizeRenewBeforeDays(domain.renewBeforeDays) * DAY
      {
        return;
      }
      var active := ActiveJob(domain.id);
      if active {
        return;
      }
      EnqueueDomainJob(domain, IssueCertificate(id, "", "", "", "", false, []), now);
    }

    method ScheduleDomains(now: Time) returns (ghost order: seq<DomainId>)
      requires Keyed(Value())
      modifies this
      ensures Value() == RenewDomains(old(Value()), order, now) && clock == old(clock)
      ensures Keyed(Value()) && certificates == old(certificates) && forall d | d in old(domains) :: d in order
    {
      hide Keyed, RenewDomain;
      order := [];
      var todo := domains.Keys;
      while todo != {}
        invariant todo <= domains.Keys && Keyed(Value()) && clock == old(clock)
        invariant certificates == old(certificates) && forall d | d in old(domains) :: d in todo || d in order
        invariant Value() == RenewDomains(old(Value()), order, now)
      {
        var id :| id in todo;
        RenewDomainSchedules(Value(), id, now);
        ScheduleDomain(id, now);
        assert (order + [id])[..|order|] == order;
        order := order + [id];
        todo := todo - {id};
      }
    }

    method LinkedRenewals() returns (linked: set<CertificateId>)
      ensures forall c :: c in linked <==> Linked(Value(), c)
    {
      linked := {};
      var todo := domains.Keys;
      while todo != {}
        invariant todo <= domains.Keys
        invariant forall c :: c in linked <==>
          c != "" && exists d | d in domains && d !in todo :: domains[d].autoRenew && domains[d].certificateId == c
      {
        var d :| d in todo;
        if domains[d].autoRenew && domains[d].certificateId != "" {
          linked := linked + {domains[d].certificateId};
        }
        todo := todo - {d};
      }
    }

    method WithoutString(values: seq<string>, target: string) returns (rest: seq<string>)
      ensures rest == Without(values, target)
    {
      rest := [];
      var i := 0;
      while i < |values|
        invariant 0 <= i <= |values|
        invariant rest + Without(values[i..], target) == Without(values, target)
      {
        assert values[i..][1..] == values[i + 1..];
        if values[i] != target {
          rest := rest + [values[i]];
        }
        i := i + 1;
      }
    }

    method ScheduleCertificate(id: CertificateId, linked: set<CertificateId>, now: Time)
      requires Keyed(Value()) && id in certificates && (forall c :: c in linked <==> Linked(Value(), c))
      modifies this
      ensures Value() == RenewCertificate(old(Value()), id, now) && clock == old(clock)
    {
      hide Linked, HasActiveCertificateJob;
      var certificate := certificates[id];
      if !certificate.autoRenew || id in linked || certificate.acmeAccountId == "" || certificate.dnsAccountId == ""
         || certificate.issuerNodeId == ""
      {
        return;
      }
      var active := ActiveCertificateJob(certificate.id);
      if certificate.notAfter - now > NormalizeRenewBeforeDays(certificate.renewBeforeDays) * DAY || active {
        return;
      }
      if certificate.issuerNodeId !in nodes || nodes[certificate.issuerNodeId].status == Revoked {
        return;
      }
      if certificate.acmeAccountId !in acmeAccounts || certificate.dnsAccountId !in dnsAccounts {
        return;
      }
      var syncNodeIds := WithoutString(certificate.deployedNodeIds, certificate.issuerNodeId);
      var payload := IssueCertificate("", certificate.domain, certificate.id, certificate.acmeAccountId,
                                      certificate.dnsAccountId, true, syncNodeIds);
      var _ := EnqueueJob(certificate.issuerNodeId, "", payload, now);
    }

    method ScheduleCertificates(now: Time) returns (ghost order: seq<CertificateId>)
      requires Keyed(Value())
      modifies this
      ensures Value() == RenewCertificates(old(Value()), order, now) && clock == old(clock)
      ensures forall c | c in old(certificates) :: c in order
    {
      hide Keyed, RenewCertificate;
      order := [];
      var linked := LinkedRenewals();
      var todo := certificates.Keys;
      while todo != {}
        invariant todo <= certificates.Keys && Keyed(Value()) && clock == old(clock)
        invariant domains == old(domains) && (forall c :: c in linked <==> Linked(Value(), c))
        invariant certificates == old(certificates) && forall c | c in old(certificates) :: c in todo || c in order
        invariant Value() == RenewCertificates(old(Value()), order, now)
      {
        var id :| id in todo;
        RenewCertificateSchedules(Value(), id, now);
        LinkedByDomains(Value(), RenewCertificate(Value(), id, now));
        ScheduleCertificate(id, linked, now);
        assert (order + [id])[..|order|] == order;
        order := order + [id];
        todo := todo - {id};
      }
    }

    /** runMaintenance; afterwards everything that is due has an active issue job. */
    method RunMaintenancePass(config: Config, now: Time) returns (ghost orders: Orders)
      requires Valid() && clock <= now
      modifies this
      ensures Value() == Apply(old(Value()), RunMaintenance(config, orders), now)
      ensures Valid() && clock == now
      ensures Renewed(Value(), now)
    {
      hide Inv, Keyed, MarkOffline, MaintainJobs, Recover, RenewDomains, RenewCertificates, Renewed;
      ghost var before := Value();
      InvIsKeyed(System(before, clock));
      MarkNodesOffline(config, now);
      MarkedKeeps(before, config, now);
      VisitJobs(now);
      PassKeepsKeys(MarkOffline(before, config, now), now);
      ghost var jobOrder := RecoverWildcardSyncs(config, now);
      ghost var domainOrder := ScheduleDomains(now);
      ghost var certificateOrder := ScheduleCertificates(now);
      orders := Orders(jobOrder, domainOrder, certificateOrder);
      Stepped(before, clock, RunMaintenance(config, orders), now);
      PassRenews(before, clock, config, orders, now);
      clock := now;
    }

    // ----- The certificate issuer -----

    /** The oldest issue job that is running or due in the queue. */
    method NextIssueJob(now: Time) returns (oldest: Option<JobId>)
      ensures oldest.Some? ==>
        && Issuable(Value(), oldest.value, now)
        && forall id | Issuable(Value(), id, now) :: jobs[oldest.value].createdAt <= jobs[id].createdAt
      ensures oldest.None? ==> forall id :: !Issuable(Value(), id, now)
      ensures forall id :: Issuable(Value(), id, now) <==>
        && id in jobs && jobs[id].payload.IssueCertificate?
        && (jobs[id].status == Running
            || (jobs[id].status == Queued
                && (if jobs[id].queuedAt.Some? then jobs[id].queuedAt.value else jobs[id].createdAt) <= now))
    {
      oldest := None;
      var todo := jobs.Keys;
      while todo != {}
        invariant todo <= jobs.Keys
        invariant oldest.Some? ==>
          && Issuable(Value(), oldest.value, now)
          && forall id | Issuable(Value(), id, now) && id !in todo :: jobs[oldest.value].createdAt <= jobs[id].createdAt
        invariant oldest.None? ==> forall id | id !in todo :: !Issuable(Value(), id, now)
      {
        var id :| id in todo;
        todo := todo - {id};
        var job := jobs[id];
        if job.payload.IssueCertificate? && (job.status == Running || (job.status == Queued && QueueTime(job) <= now)) {
          if oldest.None? || job.createdAt < jobs[oldest.value].createdAt {
            oldest := Some(id);
          }
        }
      }
    }

    /** The claim of issueNextCertificate; `attempts` fences the commit that follows. */
    method ClaimIssueJob(id: JobId, now: Time) returns (ok: bool, attempts: nat)
      requires Valid() && clock <= now
      modifies this
      ensures ok <==> Claim(old(Value()), id, now).Some?
      ensures Value() == Apply(old(Value()), ClaimIssue(id), now)
      ensures ok ==> id in jobs && attempts == jobs[id].attempts == old(jobs)[id].attempts + 1
      ensures Valid() && clock == now
    {
      hide Inv, Keyed;
      InvIsKeyed(System(Value(), clock));
      Stepped(Value(), clock, ClaimIssue(id), now);
      attempts := 0;
      clock := now;
      if id !in jobs || IsNodeJob(jobs[id]) || (jobs[id].status != Queued && jobs[id].status != Running) {
        return false, 0;
      }
      KeyedJob(Value(), id);
      var current := jobs[id];
      current := current.(status := Running, attempts := current.attempts + 1, startedAt := Some(now));
      jobs := jobs[current.id := current];
      if current.nodeId in nodes && nodes[current.nodeId].runningJobId == Some(current.id) {
        nodes := nodes[current.nodeId := nodes[current.nodeId].(runningJobId := None)];
      }
      return true, current.attempts;
    }

    method RecordIssue(id: JobId, attempts: nat, result: JobResult, now: Time) returns (ok: bool)
      requires Keyed(Value())
      modifies this
      ensures ok <==> Commit(old(Value()), id, attempts, result, now).Some?
      ensures Value() == Else(old(Value()), Commit(old(Value()), id, attempts, result, now)) && clock == old(clock)
    {
      hide Complete, Keyed;
      var snapshot := Value();
      if id !in jobs || IsNodeJob(jobs[id]) || jobs[id].status != Running || jobs[id].attempts != attempts {
        return false;
      }
      KeyedJob(Value(), id);
      var current := jobs[id];
      if result.success {
        ok := CompleteSuccessfulJob(current, result.prepared, now);
        if !ok {
          Restore(snapshot);
          return;
        }
        current := current.(status := Succeeded, error := "", finishedAt := Some(now));
      } else {
        current := current.(error := Truncate(result.error, 2048));
        if current.attempts < current.maxAttempts {
          current := current.(status := Queued, queuedAt := Some(now + current.attempts * MINUTE), startedAt := None);
        } else {
          current := current.(status := Failed, finishedAt := Some(now));
        }
      }
      jobs := jobs[current.id := current];
      ok := true;
    }

    /** The fenced commit of issueNextCertificate. */
    method CommitIssueJob(id: JobId, attempts: nat, result: JobResult, now: Time) returns (ok: bool)
      requires Valid() && clock <= now
      modifies this
      ensures ok <==> Commit(old(Value()), id, attempts, result, now).Some?
      ensures Value() == Apply(old(Value()), CommitIssue(id, attempts, result), now)
      ensures Valid() && clock == now
    {
      hide Inv, Commit;
      InvIsKeyed(System(Value(), clock));
      Stepped(Value(), clock, CommitIssue(id, attempts, result), now);
      ok := RecordIssue(id, attempts, result, now);
      clock := now;
    }

    // ----- Administration -----

    method DisownDomains(nodeId: NodeId)
      modifies this`domains
      ensures domains == map d | d in old(domains) :: DisownedDomain(old(domains)[d], nodeId)
    {
      ghost var before := domains;
      var todo := domains.Keys;
      while todo != {}
        invariant todo <= domains.Keys == before.Keys
        invariant forall d | d in domains :: domains[d] == if d in todo then before[d] else DisownedDomain(before[d], nodeId)
      {
        var d :| d in todo;
        todo := todo - {d};
        var domain := domains[d];
        var syncNodeIds := WithoutString(domain.syncNodeIds, nodeId);
        domain := domain.(syncNodeIds := syncNodeIds);
        if domain.nodeId == nodeId {
          domain := domain.(nodeId := "", enabled := false, deleting := false, autoRenew := false);
        }
        domains := domains[d := domain];
      }
    }

    method DisownCertificates(nodeId: NodeId)
      modifies this`certificates
      ensures certificates == map c | c in old(certificates) :: RevokedCertificate(old(certificates)[c], nodeId)
    {
      ghost var before := certificates;
      var todo := certificates.Keys;
      while todo != {}
        invariant todo <= certificates.Keys == before.Keys
        invariant forall c | c in certificates ::
          certificates[c] == if c in todo then before[c] else RevokedCertificate(before[c], nodeId)
      {
        var c :| c in todo;
        todo := todo - {c};
        var certificate := certificates[c];
        var deployedNodeIds := WithoutString(certificate.deployedNodeIds, nodeId);
        certificate := certificate.(deployedNodeIds := deployedNodeIds);
        if certificate.issuerNodeId == nodeId {
          certificate := certificate.(issuerNodeId := "", autoRenew := false);
        }
        certificates := certificates[c := certificate];
      }
    }

    /** revokeNodeState. */
    method RevokeNodeState(nodeId: NodeId, now: Time)
      requires Keyed(Value()) && nodeId in nodes
      modifies this`nodes, this`domains, this`certificates, this`jobs
      ensures Some(Value()) == Revoke(old(Value()), nodeId, now)
    {
      hide Keyed, RevokedJob, RestoreFailedDeletion;
      ghost var s := Value();
      nodes := nodes[nodeId := nodes[nodeId].(status := Revoked, revokedAt := Some(now), runningJobId := None)];
      DisownDomains(nodeId);
      DisownCertificates(nodeId);
      FailActiveJobs(nodeId, s, now);
      Loops.RevokeEnd(s, nodeId, now);
    }

    method FailActiveJobs(nodeId: NodeId, ghost s: State, now: Time)
      requires Keyed(s) && jobs == s.jobs && domains == map d | d in s.domains :: DisownedDomain(s.domains[d], nodeId)
      modifies this`jobs, this`domains
      ensures jobs == Loops.RevokedJobs(s, s.jobs.Keys, nodeId, now)
      ensures domains == Loops.RevokedDomains(s, s.jobs.Keys, nodeId)
    {
      hide Keyed, DisownedDomain, RestoreFailedDeletion, Loops.RevokedJobs, Loops.RevokedDomains;
      Loops.RevokeStart(s, nodeId, now);
      var todo := jobs.Keys;
      ghost var done: set<JobId> := {};
      while todo != {}
        invariant todo + done == s.jobs.Keys && todo !! done
        invariant jobs.Keys == s.jobs.Keys && forall id | id in todo :: jobs[id] == s.jobs[id]
        invariant jobs == Loops.RevokedJobs(s, done, nodeId, now) && domains == Loops.RevokedDomains(s, done, nodeId)
      {
        var id :| id in todo;
        Loops.RevokeTurnJobs(s, done, id, nodeId, now);
        Loops.RevokeTurnDomains(s, done, id, nodeId, RevokedJob(s.jobs[id], nodeId, now));
        assert jobs[id := jobs[id]] == jobs;
        var job := jobs[id];
        if job.nodeId == nodeId && (job.status == Queued || job.status == Running) {
          job := job.(status := Failed, error := "node was removed before the task completed", finishedAt := Some(now));
          jobs := jobs[id := job];
          RestoreFailedDomainDeletion(job);
        }
        todo, done := todo - {id}, done + {id};
      }
      assert done == s.jobs.Keys;
    }

    /** The removal of a node: at the wish of its agent, whatever its status. */
    method HandleRevoke(nodeId: NodeId, now: Time) returns (ok: bool)
      requires Valid() && clock <= now
      modifies this
      ensures ok <==> nodeId in old(nodes)
      ensures Value() == Apply(old(Value()), RevokeNode(nodeId), now)
      ensures Valid() && clock == now
    {
      hide Inv, Keyed;
      InvIsKeyed(System(Value(), clock));
      Stepped(Value(), clock, RevokeNode(nodeId), now);
      ok := nodeId in nodes;
      if ok {
        RevokeNodeState(nodeId, now);
      }
      clock := now;
    }

    /** handleRevokeNode: an administrator cannot remove a node twice. */
    method HandleAdminRevoke(nodeId: NodeId, now: Time) returns (ok: bool)
      requires Valid() && clock <= now
      modifies this
      ensures ok <==> LiveNode(old(Value()), nodeId)
      ensures Value() == if ok then Apply(old(Value()), RevokeNode(nodeId), now) else old(Value())
      ensures Valid() && clock == if ok then now else old(clock)
    {
      hide Inv, Revoke;
      if nodeId !in nodes || nodes[nodeId].status == Revoked {
        return false;
      }
      ok := HandleRevoke(nodeId, now);
    }

    method RetryFailedJob(id: JobId, opens: bool, now: Time) returns (ok: bool)
      requires Keyed(Value())
      modifies this`jobs, this`domains, this`nextJobId
      ensures ok <==> Retry(old(Value()), id, opens, now).Some?
      ensures Value() == Else(old(Value()), Retry(old(Value()), id, opens, now))
    {
      hide Keyed, WireError;
      if id !in jobs || jobs[id].status != Failed || jobs[id].retryJobId.Some? {
        return false;
      }
      assert jobs[id].id == id by { KeyedJob(Value(), id); }
      var failed := jobs[id];
      if failed.nodeId !in nodes || nodes[failed.nodeId].status == Revoked {
        return false;
      }
      var retried := failed.(id := nextJobId, status := Queued, attempts := 0);
      if retried.maxAttempts < 1 {
        retried := retried.(maxAttempts := 3);
      }
      retried := retried.(error := "", createdAt := now, queuedAt := Some(now), startedAt := None, finishedAt := None,
                          updateAcceptedAt := None, updateVersionSeenAt := None, updateLastReportAt := None,
                          retryOfId := Some(failed.id), retryJobId := None);
      if WireError(Value(), retried, opens).Some? {
        return false;
      }
      nextJobId := nextJobId + 1;
      failed := failed.(retryJobId := Some(retried.id));
      jobs := jobs[failed.id := failed];
      jobs := jobs[retried.id := retried];
      if retried.domainId in domains {
        var domain := domains[retried.domainId].(lastJobId := Some(retried.id));
        if retried.payload.DeleteDomain? {
          domain := domain.(deleting := true, enabled := false);
        }
        domains := domains[retried.domainId := domain];
      }
      return true;
    }

    /** handleRetryJob. */
    method HandleRetry(id: JobId, opens: bool, now: Time) returns (ok: bool)
      requires Valid() && clock <= now
      modifies this
      ensures ok <==> Retry(old(Value()), id, opens, now).Some?
      ensures Value() == Apply(old(Value()), RetryJob(id, opens), now)
      ensures Valid() && clock == now
    {
      hide Inv, Retry;
      InvIsKeyed(System(Value(), clock));
      Stepped(Value(), clock, RetryJob(id, opens), now);
      ok := RetryFailedJob(id, opens, now);
      clock := now;
    }

    method RemovableJobs() returns (removed: map<JobId, Job>)
      ensures forall id :: id in removed <==> Clearable(Value(), id)
      ensures forall id | id in removed :: id in jobs && removed[id] == jobs[id]
    {
      removed := map[];
      var todo := jobs.Keys;
      while todo != {}
        invariant todo <= jobs.Keys
        invariant forall id :: id in removed <==> id !in todo && Clearable(Value(), id)
        invariant forall id | id in removed :: id in jobs && removed[id] == jobs[id]
      {
        var id :| id in todo;
        if jobs[id].status == Queued || jobs[id].status == Failed {
          removed := removed[id := jobs[id]];
        }
        todo := todo - {id};
      }
    }

    method RemoveJobs(removed: map<JobId, Job>, ghost s: State)
      requires Keyed(s) && nodes == s.nodes && jobs == s.jobs
      requires forall id | id in removed :: id in jobs && removed[id] == jobs[id]
      modifies this`nodes, this`jobs
      ensures jobs == map id | id in s.jobs && id !in removed :: s.jobs[id]
      ensures nodes == Loops.ReleasedNodes(s, removed.Keys)
    {
      hide Keyed;
      assert Loops.ReleasedNodes(s, {}) == s.nodes;
      var todo := removed.Keys;
      ghost var done: set<JobId> := {};
      while todo != {}
        invariant todo + done == removed.Keys && todo !! done
        invariant jobs == map id | id in s.jobs && id !in done :: s.jobs[id]
        invariant nodes == Loops.ReleasedNodes(s, done)
      {
        var id :| id in todo;
        Loops.ReleaseTurn(s, done, id);
        jobs := jobs - {id};
        var nodeId := removed[id].nodeId;
        if nodeId in nodes && nodes[nodeId].runningJobId == Some(id) {
          nodes := nodes[nodeId := nodes[nodeId].(runningJobId := None)];
        }
        todo, done := todo - {id}, done + {id};
      }
      assert done == removed.Keys;
    }

    method ForgetLastJobs(removed: map<JobId, Job>, ghost s: State)
      requires domains == s.domains && (forall id :: id in removed <==> Clearable(s, id))
      requires forall id | id in removed :: id in s.jobs && removed[id] == s.jobs[id]
      modifies this`domains
      ensures domains == map d | d in s.domains :: ClearedDomain(s, s.domains[d])
    {
      var todo := domains.Keys;
      while todo != {}
        invariant todo <= domains.Keys == s.domains.Keys
        invariant forall d | d in domains :: domains[d] == if d in todo then s.domains[d] else ClearedDomain(s, s.domains[d])
      {
        var d :| d in todo;
        todo := todo - {d};
        var domain := domains[d];
        if domain.lastJobId.None? || domain.lastJobId.value !in removed {
          continue;
        }
        var job := removed[domain.lastJobId.value];
        domain := domain.(lastJobId := None);
        if job.payload.DeleteDomain? {
          domain := domain.(deleting := false, enabled := true);
        }
        domains := domains[d := domain];
      }
    }

    method ClearJobs() returns (cleared: nat)
      requires Keyed(Value())
      modifies this`nodes, this`jobs, this`domains
      ensures Value() == Clear(old(Value()))
      ensures cleared == |set id | id in old(jobs) && Clearable(old(Value()), id)|
    {
      hide Keyed, ClearedDomain, Loops.ReleasedNodes, Clearable;
      ghost var s := Value();
      var removed := RemovableJobs();
      RemoveJobs(removed, s);
      Loops.ReleaseEnd(s, removed.Keys);
      ForgetLastJobs(removed, s);
      assert (set id | id in s.jobs && Clearable(s, id)) == removed.Keys;
      cleared := |removed.Keys|;
    }

    /** handleClearPendingJobs. */
    method HandleClear(now: Time) returns (cleared: nat)
      requires Valid() && clock <= now
      modifies this
      ensures Value() == Apply(old(Value()), ClearPending, now)
      ensures cleared == |set id | id in old(jobs) && Clearable(old(Value()), id)|
      ensures Valid() && clock == now
    {
      hide Inv, Clear, Clearable;
      InvIsKeyed(System(Value(), clock));
      Stepped(Value(), clock, ClearPending, now);
      cleared := ClearJobs();
      clock := now;
    }

    /** handleDeleteDomain; `queued` is false when the record is dropped at once. */
    method HandleDeleteDomain(domainId: DomainId, now: Time) returns (ok: bool, queued: bool)
      requires Valid() && clock <= now
      modifies this
      ensures ok <==> DeleteDomainRequest(old(Value()), domainId, now).Some?
      ensures Value() == Apply(old(Value()), RemoveDomain(domainId), now)
      ensures ok ==> (queued <==> domainId in domains)
      ensures Valid() && clock == now
    {
      hide Inv, Keyed;
      InvIsKeyed(System(Value(), clock));
      Stepped(Value(), clock, RemoveDomain(domainId), now);
      ghost var from := clock;
      clock := now;
      if domainId !in domains {
        return false, false;
      }
      KeyedDomain(Value(), domainId);
      var domain := domains[domainId];
      if domain.observedOnly {
        domains := domains - {domainId};
        return true, false;
      }
      if domain.nodeId == "" || domain.nodeId !in nodes || nodes[domain.nodeId].status == Revoked {
        domains := domains - {domainId};
        return true, false;
      }
      if DomainIsDeleting(Value(), domain) {
        return false, false;
      }
      EnqueueDomainJob(domain.(enabled := false, deleting := true), DeleteDomain, now);
      return true, true;
    }

    method ActiveCustomConfigJob(domainId: DomainId) returns (active: bool)
      ensures active <==> HasActiveCustomConfigJob(Value(), domainId)
    {
      var todo := jobs.Keys;
      while todo != {}
        invariant todo <= jobs.Keys
        invariant forall id | id in jobs && id !in todo ::
          !(jobs[id].domainId == domainId && jobs[id].payload.ApplyDomain? && IsActive(jobs[id])
            && jobs[id].payload.customConfig.Some?)
      {
        var id :| id in todo;
        if jobs[id].domainId == domainId && jobs[id].payload.ApplyDomain? && IsActive(jobs[id])
           && jobs[id].payload.customConfig.Some?
        {
          return true;
        }
        todo := todo - {id};
      }
      return false;
    }

    method ValidateNodeIds(values: seq<string>, exclude: NodeId) returns (result: Option<seq<NodeId>>)
      ensures result == ValidatedNodeIds(Value(), values, exclude)
    {
      hide LiveNode, TrimSpace;
      var valid: seq<NodeId> := [];
      var i := 0;
      while i < |values|
        invariant 0 <= i <= |values|
        invariant ValidatedNodeIds(Value(), values[..i], exclude) == Some(valid)
      {
        assert values[..i + 1][..i] == values[..i];
        var nodeId := TrimSpace(values[i]);
        i := i + 1;
        if nodeId == "" || nodeId == exclude || nodeId in valid {
          continue;
        }
        if !LiveNode(Value(), nodeId) {
          InvalidStays(Value(), values, i, exclude);
          return None;
        }
        valid := valid + [nodeId];
      }
      assert values[..i] == values;
      return Some(valid);
    }

    /** What handleUpdateDomain checks; the sync targets if all is well. */
    method CheckSettings(settings: Domain, source: Source, covers: bool) returns (syncNodeIds: Option<seq<NodeId>>)
      ensures syncNodeIds.Some? <==>
        && settings.id in domains && !HasActiveCustomConfigJob(Value(), settings.id) && LiveNode(Value(), settings.nodeId)
        && SettingsHold(Value(), settings, source, covers)
      ensures syncNodeIds.Some? ==> syncNodeIds == ValidatedNodeIds(Value(), settings.syncNodeIds, settings.nodeId)
    {
      hide HasActiveCustomConfigJob, ValidatedNodeIds;
      if settings.id !in domains {
        return None;
      }
      var active := ActiveCustomConfigJob(settings.id);
      if active || settings.nodeId !in nodes || nodes[settings.nodeId].status == Revoked {
        return None;
      }
      if settings.certificateId != "" && (settings.certificateId !in certificates || !covers) {
        return None;
      }
      if source.AcmeSource? || settings.autoRenew {
        if settings.acmeAccountId !in acmeAccounts || settings.dnsAccountId !in dnsAccounts {
          return None;
        }
      }
      syncNodeIds := ValidateNodeIds(settings.syncNodeIds, settings.nodeId);
    }

    method CopyRenewalSettings(domain: Domain)
      requires domain.certificateId in certificates
      modifies this`certificates
      ensures Value() == WithRenewalSettings(old(Value()), domain)
    {
      if domain.autoRenew {
        var certificate := certificates[domain.certificateId].(
          autoRenew := true, renewBeforeDays := domain.renewBeforeDays,
          acmeAccountId := domain.acmeAccountId, dnsAccountId := domain.dnsAccountId);
        certificates := certificates[certificate.id := certificate];
      }
    }

    /** The transaction of handleUpdateDomain. */
    method ChangeDomainSettings(settings: Domain, source: Source, covers: bool, now: Time) returns (ok: bool)
      modifies this
      ensures ok <==> UpdateDomain(old(Value()), settings, source, covers, now).Some?
      ensures Value() == Else(old(Value()), UpdateDomain(old(Value()), settings, source, covers, now)) && clock == old(clock)
    {
      hide HasActiveCustomConfigJob, LiveNode, ValidatedNodeIds, Deployment, EnqueueForDomain, WithRenewalSettings;
      var syncNodeIds := CheckSettings(settings, source, covers);
      if syncNodeIds.None? {
        return false;
      }
      var before := domains[settings.id];
      var domain := settings.(name := before.name, observedOnly := before.observedOnly,
                              customConfig := before.customConfig, lastJobId := before.lastJobId,
                              syncNodeIds := syncNodeIds.value, enabled := true, deleting := false);
      assert domain == ChangedDomain(Value(), settings);
      if domain.certificateId != "" {
        CopyRenewalSettings(domain);
      }
      if domain.observedOnly {
        domains := domains[domain.id := domain];
        return true;
      }
      EnqueueDomainJob(domain, Deployment(domain, source), now);
      return true;
    }

    /** handleUpdateDomain. */
    method HandleUpdateDomain(settings: Domain, source: Source, covers: bool, now: Time) returns (ok: bool)
      requires Valid() && clock <= now
      modifies this
      ensures ok <==> UpdateDomain(old(Value()), settings, source, covers, now).Some?
      ensures Value() == Apply(old(Value()), ChangeDomain(settings, source, covers), now)
      ensures Valid() && clock == now
    {
      hide Inv, UpdateDomain;
      Stepped(Value(), clock, ChangeDomain(settings, source, covers), now);
      ok := ChangeDomainSettings(settings, source, covers, now);
      clock := now;
    }
  }

  lemma InvIsKeyed(sys: System)
    requires Inv(sys)
    ensures Keyed(sys.state)
  {
  }

  /** What visiting one job in the recovery loop does to the map the loop ranges over. */
  ghost predicate Visited(before: map<JobId, Job>, after: map<JobId, Job>, id: JobId)
    requires id in before
  {
    && (forall k | k in before :: k in after && (k != id ==> after[k] == before[k]))
    && (forall k | k in after && k !in before :: after[k].status == Queued)
    && (before[id].status != Failed ==> after == before)
  }

  /** The recovery loop on its way: all but the queued jobs it added itself are visited or still to come. */
  ghost predicate Visiting(
    start: map<JobId, Job>, jobs: map<JobId, Job>, todo: set<JobId>, visited: set<JobId>, order: seq<JobId>)
  {
    && todo <= jobs.Keys && visited <= jobs.Keys && todo !! visited
    && (forall id | id in jobs && id !in todo && id !in visited :: jobs[id].status == Queued)
    && (forall id | id in start :: id in todo || id in order)
  }

  lemma VisitingStarts(jobs: map<JobId, Job>)
    ensures Visiting(jobs, jobs, jobs.Keys, {}, [])
  {
  }

  lemma VisitingGoesOn(
    start: map<JobId, Job>, jobs: map<JobId, Job>, todo: set<JobId>, visited: set<JobId>, order: seq<JobId>)
    requires Visiting(start, jobs, todo, visited, order) && todo != {}
    ensures exists id :: id in jobs && id !in visited
  {
    var id :| id in todo;
    assert id in jobs && id !in visited;
  }

  lemma VisitingAdvances(
    start: map<JobId, Job>, before: map<JobId, Job>, after: map<JobId, Job>,
    todo: set<JobId>, visited: set<JobId>, order: seq<JobId>, id: JobId)
    requires Visiting(start, before, todo, visited, order) && id in before && id !in visited && Visited(before, after, id)
    ensures Visiting(start, after, todo - {id}, visited + {id}, order + [id])
    ensures if id in todo then |todo - {id}| < |todo|
            else todo - {id} == todo && |after.Keys - (visited + {id})| < |before.Keys - visited|
  {
    if id !in todo {
      assert before.Keys - visited == (after.Keys - (visited + {id})) + {id};
    }
  }

  lemma VisitingEnds(start: map<JobId, Job>, jobs: map<JobId, Job>, visited: set<JobId>, order: seq<JobId>)
    requires Visiting(start, jobs, {}, visited, order)
    ensures forall id | id in start :: id in order
  {
  }

  lemma RecoverAppend(s: State, order: seq<JobId>, id: JobId, config: Config, now: Time)
    ensures Recover(s, [], config, now) == s
    ensures Recover(s, order + [id], config, now) == RecoverJob(Recover(s, order, config, now), id, config, now)
  {
    hide RecoverJob;
    assert (order + [id])[..|order|] == order;
  }

  /** A job that is neither overdue nor expired stays, and so does everything else. */
  lemma NoTurn(s: State, before: State, id: JobId, now: Time)
    requires id in s.jobs && id in before.jobs && before.jobs[id] == s.jobs[id]
    requires !TimedOut(s.jobs[id], now) && (!IsNodeJob(s.jobs[id]) || s.jobs[id].status != Queued)
    ensures Turn(s, before, id, now) == before
  {
    hide RunningOn, LiveNode, Restored;
    assert before.jobs[id := s.jobs[id]] == before.jobs;
  }

  /** The turn of a running job whose result is overdue. */
  lemma OverdueTurn(s: State, before: State, id: JobId, now: Time)
    requires id in s.jobs && TimedOut(s.jobs[id], now) && !AwaitingUpdateConfirmation(s.jobs[id])
    ensures
      var job, error := s.jobs[id], "agent did not report a result before the timeout";
      var again := job.attempts < job.maxAttempts;
      var next := if again then job.(status := Queued, queuedAt := Some(now), startedAt := None, error := error)
                  else job.(status := Failed, finishedAt := Some(now), error := error);
      Turn(s, before, id, now) == before.(
        jobs := before.jobs[id := next],
        nodes := if job.nodeId in before.nodes && before.nodes[job.nodeId].runningJobId == Some(id)
                 then before.nodes[job.nodeId := before.nodes[job.nodeId].(runningJobId := None)] else before.nodes,
        domains := if again then before.domains else RestoreFailedDeletion(before.domains, job))
  {
    hide QueueExpired, Restored;
  }

  lemma NotRecoverableUnless(s: State, job: Job, config: Config, now: Time)
    requires Recoverable(s, job, config, now)
    ensures job.status == Failed && job.payload.SyncCertificate? && job.payload.syncCertificateId in s.certificates
  {
  }

  lemma LinkedByDomains(s: State, t: State)
    requires s.domains == t.domains
    ensures forall c :: Linked(s, c) <==> Linked(t, c)
  {
  }

  lemma MarkedKeeps(s: State, config: Config, now: Time)
    requires Keyed(s)
    ensures var t := MarkOffline(s, config, now);
      Keyed(t) && t.domains == s.domains && t.certificates == s.certificates && t.jobs == s.jobs
  {
  }

  lemma PassKeepsKeys(s: State, now: Time)
    requires Keyed(s)
    ensures var t := MaintainJobs(s, now);
      Keyed(t) && t.domains.Keys == s.domains.Keys && t.certificates == s.certificates
  {
    hide MaintainJobs;
    PassDoneKeeps(s, s.jobs.Keys, now);
    PassEnd(s, now);
    assert PassDone(s, s.jobs.Keys, now).domains.Keys == s.domains.Keys;
  }

  lemma PassRenews(s: State, from: Time, config: Config, orders: Orders, now: Time)
    requires Inv(System(s, from))
    requires (forall d | d in s.domains :: d in orders.domains) && (forall c | c in s.certificates :: c in orders.certificates)
    ensures Renewed(Maintain(s, config, orders, now), now)
  {
    hide Maintain, Renewed;
    AdminSteps.JobsInvAttempts(s, from);
    PassRenewsAll(s, config, orders, now);
  }

  /** A node that is not live makes the whole list invalid. */
  lemma {:induction false} InvalidStays(s: State, values: seq<string>, i: nat, exclude: NodeId)
    requires i <= |values| && ValidatedNodeIds(s, values[..i], exclude).None?
    ensures ValidatedNodeIds(s, values, exclude).None?
    decreases |values|
  {
    if i < |values| {
      var shorter := values[..|values| - 1];
      assert shorter[..i] == values[..i];
      InvalidStays(s, shorter, i, exclude);
    } else {
      assert values[..i] == values;
    }
  }

  lemma KeyedDomain(s: State, domainId: DomainId)
    requires Keyed(s) && domainId in s.domains
    ensures s.domains[domainId].id == domainId
  {
  }

  lemma KeyedJob(s: State, id: JobId)
    requires Keyed(s) && id in s.jobs
    ensures s.jobs[id].id == id
  {
  }

  lemma PolledJobs(s: State, nodeId: NodeId, report: Option<NodeReport>, now: Time, case_: PollCase)
    requires Keyed(s) && Possible(s, nodeId, case_) && Selected(case_).Some?
    ensures var t := PollTransaction(s, nodeId, report, now, case_); Keyed(t) && case_.id in t.jobs
  {
  }
}
