/** What a job result and the issuer's commit leave behind, for every type of job, in full. */
module Results {
  import opened Model
  import opened Text
  import opened Jobs
  import opened UpdateConfirmation
  import opened Protocol
  import opened Invariants

  // ----- New jobs -----

  /** Exactly these jobs are new: one for each node listed, in order, queued with three attempts. */
  ghost predicate Queues(s: State, t: State, nodeIds: seq<NodeId>, domainId: DomainId, payload: Payload, now: Time) {
    && t.nextJobId == s.nextJobId + |nodeIds|
    && (forall id :: id in t.jobs <==> id in s.jobs || s.nextJobId <= id < t.nextJobId)
    && forall i | 0 <= i < |nodeIds| ::
         t.jobs[s.nextJobId + i] ==
           Job(s.nextJobId + i, nodeIds[i], domainId, payload, Queued, 0, 3, "", now, Some(now), None, None, None, None,
               None, None, None)
  }

  /** All jobs but one are as before. */
  ghost predicate OtherJobsStay(s: State, t: State, id: JobId) {
    forall k | k in s.jobs && k != id :: k in t.jobs && t.jobs[k] == s.jobs[k]
  }

  ghost predicate FreshIds(s: State) {
    forall id | id in s.jobs :: id < s.nextJobId
  }

  lemma {:induction false} SyncsAreQueued(
    s: State, nodeIds: seq<NodeId>, domainId: DomainId, certificateId: CertificateId, name: string, now: Time)
    requires FreshIds(s)
    ensures
      var t := EnqueueSyncs(s, nodeIds, domainId, certificateId, name, now);
      && t == s.(jobs := t.jobs, nextJobId := t.nextJobId)
      && Queues(s, t, nodeIds, domainId, SyncCertificate(certificateId, name), now)
      && forall k | k in s.jobs :: t.jobs[k] == s.jobs[k]
    decreases |nodeIds|
  {
    if nodeIds != [] {
      var first := Enqueue(s, nodeIds[0], domainId, SyncCertificate(certificateId, name), now);
      SyncsAreQueued(first, nodeIds[1..], domainId, certificateId, name, now);
      var t := EnqueueSyncs(s, nodeIds, domainId, certificateId, name, now);
      assert t == EnqueueSyncs(first, nodeIds[1..], domainId, certificateId, name, now);
      forall i | 0 <= i < |nodeIds|
        ensures s.nextJobId + i in t.jobs
        ensures t.jobs[s.nextJobId + i] ==
          Job(s.nextJobId + i, nodeIds[i], domainId, SyncCertificate(certificateId, name), Queued, 0, 3, "", now, Some(now),
              None, None, None, None, None, None, None)
      {
        if i > 0 {
          assert first.nextJobId + (i - 1) in t.jobs && nodeIds[1..][i - 1] == nodeIds[i];
        }
      }
    }
  }

  // ----- Certificates on record -----

  /** A node is entered once, behind those that are there. */
  predicate EntersNode(before: seq<NodeId>, after: seq<NodeId>, nodeId: NodeId) {
    after == if nodeId in before then before else before + [nodeId]
  }

  /** The certificate records after one of them is noted as deployed on a node; None if there is nothing to note. */
  ghost predicate Notes(
    before: map<CertificateId, Certificate>, after: map<CertificateId, Certificate>, certificate: Certificate, nodeId: NodeId)
  {
    && certificate.id in after
    && after == before[certificate.id := after[certificate.id]]
    && after[certificate.id] == certificate.(deployedNodeIds := after[certificate.id].deployedNodeIds)
    && EntersNode(certificate.deployedNodeIds, after[certificate.id].deployedNodeIds, nodeId)
  }

  /** The certificates, with the one that came along. */
  function WithPrepared(certificates: map<CertificateId, Certificate>,
      prepared: Option<Certificate>): map<CertificateId, Certificate> {
    if prepared.None? then certificates else certificates[prepared.value.id := prepared.value]
  }

  // ----- What a completed job leaves, by its type -----

  /** An applied domain is enabled, with the custom text and certificate that came along; its certificate is noted on
      its node, and every sync node gets a job. */
  ghost predicate LeavesApplied(s: State, t: State, job: Job, prepared: Option<Certificate>, now: Time)
    requires job.payload.ApplyDomain?
  {
    && job.domainId in s.domains && job.domainId in t.domains
    && var before, after := s.domains[job.domainId], t.domains[job.domainId];
    && t.domains == s.domains[job.domainId := after]
    && after == before.(certificateId := after.certificateId, customConfig := after.customConfig, enabled :=
        true, deleting := false)
    && (prepared.Some? ==> after.certificateId == prepared.value.id)
    && (prepared.None? ==> after.certificateId == before.certificateId)
    && (job.payload.customConfig.Some? ==> after.customConfig == job.payload.customConfig.value)
    && (job.payload.customConfig.None? ==> after.customConfig == before.customConfig)
    && var certificates := WithPrepared(s.certificates, prepared);
    && Queues(s, t, if after.certificateId == "" then [] else before.syncNodeIds, before.id,
              SyncCertificate(after.certificateId, before.name), now)
    && if after.certificateId == "" then t.certificates == certificates
       else Notes(certificates, t.certificates,
                  if after.certificateId in certificates then certificates[after.certificateId]
                  else Certificate("", "", [], ZERO_TIME, false, 0, "", "", "", [], ZERO_TIME),
                  before.nodeId)
  }

  /** A certificate issued for a domain is linked to it and deployed by a new job, which is the domain's last. */
  ghost predicate LeavesIssuedForDomain(s: State, t: State, job: Job, issued: Certificate, now: Time) {
    && job.domainId in s.domains
    && var before := s.domains[job.domainId];
    && t.domains == s.domains[before.id := before.(certificateId := issued.id, lastJobId := Some(s.nextJobId))]
    && Queues(s, t, [before.nodeId], before.id, ApplyDomain(before.id, issued.id, None), now)
    && t.certificates == s.certificates[issued.id := issued]
  }

  /** A certificate of its own is sent to the nodes listed, and to its issuer where it is to be installed there. */
  ghost predicate LeavesIssued(s: State, t: State, job: Job, issued: Certificate, now: Time)
    requires job.payload.IssueCertificate?
  {
    var listed := job.payload.issueSyncNodeIds;
    && t.domains == s.domains && t.certificates == s.certificates[issued.id := issued]
    && Queues(s, t, if job.payload.install && job.nodeId !in listed then listed + [job.nodeId] else listed, "",
              SyncCertificate(issued.id, issued.domain), now)
  }

  /** A captured certificate is linked to the domain of the job, if it has one, and sent to the nodes listed. */
  ghost predicate LeavesCaptured(s: State, t: State, job: Job, captured: Certificate, now: Time)
    requires job.payload.CaptureCertificate?
  {
    && (job.domainId != "" ==> job.domainId in s.domains)
    && t.domains == (if job.domainId == "" then s.domains
                     else s.domains[job.domainId := s.domains[job.domainId].(certificateId := captured.id)])
    && t.certificates == s.certificates[captured.id := captured]
    && Queues(s, t, job.payload.captureSyncNodeIds, "", SyncCertificate(captured.id, captured.domain), now)
  }

  /** A synchronised certificate is noted on the node of the job, if it is still on record. */
  ghost predicate LeavesSynced(s: State, t: State, job: Job, prepared: Option<Certificate>, now: Time)
    requires job.payload.SyncCertificate?
  {
    var certificates := WithPrepared(s.certificates, prepared);
    && t.domains == s.domains && Queues(s, t, [], "", job.payload, now)
    && if job.payload.syncCertificateId in certificates
       then Notes(certificates, t.certificates, certificates[job.payload.syncCertificateId], job.nodeId)
       else t.certificates == certificates
  }

  /** A deleted domain is gone; other jobs leave no trace but themselves. */
  ghost predicate LeavesPlain(s: State, t: State, job: Job, prepared: Option<Certificate>, now: Time) {
    && t.domains == (if job.payload.DeleteDomain? then map d | d in s.domains
        && d != job.domainId :: s.domains[d] else s.domains)
    && t.certificates == WithPrepared(s.certificates, prepared) && Queues(s, t, [], "", job.payload, now)
  }

  ghost predicate Leaves(s: State, t: State, job: Job, prepared: Option<Certificate>, now: Time) {
    if job.payload.ApplyDomain? then LeavesApplied(s, t, job, prepared, now)
    else if job.payload.IssueCertificate? then
      prepared.Some?
      && (if job.domainId != "" then LeavesIssuedForDomain(s, t, job, prepared.value, now)
          else LeavesIssued(s, t, job, prepared.value, now))
    else if job.payload.CaptureCertificate? then prepared.Some? && LeavesCaptured(s, t, job, prepared.value, now)
    else if job.payload.SyncCertificate? then LeavesSynced(s, t, job, prepared, now)
    else LeavesPlain(s, t, job, prepared, now)
  }

  /** What completing a job needs: the certificate that an issue or a capture brings, and the domain it is for. */
  predicate CanComplete(s: State, job: Job, prepared: Option<Certificate>) {
    if job.payload.ApplyDomain? then job.domainId in s.domains
    else if job.payload.IssueCertificate? || job.payload.CaptureCertificate? then
      prepared.Some? && (job.domainId != "" ==> job.domainId in s.domains)
    else true
  }

  /** Old jobs, nodes and accounts stay. */
  ghost predicate SameOtherwise(s: State, t: State) {
    && t == s.(jobs := t.jobs, domains := t.domains, certificates := t.certificates, nextJobId := t.nextJobId)
    && forall k | k in s.jobs :: k in t.jobs && t.jobs[k] == s.jobs[k]
  }

  lemma AppliedLeaves(s: State, job: Job, prepared: Option<Certificate>, now: Time)
    requires Keyed(s) && job.payload.ApplyDomain? && job.domainId in s.domains
    ensures
      var t := CompleteApply(Recorded(s, prepared), job, prepared, now);
      t.Some? && LeavesApplied(s, t.value, job, prepared, now) && SameOtherwise(s, t.value)
  {
    hide EnqueueSyncs, Queues;
    var r := Recorded(s, prepared);
    var domain := AppliedDomain(r.domains[job.domainId], job, prepared);
    var applied := r.(domains := r.domains[job.domainId := domain]);
    if domain.certificateId != "" {
      var noted := Installed(applied, CertificateOrZero(applied, domain.certificateId), domain.nodeId);
      SyncsAreQueued(noted, domain.syncNodeIds, domain.id, domain.certificateId, domain.name, now);
      var t := EnqueueSyncs(noted, domain.syncNodeIds, domain.id, domain.certificateId, domain.name, now);
      SameJobsQueue(noted, s, t, domain.syncNodeIds, domain.id, SyncCertificate(domain.certificateId, domain.name), now);
    } else {
      NothingQueued(s, applied, s.domains[job.domainId].id, SyncCertificate(domain.certificateId, domain.name), now);
    }
  }

  lemma SameJobsQueue(
    r: State, s: State, t: State, nodeIds: seq<NodeId>, domainId: DomainId, payload: Payload, now: Time)
    requires r.jobs == s.jobs && r.nextJobId == s.nextJobId && Queues(r, t, nodeIds, domainId, payload, now)
    ensures Queues(s, t, nodeIds, domainId, payload, now)
  {
  }

  lemma NothingQueued(s: State, t: State, domainId: DomainId, payload: Payload, now: Time)
    requires t.jobs == s.jobs && t.nextJobId == s.nextJobId
    ensures Queues(s, t, [], domainId, payload, now)
  {
  }

  lemma IssuedLeaves(s: State, job: Job, issued: Certificate, now: Time)
    requires Keyed(s) && job.payload.IssueCertificate?
    ensures
      var t := CompleteIssue(Recorded(s, Some(issued)), job, issued, now);
      && (t.Some? <==> CanComplete(s, job, Some(issued)))
      && (t.Some? ==> Leaves(s, t.value, job, Some(issued), now) && SameOtherwise(s, t.value))
  {
    var r := Recorded(s, Some(issued));
    if job.domainId == "" {
      var listed := job.payload.issueSyncNodeIds;
      var targets := if job.payload.install then AppendUnique(listed, job.nodeId) else listed;
      SyncsAreQueued(r, targets, "", issued.id, issued.domain, now);
      var t := EnqueueSyncs(r, targets, "", issued.id, issued.domain, now);
      SameJobsQueue(r, s, t, targets, "", SyncCertificate(issued.id, issued.domain), now);
    }
  }

  lemma CapturedLeaves(s: State, job: Job, captured: Certificate, now: Time)
    requires Keyed(s) && job.payload.CaptureCertificate?
    ensures
      var t := CompleteCapture(Recorded(s, Some(captured)), job, captured, now);
      && (t.Some? <==> CanComplete(s, job, Some(captured)))
      && (t.Some? ==> Leaves(s, t.value, job, Some(captured), now) && SameOtherwise(s, t.value))
  {
    hide Queues;
    var r := Recorded(s, Some(captured));
    if job.domainId == "" || job.domainId in s.domains {
      var linked := if job.domainId == "" then r
                    else r.(domains := r.domains[job.domainId := r.domains[job.domainId].(certificateId := captured.id)]);
      SyncsAreQueued(linked, job.payload.captureSyncNodeIds, "", captured.id, captured.domain, now);
      var t := EnqueueSyncs(linked, job.payload.captureSyncNodeIds, "", captured.id, captured.domain, now);
      SameJobsQueue(linked, s, t, job.payload.captureSyncNodeIds, "", SyncCertificate(captured.id, captured.domain), now);
    }
  }

  lemma SyncLeaves(s: State, job: Job, prepared: Option<Certificate>, now: Time)
    requires job.payload.SyncCertificate?
    ensures
      var t := Complete(s, job, prepared, now);
      t.Some? && LeavesSynced(s, t.value, job, prepared, now) && SameOtherwise(s, t.value)
  {
    hide Queues;
    var t := Complete(s, job, prepared, now).value;
    NothingQueued(s, t, "", job.payload, now);
  }

  lemma PlainLeaves(s: State, job: Job, prepared: Option<Certificate>, now: Time)
    requires !job.payload.ApplyDomain? && !job.payload.IssueCertificate? && !job.payload.CaptureCertificate?
    requires !job.payload.SyncCertificate?
    ensures
      var t := Complete(s, job, prepared, now);
      t.Some? && LeavesPlain(s, t.value, job, prepared, now) && SameOtherwise(s, t.value)
  {
    hide Queues;
    var t := Complete(s, job, prepared, now).value;
    NothingQueued(s, t, "", job.payload, now);
    if job.payload.DeleteDomain? {
      assert s.domains - {job.domainId} == map d | d in s.domains && d != job.domainId :: s.domains[d];
    }
  }

  lemma CompletedLeaves(s: State, job: Job, prepared: Option<Certificate>, now: Time)
    requires Keyed(s)
    ensures
      var t := Complete(s, job, prepared, now);
      && (t.Some? <==> CanComplete(s, job, prepared))
      && (t.Some? ==> Leaves(s, t.value, job, prepared, now) && SameOtherwise(s, t.value))
  {
    hide Queues, Keyed, CompleteApply, CompleteIssue, CompleteCapture, LeavesApplied, LeavesIssuedForDomain, LeavesIssued,
      LeavesCaptured, LeavesSynced, LeavesPlain, SameOtherwise;
    if job.payload.ApplyDomain? {
      if job.domainId in s.domains {
        AppliedLeaves(s, job, prepared, now);
      } else {
        NotApplied(s, job, prepared, now);
      }
    } else if job.payload.IssueCertificate? {
      if prepared.Some? { IssuedLeaves(s, job, prepared.value, now); }
    } else if job.payload.CaptureCertificate? {
      if prepared.Some? { CapturedLeaves(s, job, prepared.value, now); }
    } else if job.payload.SyncCertificate? {
      SyncLeaves(s, job, prepared, now);
    } else {
      PlainLeaves(s, job, prepared, now);
    }
  }

  lemma NotApplied(s: State, job: Job, prepared: Option<Certificate>, now: Time)
    requires job.payload.ApplyDomain? && job.domainId !in s.domains
    ensures CompleteApply(Recorded(s, prepared), job, prepared, now).None?
  {
  }

  /** The job itself is written back last; what it leaves does not depend on it. */
  lemma LeavesWithJob(s: State, t: State, u: State, job: Job, prepared: Option<Certificate>, now: Time, id: JobId)
    requires Leaves(s, t, job, prepared, now) && id in s.jobs && FreshIds(s)
    requires u.domains == t.domains && u.certificates == t.certificates && u.nextJobId == t.nextJobId
    requires id in t.jobs && id in u.jobs && u.jobs == t.jobs[id := u.jobs[id]]
    ensures Leaves(s, u, job, prepared, now)
  {
    hide Notes, WithPrepared;
    forall nodeIds, domainId, payload | Queues(s, t, nodeIds, domainId, payload, now)
      ensures Queues(s, u, nodeIds, domainId, payload, now)
    {
    }
  }

  // ----- Results -----

  /** A successful result of any job but a self-update is taken exactly if the job can be completed.  The job has then
      succeeded, its node is free and heard of, and everything else is what the type of job leaves. */
  lemma SuccessLeaves(s: State, id: JobId, nodeId: NodeId, result: JobResult, now: Time)
    requires Keyed(s) && nodeId in s.nodes && Runs(s, nodeId, id) && result.success && !s.jobs[id].payload.UpdateAtlas?
    ensures
      var job, r := s.jobs[id], Result(s, id, nodeId, result, now);
      && (r.Some? <==> CanComplete(s, job, result.prepared))
      && (r.Some? ==>
            var t := r.value;
            && Leaves(s, t, job, result.prepared, now) && OtherJobsStay(s, t, id)
            && id in t.jobs && t.jobs[id] == job.(status := Succeeded, error := "", finishedAt := Some(now))
            && t.nodes == s.nodes[nodeId := s.nodes[nodeId].(lastSeenAt := Some(now), runningJobId := None)]
            && t.acmeAccounts == s.acmeAccounts && t.dnsAccounts == s.dnsAccounts)
  {
    hide Leaves, Complete;
    var job := s.jobs[id];
    var succeeded := job.(status := Succeeded, error := "", finishedAt := Some(now));
    CompletedLeaves(s, succeeded, result.prepared, now);
    if CanComplete(s, job, result.prepared) {
      var c, t := Complete(s, succeeded, result.prepared, now).value, Result(s, id, nodeId, result, now).value;
      LeavesWithJob(s, c, t, succeeded, result.prepared, now, id);
      SameLeaves(s, t, succeeded, job, result.prepared, now);
    }
  }

  lemma SameLeaves(s: State, t: State, job: Job, other: Job, prepared: Option<Certificate>, now: Time)
    requires Leaves(s, t, job, prepared, now)
    requires other.payload == job.payload && other.domainId == job.domainId && other.nodeId == job.nodeId
    ensures Leaves(s, t, other, prepared, now)
  {
    hide Queues, Notes;
  }

  /** Errors that no further attempt can mend. */
  predicate IsFinal(job: Job, error: string) {
    job.payload.UpdateAtlas?
    && error in ["controller checksum does not match the trusted release manifest", "release SHA-256 verification failed"]
  }

  /** A failed result puts the job back into the queue exactly while attempts are left and the error is not final;
      otherwise the job has failed, and a domain that it was to delete is an ordinary one again. */
  lemma FailureLeaves(s: State, id: JobId, nodeId: NodeId, result: JobResult, now: Time)
    requires nodeId in s.nodes && Runs(s, nodeId, id) && !result.success && !AwaitingUpdateConfirmation(s.jobs[id])
    ensures
      var job, r := s.jobs[id], Result(s, id, nodeId, result, now);
      var error := Truncate(result.error, 2048);
      var again := job.attempts < job.maxAttempts && !IsFinal(job, error);
      var undeleted := !again && job.payload.DeleteDomain? && job.domainId in s.domains;
      && r.Some?
      && r.value == s.(
           jobs := s.jobs[id := if again then job.(error := error, status := Queued, queuedAt := Some(now), startedAt := None)
                                else job.(error := error, status := Failed, finishedAt := Some(now))],
           nodes := s.nodes[nodeId := s.nodes[nodeId].(lastSeenAt := Some(now), runningJobId := None)],
           domains := r.value.domains)
      && r.value.domains ==
           (if undeleted
            then s.domains[job.domainId := s.domains[job.domainId].(deleting := false, enabled :=
                s.domains[job.domainId].nodeId != "")]
            else s.domains)
  {
  }

  /** Which results are refused, and which are answered without any effect. */
  lemma ResultIsRefusedIff(s: State, id: JobId, nodeId: NodeId, result: JobResult, now: Time)
    requires Keyed(s)
    ensures Result(s, id, nodeId, result, now).None? <==>
      || nodeId !in s.nodes || id !in s.jobs || s.jobs[id].nodeId != nodeId || s.jobs[id].status != Running
      || s.jobs[id].payload.IssueCertificate?
      || (result.success && s.jobs[id].updateAcceptedAt.None? && s.jobs[id].payload.UpdateAtlas?
          && TrimSpace(s.jobs[id].payload.expectedVersion) == "")
      || (result.success && !s.jobs[id].payload.UpdateAtlas? && !CanComplete(s, s.jobs[id], result.prepared))
  {
    hide Complete;
    if nodeId in s.nodes && Runs(s, nodeId, id) && result.success && !s.jobs[id].payload.UpdateAtlas? {
      SuccessLeaves(s, id, nodeId, result, now);
    }
  }

  // ----- The issuer's commit -----

  /** The commit of an issue counts exactly for the attempt that was claimed. */
  predicate IsCurrent(s: State, id: JobId, attempts: nat) {
    id in s.jobs && s.jobs[id].payload.IssueCertificate? && s.jobs[id].status == Running && s.jobs[id].attempts == attempts
  }

  lemma CommitIsTakenIff(s: State, id: JobId, attempts: nat, result: JobResult, now: Time)
    requires Keyed(s)
    ensures Commit(s, id, attempts, result, now).Some? <==>
      IsCurrent(s, id, attempts) && (result.success ==> CanComplete(s, s.jobs[id], result.prepared))
  {
    hide Complete;
    if IsCurrent(s, id, attempts) && result.success {
      CompletedLeaves(s, s.jobs[id], result.prepared, now);
    }
  }

  /** A successful issue leaves what its type of job leaves; no node is touched. */
  lemma CommitLeaves(s: State, id: JobId, attempts: nat, result: JobResult, now: Time)
    requires Keyed(s) && result.success && Commit(s, id, attempts, result, now).Some?
    ensures
      var job, t := s.jobs[id], Commit(s, id, attempts, result, now).value;
      && Leaves(s, t, job, result.prepared, now) && OtherJobsStay(s, t, id)
      && id in t.jobs && t.jobs[id] == job.(status := Succeeded, error := "", finishedAt := Some(now))
      && t.nodes == s.nodes && t.acmeAccounts == s.acmeAccounts && t.dnsAccounts == s.dnsAccounts
  {
    hide Leaves, Complete;
    var job := s.jobs[id];
    CompletedLeaves(s, job, result.prepared, now);
    var c, t := Complete(s, job, result.prepared, now).value, Commit(s, id, attempts, result, now).value;
    LeavesWithJob(s, c, t, job, result.prepared, now, id);
  }

  /** A failed issue waits as many minutes as it has had attempts, and fails for good after the last one. */
  lemma FailedCommitLeaves(s: State, id: JobId, attempts: nat, result: JobResult, now: Time)
    requires !result.success && IsCurrent(s, id, attempts)
    ensures
      var job, r := s.jobs[id], Commit(s, id, attempts, result, now);
      var failed := job.(error := Truncate(result.error, 2048));
      && r.Some?
      && r.value == s.(
           jobs := s.jobs[id := if attempts < job.maxAttempts
                                then failed.(status := Queued, queuedAt := Some(now + attempts * 60_000_000_000),
                                    startedAt := None)
                                else failed.(status := Failed, finishedAt := Some(now))])
  {
  }

  /** Stored errors are what was sent, without surrounding space and cut to the given length. */
  lemma TruncatedIs(s: string, max: nat)
    ensures
      var kept := Truncate(s, max);
      kept <= TrimSpace(s) && |kept| <= max && (kept == TrimSpace(s) || |kept| == max)
  {
  }
}
