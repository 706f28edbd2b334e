/** What keeps the invariants: frames for single parts of the state, and steps that only add jobs. */
module Preservation {
  import opened Model
  import opened Jobs
  import opened UpdateConfirmation
  import opened Protocol
  import opened Transitions
  import opened Invariants

  /** What every step but a clear does to a state that satisfies the invariants. */
  ghost predicate StepOk(s: State, t: State, now: Time) {
    && JobsMoved(s, t, now) && Keyed(t) && PointersInv(t) && LinksInv(t)
    && (DeletionInv(s) ==> DeletionInv(t))
  }

  ghost predicate StateInv(s: State) {
    Keyed(s) && PointersInv(s) && LinksInv(s)
  }

  ghost predicate AttemptsLeft(s: State) {
    forall id | id in s.jobs && IsNodeJob(s.jobs[id]) ::
      s.jobs[id].attempts + (if s.jobs[id].status == Queued then 1 else 0) <= s.jobs[id].maxAttempts
  }

  // ----- Frames -----

  /** No retry link appears: old jobs keep theirs, new jobs have none. */
  ghost predicate NoNewLinks(s: State, t: State) {
    && s.nextJobId <= t.nextJobId
    && (forall id | id in s.jobs && id in t.jobs ::
          t.jobs[id].retryJobId == s.jobs[id].retryJobId && t.jobs[id].retryOfId == s.jobs[id].retryOfId)
    && (forall id | id in t.jobs && id !in s.jobs ::
          s.nextJobId <= id && t.jobs[id].retryJobId.None? && t.jobs[id].retryOfId.None?)
  }

  lemma LinksFrame(s: State, t: State)
    requires Keyed(s) && LinksInv(s) && NoNewLinks(s, t)
    ensures LinksInv(t)
  {
  }

  /** Nodes keep their pointers, and the same node jobs are running. */
  ghost predicate SamePointers(s: State, t: State) {
    && (forall n | n in s.nodes :: n in t.nodes)
    && (forall n | n in t.nodes ::
          if n in s.nodes then
            t.nodes[n].runningJobId == s.nodes[n].runningJobId
            && (t.nodes[n].status == Revoked <==> s.nodes[n].status == Revoked)
          else t.nodes[n].runningJobId.None?)
    && (forall n, id :: Runs(s, n, id) <==> Runs(t, n, id))
  }

  lemma PointersFrame(s: State, t: State)
    requires PointersInv(s) && SamePointers(s, t)
    ensures PointersInv(t)
  {
    forall id | id in t.jobs && IsRunningNodeJob(t.jobs[id])
      ensures t.jobs[id].nodeId in t.nodes && t.nodes[t.jobs[id].nodeId].runningJobId == Some(id)
    {
      assert Runs(t, t.jobs[id].nodeId, id);
      assert Runs(s, t.jobs[id].nodeId, id);
    }
  }

  /** No domain becomes flagged, and delete jobs of flagged domains stay active. */
  ghost predicate KeepsDeletions(s: State, t: State) {
    forall d | d in t.domains && t.domains[d].deleting ::
      d in s.domains && s.domains[d].deleting && forall id | DeletesDomain(s, id, d) :: DeletesDomain(t, id, d)
  }

  lemma DeletionFrame(s: State, t: State)
    requires DeletionInv(s) && KeepsDeletions(s, t)
    ensures DeletionInv(t)
  {
    forall d | d in t.domains && t.domains[d].deleting ensures exists id :: DeletesDomain(t, id, d) {
      var id :| DeletesDomain(s, id, d);
      assert DeletesDomain(t, id, d);
    }
  }

  lemma SameJobsMoved(s: State, t: State, now: Time)
    requires t.jobs == s.jobs && t.nextJobId == s.nextJobId
    ensures JobsMoved(s, t, now)
  {
    forall id | id in s.jobs ensures Moved(s.jobs[id], s.jobs[id], now) {
      assert Unmoved(s.jobs[id], s.jobs[id]);
    }
  }

  /** Steps that leave jobs and pointers alone. */
  lemma SameJobsIsOk(s: State, t: State, now: Time)
    requires StateInv(s) && t.jobs == s.jobs && t.nextJobId == s.nextJobId && SamePointers(s, t) && Keyed(t)
    requires forall d | d in t.domains && t.domains[d].deleting :: d in s.domains && s.domains[d].deleting
    ensures StepOk(s, t, now)
  {
    SameJobsMoved(s, t, now);
    LinksFrame(s, t);
    PointersFrame(s, t);
    if DeletionInv(s) {
      assert forall d, id :: DeletesDomain(s, id, d) <==> DeletesDomain(t, id, d);
      DeletionFrame(s, t);
    }
  }

  // ----- Steps that only add jobs and edit domains and certificates -----

  ghost predicate Grows(s: State, t: State, now: Time) {
    && t.nodes == s.nodes && s.nextJobId <= t.nextJobId
    && (forall id | id in s.jobs :: id in t.jobs && t.jobs[id] == s.jobs[id])
    && (forall id | id in t.jobs && id !in s.jobs ::
          s.nextJobId <= id < t.nextJobId && FreshJob(t.jobs[id], id, now) && t.jobs[id].retryOfId.None?)
    && (forall d | d in t.domains && t.domains[d].deleting :: d in s.domains && s.domains[d].deleting)
    && (forall d | d in t.domains :: t.domains[d].id == d)
    && (forall c | c in t.certificates :: t.certificates[c].id == c)
  }

  lemma GrowsIsOk(s: State, t: State, now: Time)
    requires StateInv(s) && Grows(s, t, now)
    ensures StepOk(s, t, now)
  {
    GrowsMovesJobs(s, t, now);
    LinksFrame(s, t);
    assert SamePointers(s, t);
    PointersFrame(s, t);
    if DeletionInv(s) { DeletionFrame(s, t); }
  }

  lemma GrowsMovesJobs(s: State, t: State, now: Time)
    requires Grows(s, t, now)
    ensures JobsMoved(s, t, now)
  {
    forall id | id in s.jobs ensures Moved(s.jobs[id], t.jobs[id], now) {
      assert Unmoved(s.jobs[id], t.jobs[id]);
    }
  }

  lemma GrowsTwice(s: State, t: State, u: State, now: Time)
    requires Grows(s, t, now) && Grows(t, u, now)
    ensures Grows(s, u, now)
  {
  }

  lemma EnqueueGrows(s: State, nodeId: NodeId, domainId: DomainId, payload: Payload, now: Time)
    requires Keyed(s)
    ensures Grows(s, Enqueue(s, nodeId, domainId, payload, now), now)
    ensures Keyed(Enqueue(s, nodeId, domainId, payload, now))
  {
  }

  lemma {:induction false} EnqueueSyncsGrows(
    s: State, nodeIds: seq<NodeId>, domainId: DomainId, certificateId: CertificateId, name: string, now: Time)
    requires Keyed(s)
    ensures Grows(s, EnqueueSyncs(s, nodeIds, domainId, certificateId, name, now), now)
    ensures Keyed(EnqueueSyncs(s, nodeIds, domainId, certificateId, name, now))
    decreases |nodeIds|
  {
    if nodeIds != [] {
      var payload := SyncCertificate(certificateId, name);
      EnqueueGrows(s, nodeIds[0], domainId, payload, now);
      var first := Enqueue(s, nodeIds[0], domainId, payload, now);
      EnqueueSyncsGrows(first, nodeIds[1..], domainId, certificateId, name, now);
      GrowsTwice(s, first, EnqueueSyncs(s, nodeIds, domainId, certificateId, name, now), now);
    }
  }

  lemma EnqueueForDomainGrows(s: State, domain: Domain, payload: Payload, now: Time)
    requires Keyed(s)
    requires domain.deleting ==> domain.id in s.domains && s.domains[domain.id].deleting
    ensures Grows(s, EnqueueForDomain(s, domain, payload, now), now)
    ensures Keyed(EnqueueForDomain(s, domain, payload, now))
  {
  }

  lemma CompleteIssueGrows(s: State, job: Job, issued: Certificate, now: Time)
    requires Keyed(s) && job.payload.IssueCertificate? && CompleteIssue(s, job, issued, now).Some?
    ensures Grows(s, CompleteIssue(s, job, issued, now).value, now)
    ensures Keyed(CompleteIssue(s, job, issued, now).value)
  {
    if job.domainId != "" {
      var domain := s.domains[job.domainId].(certificateId := issued.id);
      EnqueueForDomainGrows(s, domain, ApplyDomain(domain.id, issued.id, None), now);
    } else {
      var nodeIds := job.payload.issueSyncNodeIds;
      var targets := if job.payload.install then AppendUnique(nodeIds, job.nodeId) else nodeIds;
      EnqueueSyncsGrows(s, targets, "", issued.id, issued.domain, now);
    }
  }

  lemma CompleteCaptureGrows(s: State, job: Job, captured: Certificate, now: Time)
    requires Keyed(s) && job.payload.CaptureCertificate? && CompleteCapture(s, job, captured, now).Some?
    ensures Grows(s, CompleteCapture(s, job, captured, now).value, now)
    ensures Keyed(CompleteCapture(s, job, captured, now).value)
  {
    var linked := if job.domainId == "" then s
                  else s.(domains := s.domains[job.domainId := s.domains[job.domainId].(certificateId := captured.id)]);
    assert Grows(s, linked, now) && Keyed(linked);
    EnqueueSyncsGrows(linked, job.payload.captureSyncNodeIds, "", captured.id, captured.domain, now);
    GrowsTwice(s, linked, CompleteCapture(s, job, captured, now).value, now);
  }

  lemma PutDomainGrows(s: State, domain: Domain, now: Time)
    requires Keyed(s) && (domain.deleting ==> domain.id in s.domains && s.domains[domain.id].deleting)
    ensures Grows(s, s.(domains := s.domains[domain.id := domain]), now)
    ensures Keyed(s.(domains := s.domains[domain.id := domain]))
  {
  }

  lemma InstalledGrows(s: State, certificate: Certificate, nodeId: NodeId, now: Time)
    requires Keyed(s)
    ensures Grows(s, Installed(s, certificate, nodeId), now) && Keyed(Installed(s, certificate, nodeId))
  {
  }

  lemma DeployedGrows(s: State, certificateId: CertificateId, nodeId: NodeId, now: Time)
    requires Keyed(s)
    ensures Grows(s, Deployed(s, certificateId, nodeId), now) && Keyed(Deployed(s, certificateId, nodeId))
  {
    hide Grows, Keyed, Installed;
    if certificateId in s.certificates {
      InstalledGrows(s, s.certificates[certificateId], nodeId, now);
    } else {
      GrowsNot(s, now);
    }
  }

  lemma GrowsNot(s: State, now: Time)
    requires Keyed(s)
    ensures Grows(s, s, now)
  {
  }

  lemma RemovedGrows(s: State, domainId: DomainId, now: Time)
    requires Keyed(s)
    ensures Grows(s, s.(domains := s.domains - {domainId}), now) && Keyed(s.(domains := s.domains - {domainId}))
  {
  }

  lemma CompleteApplyGrows(s: State, job: Job, prepared: Option<Certificate>, now: Time)
    requires Keyed(s) && job.payload.ApplyDomain? && CompleteApply(s, job, prepared, now).Some?
    ensures Grows(s, CompleteApply(s, job, prepared, now).value, now)
    ensures Keyed(CompleteApply(s, job, prepared, now).value)
  {
    hide Grows, Installed, CertificateOrZero, EnqueueSyncs;
    var domain := AppliedDomain(s.domains[job.domainId], job, prepared);
    var applied := s.(domains := s.domains[job.domainId := domain]);
    PutDomainGrows(s, domain, now);
    if domain.certificateId != "" {
      var certificate := CertificateOrZero(applied, domain.certificateId);
      var deployed := Installed(applied, certificate, domain.nodeId);
      InstalledGrows(applied, certificate, domain.nodeId, now);
      EnqueueSyncsGrows(deployed, domain.syncNodeIds, domain.id, domain.certificateId, domain.name, now);
      GrowsTwice(applied, deployed, CompleteApply(s, job, prepared, now).value, now);
      GrowsTwice(s, applied, CompleteApply(s, job, prepared, now).value, now);
    }
  }

  lemma RecordedGrows(s: State, prepared: Option<Certificate>, now: Time)
    requires Keyed(s)
    ensures Grows(s, Recorded(s, prepared), now) && Keyed(Recorded(s, prepared))
  {
  }

  /** Completing a job adds follow-up jobs and settles its domain and certificate. */
  lemma CompleteGrows(s: State, job: Job, prepared: Option<Certificate>, now: Time)
    requires Keyed(s) && Complete(s, job, prepared, now).Some?
    ensures Grows(s, Complete(s, job, prepared, now).value, now)
    ensures Keyed(Complete(s, job, prepared, now).value)
  {
    hide Grows, Keyed, CompleteIssue, CompleteCapture, CompleteApply;
    var recorded := Recorded(s, prepared);
    var t := Complete(s, job, prepared, now).value;
    RecordedGrows(s, prepared, now);
    if job.payload.IssueCertificate? {
      CompleteIssueGrows(recorded, job, prepared.value, now);
      GrowsTwice(s, recorded, t, now);
    } else if job.payload.CaptureCertificate? {
      CompleteCaptureGrows(recorded, job, prepared.value, now);
      GrowsTwice(s, recorded, t, now);
    } else if job.payload.ApplyDomain? {
      CompleteApplyGrows(recorded, job, prepared, now);
      GrowsTwice(s, recorded, t, now);
    } else {
      RemovedGrows(recorded, job.domainId, now);
      if job.payload.SyncCertificate? {
        DeployedGrows(recorded, job.payload.syncCertificateId, job.nodeId, now);
      }
      if job.payload.SyncCertificate? || job.payload.DeleteDomain? {
        GrowsTwice(s, recorded, t, now);
      }
    }
  }

  lemma {:induction false} RenewDomainsGrows(s: State, order: seq<DomainId>, now: Time)
    requires Keyed(s)
    ensures Grows(s, RenewDomains(s, order, now), now) && Keyed(RenewDomains(s, order, now))
  {
    if order != [] {
      var n := |order| - 1;
      RenewDomainsGrows(s, order[..n], now);
      var before := RenewDomains(s, order[..n], now);
      if order[n] in before.domains {
        EnqueueForDomainGrows(before, before.domains[order[n]], IssueCertificate(order[n], "", "", "", "", false, []), now);
      }
    }
  }

  lemma {:induction false} RenewCertificatesGrows(s: State, order: seq<CertificateId>, now: Time)
    requires Keyed(s)
    ensures Grows(s, RenewCertificates(s, order, now), now) && Keyed(RenewCertificates(s, order, now))
  {
    if order != [] {
      RenewCertificatesGrows(s, order[..|order| - 1], now);
    }
  }

  // ----- Steps that add jobs and retry links -----

  ghost predicate LinkOnly(j: Job, k: Job) {
    Unmoved(j, k) && LinkMoved(j, k)
  }

  /** Old jobs at most gain a retry link; new jobs are fresh. */
  ghost predicate Extends(s: State, t: State, now: Time) {
    && s.nextJobId <= t.nextJobId
    && (forall id | id in s.jobs :: id in t.jobs && LinkOnly(s.jobs[id], t.jobs[id]))
    && (forall id | id in t.jobs && id !in s.jobs :: s.nextJobId <= id < t.nextJobId && FreshJob(t.jobs[id], id, now))
  }

  lemma ExtendsTwice(s: State, t: State, u: State, now: Time)
    requires Extends(s, t, now) && Extends(t, u, now)
    ensures Extends(s, u, now)
  {
  }

  lemma MovedThenLinked(j: Job, k: Job, l: Job, now: Time)
    requires IsNodeJob(j) ==> j.attempts <= j.maxAttempts
    requires Moved(j, k, now) && LinkOnly(k, l)
    ensures Moved(j, l, now)
  {
    if l != k && IsNodeJob(j) && Observed(j, k, now) {
      assert Ended(j, l, now);
    }
  }

  lemma MovedThenExtends(s: State, t: State, u: State, now: Time)
    requires AttemptsLeft(s) && Keyed(s) && JobsMoved(s, t, now) && Extends(t, u, now)
    ensures JobsMoved(s, u, now)
  {
    hide Moved;
    forall id | id in s.jobs && id in u.jobs ensures Moved(s.jobs[id], u.jobs[id], now) {
      MovedThenLinked(s.jobs[id], t.jobs[id], u.jobs[id], now);
    }
  }

  lemma ExtendsPointers(s: State, t: State, now: Time)
    requires PointersInv(s) && Extends(s, t, now) && t.nodes == s.nodes
    ensures PointersInv(t)
  {
    forall n, id ensures Runs(s, n, id) <==> Runs(t, n, id) {
    }
    PointersFrame(s, t);
  }

  lemma ExtendsDeletions(s: State, t: State, now: Time)
    requires DeletionInv(s) && Extends(s, t, now) && FlagsJustified(s, t)
    ensures DeletionInv(t)
  {
    forall d | d in t.domains && t.domains[d].deleting ensures exists id :: DeletesDomain(t, id, d) {
      if d in s.domains && s.domains[d].deleting {
        var id :| DeletesDomain(s, id, d);
        assert DeletesDomain(t, id, d);
      }
    }
  }

  /** A domain that gets flagged gets its delete job with the flag. */
  ghost predicate FlagsJustified(s: State, t: State) {
    forall d | d in t.domains && t.domains[d].deleting ::
      (d in s.domains && s.domains[d].deleting) || exists id :: DeletesDomain(t, id, d)
  }

  lemma ExtendsMovesJobs(s: State, t: State, now: Time)
    requires Extends(s, t, now)
    ensures JobsMoved(s, t, now)
  {
    forall id | id in s.jobs ensures Moved(s.jobs[id], t.jobs[id], now) {
      assert Unmoved(s.jobs[id], t.jobs[id]);
    }
  }

  lemma ExtendsIsOk(s: State, t: State, now: Time)
    requires StateInv(s) && Extends(s, t, now) && t.nodes == s.nodes && Keyed(t) && LinksInv(t) && FlagsJustified(s, t)
    ensures StepOk(s, t, now)
  {
    hide Keyed, LinksInv, PointersInv, DeletionInv, JobsMoved, Extends, FlagsJustified;
    ExtendsMovesJobs(s, t, now);
    ExtendsPointers(s, t, now);
    if DeletionInv(s) { ExtendsDeletions(s, t, now); }
  }

  lemma LinkRetryKeepsLinks(s: State, id: JobId, retry: Job)
    requires Keyed(s) && LinksInv(s) && id in s.jobs && s.jobs[id].retryJobId.None?
    requires retry.id == s.nextJobId && retry.retryOfId == Some(id) && retry.retryJobId.None?
    ensures LinksInv(LinkRetry(s, id, retry))
  {
    hide Keyed;
    KeyedIsFresh(s);
    var t := LinkRetry(s, id, retry);
    forall a, b | a in t.jobs && b in t.jobs
      ensures t.jobs[a].retryJobId == Some(b) <==> t.jobs[b].retryOfId == Some(a)
    {
      if b == retry.id {
      } else if a == retry.id {
        assert t.jobs[b].retryOfId == s.jobs[b].retryOfId;
      } else {
        assert s.jobs[a].retryJobId == Some(b) <==> s.jobs[b].retryOfId == Some(a);
      }
    }
  }

  lemma KeyedIsFresh(s: State)
    requires Keyed(s)
    ensures forall id | id in s.jobs :: id < s.nextJobId
  {
  }

  /** A retry of a failed job, linked to it both ways. */
  lemma LinkRetryExtends(s: State, id: JobId, retry: Job, now: Time)
    requires Keyed(s) && LinksInv(s) && id in s.jobs && s.jobs[id].status == Failed && s.jobs[id].retryJobId.None?
    requires FreshJob(retry, s.nextJobId, now) && retry.retryOfId == Some(id)
    ensures Extends(s, LinkRetry(s, id, retry), now)
    ensures Keyed(LinkRetry(s, id, retry)) && LinksInv(LinkRetry(s, id, retry))
  {
    hide LinksInv;
    LinkRetryKeepsLinks(s, id, retry);
  }

  lemma GrowsExtends(s: State, t: State, now: Time)
    requires Grows(s, t, now)
    ensures Extends(s, t, now)
  {
  }
}
