/** What a maintenance pass does to each job, node and domain, which jobs it adds, and why. */
module Passes {
  import opened Model
  import opened Text
  import opened Jobs
  import opened UpdateConfirmation
  import opened Protocol
  import opened Transitions
  import opened Invariants
  import opened Preservation
  import opened MaintenanceSteps
  import opened Bystanders
  import opened Renewal
  import opened Results

  // ----- Jobs that are there -----

  /** How long a job of this type may run, in minutes. */
  function MinutesToRun(payload: Payload): int {
    if payload.UpdateSystem? then 90 else if payload.UpdateAtlas? then 30 else 20
  }

  predicate NothingRunsOn(s: State, nodeId: NodeId) {
    forall id | id in s.jobs ::
      !(s.jobs[id].nodeId == nodeId && s.jobs[id].status == Running && !s.jobs[id].payload.IssueCertificate?)
  }

  /** A pass fails a waiting update after 30 minutes; requeues or fails a job that has run for too long, by whether attempts
      are left; fails a job that was queued for more than ten minutes while its node was idle, revoked or gone; and
      leaves every other job as it is. */
  ghost predicate JobAfterPass(s: State, before: Job, after: Job, now: Time) {
    if before.payload.IssueCertificate? then after == before
    else if before.status == Running && before.payload.UpdateAtlas? && before.updateAcceptedAt.Some? then
      if now - before.updateAcceptedAt.value >= 30 * MINUTE
      then after == before.(status := Failed, finishedAt := Some(now), error := after.error) && after.error != ""
      else after == before
    else if before.status == Running then
      if before.startedAt.None? || now - before.startedAt.value <= MinutesToRun(before.payload) * MINUTE then after == before
      else if before.attempts < before.maxAttempts
      then after == before.(status := Queued, queuedAt := Some(now), startedAt := None, error := after.error)
          && after.error != ""
      else after == before.(status := Failed, finishedAt := Some(now), error := after.error) && after.error != ""
    else if before.status == Queued then
      var since := if before.queuedAt.Some? then before.queuedAt.value else before.createdAt;
      if now - since > 10 * MINUTE && (!LiveNode(s, before.nodeId) || NothingRunsOn(s, before.nodeId))
      then after == before.(status := Failed, finishedAt := Some(now), error := after.error) && after.error != ""
      else after == before
    else after == before
  }

  lemma NothingRunsIff(s: State, nodeId: NodeId)
    ensures NothingRunsOn(s, nodeId) <==> !RunningOn(s, nodeId)
  {
    assert forall id :: Runs(s, nodeId, id) <==>
      id in s.jobs && s.jobs[id].nodeId == nodeId && s.jobs[id].status == Running && !s.jobs[id].payload.IssueCertificate?;
  }

  lemma MaintainedIsAfterPass(s: State, job: Job, now: Time)
    ensures JobAfterPass(s, job, MaintainedJob(s, job, now), now)
  {
    NothingRunsIff(s, job.nodeId);
    hide NothingRunsOn, RunningOn, LiveNode;
  }

  /** Over the whole pass only a retry link may come on top. */
  lemma PassMovesJobs(s: State, config: Config, orders: Orders, now: Time, id: JobId)
    requires StateInv(s) && AttemptsLeft(s) && id in s.jobs
    ensures
      var t := Maintain(s, config, orders, now);
      id in t.jobs && JobAfterPass(s, s.jobs[id], t.jobs[id].(retryJobId := s.jobs[id].retryJobId), now)
  {
    hide StateInv, AttemptsLeft, Maintain, MaintainedJob, JobAfterPass;
    MaintenanceStep(s, config, orders, now, id);
    MaintainedIsAfterPass(s, s.jobs[id], now);
    KeepsLink(s, s.jobs[id], now);
  }

  lemma KeepsLink(s: State, job: Job, now: Time)
    ensures MaintainedJob(s, job, now).retryJobId == job.retryJobId
  {
  }

  // ----- Domains -----

  /** The pass fails this delete job of the domain. */
  ghost predicate DeletionFails(s: State, t: State, id: JobId, domainId: DomainId) {
    && id in s.jobs && s.jobs[id].payload.DeleteDomain? && s.jobs[id].domainId == domainId && IsActive(s.jobs[id])
    && id in t.jobs && t.jobs[id].status == Failed
  }

  /** A pass keeps every domain as it is, but for its last job and for one whose deletion it fails: that is no longer being
      deleted, and enabled if it has a node. */
  lemma PassMovesDomains(s: State, config: Config, orders: Orders, now: Time, d: DomainId)
    requires StateInv(s) && AttemptsLeft(s) && d in s.domains
    ensures
      var t := Maintain(s, config, orders, now);
      && d in t.domains
      && var before, after := s.domains[d], t.domains[d];
      var fails := exists id :: DeletionFails(s, t, id, d);
      after == before.(lastJobId := after.lastJobId, deleting := before.deleting && !fails,
                       enabled := if fails then before.nodeId != "" else before.enabled)
  {
    hide StateInv, AttemptsLeft, MaintainedJob, DeletionInv, Recover, RenewDomains, RenewCertificates, LinkOnly;
    var t := Maintain(s, config, orders, now);
    var o := MarkOffline(s, config, now);
    var m := MaintainJobs(o, now);
    PassSchedules(s, config, orders, now);
    forall id ensures FailsDeletion(o, id, d, now) <==> DeletionFails(s, t, id, d) {
      if id in s.jobs {
        MaintenanceStep(s, config, orders, now, id);
        MarkingChangesNoJob(s, config, s.jobs[id], now);
        LinkKeepsStatus(MaintainedJob(s, s.jobs[id], now), t.jobs[id]);
      }
    }
    assert s.domains[d].id == d by { KeyedDomain(s, d); }
  }

  lemma LinkKeepsStatus(j: Job, k: Job)
    requires LinkOnly(j, k)
    ensures k.status == j.status
  {
  }

  lemma KeyedDomain(s: State, d: DomainId)
    requires StateInv(s) && d in s.domains
    ensures s.domains[d].id == d
  {
  }

  lemma PassSchedules(s: State, config: Config, orders: Orders, now: Time)
    requires StateInv(s) && AttemptsLeft(s)
    ensures
      var m, t := MaintainJobs(MarkOffline(s, config, now), now), Maintain(s, config, orders, now);
      t.domains.Keys == m.domains.Keys && forall d | d in m.domains :: t.domains[d] == m.domains[d].(lastJobId :=
          t.domains[d].lastJobId)
  {
    hide LinksInv, PointersInv, DeletionInv, JobsMoved, MaintainedJob, Recover, RenewDomains, RenewCertificates,
        Keyed, Extends;
    OfflineThenMaintainedIsOk(s, config, now);
    var m := MaintainJobs(MarkOffline(s, config, now), now);
    RecoverExtends(m, orders.jobs, config, now);
    var r := Recover(m, orders.jobs, config, now);
    RenewDomainsCovers(r, orders.domains, now);
    RenewCertificatesCovers(RenewDomains(r, orders.domains, now), orders.certificates, now);
  }

  // ----- Renewals -----

  predicate IssueUnderway(s: State, d: DomainId) {
    exists id | id in s.jobs ::
      s.jobs[id].domainId == d && s.jobs[id].payload.IssueCertificate?
          && (s.jobs[id].status == Queued || s.jobs[id].status == Running)
  }

  /** The domain renews automatically, has what that takes, and has no certificate that lasts longer than the days it
      renews before: 30 unless set. */
  predicate RunsOut(s: State, d: DomainId, now: Time)
    requires d in s.domains
  {
    var domain := s.domains[d];
    && domain.autoRenew && domain.nodeId in s.nodes && s.nodes[domain.nodeId].status != Revoked
    && domain.acmeAccountId != "" && domain.acmeAccountId in s.acmeAccounts
    && domain.dnsAccountId != "" && domain.dnsAccountId in s.dnsAccounts
    && (domain.certificateId !in s.certificates
        || s.certificates[domain.certificateId].notAfter <=
             now + (if domain.renewBeforeDays == 0 then 30 else domain.renewBeforeDays) * DAY)
  }

  /** A new issue job for the domain, which is its last job now. */
  ghost predicate RenewsDomain(s: State, t: State, id: JobId, d: DomainId, now: Time) {
    && d in s.domains && d in t.domains && id in t.jobs && id !in s.jobs
    && t.jobs[id] == Job(id, s.domains[d].nodeId, d, IssueCertificate(d, "", "", "", "", false, []), Queued, 0, 3, "", now,
                         Some(now), None, None, None, None, None, None, None)
    && t.domains[d].lastJobId == Some(id)
  }

  ghost predicate RenewsJust(s: State, t: State, order: seq<DomainId>, now: Time) {
    && (forall id | id in t.jobs && id !in s.jobs :: RenewsDomain(s, t, id, t.jobs[id].domainId, now))
    && forall d | d in s.domains ::
         (exists id :: RenewsDomain(s, t, id, d, now)) <==> d in order && RunsOut(s, d, now) && !IssueUnderway(s, d)
  }

  lemma DueIffRunsOut(s: State, d: DomainId, now: Time)
    requires d in s.domains
    ensures DomainDue(s, s.domains[d], now) <==> RunsOut(s, d, now)
    ensures HasActiveJob(s, d) <==> IssueUnderway(s, d)
  {
  }

  /** A job added for one domain is the renewal of that domain and of no other. */
  lemma AddedRenewal(s: State, m: State, d: DomainId, now: Time)
    requires Keyed(s) && Keyed(m) && Schedules(s, m) && RenewDomain(m, d, now) != m
    ensures
      var t := RenewDomain(m, d, now);
      && d in s.domains && RenewsDomain(s, t, m.nextJobId, d, now) && t.jobs == m.jobs[m.nextJobId := t.jobs[m.nextJobId]]
      && t.jobs[m.nextJobId].domainId == d
      && forall id, e | e != d :: RenewsDomain(s, t, id, e, now) <==> RenewsDomain(s, m, id, e, now)
  {
    hide DomainDue, HasActiveJob;
  }

  lemma OneRenewalMore(s: State, m: State, order: seq<DomainId>, d: DomainId, now: Time)
    requires Keyed(s) && Keyed(m) && Schedules(s, m) && RenewsJust(s, m, order, now)
    ensures RenewsJust(s, RenewDomain(m, d, now), order + [d], now)
  {
    DueIsStable(s, m, now);
    if d in s.domains {
      DueIffRunsOut(s, d, now);
      UnderwayIff(s, m, order, d, now);
    }
    var t := RenewDomain(m, d, now);
    var adds := d in s.domains && RunsOut(s, d, now) && !IssueUnderway(s, d) && !exists id :: RenewsDomain(s, m, id, d, now);
    assert t != m <==> adds by { RenewsWhenDue(m, d, now); }
    hide DomainDue, HasActiveJob, RunsOut, IssueUnderway, RenewDomain, RenewsDomain, Keyed, Schedules;
    if t == m {
      AddedNothing(s, m, order, d, now);
    } else {
      AddedRenewal(s, m, d, now);
      AddedOne(s, m, t, order, d, now);
    }
  }

  lemma RenewsWhenDue(m: State, d: DomainId, now: Time)
    requires Keyed(m)
    ensures RenewDomain(m, d, now) != m <==> d in m.domains && DomainDue(m, m.domains[d], now) && !HasActiveJob(m, d)
  {
    hide DomainDue, HasActiveJob;
  }

  lemma AddedNothing(s: State, m: State, order: seq<DomainId>, d: DomainId, now: Time)
    requires RenewsJust(s, m, order, now)
    requires d in s.domains && RunsOut(s, d, now) && !IssueUnderway(s, d) ==> exists id :: RenewsDomain(s, m, id, d, now)
    ensures RenewsJust(s, m, order + [d], now)
  {
    hide RunsOut, IssueUnderway, RenewsDomain;
  }

  lemma AddedOne(s: State, m: State, t: State, order: seq<DomainId>, d: DomainId, now: Time)
    requires RenewsJust(s, m, order, now) && d in s.domains && RunsOut(s, d, now) && !IssueUnderway(s, d)
    requires !exists id :: RenewsDomain(s, m, id, d, now)
    requires m.nextJobId in t.jobs && t.jobs == m.jobs[m.nextJobId := t.jobs[m.nextJobId]]
        && t.jobs[m.nextJobId].domainId == d
    requires RenewsDomain(s, t, m.nextJobId, d, now)
    requires forall id, e | e != d :: RenewsDomain(s, t, id, e, now) <==> RenewsDomain(s, m, id, e, now)
    ensures RenewsJust(s, t, order + [d], now)
  {
    hide RunsOut, IssueUnderway, RenewsDomain;
    forall id | id in t.jobs && id !in s.jobs ensures RenewsDomain(s, t, id, t.jobs[id].domainId, now) {
      if id != m.nextJobId { assert RenewsDomain(s, m, id, m.jobs[id].domainId, now); }
    }
  }

  /** In the loop an issue is under way for the domain exactly if one was before or one has been added. */
  lemma UnderwayIff(s: State, m: State, order: seq<DomainId>, d: DomainId, now: Time)
    requires Keyed(s) && Keyed(m) && Schedules(s, m) && RenewsJust(s, m, order, now) && d in s.domains
    ensures HasActiveJob(m, d) <==> IssueUnderway(s, d) || exists id :: RenewsDomain(s, m, id, d, now)
  {
    hide RunsOut;
    if IssueUnderway(s, d) {
      var id :| id in s.jobs && s.jobs[id].domainId == d && s.jobs[id].payload.IssueCertificate? && IsActive(s.jobs[id]);
      assert m.jobs[id] == s.jobs[id];
    }
    if HasActiveJob(m, d) {
      var id :| id in m.jobs && m.jobs[id].domainId == d && m.jobs[id].payload.IssueCertificate? && IsActive(m.jobs[id]);
      assert id in s.jobs || RenewsDomain(s, m, id, d, now);
    }
  }

  /** The domain loop adds an issue job for exactly those domains it visits that run out and have none under way, and no
      other job. */
  lemma {:induction false} DomainLoopRenewsJust(s: State, order: seq<DomainId>, now: Time)
    requires Keyed(s)
    ensures RenewsJust(s, RenewDomains(s, order, now), order, now)
  {
    hide Keyed, RenewDomain, RenewsJust;
    if order == [] {
      NothingRenewed(s, now);
    } else {
      var n := |order| - 1;
      DomainLoopRenewsJust(s, order[..n], now);
      RenewDomainsCovers(s, order[..n], now);
      OneRenewalMore(s, RenewDomains(s, order[..n], now), order[..n], order[n], now);
      assert order[..n] + [order[n]] == order;
    }
  }

  lemma NothingRenewed(s: State, now: Time)
    ensures RenewsJust(s, s, [], now)
  {
  }

  predicate CertificateUnderway(s: State, c: CertificateId) {
    exists id | id in s.jobs ::
      && s.jobs[id].payload.IssueCertificate? && s.jobs[id].payload.issueCertificateId == c
      && (s.jobs[id].status == Queued || s.jobs[id].status == Running)
  }

  /** The certificate renews by itself, unless an automatically renewing domain uses it, has what that takes, and does not
      last longer than the days it renews before. */
  predicate CertificateRunsOut(s: State, c: CertificateId, now: Time)
    requires c in s.certificates
  {
    var certificate := s.certificates[c];
    && certificate.autoRenew
    && (certificate.id == "" ||
        forall d | d in s.domains :: !(s.domains[d].autoRenew && s.domains[d].certificateId == certificate.id))
    && certificate.issuerNodeId != "" && certificate.issuerNodeId in s.nodes
        && s.nodes[certificate.issuerNodeId].status != Revoked
    && certificate.acmeAccountId != "" && certificate.acmeAccountId in s.acmeAccounts
    && certificate.dnsAccountId != "" && certificate.dnsAccountId in s.dnsAccounts
    && certificate.notAfter <= now + (if certificate.renewBeforeDays == 0 then 30 else certificate.renewBeforeDays) * DAY
  }

  /** A new issue job on the issuer of the certificate, to be installed there and sent to the other nodes that have it. */
  ghost predicate RenewsCertificate(s: State, t: State, id: JobId, c: CertificateId, now: Time) {
    && c in s.certificates && id in t.jobs && id !in s.jobs
    && var due := s.certificates[c];
       t.jobs[id] == Job(id, due.issuerNodeId, "",
                         IssueCertificate("", due.domain, c, due.acmeAccountId, due.dnsAccountId, true,
                                          Without(due.deployedNodeIds, due.issuerNodeId)),
                         Queued, 0, 3, "", now, Some(now), None, None, None, None, None, None, None)
  }

  ghost predicate RenewsOnlyDue(s: State, t: State, order: seq<CertificateId>, now: Time) {
    forall id | id in t.jobs && id !in s.jobs ::
      && t.jobs[id].payload.IssueCertificate?
      && var c := t.jobs[id].payload.issueCertificateId;
         c in order && RenewsCertificate(s, t, id, c, now) && CertificateRunsOut(s, c, now) && !CertificateUnderway(s, c)
  }

  lemma CertificateDueIffRunsOut(s: State, c: CertificateId, now: Time)
    requires c in s.certificates
    ensures CertificateDue(s, s.certificates[c], now) <==> CertificateRunsOut(s, c, now)
    ensures HasActiveCertificateJob(s, c) <==> CertificateUnderway(s, c)
  {
  }

  lemma OneCertificateMore(s: State, m: State, order: seq<CertificateId>, c: CertificateId, now: Time)
    requires Keyed(s) && Keyed(m) && Schedules(s, m) && RenewsOnlyDue(s, m, order, now)
    ensures RenewsOnlyDue(s, RenewCertificate(m, c, now), order + [c], now)
  {
    DueIsStable(s, m, now);
    if c in s.certificates {
      CertificateDueIffRunsOut(s, c, now);
    }
    hide CertificateDue, HasActiveCertificateJob, CertificateRunsOut, CertificateUnderway, Without;
  }

  lemma {:induction false} CertificatesRenewedAreDue(s: State, order: seq<CertificateId>, now: Time)
    requires Keyed(s)
    ensures RenewsOnlyDue(s, RenewCertificates(s, order, now), order, now)
  {
    hide Keyed, RenewCertificate, RenewsOnlyDue;
    if order == [] {
      NoCertificateRenewed(s, now);
    } else {
      var n := |order| - 1;
      CertificatesRenewedAreDue(s, order[..n], now);
      RenewCertificatesCovers(s, order[..n], now);
      OneCertificateMore(s, RenewCertificates(s, order[..n], now), order[..n], order[n], now);
      assert order[..n] + [order[n]] == order;
    }
  }

  lemma NoCertificateRenewed(s: State, now: Time)
    ensures RenewsOnlyDue(s, s, [], now)
  {
  }

  /** The certificate loop adds an issue job for exactly those certificates it visits that run out and have none under
      way, and no other job. */
  lemma CertificateLoopRenewsJust(s: State, order: seq<CertificateId>, now: Time)
    requires Keyed(s)
    ensures
      var t := RenewCertificates(s, order, now);
      && (forall id | id in t.jobs && id !in s.jobs ::
            t.jobs[id].payload.IssueCertificate? && RenewsCertificate(s, t, id, t.jobs[id].payload.issueCertificateId, now))
      && forall c | c in s.certificates ::
           (exists id :: RenewsCertificate(s, t, id, c, now)) <==>
             c in order && CertificateRunsOut(s, c, now) && !CertificateUnderway(s, c)
  {
    hide Keyed, RenewCertificates, CertificateRunsOut, CertificateDue;
    var t := RenewCertificates(s, order, now);
    CertificatesRenewedAreDue(s, order, now);
    RenewCertificatesCovers(s, order, now);
    forall c | c in s.certificates
      ensures (exists id :: RenewsCertificate(s, t, id, c, now)) <==>
        c in order && CertificateRunsOut(s, c, now) && !CertificateUnderway(s, c)
    {
      CertificateDueIffRunsOut(s, c, now);
      if c in order && CertificateRunsOut(s, c, now) && !CertificateUnderway(s, c) {
        var id :| id in t.jobs && t.jobs[id].payload.IssueCertificate? && IsActive(t.jobs[id])
            && t.jobs[id].payload.issueCertificateId == c;
        assert id !in s.jobs;
      }
    }
  }

  // ----- Wildcard recovery -----

  /** A wildcard certificate could not be installed because the agent did not know such names, it is still the domain's
      latest, and by now nothing stands in the way: the node is online, healthy, idle and recent enough. */
  predicate CanBeRecovered(s: State, id: JobId, config: Config, now: Time) {
    && id in s.jobs
    && var job := s.jobs[id];
    && job.status == Failed && job.retryOfId == None && job.retryJobId == None && job.payload.SyncCertificate?
    && TrimSpace(job.error) == "invalid certificate domain: invalid domain"
    && |job.payload.syncName| >= 2 && job.payload.syncName[..2] == "*."
    && job.nodeId in s.nodes
    && var node := s.nodes[job.nodeId];
    && node.status == Online && node.nginxHealthy && config.supportsWildcardSync(node.agentVersion)
    && (forall k | k in s.jobs && s.jobs[k].nodeId == node.id :: s.jobs[k].status == Failed || s.jobs[k].status == Succeeded)
    && job.payload.syncCertificateId in s.certificates
    && var certificate := s.certificates[job.payload.syncCertificateId];
    && certificate.domain == job.payload.syncName && job.payload.syncName in certificate.dnsNames
    && now < certificate.notAfter && node.id !in certificate.deployedNodeIds
    && forall c | c in s.certificates && s.certificates[c].domain == certificate.domain
        && s.certificates[c].id != certificate.id ::
         s.certificates[c].createdAt <= certificate.createdAt
  }

  lemma RecoverableIff(s: State, id: JobId, config: Config, now: Time)
    ensures CanBeRecovered(s, id, config, now) <==> id in s.jobs && Recoverable(s, s.jobs[id], config, now)
  {
    if id in s.jobs && s.jobs[id].nodeId in s.nodes {
      assert HasAnyActiveNodeJob(s, s.nodes[s.jobs[id].nodeId].id) <==>
        !forall k | k in s.jobs && s.jobs[k].nodeId == s.nodes[s.jobs[id].nodeId].id :: s.jobs[k].status == Failed || s.jobs[k].status == Succeeded;
    }
  }

  /** Recovering a job queues a sync of the same certificate to the same node, linked both ways; any other job is left. */
  lemma RecoveryOfOne(s: State, id: JobId, config: Config, now: Time)
    requires Keyed(s)
    ensures
      var t := RecoverJob(s, id, config, now);
      if CanBeRecovered(s, id, config, now) then
        var failed := s.jobs[id];
        var retry := Job(s.nextJobId, failed.nodeId, failed.domainId, failed.payload, Queued, 0, 3, "", now,
            Some(now), None, None,
                         Some(id), None, None, None, None);
        t == s.(jobs := s.jobs[id := failed.(retryJobId := Some(s.nextJobId))][s.nextJobId := retry], nextJobId :=
            s.nextJobId + 1)
      else t == s
  {
    RecoverableIff(s, id, config, now);
    hide CanBeRecovered, HasAnyActiveNodeJob, IsLatestCertificateForDomain;
  }

  /** What can be recovered later could be before: jobs are only added and links only set. */
  lemma RecoveryNarrows(s: State, id: JobId, k: JobId, config: Config, now: Time)
    requires Keyed(s) && CanBeRecovered(RecoverJob(s, id, config, now), k, config, now)
    ensures CanBeRecovered(s, k, config, now) && k != id
  {
    RecoveryOfOne(s, id, config, now);
    var t := RecoverJob(s, id, config, now);
    if CanBeRecovered(s, id, config, now) {
      assert t.jobs[id].retryJobId.Some? && t.jobs[s.nextJobId].retryOfId.Some?;
      forall j | j in s.jobs && s.jobs[j].nodeId == t.nodes[t.jobs[k].nodeId].id
        ensures s.jobs[j].status == Failed || s.jobs[j].status == Succeeded
      {
        assert t.jobs[j].nodeId == s.jobs[j].nodeId && t.jobs[j].status == s.jobs[j].status;
      }
    }
  }

  lemma RecoveryWidensNot(s: State, id: JobId, k: JobId, config: Config, now: Time)
    requires Keyed(s) && (k == id || !CanBeRecovered(s, k, config, now))
    ensures !CanBeRecovered(RecoverJob(s, id, config, now), k, config, now)
  {
    hide CanBeRecovered, RecoverJob;
    if CanBeRecovered(RecoverJob(s, id, config, now), k, config, now) {
      RecoveryNarrows(s, id, k, config, now);
    }
  }

  /** After the loop no job that it visited can still be recovered. */
  lemma {:induction false} RecoveryLeavesNone(s: State, order: seq<JobId>, config: Config, now: Time)
    requires Keyed(s) && LinksInv(s)
    ensures forall id | id in order :: !CanBeRecovered(Recover(s, order, config, now), id, config, now)
  {
    hide Keyed, LinksInv, CanBeRecovered, RecoverJob;
    if order != [] {
      var n := |order| - 1;
      RecoveryLeavesNone(s, order[..n], config, now);
      RecoverExtends(s, order[..n], config, now);
      var m := Recover(s, order[..n], config, now);
      forall id | id in order ensures !CanBeRecovered(RecoverJob(m, order[n], config, now), id, config, now) {
        assert id == order[n] || id in order[..n];
        RecoveryWidensNot(m, order[n], id, config, now);
      }
    }
  }

  /** Scheduling issues makes nothing recoverable. */
  lemma SchedulingWidensNot(r: State, t: State, id: JobId, config: Config, now: Time)
    requires Schedules(r, t) && id in r.jobs && CanBeRecovered(t, id, config, now)
    ensures CanBeRecovered(r, id, config, now)
  {
    assert forall k | k in r.jobs :: t.jobs[k] == r.jobs[k];
  }

  /** The same holds after the whole pass, for all jobs that there were. */
  lemma PassRecoversAll(s: State, config: Config, orders: Orders, now: Time)
    requires StateInv(s) && AttemptsLeft(s) && forall id | id in s.jobs :: id in orders.jobs
    ensures forall id | id in s.jobs :: !CanBeRecovered(Maintain(s, config, orders, now), id, config, now)
  {
    hide LinksInv, PointersInv, DeletionInv, JobsMoved, MaintainedJob, Recover, RenewDomains, RenewCertificates,
        Keyed, Extends,
      CanBeRecovered, Schedules;
    OfflineThenMaintainedIsOk(s, config, now);
    var m := MaintainJobs(MarkOffline(s, config, now), now);
    RecoverExtends(m, orders.jobs, config, now);
    RecoveryLeavesNone(m, orders.jobs, config, now);
    var r := Recover(m, orders.jobs, config, now);
    var d := RenewDomains(r, orders.domains, now);
    var t := RenewCertificates(d, orders.certificates, now);
    RenewDomainsCovers(r, orders.domains, now);
    RenewCertificatesCovers(d, orders.certificates, now);
    SchedulesTwice(r, d, t);
    forall id | id in s.jobs ensures !CanBeRecovered(t, id, config, now) {
      ExtendsKeepsJob(m, r, id, now);
      NotRecoverableLater(r, t, id, config, now);
    }
  }

  lemma ExtendsKeepsJob(m: State, r: State, id: JobId, now: Time)
    requires Extends(m, r, now) && id in m.jobs
    ensures id in r.jobs
  {
  }

  lemma NotRecoverableLater(r: State, t: State, id: JobId, config: Config, now: Time)
    requires Schedules(r, t) && id in r.jobs && !CanBeRecovered(r, id, config, now)
    ensures !CanBeRecovered(t, id, config, now)
  {
    hide CanBeRecovered, Schedules;
    if CanBeRecovered(t, id, config, now) {
      SchedulingWidensNot(r, t, id, config, now);
    }
  }
}
