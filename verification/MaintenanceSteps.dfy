/** A maintenance pass keeps the invariants. */
module MaintenanceSteps {
  import opened Model
  import opened Jobs
  import opened UpdateConfirmation
  import opened Protocol
  import opened Transitions
  import opened Invariants
  import opened Preservation

  lemma MarkOfflineIsOk(s: State, config: Config, now: Time)
    requires StateInv(s)
    ensures StepOk(s, MarkOffline(s, config, now), now)
  {
    SameJobsIsOk(s, MarkOffline(s, config, now), now);
  }

  lemma MaintainedJobMoves(s: State, job: Job, now: Time)
    requires IsNodeJob(job) ==> job.attempts <= job.maxAttempts
    ensures Moved(job, MaintainedJob(s, job, now), now)
    ensures SameIdentity(job, MaintainedJob(s, job, now))
    ensures MaintainedJob(s, job, now).retryJobId == job.retryJobId
    ensures MaintainedJob(s, job, now).status == Running <==> job.status == Running && !TimedOut(job, now)
  {
    var k := MaintainedJob(s, job, now);
    if TimedOut(job, now) && AwaitingUpdateConfirmation(job) {
      assert Ended(job, k, now);
    } else if TimedOut(job, now) {
      assert Requeued(job, k, now) || Ended(job, k, now);
    } else if QueueExpired(s, job, now) {
      assert Ended(job, k, now);
    } else {
      assert Unmoved(job, k);
    }
  }

  lemma MaintainJobsPointers(s: State, now: Time)
    requires StateInv(s) && AttemptsLeft(s)
    ensures PointersInv(MaintainJobs(s, now))
  {
    var t := MaintainJobs(s, now);
    forall id | id in s.jobs
      ensures t.jobs[id].nodeId == s.jobs[id].nodeId && t.jobs[id].payload == s.jobs[id].payload
      ensures t.jobs[id].status == Running <==> s.jobs[id].status == Running && !TimedOut(s.jobs[id], now)
    {
      MaintainedJobMoves(s, s.jobs[id], now);
    }
  }

  lemma MaintainJobsDeletions(s: State, now: Time)
    requires StateInv(s) && AttemptsLeft(s)
    ensures KeepsDeletions(s, MaintainJobs(s, now))
  {
    var t := MaintainJobs(s, now);
    forall d, id | d in t.domains && t.domains[d].deleting && DeletesDomain(s, id, d) ensures DeletesDomain(t, id, d) {
      assert !FailsDeletion(s, id, d, now);
      MaintainedJobMoves(s, s.jobs[id], now);
    }
  }

  lemma MaintainJobsIsOk(s: State, now: Time)
    requires StateInv(s) && AttemptsLeft(s)
    ensures StepOk(s, MaintainJobs(s, now), now)
  {
    hide PointersInv, LinksInv, DeletionInv, Moved, MaintainedJob;
    var t := MaintainJobs(s, now);
    forall id | id in s.jobs
      ensures Moved(s.jobs[id], t.jobs[id], now) && SameIdentity(s.jobs[id], t.jobs[id])
      ensures t.jobs[id].retryJobId == s.jobs[id].retryJobId
    {
      MaintainedJobMoves(s, s.jobs[id], now);
    }
    assert NoNewLinks(s, t);
    LinksFrame(s, t);
    MaintainJobsPointers(s, now);
    if DeletionInv(s) {
      MaintainJobsDeletions(s, now);
      DeletionFrame(s, t);
    }
  }

  // ----- Wildcard recovery -----

  lemma {:induction false} RecoverExtends(s: State, order: seq<JobId>, config: Config, now: Time)
    requires Keyed(s) && LinksInv(s)
    ensures var t := Recover(s, order, config, now);
      && Extends(s, t, now) && Keyed(t) && LinksInv(t)
      && t == s.(jobs := t.jobs, nextJobId := t.nextJobId)
  {
    hide LinksInv, Keyed, Recoverable;
    if order != [] {
      var n := |order| - 1;
      RecoverExtends(s, order[..n], config, now);
      var before := Recover(s, order[..n], config, now);
      RecoverJobExtends(before, order[n], config, now);
      ExtendsTwice(s, before, Recover(s, order, config, now), now);
    }
  }

  lemma RecoverJobExtends(s: State, id: JobId, config: Config, now: Time)
    requires Keyed(s) && LinksInv(s)
    ensures var t := RecoverJob(s, id, config, now);
      && Extends(s, t, now) && Keyed(t) && LinksInv(t)
      && t == s.(jobs := t.jobs, nextJobId := t.nextJobId)
  {
    hide LinksInv;
    if id in s.jobs && Recoverable(s, s.jobs[id], config, now) {
      var failed := s.jobs[id];
      var certificate := s.certificates[failed.payload.syncCertificateId];
      var retry := NewJob(s.nextJobId, failed.nodeId, failed.domainId, SyncCertificate(certificate.id, certificate.domain), now)
        .(retryOfId := Some(failed.id));
      LinkRetryExtends(s, id, retry, now);
    }
  }

  /** The renewal half of a pass only adds issue jobs. */
  lemma RenewalsGrow(s: State, orders: Orders, now: Time)
    requires Keyed(s)
    ensures var t := RenewCertificates(RenewDomains(s, orders.domains, now), orders.certificates, now);
      Grows(s, t, now) && Keyed(t)
  {
    hide Grows, Keyed;
    RenewDomainsGrows(s, orders.domains, now);
    var renewed := RenewDomains(s, orders.domains, now);
    RenewCertificatesGrows(renewed, orders.certificates, now);
    GrowsTwice(s, renewed, RenewCertificates(renewed, orders.certificates, now), now);
  }

  lemma RecoverIsOk(s: State, m: State, order: seq<JobId>, config: Config, now: Time)
    requires StateInv(s) && AttemptsLeft(s) && StepOk(s, m, now)
    ensures StepOk(s, Recover(m, order, config, now), now)
  {
    hide Keyed, LinksInv, PointersInv, DeletionInv, JobsMoved, Extends, AttemptsLeft;
    var t := Recover(m, order, config, now);
    RecoverExtends(m, order, config, now);
    MovedThenExtends(s, m, t, now);
    ExtendsPointers(m, t, now);
    if DeletionInv(m) { ExtendsDeletions(m, t, now); }
  }

  lemma GrowsLater(s: State, m: State, t: State, now: Time)
    requires StateInv(s) && AttemptsLeft(s) && StepOk(s, m, now) && Grows(m, t, now)
    ensures StepOk(s, t, now)
  {
    hide Keyed, LinksInv, PointersInv, DeletionInv, JobsMoved, Extends, AttemptsLeft, Grows;
    GrowsIsOk(m, t, now);
    GrowsExtends(m, t, now);
    MovedThenExtends(s, m, t, now);
  }

  lemma OfflineThenMaintainedIsOk(s: State, config: Config, now: Time)
    requires StateInv(s) && AttemptsLeft(s)
    ensures StepOk(s, MaintainJobs(MarkOffline(s, config, now), now), now)
  {
    hide Keyed, LinksInv, PointersInv, DeletionInv, Moved, MaintainJobs;
    var m := MarkOffline(s, config, now);
    MarkOfflineIsOk(s, config, now);
    MaintainJobsIsOk(m, now);
    assert forall id :: Clearable(s, id) <==> Clearable(m, id);
  }

  lemma MaintainIsOk(s: State, config: Config, orders: Orders, now: Time)
    requires StateInv(s) && AttemptsLeft(s)
    ensures StepOk(s, Maintain(s, config, orders, now), now)
  {
    hide Keyed, LinksInv, PointersInv, DeletionInv, JobsMoved, AttemptsLeft, Grows, MaintainJobs, MarkOffline,
         Recover, RenewDomains, RenewCertificates;
    OfflineThenMaintainedIsOk(s, config, now);
    var m := MaintainJobs(MarkOffline(s, config, now), now);
    RecoverIsOk(s, m, orders.jobs, config, now);
    var r := Recover(m, orders.jobs, config, now);
    RenewalsGrow(r, orders, now);
    GrowsLater(s, r, Maintain(s, config, orders, now), now);
  }
}
