/** Facts the controller keeps in every reachable state without ever stating them. */
module Invariants {
  import opened Model
  import opened Jobs
  import opened UpdateConfirmation
  import opened Protocol
  import opened Transitions

  // ----- The invariants -----

  /** Records sit under their own ids, and job ids are issued in order. */
  ghost predicate Keyed(s: State) {
    && (forall n | n in s.nodes :: s.nodes[n].id == n)
    && (forall d | d in s.domains :: s.domains[d].id == d)
    && (forall c | c in s.certificates :: s.certificates[c].id == c)
    && (forall id | id in s.jobs :: s.jobs[id].id == id && id < s.nextJobId)
  }

  /** One job on its own: bounded attempts, timestamps from the past, and what its status allows. */
  ghost predicate JobInv(job: Job, clock: Time) {
    && (job.retryJobId.Some? ==> job.status == Failed)
    && (IsNodeJob(job) ==> NodeJobInv(job, clock))
  }

  ghost predicate NodeJobInv(job: Job, clock: Time) {
    && 1 <= job.maxAttempts && job.attempts <= job.maxAttempts
    && (job.status == Queued ==> job.attempts < job.maxAttempts)
    && job.createdAt <= clock && QueueTime(job) <= clock
    && (job.startedAt.Some? ==> job.startedAt.value <= clock)
    && (job.status == Running ==> job.startedAt.Some?)
    && (job.updateAcceptedAt.Some? ==>
          job.payload.UpdateAtlas? && job.status != Queued && job.updateAcceptedAt.value <= clock)
    && (job.updateAcceptedAt.None? ==> job.updateVersionSeenAt.None? && job.updateLastReportAt.None?)
  }

  ghost predicate JobsInv(s: State, clock: Time) {
    forall id | id in s.jobs :: JobInv(s.jobs[id], clock)
  }

  /** A node's RunningJobID and the running node jobs name each other exactly. */
  ghost predicate PointersInv(s: State) {
    && (forall id | id in s.jobs && IsRunningNodeJob(s.jobs[id]) ::
          s.jobs[id].nodeId in s.nodes && s.nodes[s.jobs[id].nodeId].runningJobId == Some(id))
    && (forall n | n in s.nodes && s.nodes[n].runningJobId.Some? :: Runs(s, n, s.nodes[n].runningJobId.value))
    && (forall n | n in s.nodes && s.nodes[n].status == Revoked :: s.nodes[n].runningJobId.None?)
  }

  /** Retry links point both ways between jobs that are still there, and only forward in time. */
  ghost predicate LinksInv(s: State) {
    && (forall id | id in s.jobs && s.jobs[id].retryOfId.Some? :: s.jobs[id].retryOfId.value < id)
    && (forall id | id in s.jobs && s.jobs[id].retryJobId.Some? :: id < s.jobs[id].retryJobId.value < s.nextJobId)
    && (forall id, retry | id in s.jobs && retry in s.jobs ::
          s.jobs[id].retryJobId == Some(retry) <==> s.jobs[retry].retryOfId == Some(id))
  }

  ghost predicate DeletesDomain(s: State, id: JobId, domainId: DomainId) {
    id in s.jobs && s.jobs[id].payload.DeleteDomain? && s.jobs[id].domainId == domainId && IsActive(s.jobs[id])
  }

  /** A domain is flagged as being deleted only while a delete job for it is queued or running. */
  ghost predicate DeletionInv(s: State) {
    forall d | d in s.domains && s.domains[d].deleting :: exists id :: DeletesDomain(s, id, d)
  }

  ghost predicate Inv(sys: System) {
    Keyed(sys.state) && JobsInv(sys.state, sys.clock) && PointersInv(sys.state) && LinksInv(sys.state)
  }

  // ----- How one step can move one job -----

  ghost predicate SameIdentity(j: Job, k: Job) {
    && k.id == j.id && k.nodeId == j.nodeId && k.domainId == j.domainId && k.payload == j.payload
    && k.maxAttempts == j.maxAttempts && k.createdAt == j.createdAt && k.retryOfId == j.retryOfId
  }

  /** The retry link is set once, and only on a job that has failed. */
  ghost predicate LinkMoved(j: Job, k: Job) {
    k.retryJobId == j.retryJobId || (j.retryJobId.None? && k.status == Failed)
  }

  ghost predicate Unmoved(j: Job, k: Job) {
    k == j.(retryJobId := k.retryJobId)
  }

  ghost predicate Taken(j: Job, k: Job, now: Time) {
    j.status == Queued && k == Dispatched(j, now)
  }

  ghost predicate SentAgain(j: Job, k: Job, now: Time) {
    j.status == Running && !AwaitingUpdateConfirmation(j) && k == Redispatched(j, now)
  }

  ghost predicate Accepted(j: Job, k: Job, now: Time) {
    j.status == Running && !AwaitingUpdateConfirmation(j) && j.payload.UpdateAtlas?
    && k == j.(updateAcceptedAt := Some(now), error := "")
  }

  ghost predicate Observed(j: Job, k: Job, now: Time) {
    AwaitingUpdateConfirmation(j) && exists report :: k == Observe(j, report, now)
  }

  ghost predicate Requeued(j: Job, k: Job, now: Time) {
    j.status == Running && !AwaitingUpdateConfirmation(j) && j.attempts < j.maxAttempts
    && k == j.(status := Queued, queuedAt := Some(now), startedAt := None, error := k.error)
  }

  /** Finished: also a job that was taken out of the queue and failed in the same step. */
  ghost predicate Ended(j: Job, k: Job, now: Time) {
    && IsActive(j) && (k.status == Failed || k.status == Succeeded)
    && j.attempts <= k.attempts <= j.maxAttempts
    && (k.startedAt == j.startedAt || k.startedAt == Some(now))
    && k == j.(status := k.status, error := k.error, finishedAt := Some(now), attempts := k.attempts,
               startedAt := k.startedAt, retryJobId := k.retryJobId)
  }

  ghost predicate Moved(j: Job, k: Job, now: Time) {
    && SameIdentity(j, k) && LinkMoved(j, k)
    && (IsNodeJob(j) ==>
          Unmoved(j, k) || Taken(j, k, now) || SentAgain(j, k, now) || Accepted(j, k, now)
          || Observed(j, k, now) || Requeued(j, k, now) || Ended(j, k, now))
    && (!IsNodeJob(j) && !IsActive(j) ==> Unmoved(j, k))
  }

  ghost predicate FreshJob(k: Job, id: JobId, now: Time) {
    && k == NewJob(id, k.nodeId, k.domainId, k.payload, now).(maxAttempts := k.maxAttempts, retryOfId := k.retryOfId)
    && k.maxAttempts >= 1
  }

  /** What a step may do to the jobs as a whole. */
  ghost predicate JobsMoved(s: State, t: State, now: Time) {
    && s.nextJobId <= t.nextJobId
    && (forall id | id in s.jobs && id in t.jobs :: Moved(s.jobs[id], t.jobs[id], now))
    && (forall id | id in s.jobs && id !in t.jobs :: Clearable(s, id))
    && (forall id | id in t.jobs && id !in s.jobs :: s.nextJobId <= id < t.nextJobId && FreshJob(t.jobs[id], id, now))
  }

  lemma ObservedKeepsJobInv(j: Job, k: Job, clock: Time, now: Time)
    requires clock <= now && IsNodeJob(j) && JobInv(j, clock) && Observed(j, k, now)
    ensures JobInv(k, now)
  {
    hide Observe;
    var report :| k == Observe(j, report, now);
    ObserveKeeps(j, report, now);
  }

  lemma MovedKeepsJobInv(j: Job, k: Job, clock: Time, now: Time)
    requires clock <= now && JobInv(j, clock) && Moved(j, k, now)
    ensures JobInv(k, now)
  {
    hide Observe;
    if IsNodeJob(j) && Observed(j, k, now) {
      ObservedKeepsJobInv(j, k, clock, now);
    }
  }

  /** What JobsMoved keeps: the invariant of every single job. */
  lemma JobsMovedKeepsJobsInv(s: State, t: State, clock: Time, now: Time)
    requires clock <= now && JobsInv(s, clock) && JobsMoved(s, t, now)
    ensures JobsInv(t, now)
  {
    forall id | id in t.jobs ensures JobInv(t.jobs[id], now) {
      if id in s.jobs {
        MovedKeepsJobInv(s.jobs[id], t.jobs[id], clock, now);
      }
    }
  }
}
