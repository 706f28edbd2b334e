/** Retry links: one-to-one, forward only, written once. */
module RetryLinks {
  import opened Model
  import opened Jobs
  import opened Protocol
  import opened Transitions
  import opened Invariants
  import opened Preservation
  import opened MaintenanceSteps
  import opened AdminSteps
  import opened Reachable
  import opened Progress

  /** `RetryJobID` and `RetryOfID` are inverse one-to-one partial maps on the jobs that are present,
      and only failed jobs carry `RetryJobID`. */
  lemma LinksAreInverse(start: Time, events: seq<Event>)
    requires LegalRun(System(EmptyState(), start), events)
    ensures
      var s := Run(System(EmptyState(), start), events).state;
      && (forall a, b | a in s.jobs && b in s.jobs ::
            s.jobs[a].retryJobId == Some(b) <==> s.jobs[b].retryOfId == Some(a))
      && (forall a, b, c | a in s.jobs && b in s.jobs && c in s.jobs
            && s.jobs[a].retryJobId == Some(c) && s.jobs[b].retryJobId == Some(c) :: a == b)
      && (forall a, b, c | a in s.jobs && b in s.jobs && c in s.jobs
            && s.jobs[b].retryOfId == Some(a) && s.jobs[c].retryOfId == Some(a) :: b == c)
      && (forall a | a in s.jobs && s.jobs[a].retryJobId.Some? :: s.jobs[a].status == Failed)
  {
    InvReachable(start, events);
  }

  /** Each job of the path is the retry of the one before. */
  ghost predicate RetryPath(s: State, path: seq<JobId>) {
    && path != [] && (forall i | 0 <= i < |path| :: path[i] in s.jobs)
    && forall i | 0 < i < |path| :: s.jobs[path[i - 1]].retryJobId == Some(path[i])
  }

  /** Retries of retries of retries never lead back: a path of links only goes to later jobs. */
  lemma {:induction false} RetriesNeverCycle(s: State, path: seq<JobId>)
    requires LinksInv(s) && RetryPath(s, path) && |path| > 1
    ensures path[0] < path[|path| - 1] && path[0] != path[|path| - 1]
    decreases |path|
  {
    if |path| > 2 {
      var rest := path[1..];
      assert forall i | 0 < i < |rest| :: rest[i - 1] == path[i] && rest[i] == path[i + 1];
      RetriesNeverCycle(s, rest);
    }
  }

  /** In a run, a job that has a retry keeps exactly that link while it exists. */
  lemma {:induction false} LinkIsWrittenOnce(sys: System, events: seq<Event>, id: JobId)
    requires Inv(sys) && LegalRun(sys, events) && id in sys.state.jobs && sys.state.jobs[id].retryJobId.Some?
    ensures
      var s := Run(sys, events).state;
      id in s.jobs ==> s.jobs[id].retryJobId == sys.state.jobs[id].retryJobId
    decreases |events|
  {
    hide PointersInv, LinksInv, JobInv, Enabled, Next;
    if events != [] {
      var next := Next(sys, events[0]);
      StepIsKept(sys, events[0]);
      InvStep(sys, events[0]);
      if id in next.state.jobs {
        LinkMoves(sys.state.jobs[id], next.state.jobs[id], events[0].at);
        LinkIsWrittenOnce(next, events[1..], id);
      } else {
        GoneRun(next, events[1..], id);
      }
    }
  }

  lemma LinkMoves(j: Job, k: Job, now: Time)
    requires Moved(j, k, now) && j.retryJobId.Some?
    ensures k.retryJobId == j.retryJobId
  {
  }

  // ----- Automatic recovery -----

  /** Only an original that has no retry yet gets a link. */
  ghost predicate LinksOriginals(s: State, t: State) {
    forall id | id in s.jobs ::
      && id in t.jobs && t.jobs[id].retryOfId == s.jobs[id].retryOfId
      && (t.jobs[id].retryJobId == s.jobs[id].retryJobId || RecoverableFailure(s.jobs[id]))
  }

  /** Every new job is the one retry of a job that was there before, and has no retry itself. */
  ghost predicate AddsRetries(s: State, t: State) {
    forall id | id in t.jobs && id !in s.jobs ::
      && t.jobs[id].payload.SyncCertificate? && t.jobs[id].retryJobId.None?
      && t.jobs[id].retryOfId.Some? && t.jobs[id].retryOfId.value in s.jobs
      && t.jobs[id].retryOfId.value in t.jobs
      && t.jobs[t.jobs[id].retryOfId.value].retryJobId == Some(id)
  }

  /** What one recovery pass does to the jobs that were there before it and with the jobs it adds. */
  ghost predicate RecoversOriginals(s: State, t: State) {
    LinksOriginals(s, t) && AddsRetries(s, t)
  }

  lemma LinkLinksOriginal(s: State, t: State, id: JobId, retry: Job)
    requires LinksOriginals(s, t) && id in s.jobs && s.jobs[id] == t.jobs[id] && RecoverableFailure(s.jobs[id])
    requires retry.id !in s.jobs
    ensures LinksOriginals(s, LinkRetry(t, id, retry))
  {
    hide RecoverableFailure;
  }

  lemma LinkAddsRetry(s: State, t: State, id: JobId, retry: Job)
    requires AddsRetries(s, t) && id in s.jobs && id in t.jobs && t.jobs[id].retryJobId.None?
    requires retry.id !in t.jobs && retry.id !in s.jobs
    requires retry.payload.SyncCertificate? && retry.retryOfId == Some(id) && retry.retryJobId.None?
    ensures AddsRetries(s, LinkRetry(t, id, retry))
  {
    var u := LinkRetry(t, id, retry);
    forall k | k in u.jobs && k !in s.jobs
      ensures u.jobs[k].payload.SyncCertificate? && u.jobs[k].retryJobId.None?
      ensures u.jobs[k].retryOfId.Some? && u.jobs[k].retryOfId.value in s.jobs && u.jobs[k].retryOfId.value in u.jobs
      ensures u.jobs[u.jobs[k].retryOfId.value].retryJobId == Some(k)
    {
      if k != retry.id { assert t.jobs[k].retryOfId.value != id; }
    }
  }

  lemma FailureIsUnlinked(job: Job)
    requires RecoverableFailure(job)
    ensures job.retryJobId.None? && job.retryOfId.None? && job.payload.SyncCertificate?
  {
  }

  lemma RecoverJobKeepsOriginals(s: State, t: State, id: JobId, config: Config, now: Time)
    requires Keyed(t) && Extends(s, t, now) && RecoversOriginals(s, t)
    ensures RecoversOriginals(s, RecoverJob(t, id, config, now))
  {
    hide RecoverableFailure;
    if id in t.jobs && Recoverable(t, t.jobs[id], config, now) {
      var failed := t.jobs[id];
      FailureIsUnlinked(failed);
      assert id in s.jobs && s.jobs[id] == failed;
      var certificate := t.certificates[failed.payload.syncCertificateId];
      var retry := NewJob(t.nextJobId, failed.nodeId, failed.domainId, SyncCertificate(certificate.id, certificate.domain), now)
        .(retryOfId := Some(failed.id));
      hide LinksOriginals, AddsRetries;
      LinkLinksOriginal(s, t, id, retry);
      LinkAddsRetry(s, t, id, retry);
    }
  }

  /** Whatever the order in which the pass visits the jobs, even one that visits a job twice. */
  lemma {:induction false} RecoveryRetriesOriginalsOnce(s: State, order: seq<JobId>, config: Config, now: Time)
    requires Keyed(s) && LinksInv(s)
    ensures RecoversOriginals(s, Recover(s, order, config, now))
    ensures
      var t := Recover(s, order, config, now);
      forall a, b | a in t.jobs && b in t.jobs && t.jobs[a].retryOfId.Some? && t.jobs[a].retryOfId == t.jobs[b].retryOfId
        && t.jobs[a].retryOfId.value in t.jobs :: a == b
  {
    hide Recoverable, RecoverJob, RecoversOriginals, Keyed;
    RecoverExtends(s, order, config, now);
    if order == [] {
      RecoversNothing(s);
    } else {
      var n := |order| - 1;
      RecoveryRetriesOriginalsOnce(s, order[..n], config, now);
      RecoverExtends(s, order[..n], config, now);
      RecoverJobKeepsOriginals(s, Recover(s, order[..n], config, now), order[n], config, now);
    }
  }

  lemma RecoversNothing(s: State)
    ensures RecoversOriginals(s, s)
  {
  }
}
