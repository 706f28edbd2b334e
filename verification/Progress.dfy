/** Node jobs end: a measure bounds how often a job changes, and a silent node cannot keep one alive. */
module Progress {
  import opened Model
  import opened Jobs
  import opened UpdateConfirmation
  import opened Protocol
  import opened Transitions
  import opened Invariants
  import opened Preservation
  import opened AdminSteps
  import opened Bystanders
  import opened Reachable

  // ----- Every change of status uses something up -----

  /** Twice the attempts that are left, and one for a job that is running. */
  function Measure(job: Job): nat {
    var left := if job.attempts <= job.maxAttempts then job.maxAttempts - job.attempts else 0;
    match job.status
    case Queued => 2 * left
    case Running => 2 * left + 1
    case _ => 0
  }

  /** The measure of a job that may have been cleared. */
  function MeasureIn(s: State, id: JobId): nat {
    if id in s.jobs then Measure(s.jobs[id]) else 0
  }

  /** A move never raises the measure, and lowers it when it changes the status or sends the job. */
  lemma MeasureFalls(j: Job, k: Job, clock: Time, now: Time)
    requires IsNodeJob(j) && JobInv(j, clock) && Moved(j, k, now)
    ensures Measure(k) <= Measure(j)
    ensures k.status != j.status || k.attempts != j.attempts ==> Measure(k) < Measure(j)
  {
  }

  /** How often the status of a job changes in a run. */
  ghost function StatusChanges(sys: System, events: seq<Event>, id: JobId): nat
    requires LegalRun(sys, events)
    decreases |events|
  {
    if events == [] then 0
    else
      var next := Next(sys, events[0]);
      var changed := id in sys.state.jobs && id in next.state.jobs && next.state.jobs[id].status != sys.state.jobs[id].status;
      (if changed then 1 else 0) + StatusChanges(next, events[1..], id)
  }

  /** Ids are not used twice: a job that a clear removed does not come back. */
  lemma GoneStays(s: State, t: State, id: JobId, now: Time)
    requires Keyed(s) && JobsMoved(s, t, now) && id < s.nextJobId
    ensures id < t.nextJobId
    ensures id in t.jobs ==> id in s.jobs && IsNodeJob(t.jobs[id]) == IsNodeJob(s.jobs[id])
  {
  }

  /** A cleared job does not come back in any run. */
  lemma {:induction false} GoneRun(sys: System, events: seq<Event>, id: JobId)
    requires Inv(sys) && LegalRun(sys, events) && id !in sys.state.jobs && id < sys.state.nextJobId
    ensures id !in Run(sys, events).state.jobs
    decreases |events|
  {
    hide Keyed, PointersInv, LinksInv, JobInv, Enabled, Next;
    if events != [] {
      StepIsKept(sys, events[0]);
      InvStep(sys, events[0]);
      GoneStays(sys.state, Next(sys, events[0]).state, id, events[0].at);
      GoneRun(Next(sys, events[0]), events[1..], id);
    }
  }

  /** In any run a node job changes its status at most as often as its measure allows. */
  lemma {:induction false} StatusChangesAreBounded(sys: System, events: seq<Event>, id: JobId)
    requires Inv(sys) && LegalRun(sys, events)
    requires id < sys.state.nextJobId && (id in sys.state.jobs ==> IsNodeJob(sys.state.jobs[id]))
    ensures StatusChanges(sys, events, id) + MeasureIn(Run(sys, events).state, id) <= MeasureIn(sys.state, id)
    decreases |events|
  {
    hide Keyed, PointersInv, LinksInv, JobInv, Moved, Measure, Enabled, Next;
    if events != [] {
      var next := Next(sys, events[0]);
      StepIsKept(sys, events[0]);
      InvStep(sys, events[0]);
      NextClock(sys, events[0]);
      GoneStays(sys.state, next.state, id, events[0].at);
      StatusChangesAreBounded(next, events[1..], id);
      if id in next.state.jobs {
        MeasureFalls(sys.state.jobs[id], next.state.jobs[id], sys.clock, events[0].at);
      }
    }
  }

  lemma NextClock(sys: System, event: Event)
    requires Enabled(sys, event)
    ensures Next(sys, event).clock == event.at && sys.clock <= event.at
    ensures Next(sys, event).state == Apply(sys.state, event.action, event.at) && Legal(sys.state, event.action)
  {
  }

  /** In every reachable state attempts stay within their maximum, and a queued job has one left. */
  lemma AttemptsAreBounded(start: Time, events: seq<Event>, id: JobId)
    requires LegalRun(System(EmptyState(), start), events)
    ensures
      var s := Run(System(EmptyState(), start), events).state;
      id in s.jobs && IsNodeJob(s.jobs[id]) ==>
        && s.jobs[id].attempts <= s.jobs[id].maxAttempts
        && (s.jobs[id].status == Queued ==> s.jobs[id].attempts < s.jobs[id].maxAttempts)
  {
    InvReachable(start, events);
  }

  /** A freshly queued job with three attempts changes its status at most six times, whatever happens. */
  lemma SixChangesAtMost(sys: System, events: seq<Event>, id: JobId)
    requires Inv(sys) && LegalRun(sys, events) && id in sys.state.jobs && IsNodeJob(sys.state.jobs[id])
    requires sys.state.jobs[id].status == Queued && sys.state.jobs[id].attempts == 0 && sys.state.jobs[id].maxAttempts == 3
    ensures StatusChanges(sys, events, id) <= 6
  {
    StatusChangesAreBounded(sys, events, id);
  }

  // ----- A node that has fallen silent -----

  /** No event of the run is a poll or a result of the node. */
  ghost predicate Silent(events: seq<Event>, nodeId: NodeId) {
    forall e | e in events :: !FromNode(e.action, nodeId)
  }

  /** What can happen to a job of a silent node. */
  ghost predicate QuietMove(j: Job, k: Job, now: Time) {
    || LinkOnly(j, k)
    || Requeued(j, k, now)
    || (Ended(j, k, now) && k.status == Failed)
  }

  /** What a job of a silent node has become, if it is still there. */
  ghost predicate QuietStep(s: State, t: State, id: JobId, now: Time)
    requires id in s.jobs
  {
    if id in t.jobs then QuietMove(s.jobs[id], t.jobs[id], now) else s.jobs[id].status == Queued || s.jobs[id].status == Failed
  }

  lemma MaintainedForm(s: State, job: Job, now: Time)
    requires IsNodeJob(job) && job.attempts <= job.maxAttempts
    ensures
      var m := MaintainedJob(s, job, now);
      m == job || Requeued(job, m, now) || (Ended(job, m, now) && m.status == Failed)
  {
    hide RunningOn, LiveNode, TimeoutForJob;
    var m := MaintainedJob(s, job, now);
    if TimedOut(job, now) && !AwaitingUpdateConfirmation(job) && job.attempts < job.maxAttempts {
      assert Requeued(job, m, now);
    } else if m != job {
      assert Ended(job, m, now);
    }
  }

  lemma MaintainedMovesQuietly(s: State, job: Job, k: Job, now: Time)
    requires IsNodeJob(job) && job.attempts <= job.maxAttempts && LinkOnly(MaintainedJob(s, job, now), k)
    ensures QuietMove(job, k, now)
  {
    MaintainedForm(s, job, now);
    hide MaintainedJob;
    var m := MaintainedJob(s, job, now);
    if m != job && !Ended(job, m, now) {
      assert k == m;
    }
  }

  lemma RevokedMovesQuietly(job: Job, nodeId: NodeId, now: Time)
    requires IsNodeJob(job) && job.attempts <= job.maxAttempts
    ensures QuietMove(job, RevokedJob(job, nodeId, now), now)
  {
    assert LinkOnly(job, job);
  }

  lemma SilentStep(sys: System, event: Event, id: JobId)
    requires Inv(sys) && Enabled(sys, event) && id in sys.state.jobs && IsNodeJob(sys.state.jobs[id])
    requires !FromNode(event.action, sys.state.jobs[id].nodeId)
    ensures QuietStep(sys.state, Next(sys, event).state, id, event.at)
  {
    hide Keyed, PointersInv, LinksInv, Maintain, MaintainedJob, QuietMove;
    var s, now := sys.state, event.at;
    JobsInvAttempts(s, sys.clock);
    var action := event.action;
    if action.RunMaintenance? {
      MaintenanceStep(s, action.config, action.orders, now, id);
      MaintainedMovesQuietly(s, s.jobs[id], Maintain(s, action.config, action.orders, now).jobs[id], now);
    } else if action.RevokeNode? && action.nodeId in s.nodes {
      RevokedMovesQuietly(s.jobs[id], action.nodeId, now);
    } else if action.RevokeNode? || action.ClearPending? {
      StillMovesQuietly(s.jobs[id], now);
    } else {
      BystanderStep(s, action, now, id);
      LinkedMovesQuietly(s.jobs[id], Next(sys, event).state.jobs[id], now);
    }
  }

  lemma StillMovesQuietly(job: Job, now: Time)
    ensures QuietMove(job, job, now)
  {
    assert LinkOnly(job, job);
  }

  lemma LinkedMovesQuietly(j: Job, k: Job, now: Time)
    requires LinkOnly(j, k)
    ensures QuietMove(j, k, now)
  {
  }

  /** A job of the node that has not succeeded, or one that a clear has removed. */
  ghost predicate Unfinished(s: State, nodeId: NodeId, id: JobId) {
    && id < s.nextJobId
    && (id in s.jobs ==> IsNodeJob(s.jobs[id]) && s.jobs[id].nodeId == nodeId && s.jobs[id].status != Succeeded)
  }

  ghost predicate Settled(s: State, nodeId: NodeId, id: JobId) {
    Unfinished(s, nodeId, id) && (id in s.jobs ==> s.jobs[id].status == Failed)
  }

  /** Whatever runs on the node was started, and accepted, no later than `since`. */
  ghost predicate RunsSince(s: State, nodeId: NodeId, since: Time) {
    forall id | Runs(s, nodeId, id) ::
      && s.jobs[id].startedAt.Some? && s.jobs[id].startedAt.value <= since
      && (s.jobs[id].updateAcceptedAt.Some? ==> s.jobs[id].updateAcceptedAt.value <= since)
  }

  ghost predicate Idle(s: State, nodeId: NodeId) {
    forall id :: !Runs(s, nodeId, id)
  }

  ghost predicate QueuedSince(s: State, id: JobId, since: Time) {
    id in s.jobs && s.jobs[id].status == Queued ==> QueueTime(s.jobs[id]) <= since
  }

  lemma SilentKeepsUnfinished(sys: System, event: Event, nodeId: NodeId, id: JobId)
    requires Inv(sys) && Enabled(sys, event) && !FromNode(event.action, nodeId) && Unfinished(sys.state, nodeId, id)
    ensures Unfinished(Next(sys, event).state, nodeId, id)
    ensures Settled(sys.state, nodeId, id) ==> Settled(Next(sys, event).state, nodeId, id)
  {
    hide PointersInv, LinksInv, JobInv, Next, Enabled;
    StepIsKept(sys, event);
    GoneStays(sys.state, Next(sys, event).state, id, event.at);
    if id in sys.state.jobs {
      SilentStep(sys, event, id);
    }
  }

  /** A silent node starts nothing: what runs on it was running before. */
  lemma SilentStartsNothing(sys: System, event: Event, nodeId: NodeId, id: JobId)
    requires Inv(sys) && Enabled(sys, event) && !FromNode(event.action, nodeId)
    requires Runs(Next(sys, event).state, nodeId, id)
    ensures Runs(sys.state, nodeId, id) && LinkOnly(sys.state.jobs[id], Next(sys, event).state.jobs[id])
  {
    hide Keyed, PointersInv, LinksInv, JobInv, Next, Enabled;
    StepIsKept(sys, event);
    if id in sys.state.jobs {
      assert Moved(sys.state.jobs[id], Next(sys, event).state.jobs[id], event.at);
      SilentStep(sys, event, id);
    }
  }

  lemma SilentKeepsRunsSince(sys: System, event: Event, nodeId: NodeId, since: Time)
    requires Inv(sys) && Enabled(sys, event) && !FromNode(event.action, nodeId) && RunsSince(sys.state, nodeId, since)
    ensures RunsSince(Next(sys, event).state, nodeId, since)
  {
    hide Inv, Next, Enabled;
    forall id | Runs(Next(sys, event).state, nodeId, id) ensures Runs(sys.state, nodeId, id) &&
      LinkOnly(sys.state.jobs[id], Next(sys, event).state.jobs[id])
    {
      SilentStartsNothing(sys, event, nodeId, id);
    }
  }

  lemma SilentKeepsIdle(sys: System, event: Event, nodeId: NodeId, id: JobId, since: Time)
    requires Inv(sys) && Enabled(sys, event) && !FromNode(event.action, nodeId)
    requires Idle(sys.state, nodeId) && Unfinished(sys.state, nodeId, id) && QueuedSince(sys.state, id, since)
    ensures Idle(Next(sys, event).state, nodeId) && QueuedSince(Next(sys, event).state, id, since)
  {
    hide PointersInv, LinksInv, JobInv, Next, Enabled;
    var t := Next(sys, event).state;
    forall k ensures !Runs(t, nodeId, k) {
      if Runs(t, nodeId, k) { SilentStartsNothing(sys, event, nodeId, k); }
    }
    StepIsKept(sys, event);
    GoneStays(sys.state, t, id, event.at);
    if id in t.jobs {
      SilentStep(sys, event, id);
      assert !Runs(sys.state, nodeId, id);
    }
  }

  /** The first late pass ends whatever ran on the silent node. */
  lemma LatePassEndsRunning(sys: System, event: Event, nodeId: NodeId, since: Time)
    requires Inv(sys) && Enabled(sys, event) && event.action.RunMaintenance?
    requires RunsSince(sys.state, nodeId, since) && event.at > since + 90 * MINUTE
    ensures Idle(Next(sys, event).state, nodeId)
  {
    hide Keyed, PointersInv, LinksInv, Maintain;
    var t := Next(sys, event).state;
    JobsInvAttempts(sys.state, sys.clock);
    forall id ensures !Runs(t, nodeId, id) {
      if Runs(t, nodeId, id) {
        SilentStartsNothing(sys, event, nodeId, id);
        MaintenanceStep(sys.state, event.action.config, event.action.orders, event.at, id);
      }
    }
  }

  lemma LateQueuedJobFails(s: State, job: Job, k: Job, nodeId: NodeId, since: Time, now: Time)
    requires IsNodeJob(job) && job.nodeId == nodeId && !RunningOn(s, nodeId) && job.status != Running && job.status != Succeeded
    requires job.status == Queued ==> QueueTime(job) <= since && now > since + QUEUED_JOB_TIMEOUT
    requires LinkOnly(MaintainedJob(s, job, now), k)
    ensures k.status == Failed
  {
    hide RunningOn;
  }

  /** The second late pass ends whatever is still queued for it. */
  lemma LatePassEndsQueued(sys: System, event: Event, nodeId: NodeId, id: JobId, since: Time)
    requires Inv(sys) && Enabled(sys, event) && event.action.RunMaintenance?
    requires Idle(sys.state, nodeId) && Unfinished(sys.state, nodeId, id) && QueuedSince(sys.state, id, since)
    requires event.at > since + QUEUED_JOB_TIMEOUT
    ensures Settled(Next(sys, event).state, nodeId, id)
  {
    hide Keyed, PointersInv, LinksInv, Maintain, MaintainedJob, JobInv, RunningOn, JobsMoved, LinkOnly;
    var t := Next(sys, event).state;
    SilentKeepsUnfinished(sys, event, nodeId, id);
    if id in sys.state.jobs {
      var config, orders := event.action.config, event.action.orders;
      JobsInvAttempts(sys.state, sys.clock);
      MaintenanceStep(sys.state, config, orders, event.at, id);
      assert !Runs(sys.state, nodeId, id);
      IdleRunsNothing(sys.state, nodeId);
      LateQueuedJobFails(sys.state, sys.state.jobs[id], t.jobs[id], nodeId, since, event.at);
    } else {
      StepIsKept(sys, event);
      GoneStays(sys.state, t, id, event.at);
    }
  }

  lemma IdleRunsNothing(s: State, nodeId: NodeId)
    requires Idle(s, nodeId)
    ensures !RunningOn(s, nodeId)
  {
  }

  lemma {:induction false} SettledRun(sys: System, events: seq<Event>, nodeId: NodeId, id: JobId)
    requires Inv(sys) && LegalRun(sys, events) && Silent(events, nodeId) && Settled(sys.state, nodeId, id)
    ensures Settled(Run(sys, events).state, nodeId, id)
    decreases |events|
  {
    hide Inv, Enabled, Next, FromNode;
    if events != [] {
      assert events[0] in events;
      InvStep(sys, events[0]);
      SilentKeepsUnfinished(sys, events[0], nodeId, id);
      SettledRun(Next(sys, events[0]), events[1..], nodeId, id);
    }
  }

  lemma {:induction false} IdleRun(sys: System, events: seq<Event>, second: nat, nodeId: NodeId, id: JobId, since: Time)
    requires Inv(sys) && LegalRun(sys, events) && Silent(events, nodeId) && second < |events|
    requires events[second].action.RunMaintenance? && events[second].at > since + QUEUED_JOB_TIMEOUT
    requires Idle(sys.state, nodeId) && Unfinished(sys.state, nodeId, id) && QueuedSince(sys.state, id, since)
    ensures Settled(Run(sys, events).state, nodeId, id)
    decreases |events|
  {
    hide Inv, Enabled, Next, FromNode, Idle, Unfinished, Settled, QueuedSince;
    var next := Next(sys, events[0]);
    assert events[0] in events;
    InvStep(sys, events[0]);
    if second == 0 {
      LatePassEndsQueued(sys, events[0], nodeId, id, since);
      SettledRun(next, events[1..], nodeId, id);
    } else {
      SilentKeepsUnfinished(sys, events[0], nodeId, id);
      SilentKeepsIdle(sys, events[0], nodeId, id, since);
      IdleRun(next, events[1..], second - 1, nodeId, id, since);
    }
  }

  lemma QueuedSinceNow(sys: System, nodeId: NodeId, id: JobId)
    requires Inv(sys) && Unfinished(sys.state, nodeId, id)
    ensures QueuedSince(sys.state, id, sys.clock)
  {
  }

  lemma {:induction false} SilentRun(
    sys: System, events: seq<Event>, first: nat, second: nat, nodeId: NodeId, id: JobId, since: Time)
    requires Inv(sys) && LegalRun(sys, events) && Silent(events, nodeId) && first < second < |events|
    requires events[first].action.RunMaintenance? && events[first].at > since + 90 * MINUTE
    requires events[second].action.RunMaintenance? && events[second].at > events[first].at + QUEUED_JOB_TIMEOUT
    requires RunsSince(sys.state, nodeId, since) && Unfinished(sys.state, nodeId, id)
    ensures Settled(Run(sys, events).state, nodeId, id)
    decreases |events|
  {
    hide Inv, Enabled, Next, FromNode, Idle, Unfinished, Settled, QueuedSince, RunsSince;
    var next := Next(sys, events[0]);
    assert events[0] in events;
    InvStep(sys, events[0]);
    SilentKeepsUnfinished(sys, events[0], nodeId, id);
    if first == 0 {
      LatePassEndsRunning(sys, events[0], nodeId, since);
      NextClock(sys, events[0]);
      QueuedSinceNow(next, nodeId, id);
      IdleRun(next, events[1..], second - 1, nodeId, id, events[0].at);
    } else {
      SilentKeepsRunsSince(sys, events[0], nodeId, since);
      SilentRun(next, events[1..], first - 1, second - 1, nodeId, id, since);
    }
  }

  /**
   A node that sends nothing more loses its jobs: whatever else happens, after a maintenance pass
   more than 90 minutes later and one more than 10 minutes after that, every job the node had
   and had not completed is failed (or was cleared).
   */
  lemma SilentNodeJobsFail(sys: System, events: seq<Event>, first: nat, second: nat, nodeId: NodeId, id: JobId)
    requires Inv(sys) && LegalRun(sys, events) && Silent(events, nodeId) && first < second < |events|
    requires events[first].action.RunMaintenance? && events[first].at > sys.clock + 90 * MINUTE
    requires events[second].action.RunMaintenance? && events[second].at > events[first].at + QUEUED_JOB_TIMEOUT
    requires id in sys.state.jobs && IsNodeJob(sys.state.jobs[id]) && sys.state.jobs[id].nodeId == nodeId
    requires sys.state.jobs[id].status != Succeeded
    ensures var s := Run(sys, events).state; id in s.jobs ==> s.jobs[id].status == Failed
  {
    RunsSinceNow(sys, nodeId);
    SilentRun(sys, events, first, second, nodeId, id, sys.clock);
  }

  lemma RunsSinceNow(sys: System, nodeId: NodeId)
    requires Inv(sys)
    ensures RunsSince(sys.state, nodeId, sys.clock)
  {
  }
}
