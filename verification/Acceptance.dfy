/** From acceptance to outcome: in any run of the controller an accepted self-update is decided by
    its node's reports and the clock alone. */
module Acceptance {
  import opened Model
  import opened Jobs
  import opened UpdateConfirmation
  import opened Protocol
  import opened Transitions
  import opened Invariants
  import opened Preservation
  import opened AgentSteps
  import opened AdminSteps
  import opened Bystanders
  import opened Reachable
  import opened Progress

  /** A successful result of a self-update starts the wait, and repeated results change nothing. */
  lemma AcceptedResult(sys: System, id: JobId, nodeId: NodeId, result: JobResult, now: Time)
    requires Inv(sys) && sys.clock <= now && Result(sys.state, id, nodeId, result, now).Some?
    requires result.success && sys.state.jobs[id].payload.UpdateAtlas?
    ensures
      var t := Result(sys.state, id, nodeId, result, now).value;
      if AwaitingUpdateConfirmation(sys.state.jobs[id]) then t == sys.state
      else FreshlyAccepted(t.jobs[id]) && t.jobs[id].updateAcceptedAt == Some(now) && Waits(t, nodeId, id)
  {
    hide LinksInv, PointersInv, Keyed;
  }

  /** The only job a node can be running while an update of it waits is that update, so no other job
      starts and the update is not sent again. */
  lemma NothingElseRuns(sys: System, nodeId: NodeId, id: JobId, case_: PollCase)
    requires Inv(sys) && Waits(sys.state, nodeId, id)
    ensures forall k | Runs(sys.state, nodeId, k) :: k == id
    ensures Takes(sys.state, nodeId, case_) <==> case_ == ObserveUpdate(id)
  {
    hide LinksInv, Keyed, JobsInv;
    assert Runs(sys.state, nodeId, id);
    forall k | Waits(sys.state, nodeId, k) ensures k == id {
      assert Runs(sys.state, nodeId, k);
    }
  }

  /** What an event tells the detector: a poll of the node, or the clock reading of a maintenance pass. */
  function Sees(event: Event, nodeId: NodeId): seq<PollEvent> {
    match event.action
    case PollNode(n, report, _, _) =>
      if n == nodeId then [PollEvent(event.at, if report.None? then None else Some(report.value.agentVersion))] else []
    case RunMaintenance(_, _) => [PollEvent(event.at, None)]
    case _ => []
  }

  function Seen(events: seq<Event>, nodeId: NodeId): seq<PollEvent> {
    if events == [] then [] else Sees(events[0], nodeId) + Seen(events[1..], nodeId)
  }

  function ObserveSeen(job: Job, polls: seq<PollEvent>): Job
    requires |polls| <= 1
  {
    if polls == [] || !AwaitingUpdateConfirmation(job) then job else Observe(job, polls[0].report, polls[0].at)
  }

  /** ObserveAll takes its polls from the front as well. */
  lemma {:induction false} ObserveAllFront(job: Job, first: seq<PollEvent>, rest: seq<PollEvent>)
    requires |first| <= 1
    ensures ObserveAll(job, first + rest) == ObserveAll(ObserveSeen(job, first), rest)
    decreases |rest|
  {
    hide Observe;
    var polls := first + rest;
    if rest == [] {
      assert polls == first;
      assert first != [] ==> first[..0] == [];
    } else {
      assert polls[..|polls| - 1] == first + rest[..|rest| - 1];
      ObserveAllFront(job, first, rest[..|rest| - 1]);
    }
  }

  /** The job after a maintenance pass is the job after a heartbeat at the same instant. */
  lemma PassIsHeartbeat(s: State, job: Job, now: Time)
    requires AwaitingUpdateConfirmation(job)
    ensures MaintainedJob(s, job, now) == Observe(job, None, now)
  {
  }

  lemma WaitingPoll(
    sys: System, nodeId: NodeId, report: Option<NodeReport>, opens: bool, case_: PollCase, id: JobId, now: Time)
    requires Inv(sys) && Waits(sys.state, nodeId, id) && Takes(sys.state, nodeId, case_)
    ensures
      var t := Poll(sys.state, nodeId, report, opens, now, case_);
      id in t.jobs
      && t.jobs[id] == Observe(sys.state.jobs[id], if report.None? then None else Some(report.value.agentVersion), now)
  {
    hide Inv, Takes, Observe;
    NothingElseRuns(sys, nodeId, id, case_);
  }

  lemma WaitingResult(sys: System, resultId: JobId, nodeId: NodeId, result: JobResult, id: JobId, now: Time)
    requires Inv(sys) && Waits(sys.state, nodeId, id) && Result(sys.state, resultId, nodeId, result, now).Some?
    ensures Result(sys.state, resultId, nodeId, result, now).value == sys.state
  {
    hide Inv, Complete;
    NothingElseRuns(sys, nodeId, id, ObserveUpdate(id));
  }

  /** One step of the whole controller moves a waiting update exactly as the detector does. */
  lemma WaitingStep(sys: System, event: Event, id: JobId)
    requires Inv(sys) && Enabled(sys, event) && id in sys.state.jobs && AwaitingUpdateConfirmation(sys.state.jobs[id])
    requires event.action.RevokeNode? ==> event.action.nodeId != sys.state.jobs[id].nodeId
    ensures
      var t := Next(sys, event).state;
      id in t.jobs && LinkOnly(ObserveSeen(sys.state.jobs[id], Sees(event, sys.state.jobs[id].nodeId)), t.jobs[id])
  {
    hide Keyed, PointersInv, LinksInv, JobsInv, Maintain, MaintainedJob, Observe, Poll, Result;
    var s, now, j := sys.state, event.at, sys.state.jobs[id];
    JobsInvAttempts(s, sys.clock);
    assert Waits(s, j.nodeId, id);
    var action := event.action;
    if action.PollNode? && action.nodeId == j.nodeId {
      WaitingPoll(sys, j.nodeId, action.report, action.opens, action.case_, id, now);
    } else if action.ReportResult? && action.nodeId == j.nodeId {
      if Result(s, action.id, j.nodeId, action.result, now).Some? {
        WaitingResult(sys, action.id, j.nodeId, action.result, id, now);
      }
    } else if action.RunMaintenance? {
      MaintenanceStep(s, action.config, action.orders, now, id);
      PassIsHeartbeat(s, j, now);
    } else if action.RevokeNode? {
      if action.nodeId in s.nodes { RevokeBystander(s, action.nodeId, now, id); }
    } else if !action.ClearPending? {
      BystanderStep(s, action, now, id);
    }
  }

  /** A job that has ended stays as it is, but for a retry link; a failed one can be cleared. */
  ghost predicate StaysEnded(j: Job, s: State, id: JobId) {
    if id in s.jobs then LinkOnly(j, s.jobs[id]) else j.status == Failed
  }

  lemma {:induction false} EndedRun(sys: System, events: seq<Event>, id: JobId)
    requires Inv(sys) && LegalRun(sys, events) && id in sys.state.jobs && !IsActive(sys.state.jobs[id])
    ensures StaysEnded(sys.state.jobs[id], Run(sys, events).state, id)
    decreases |events|
  {
    hide PointersInv, LinksInv, JobInv, Enabled, Next;
    if events != [] {
      var next := Next(sys, events[0]);
      StepIsKept(sys, events[0]);
      InvStep(sys, events[0]);
      GoneStays(sys.state, next.state, id, events[0].at);
      if id in next.state.jobs {
        EndedMovesNotAtAll(sys.state.jobs[id], next.state.jobs[id], events[0].at);
        EndedRun(next, events[1..], id);
      } else {
        GoneRun(next, events[1..], id);
      }
    }
  }

  lemma EndedMovesNotAtAll(j: Job, k: Job, now: Time)
    requires Moved(j, k, now) && !IsActive(j)
    ensures LinkOnly(j, k)
  {
  }

  ghost predicate NotRevoked(events: seq<Event>, nodeId: NodeId) {
    forall e | e in events :: e.action.RevokeNode? ==> e.action.nodeId != nodeId
  }

  /** The refinement: over any run of the controller the job is what the two-timestamp detector makes of
      the node's polls and of the instants of the maintenance passes. */
  lemma {:induction false} WaitingRunIsDetector(sys: System, events: seq<Event>, id: JobId)
    requires Inv(sys) && LegalRun(sys, events) && id in sys.state.jobs && AwaitingUpdateConfirmation(sys.state.jobs[id])
    requires NotRevoked(events, sys.state.jobs[id].nodeId)
    ensures
      var out := ObserveAll(sys.state.jobs[id], Seen(events, sys.state.jobs[id].nodeId));
      var s := Run(sys, events).state;
      if AwaitingUpdateConfirmation(out) then id in s.jobs && LinkOnly(out, s.jobs[id]) else StaysEnded(out, s, id)
    decreases |events|
  {
    hide Inv, Enabled, Next, Observe, FromNode;
    if events != [] {
      var j, next := sys.state.jobs[id], Next(sys, events[0]);
      assert events[0] in events;
      WaitingStep(sys, events[0], id);
      InvStep(sys, events[0]);
      var sees, rest := Sees(events[0], j.nodeId), Seen(events[1..], j.nodeId);
      var k := ObserveSeen(j, sees);
      ObserveAllFront(j, sees, rest);
      ObserveSeenIsTame(j, sees);
      if AwaitingUpdateConfirmation(k) {
        assert next.state.jobs[id] == k;
        WaitingRunIsDetector(next, events[1..], id);
      } else {
        ObserveAllEnded(k, rest);
        EndedRun(next, events[1..], id);
      }
    }
  }

  lemma ObserveSeenIsTame(job: Job, polls: seq<PollEvent>)
    requires AwaitingUpdateConfirmation(job) && |polls| <= 1
    ensures var k := ObserveSeen(job, polls); k.nodeId == job.nodeId && k.retryJobId == job.retryJobId && k.status != Queued
    ensures var k := ObserveSeen(job, polls); AwaitingUpdateConfirmation(k) || !IsActive(k)
  {
  }

  lemma {:induction false} ObserveAllEnded(job: Job, polls: seq<PollEvent>)
    requires !AwaitingUpdateConfirmation(job)
    ensures ObserveAll(job, polls) == job
    decreases |polls|
  {
    if polls != [] { ObserveAllEnded(job, polls[..|polls| - 1]); }
  }

  // ----- The outcome over whole runs -----

  lemma {:induction false} SeenIsChronological(sys: System, events: seq<Event>, nodeId: NodeId)
    requires LegalRun(sys, events)
    ensures Chronological(sys.clock, PollTimes(Seen(events, nodeId)))
    decreases |events|
  {
    hide Legal, Apply;
    if events != [] {
      SeenIsChronological(Next(sys, events[0]), events[1..], nodeId);
      var sees, rest := Sees(events[0], nodeId), Seen(events[1..], nodeId);
      var times := PollTimes(sees + rest);
      assert forall i | 0 <= i < |sees| :: times[i] == events[0].at;
      assert forall i | |sees| <= i < |times| :: times[i] == PollTimes(rest)[i - |sees|];
    }
  }

  lemma ChronologicalFrom(start: Time, later: Time, times: seq<Time>)
    requires Chronological(later, times) && start <= later
    ensures Chronological(start, times)
  {
  }

  /** How a fresh acceptance ends, over every run in which its node is not revoked. */
  ghost predicate Outcome(j: Job, polls: seq<PollEvent>, s: State)
    requires AwaitingUpdateConfirmation(j)
  {
    var accepted := j.updateAcceptedAt.value;
    var inTime := BeforeDeadline(accepted, polls);
    var seen := Sightings(j, inTime);
    if !Unconfirmed(accepted, seen) then
      && j.id in s.jobs && s.jobs[j.id].status == Succeeded && s.jobs[j.id].finishedAt.Some?
      && FirstConfirmedAt(accepted, seen, s.jobs[j.id].finishedAt.value)
    else if |inTime| < |polls| then
      j.id in s.jobs ==> s.jobs[j.id].status == Failed && s.jobs[j.id].finishedAt == Some(polls[|inTime|].at)
    else
      && j.id in s.jobs && AwaitingUpdateConfirmation(s.jobs[j.id])
      && s.jobs[j.id].attempts == j.attempts && s.jobs[j.id].updateAcceptedAt == j.updateAcceptedAt
      && forall k | Runs(s, j.nodeId, k) :: k == j.id
  }

  /**
   The outcome of an accepted self-update in any run of the controller without a revocation of its
   node: success at the first confirming report before the deadline, failure at the first poll or
   maintenance pass at or after it, and otherwise it still waits, with its attempts and its
   acceptance time, as the only running job of its node.
   */
  lemma AcceptedUpdateOutcome(sys: System, events: seq<Event>, id: JobId)
    requires Inv(sys) && LegalRun(sys, events) && id in sys.state.jobs && FreshlyAccepted(sys.state.jobs[id])
    requires NotRevoked(events, sys.state.jobs[id].nodeId)
    ensures Outcome(sys.state.jobs[id], Seen(events, sys.state.jobs[id].nodeId), Run(sys, events).state)
  {
    hide Keyed, PointersInv, LinksInv, Observe, Chronological, FirstConfirmedAt, Unconfirmed;
    var j := sys.state.jobs[id];
    var polls := Seen(events, j.nodeId);
    SeenIsChronological(sys, events, j.nodeId);
    assert j.id == id && j.updateAcceptedAt.value <= sys.clock by { InvFacts(sys, id); }
    ChronologicalFrom(j.updateAcceptedAt.value, sys.clock, PollTimes(polls));
    OutcomeOfPolls(j, polls);
    WaitingRunIsDetector(sys, events, id);
    ObserveAllKeeps(j, polls);
    InvRun(sys, events);
    var s := Run(sys, events).state;
    if id in s.jobs && AwaitingUpdateConfirmation(s.jobs[id]) {
      NothingElseRuns(Run(sys, events), j.nodeId, id, ObserveUpdate(id));
    }
  }

  lemma InvFacts(sys: System, id: JobId)
    requires Inv(sys) && id in sys.state.jobs && AwaitingUpdateConfirmation(sys.state.jobs[id])
    ensures sys.state.jobs[id].id == id && sys.state.jobs[id].updateAcceptedAt.value <= sys.clock
  {
  }

  lemma {:induction false} ObserveAllKeeps(job: Job, polls: seq<PollEvent>)
    requires AwaitingUpdateConfirmation(job)
    ensures
      var out := ObserveAll(job, polls);
      out.attempts == job.attempts && out.updateAcceptedAt == job.updateAcceptedAt && out.nodeId == job.nodeId
      && out.payload == job.payload && out.status != Queued
    decreases |polls|
  {
    hide Matches;
    if polls != [] { ObserveAllKeeps(job, polls[..|polls| - 1]); }
  }
}
