/** When a node is shown online: what polls, results and passes make of its status over a run. */
module Presence {
  import opened Model
  import opened Jobs
  import opened UpdateConfirmation
  import opened Protocol
  import opened Transitions
  import opened Invariants
  import opened Preservation
  import opened MaintenanceSteps
  import opened AdminSteps
  import opened Reachable
  import opened Revocation

  predicate IsPoll(event: Event, nodeId: NodeId) {
    event.action.PollNode? && event.action.nodeId == nodeId
  }

  predicate IsRevocation(event: Event, nodeId: NodeId) {
    event.action.RevokeNode? && event.action.nodeId == nodeId
  }

  /** A result of the node that is taken: one for a waiting update is answered and forgotten. */
  predicate Hears(s: State, event: Event, nodeId: NodeId) {
    && event.action.ReportResult? && event.action.nodeId == nodeId
    && Result(s, event.action.id, nodeId, event.action.result, event.at).Some?
    && !AwaitingUpdateConfirmation(s.jobs[event.action.id])
  }

  /** Status and last contact of the node stay. */
  ghost predicate SamePresence(s: State, t: State, nodeId: NodeId)
    requires nodeId in s.nodes
  {
    nodeId in t.nodes && t.nodes[nodeId].status == s.nodes[nodeId].status
        && t.nodes[nodeId].lastSeenAt == s.nodes[nodeId].lastSeenAt
  }

  ghost predicate HasPresence(t: State, nodeId: NodeId, status: NodeStatus, lastSeenAt: Option<Time>) {
    nodeId in t.nodes && t.nodes[nodeId].status == status && t.nodes[nodeId].lastSeenAt == lastSeenAt
  }

  // ----- One step -----

  lemma PollPresence(s: State, event: Event, nodeId: NodeId)
    requires Legal(s, event.action) && event.action.PollNode? && nodeId in s.nodes
    ensures
      var t := Apply(s, event.action, event.at);
      if event.action.nodeId == nodeId && LiveNode(s, nodeId) then HasPresence(t, nodeId, Online, Some(event.at))
      else SamePresence(s, t, nodeId)
  {
    hide WireError, Takes;
    PossibleIfTakes(s, event.action.nodeId, event.action.case_);
  }

  lemma ResultPresence(s: State, event: Event, nodeId: NodeId)
    requires Keyed(s) && event.action.ReportResult? && nodeId in s.nodes
    ensures
      var t := Apply(s, event.action, event.at);
      if Hears(s, event, nodeId) then HasPresence(t, nodeId, s.nodes[nodeId].status, Some(event.at))
      else SamePresence(s, t, nodeId)
  {
    hide Complete, RestoreFailedDeletion;
    var a := event.action;
    if Result(s, a.id, a.nodeId, a.result, event.at).Some? {
      var current := s.jobs[a.id];
      if !AwaitingUpdateConfirmation(current) && a.result.success && !current.payload.UpdateAtlas? {
        CompleteGrows(s, current.(status := Succeeded, error := "", finishedAt :=
            Some(event.at)), a.result.prepared, event.at);
      }
    }
  }

  /** A pass turns a node offline that was not heard of for longer than the configured time. */
  lemma PassPresence(s: State, event: Event, nodeId: NodeId)
    requires StateInv(s) && AttemptsLeft(s) && event.action.RunMaintenance? && nodeId in s.nodes
    ensures
      var node, t := s.nodes[nodeId], Apply(s, event.action, event.at);
      var late := node.lastSeenAt.None? || event.at - node.lastSeenAt.value > event.action.config.offlineAfter;
      HasPresence(t, nodeId, if node.status != Revoked && late then Offline else node.status, node.lastSeenAt)
  {
    hide Keyed, LinksInv, PointersInv, Recover, RenewDomains, RenewCertificates, AttemptsLeft, Extends;
    var config, orders, now := event.action.config, event.action.orders, event.at;
    OfflineThenMaintainedIsOk(s, config, now);
    var m := MaintainJobs(MarkOffline(s, config, now), now);
    RecoverExtends(m, orders.jobs, config, now);
    RenewalsGrow(Recover(m, orders.jobs, config, now), orders, now);
  }

  lemma QuietPresence(sys: System, event: Event, nodeId: NodeId)
    requires Inv(sys) && Enabled(sys, event) && nodeId in sys.state.nodes
    requires !event.action.PollNode? && !event.action.ReportResult? && !event.action.RunMaintenance?
    requires !IsRevocation(event, nodeId)
    ensures SamePresence(sys.state, Next(sys, event).state, nodeId)
  {
    hide Keyed, LinksInv, PointersInv, Complete;
    var s, now, a := sys.state, event.at, event.action;
    if a.CommitIssue? {
      if Commit(s, a.id, a.attempts, a.result, now).Some? && a.result.success {
        CompleteGrows(s, s.jobs[a.id], a.result.prepared, now);
      }
    } else if !a.ClearPending? && !a.Enroll? && !a.ClaimIssue? && !a.RevokeNode? {
      AddingKeepsNodes(s, a, now);
    }
  }

  // ----- A run since a poll -----

  lemma {:induction false} LastStep(sys: System, events: seq<Event>)
    requires LegalRun(sys, events) && events != []
    ensures
      var n := |events| - 1;
      && LegalRun(sys, events[..n]) && Enabled(Run(sys, events[..n]), events[n])
      && Run(sys, events) == Next(Run(sys, events[..n]), events[n])
    decreases |events|
  {
    hide Enabled, Next;
    var n := |events| - 1;
    if n > 0 {
      LastStep(Next(sys, events[0]), events[1..]);
      assert events[1..][..n - 1] == events[..n][1..];
    }
  }

  lemma {:induction false} PrefixIsLegal(sys: System, events: seq<Event>, i: nat)
    requires LegalRun(sys, events) && i <= |events|
    ensures LegalRun(sys, events[..i])
    decreases |events|
  {
    if i < |events| {
      LastStep(sys, events);
      assert events[..|events| - 1][..i] == events[..i];
      PrefixIsLegal(sys, events[..|events| - 1], i);
    } else {
      assert events[..i] == events;
    }
  }

  ghost predicate HeardAt(sys: System, events: seq<Event>, i: nat, nodeId: NodeId)
    requires LegalRun(sys, events)
  {
    i < |events| && (PrefixIsLegal(sys, events, i); Hears(Run(sys, events[..i]).state, events[i], nodeId))
  }

  /** When event j comes the node was heard of no longer than `span` ago: by its poll at `polled` or a result since. */
  ghost predicate HeardWithin(sys: System, events: seq<Event>, j: nat, nodeId: NodeId, polled: Time, span: int)
    requires LegalRun(sys, events) && j < |events|
  {
    || events[j].at - polled <= span
    || exists i | 0 <= i < j :: HeardAt(sys, events, i, nodeId) && events[j].at - events[i].at <= span
  }

  /** No pass came later than its `offlineAfter` after the node was last heard of. */
  ghost predicate NeverLate(sys: System, events: seq<Event>, nodeId: NodeId, polled: Time)
    requires LegalRun(sys, events)
  {
    forall j | 0 <= j < |events| && events[j].action.RunMaintenance? ::
      HeardWithin(sys, events, j, nodeId, polled, events[j].action.config.offlineAfter)
  }

  /** `seen` is when the node was last heard of. */
  ghost predicate LastHeard(sys: System, events: seq<Event>, nodeId: NodeId, polled: Time, seen: Time)
    requires LegalRun(sys, events)
  {
    && (seen == polled || exists i | 0 <= i < |events| :: HeardAt(sys, events, i, nodeId) && events[i].at == seen)
    && polled <= seen <= Run(sys, events).clock
    && forall i | 0 <= i < |events| && HeardAt(sys, events, i, nodeId) :: events[i].at <= seen
  }

  lemma HeardInPrefix(sys: System, events: seq<Event>, nodeId: NodeId)
    requires LegalRun(sys, events) && events != []
    ensures LegalRun(sys, events[..|events| - 1])
    ensures forall i: nat | i < |events| - 1 ::
      HeardAt(sys, events, i, nodeId) <==> HeardAt(sys, events[..|events| - 1], i, nodeId)
  {
    var before := events[..|events| - 1];
    LastStep(sys, events);
    forall i: nat | i < |events| - 1 ensures before[..i] == events[..i] && before[i] == events[i] {
    }
  }

  lemma LateInPrefix(sys: System, events: seq<Event>, nodeId: NodeId, polled: Time)
    requires LegalRun(sys, events) && events != []
    ensures LegalRun(sys, events[..|events| - 1])
    ensures
      var n := |events| - 1;
      NeverLate(sys, events, nodeId, polled) <==>
        && NeverLate(sys, events[..n], nodeId, polled)
        && (events[n].action.RunMaintenance? ==>
              HeardWithin(sys, events, n, nodeId, polled, events[n].action.config.offlineAfter))
  {
    hide HeardAt, HeardWithin, Run;
    LastStep(sys, events);
    var n := |events| - 1;
    forall j | 0 <= j < n
      ensures events[..n][j] == events[j]
      ensures forall span :: HeardWithin(sys, events, j, nodeId, polled, span) <==>
          HeardWithin(sys, events[..n], j, nodeId, polled, span)
    {
      WithinInPrefix(sys, events, j, nodeId, polled);
    }
  }

  lemma WithinInPrefix(sys: System, events: seq<Event>, j: nat, nodeId: NodeId, polled: Time)
    requires LegalRun(sys, events) && j < |events| - 1
    ensures LegalRun(sys, events[..|events| - 1])
    ensures forall span ::
      HeardWithin(sys, events, j, nodeId, polled, span) <==> HeardWithin(sys, events[..|events| - 1], j, nodeId, polled, span)
  {
    hide HeardAt, Run;
    HeardInPrefix(sys, events, nodeId);
    var before := events[..|events| - 1];
    assert forall i | 0 <= i <= j :: before[i] == events[i];
  }

  /** The pass asks when the node was last heard of. */
  lemma WithinIffSince(sys: System, events: seq<Event>, nodeId: NodeId, polled: Time, seen: Time, span: int)
    requires LegalRun(sys, events) && events != []
    requires LegalRun(sys, events[..|events| - 1]) && LastHeard(sys, events[..|events| - 1], nodeId, polled, seen)
    ensures
      var n := |events| - 1;
      HeardWithin(sys, events, n, nodeId, polled, span) <==> events[n].at - seen <= span
  {
    hide HeardAt;
    HeardInPrefix(sys, events, nodeId);
    var n := |events| - 1;
    assert forall i | 0 <= i < n :: events[..n][i] == events[i];
  }

  lemma HeardLast(sys: System, events: seq<Event>, nodeId: NodeId, polled: Time, before: Time, seen: Time)
    requires LegalRun(sys, events) && events != []
    requires LegalRun(sys, events[..|events| - 1]) && LastHeard(sys, events[..|events| - 1], nodeId, polled, before)
    requires
      var n := |events| - 1;
      seen == if Hears(Run(sys, events[..n]).state, events[n], nodeId) then events[n].at else before
    ensures LastHeard(sys, events, nodeId, polled, seen)
  {
    hide Hears, Next;
    LastStep(sys, events);
    HeardInPrefix(sys, events, nodeId);
    var n := |events| - 1;
    PrefixIsLegal(sys, events, n);
    assert HeardAt(sys, events, n, nodeId) <==> Hears(Run(sys, events[..n]).state, events[n], nodeId);
    ClockAfter(Run(sys, events[..n]), events[n]);
    assert forall i | 0 <= i < n :: events[..n][i] == events[i];
    hide HeardAt;
  }

  lemma ClockAfter(sys: System, event: Event)
    requires Enabled(sys, event)
    ensures Next(sys, event).clock == event.at && sys.clock <= event.at
  {
  }

  lemma StepPresence(sys: System, event: Event, nodeId: NodeId, status: NodeStatus, seen: Time)
    requires Inv(sys) && Enabled(sys, event) && !IsPoll(event, nodeId) && !IsRevocation(event, nodeId)
    requires HasPresence(sys.state, nodeId, status, Some(seen)) && status != Revoked
    ensures
      var late := event.action.RunMaintenance? && event.at - seen > event.action.config.offlineAfter;
      HasPresence(Next(sys, event).state, nodeId, if late then Offline else status,
                  Some(if Hears(sys.state, event, nodeId) then event.at else seen))
  {
    hide Keyed, PointersInv, LinksInv, Hears, Apply;
    JobsInvAttempts(sys.state, sys.clock);
    if event.action.PollNode? {
      PollPresence(sys.state, event, nodeId);
    } else if event.action.ReportResult? {
      ResultPresence(sys.state, event, nodeId);
    } else if event.action.RunMaintenance? {
      PassPresence(sys.state, event, nodeId);
    } else {
      QuietPresence(sys, event, nodeId);
    }
    assert Hears(sys.state, event, nodeId) ==> event.action.ReportResult? by { HearsResults(sys.state, event, nodeId); }
  }

  lemma HearsResults(s: State, event: Event, nodeId: NodeId)
    ensures Hears(s, event, nodeId) ==> event.action.ReportResult?
  {
  }

  lemma {:induction false} PresenceRun(sys: System, events: seq<Event>, nodeId: NodeId) returns (seen: Time)
    requires Inv(sys) && LegalRun(sys, events) && HasPresence(sys.state, nodeId, Online, Some(sys.clock))
    requires forall e | e in events :: !IsPoll(e, nodeId) && !IsRevocation(e, nodeId)
    ensures LastHeard(sys, events, nodeId, sys.clock, seen)
    ensures HasPresence(Run(sys, events).state, nodeId, if NeverLate(sys, events, nodeId, sys.clock)
        then Online else Offline, Some(seen))
    decreases |events|
  {
    hide Inv, Enabled, Next, HeardAt, HeardWithin, Hears, IsPoll, IsRevocation;
    if events == [] {
      seen := sys.clock;
    } else {
      var n := |events| - 1;
      LastStep(sys, events);
      assert forall e | e in events[..n] :: e in events;
      var before := PresenceRun(sys, events[..n], nodeId);
      InvRun(sys, events[..n]);
      var middle := Run(sys, events[..n]);
      seen := if Hears(middle.state, events[n], nodeId) then events[n].at else before;
      hide LastHeard, NeverLate, Run, LegalRun;
      HeardLast(sys, events, nodeId, sys.clock, before, seen);
      StepPresence(middle, events[n], nodeId, if NeverLate(sys, events[..n], nodeId, sys.clock)
          then Online else Offline, before);
      LateInPrefix(sys, events, nodeId, sys.clock);
      if events[n].action.RunMaintenance? {
        WithinIffSince(sys, events, nodeId, sys.clock, before, events[n].action.config.offlineAfter);
      }
    }
  }

  /** From a poll on, and until the next one, a node that is not revoked is online exactly if no maintenance pass came
      later than `offlineAfter` after the node was last heard of; otherwise it is offline. */
  lemma OnlineIffHeard(sys: System, poll: Event, events: seq<Event>, nodeId: NodeId)
    requires Inv(sys) && Enabled(sys, poll) && IsPoll(poll, nodeId) && LiveNode(sys.state, nodeId)
    requires LegalRun(Next(sys, poll), events)
    requires forall e | e in events :: !IsPoll(e, nodeId) && !IsRevocation(e, nodeId)
    ensures
      var t := Run(Next(sys, poll), events).state;
      && nodeId in t.nodes
      && t.nodes[nodeId].status == (if NeverLate(Next(sys, poll), events, nodeId, poll.at) then Online else Offline)
  {
    hide Inv, HeardAt, HeardWithin, NeverLate, Apply, Takes;
    InvStep(sys, poll);
    PollPresence(sys.state, poll, nodeId);
    var seen := PresenceRun(Next(sys, poll), events, nodeId);
  }
}
