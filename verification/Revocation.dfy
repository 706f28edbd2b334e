/** What a revocation takes away, and that it is final. */
module Revocation {
  import opened Model
  import opened Text
  import opened Jobs
  import opened UpdateConfirmation
  import opened Protocol
  import opened Transitions
  import opened Invariants
  import opened Preservation
  import opened AgentSteps
  import opened MaintenanceSteps
  import opened AdminSteps
  import opened Bystanders
  import opened Reachable

  /** Nothing in the state refers to the node any more, except the records of its jobs. */
  ghost predicate NoReferences(s: State, nodeId: NodeId) {
    && (forall d | d in s.domains :: s.domains[d].nodeId != nodeId && nodeId !in s.domains[d].syncNodeIds)
    && (forall c | c in s.certificates ::
          s.certificates[c].issuerNodeId != nodeId && nodeId !in s.certificates[c].deployedNodeIds)
  }

  /** Another node's owner, issuer and membership entries stay. */
  ghost predicate DomainKeeps(before: Domain, after: Domain, nodeId: NodeId) {
    && (before.nodeId != nodeId ==> after.nodeId == before.nodeId)
    && forall n | n != nodeId :: n in after.syncNodeIds <==> n in before.syncNodeIds
  }

  ghost predicate CertificateKeeps(before: Certificate, after: Certificate, nodeId: NodeId) {
    && (before.issuerNodeId != nodeId ==> after.issuerNodeId == before.issuerNodeId)
    && forall n | n != nodeId :: n in after.deployedNodeIds <==> n in before.deployedNodeIds
  }

  /** Other nodes keep what they had. */
  ghost predicate OthersKeep(s: State, t: State, nodeId: NodeId) {
    && (forall n | n in s.nodes && n != nodeId :: n in t.nodes && t.nodes[n] == s.nodes[n])
    && (forall id | id in s.jobs && s.jobs[id].nodeId != nodeId :: id in t.jobs && t.jobs[id] == s.jobs[id])
    && t.domains.Keys == s.domains.Keys && t.certificates.Keys == s.certificates.Keys
    && (forall d | d in s.domains :: DomainKeeps(s.domains[d], t.domains[d], nodeId))
    && (forall c | c in s.certificates :: CertificateKeeps(s.certificates[c], t.certificates[c], nodeId))
  }

  lemma RevokeClearsReferences(s: State, nodeId: NodeId, now: Time)
    requires nodeId in s.nodes && nodeId != ""
    ensures NoReferences(Revoke(s, nodeId, now).value, nodeId)
  {
    hide Without;
  }

  lemma RevokedDomainKeeps(s: State, domain: Domain, nodeId: NodeId)
    ensures DomainKeeps(domain, RevokedDomain(s, domain, nodeId), nodeId)
  {
    hide Without, RevokesDeletion;
  }

  lemma RevokeKeepsOthers(s: State, nodeId: NodeId, now: Time)
    requires nodeId in s.nodes
    ensures OthersKeep(s, Revoke(s, nodeId, now).value, nodeId)
  {
    hide Without, DomainKeeps, RevokedDomain;
    var t := Revoke(s, nodeId, now).value;
    forall d | d in s.domains ensures DomainKeeps(s.domains[d], t.domains[d], nodeId) {
      RevokedDomainKeeps(s, s.domains[d], nodeId);
    }
    assert t.domains.Keys == s.domains.Keys && t.certificates.Keys == s.certificates.Keys;
  }

  /** Every active job of the node is failed, its finished jobs stay as they were, and a domain whose
      delete job failed with it is not being deleted any more. */
  lemma RevokeFailsJobs(s: State, nodeId: NodeId, now: Time, id: JobId)
    requires Keyed(s) && nodeId in s.nodes && id in s.jobs && s.jobs[id].nodeId == nodeId
    ensures
      var t := Revoke(s, nodeId, now).value;
      && id in t.jobs
      && (if IsActive(s.jobs[id]) then t.jobs[id].status == Failed && t.jobs[id].finishedAt == Some(now)
          else t.jobs[id] == s.jobs[id])
      && (DeletesDomain(s, id, s.jobs[id].domainId) && s.jobs[id].domainId in t.domains ==>
            !t.domains[s.jobs[id].domainId].deleting)
  {
    hide Without;
    if DeletesDomain(s, id, s.jobs[id].domainId) {
      assert RevokesDeletion(s, id, s.jobs[id].domainId, nodeId);
    }
  }

  /** A change of a domain names only live nodes and known accounts: its node and, each once, its sync targets. */
  lemma ChangeNamesLiveNodes(s: State, settings: Domain, source: Source, covers: bool, now: Time)
    requires UpdateDomain(s, settings, source, covers, now).Some?
    ensures
      var t := UpdateDomain(s, settings, source, covers, now).value;
      && settings.id in t.domains
      && var domain := t.domains[settings.id];
      && LiveNode(t, domain.nodeId) && domain.nodeId !in domain.syncNodeIds && !domain.deleting
      && (forall n | n in domain.syncNodeIds :: LiveNode(t, n))
      && (forall i, j | 0 <= i < j < |domain.syncNodeIds| :: domain.syncNodeIds[i] != domain.syncNodeIds[j])
      && (domain.autoRenew ==> domain.acmeAccountId in t.acmeAccounts && domain.dnsAccountId in t.dnsAccounts)
  {
    hide HasActiveCustomConfigJob, ValidatedNodeIds, Deployment;
    ValidatedNodesAreLive(s, settings.syncNodeIds, settings.nodeId);
  }

  lemma {:induction false} ValidatedNodesAreLive(s: State, values: seq<string>, exclude: NodeId)
    requires ValidatedNodeIds(s, values, exclude).Some?
    ensures
      var valid := ValidatedNodeIds(s, values, exclude).value;
      && exclude !in valid && "" !in valid && (forall n | n in valid :: LiveNode(s, n))
      && forall i, j | 0 <= i < j < |valid| :: valid[i] != valid[j]
  {
    hide LiveNode, TrimSpace;
    if values != [] { ValidatedNodesAreLive(s, values[..|values| - 1], exclude); }
  }

  ghost predicate IsRevoked(s: State, nodeId: NodeId) {
    nodeId in s.nodes && s.nodes[nodeId].status == Revoked
  }

  lemma AddingKeepsNodes(s: State, action: Action, now: Time)
    requires Keyed(s) && LinksInv(s) && Legal(s, action)
    requires IsRequest(action) || action.ChangeDomain? || action.RemoveDomain? || action.RetryJob?
    ensures Apply(s, action, now).nodes == s.nodes
  {
    hide Keyed, LinksInv, HasActiveCustomConfigJob, WireError, ValidatedNodeIds, SettingsHold, Deployment;
  }

  lemma MaintenanceKeepsRevoked(s: State, config: Config, orders: Orders, now: Time, nodeId: NodeId)
    requires StateInv(s) && AttemptsLeft(s) && IsRevoked(s, nodeId)
    ensures IsRevoked(Maintain(s, config, orders, now), nodeId)
  {
    hide Keyed, LinksInv, PointersInv, Recover, RenewDomains, RenewCertificates, AttemptsLeft, Extends;
    OfflineThenMaintainedIsOk(s, config, now);
    var m := MaintainJobs(MarkOffline(s, config, now), now);
    RecoverExtends(m, orders.jobs, config, now);
    RenewalsGrow(Recover(m, orders.jobs, config, now), orders, now);
  }

  lemma AgentKeepsRevoked(s: State, action: Action, now: Time, nodeId: NodeId)
    requires StateInv(s) && Legal(s, action) && (action.PollNode? || action.ReportResult?) && IsRevoked(s, nodeId)
    ensures IsRevoked(Apply(s, action, now), nodeId)
  {
    hide Keyed, LinksInv, PointersInv, Complete, WireError, Takes, RestoreFailedDeletion;
    if action.PollNode? {
      PossibleIfTakes(s, action.nodeId, action.case_);
    } else if Result(s, action.id, action.nodeId, action.result, now).Some? {
      RunsOnLiveNode(s, action.nodeId, action.id);
      var current := s.jobs[action.id];
      if action.result.success && !current.payload.UpdateAtlas? {
        CompleteGrows(s, current.(status := Succeeded, error := "", finishedAt := Some(now)), action.result.prepared, now);
      }
    }
  }

  lemma PossibleIfTakes(s: State, nodeId: NodeId, case_: PollCase)
    requires Takes(s, nodeId, case_)
    ensures Possible(s, nodeId, case_)
  {
  }

  lemma RunsOnLiveNode(s: State, nodeId: NodeId, id: JobId)
    requires PointersInv(s) && Runs(s, nodeId, id)
    ensures LiveNode(s, nodeId)
  {
  }

  lemma RevokedStays(sys: System, event: Event, nodeId: NodeId)
    requires Inv(sys) && Enabled(sys, event) && IsRevoked(sys.state, nodeId)
    ensures IsRevoked(Next(sys, event).state, nodeId)
  {
    hide Keyed, LinksInv, PointersInv, Maintain, Poll, Result, Complete, Clear;
    var s, now := sys.state, event.at;
    JobsInvAttempts(s, sys.clock);
    match event.action {
      case PollNode(_, _, _, _) => AgentKeepsRevoked(s, event.action, now, nodeId);
      case ReportResult(_, _, _) => AgentKeepsRevoked(s, event.action, now, nodeId);
      case RunMaintenance(config, orders) => MaintenanceKeepsRevoked(s, config, orders, now, nodeId);
      case CommitIssue(id, attempts, result) =>
        if Commit(s, id, attempts, result, now).Some? && result.success {
          CompleteGrows(s, s.jobs[id], result.prepared, now);
        }
      case ClearPending => ClearPointers(s);
      case Enroll(_) =>
      case ClaimIssue(_) =>
      case RevokeNode(_) =>
      case _ => AddingKeepsNodes(s, event.action, now);
    }
  }

  lemma {:induction false} RevokedForEver(sys: System, events: seq<Event>, nodeId: NodeId)
    requires Inv(sys) && LegalRun(sys, events) && IsRevoked(sys.state, nodeId)
    ensures IsRevoked(Run(sys, events).state, nodeId) && Inv(Run(sys, events))
    decreases |events|
  {
    hide Inv, Enabled, Next;
    if events != [] {
      InvStep(sys, events[0]);
      RevokedStays(sys, events[0], nodeId);
      RevokedForEver(Next(sys, events[0]), events[1..], nodeId);
    }
  }

  /** After a revocation the node is revoked in every later state, no node job of it is ever running
      again, and no poll of it is ever answered with a job. */
  lemma RevocationIsFinal(sys: System, now: Time, events: seq<Event>, nodeId: NodeId)
    requires Inv(sys) && sys.clock <= now && nodeId in sys.state.nodes
    requires LegalRun(Next(sys, Event(RevokeNode(nodeId), now)), events)
    ensures
      var s := Run(Next(sys, Event(RevokeNode(nodeId), now)), events).state;
      && IsRevoked(s, nodeId)
      && (forall id :: !Runs(s, nodeId, id))
      && (forall case_ | Takes(s, nodeId, case_) :: case_ == Rejected)
  {
    hide Keyed, LinksInv, JobsInv, JobInv;
    var event := Event(RevokeNode(nodeId), now);
    InvStep(sys, event);
    assert IsRevoked(Next(sys, event).state, nodeId);
    RevokedForEver(Next(sys, event), events, nodeId);
  }
}
