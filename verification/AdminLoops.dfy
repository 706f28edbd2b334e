/** The loops of a revocation and of a clear after some of the jobs. */
module AdminLoops {
  import opened Model
  import opened Jobs
  import opened Protocol
  import opened Invariants

  function DoneDomain(s: State, done: set<JobId>, domain: Domain, nodeId: NodeId): Domain {
    var disowned := DisownedDomain(domain, nodeId);
    if exists id | id in done :: RevokesDeletion(s, id, domain.id, nodeId) then Restored(disowned) else disowned
  }

  /** The jobs when the job loop of a revocation has visited those in `done`. */
  function RevokedJobs(s: State, done: set<JobId>, nodeId: NodeId, now: Time): map<JobId, Job> {
    map id | id in s.jobs :: if id in done then RevokedJob(s.jobs[id], nodeId, now) else s.jobs[id]
  }

  /** The domains at the same point. */
  function RevokedDomains(s: State, done: set<JobId>, nodeId: NodeId): map<DomainId, Domain> {
    map d | d in s.domains :: DoneDomain(s, done, s.domains[d], nodeId)
  }

  lemma RevokeStart(s: State, nodeId: NodeId, now: Time)
    ensures RevokedJobs(s, {}, nodeId, now) == s.jobs
    ensures RevokedDomains(s, {}, nodeId) == map d | d in s.domains :: DisownedDomain(s.domains[d], nodeId)
  {
  }

  lemma RevokeEnd(s: State, nodeId: NodeId, now: Time)
    requires nodeId in s.nodes
    ensures RevokedJobs(s, s.jobs.Keys, nodeId, now) == Revoke(s, nodeId, now).value.jobs
    ensures RevokedDomains(s, s.jobs.Keys, nodeId) == Revoke(s, nodeId, now).value.domains
  {
    hide RevokedCertificate, RevokedJob, DisownedDomain, RevokesDeletion;
    forall d | d in s.domains
      ensures DoneDomain(s, s.jobs.Keys, s.domains[d], nodeId) == RevokedDomain(s, s.domains[d], nodeId)
    {
    }
  }

  lemma RevokeTurnJobs(s: State, done: set<JobId>, id: JobId, nodeId: NodeId, now: Time)
    requires id in s.jobs && id !in done
    ensures RevokedJobs(s, done + {id}, nodeId, now) == RevokedJobs(s, done, nodeId, now)[id := RevokedJob(s.jobs[id], nodeId, now)]
  {
    hide RevokedJob;
  }

  lemma DoneDomainTurn(s: State, done: set<JobId>, id: JobId, nodeId: NodeId, domain: Domain)
    requires id in s.jobs && id !in done
    ensures
      var before := DoneDomain(s, done, domain, nodeId);
      DoneDomain(s, done + {id}, domain, nodeId)
      == if RevokesDeletion(s, id, domain.id, nodeId) then Restored(before) else before
  {
    hide DisownedDomain, RevokesDeletion;
    if !RevokesDeletion(s, id, domain.id, nodeId) {
      assert (exists k | k in done + {id} :: RevokesDeletion(s, k, domain.id, nodeId))
        <==> exists k | k in done :: RevokesDeletion(s, k, domain.id, nodeId);
    }
  }

  lemma RevokeTurnDomains(s: State, done: set<JobId>, id: JobId, nodeId: NodeId, job: Job)
    requires Keyed(s) && id in s.jobs && id !in done
    requires job.payload == s.jobs[id].payload && job.domainId == s.jobs[id].domainId
    ensures
      RevokedDomains(s, done + {id}, nodeId)
      == if RevokedActively(s.jobs[id], nodeId) then RestoreFailedDeletion(RevokedDomains(s, done, nodeId), job)
         else RevokedDomains(s, done, nodeId)
  {
    hide DoneDomain, Restored;
    forall d | d in s.domains
      ensures DoneDomain(s, done + {id}, s.domains[d], nodeId)
           == if RevokesDeletion(s, id, d, nodeId) then Restored(DoneDomain(s, done, s.domains[d], nodeId))
              else DoneDomain(s, done, s.domains[d], nodeId)
    {
      DoneDomainTurn(s, done, id, nodeId, s.domains[d]);
    }
  }

  /** Nodes when a clear has released those of the removed jobs in `done`. */
  function ReleasedNodes(s: State, done: set<JobId>): map<NodeId, Node> {
    map n | n in s.nodes ::
      if s.nodes[n].runningJobId.Some? && s.nodes[n].runningJobId.value in done
         && s.nodes[n].runningJobId.value in s.jobs && s.jobs[s.nodes[n].runningJobId.value].nodeId == n
      then s.nodes[n].(runningJobId := None) else s.nodes[n]
  }

  lemma ReleaseTurn(s: State, done: set<JobId>, id: JobId)
    requires Keyed(s) && id in s.jobs && id !in done
    ensures
      var nodes := ReleasedNodes(s, done);
      var nodeId := s.jobs[id].nodeId;
      ReleasedNodes(s, done + {id}) ==
        if nodeId in nodes && nodes[nodeId].runningJobId == Some(id)
        then nodes[nodeId := nodes[nodeId].(runningJobId := None)] else nodes
  {
  }

  lemma ReleaseEnd(s: State, removed: set<JobId>)
    requires forall id :: id in removed <==> Clearable(s, id)
    ensures ReleasedNodes(s, {}) == s.nodes
    ensures ReleasedNodes(s, removed) == Clear(s).nodes
  {
    hide ClearedDomain;
  }
}
