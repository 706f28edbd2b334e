/** What the administrator's requests, a revocation and a claim leave behind, in full. */
module Requests {
  import opened Model
  import opened Text
  import opened Jobs
  import opened UpdateConfirmation
  import opened Protocol
  import opened Invariants
  import opened AgentSteps
  import opened Polls
  import opened Results

  // ----- A manual retry -----

  /** The controller has what the job needs, whoever executes it. */
  ghost predicate CanBeSent(s: State, job: Job, opens: bool) {
    if job.payload.IssueCertificate? then WireError(s, job, opens).None? else HasRecords(s, job, opens)
  }

  /** A retry is refused unless the job has failed, has not been retried, its node is live and its records are there. */
  lemma RetryIsTakenIff(s: State, id: JobId, opens: bool, now: Time)
    ensures Retry(s, id, opens, now).Some? <==>
      && id in s.jobs && s.jobs[id].status == Failed && s.jobs[id].retryJobId.None?
      && LiveNode(s, s.jobs[id].nodeId) && CanBeSent(s, s.jobs[id], opens)
  {
    if id in s.jobs {
      var retry := RetryOf(s.jobs[id], s.nextJobId, now);
      if IsNodeJob(retry) {
        WireErrorIff(s, retry, opens);
      }
      hide LinkRetry;
      SamePayload(s, s.jobs[id], retry, opens);
    }
  }

  lemma SamePayload(s: State, job: Job, retry: Job, opens: bool)
    requires retry.payload == job.payload
    ensures WireError(s, retry, opens) == WireError(s, job, opens) && (HasRecords(s, retry, opens) <==>
        HasRecords(s, job, opens))
  {
  }

  /** The retry is a fresh copy of the failed job with all its attempts, linked both ways, and the last job of its
      domain; with a delete job the domain is being deleted again. */
  lemma RetryLeaves(s: State, id: JobId, opens: bool, now: Time)
    requires Keyed(s) && Retry(s, id, opens, now).Some?
    ensures
      var failed, t := s.jobs[id], Retry(s, id, opens, now).value;
      var copy := Job(s.nextJobId, failed.nodeId, failed.domainId, failed.payload, Queued, 0,
                      if failed.maxAttempts < 1 then 3 else failed.maxAttempts, "", now, Some(now), None, None,
                      Some(id), None, None, None, None);
      && t == s.(jobs := s.jobs[id := failed.(retryJobId := Some(s.nextJobId))][s.nextJobId := copy],
                 nextJobId := s.nextJobId + 1, domains := t.domains)
      && t.domains ==
           (if failed.domainId !in s.domains then s.domains
            else
              var before := s.domains[failed.domainId];
              var deletes := failed.payload.DeleteDomain?;
              s.domains[failed.domainId :=
                before.(lastJobId := Some(s.nextJobId), deleting := deletes || before.deleting,
                        enabled := before.enabled && !deletes)])
  {
    hide WireError;
  }

  // ----- Clearing jobs -----

  /** A clear removes the queued and the failed jobs and no other; a domain whose last job goes forgets it, and is an
      ordinary domain again if that was its deletion. */
  lemma ClearLeaves(s: State)
    ensures
      var t := Clear(s);
      && (forall id :: id in t.jobs <==> id in s.jobs && (s.jobs[id].status == Running || s.jobs[id].status == Succeeded))
      && (forall id | id in t.jobs :: t.jobs[id] == s.jobs[id])
      && t == s.(jobs := t.jobs, nodes := t.nodes, domains := t.domains) && t.domains.Keys == s.domains.Keys
      && t.nodes.Keys == s.nodes.Keys
      && (forall n | n in s.nodes ::
            var running := s.nodes[n].runningJobId;
            var cleared := running.Some? && running.value in s.jobs && running.value !in t.jobs
                && s.jobs[running.value].nodeId == n;
            t.nodes[n] == s.nodes[n].(runningJobId := if cleared then None else running))
      && forall d | d in s.domains ::
           var before, after := s.domains[d], t.domains[d];
           if before.lastJobId.Some? && before.lastJobId.value in s.jobs && before.lastJobId.value !in t.jobs then
             var deletes := s.jobs[before.lastJobId.value].payload.DeleteDomain?;
             after == before.(lastJobId := None, deleting := before.deleting
                 && !deletes, enabled := before.enabled || deletes)
           else after == before
  {
  }

  // ----- Deleting a domain -----

  /** A domain that nothing manages is dropped at once; one that is being deleted is refused; any other is disabled,
      flagged, and gets a delete job as its last. */
  lemma DeletionRequestLeaves(s: State, domainId: DomainId, now: Time)
    requires Keyed(s) && domainId in s.domains
    ensures
      var domain, r := s.domains[domainId], DeleteDomainRequest(s, domainId, now);
      var dropped := domain.observedOnly || domain.nodeId == "" || !LiveNode(s, domain.nodeId);
      var deleting := domain.deleting || exists id | id in s.jobs ::
        domain.lastJobId == Some(id) && s.jobs[id].payload.DeleteDomain? && s.jobs[id].status != Failed;
      && (r.None? <==> !dropped && deleting)
      && (r.Some? ==>
            var t := r.value;
            if dropped then t == s.(domains := t.domains) && t.domains == map d | d in s.domains
                && d != domainId :: s.domains[d]
            else
              && Queues(s, t, [domain.nodeId], domainId, DeleteDomain, now)
              && t == s.(jobs := t.jobs, nextJobId := t.nextJobId, domains := s.domains[domainId :=
                   domain.(enabled := false, deleting := true, lastJobId := Some(s.nextJobId))])
              && forall k | k in s.jobs :: t.jobs[k] == s.jobs[k])
  {
  }

  lemma DeletionRequestOfNothing(s: State, domainId: DomainId, now: Time)
    ensures domainId !in s.domains ==> DeleteDomainRequest(s, domainId, now).None?
  {
  }

  // ----- Changing a domain -----

  ghost predicate Lists(values: seq<string>, nodeId: NodeId) {
    exists i | 0 <= i < |values| :: TrimSpace(values[i]) == nodeId
  }

  /** The sync targets are the nodes listed, each once, but for blanks and the domain's own node; one that is not live
      rejects the list. */
  lemma {:induction false} TargetsAreThoseListed(s: State, values: seq<string>, exclude: NodeId)
    ensures
      var targets := ValidatedNodeIds(s, values, exclude);
      && (targets.None? <==> exists n :: Lists(values, n) && n != "" && n != exclude && !LiveNode(s, n))
      && (targets.Some? ==> forall n :: n in targets.value <==> Lists(values, n) && n != "" && n != exclude)
    decreases |values|
  {
    hide TrimSpace, LiveNode;
    if values != [] {
      var last := |values| - 1;
      TargetsAreThoseListed(s, values[..last], exclude);
      forall n ensures Lists(values, n) <==> Lists(values[..last], n) || n == TrimSpace(values[last]) {
        if Lists(values[..last], n) {
          var i :| 0 <= i < last && TrimSpace(values[..last][i]) == n;
          assert TrimSpace(values[i]) == n;
        }
        if Lists(values, n) && n != TrimSpace(values[last]) {
          var i :| 0 <= i < |values| && TrimSpace(values[i]) == n;
          assert TrimSpace(values[..last][i]) == n;
        }
      }
    }
  }

  /** What a change asks for exists, and nothing is in its way. */
  ghost predicate ChangeIsSound(s: State, settings: Domain, source: Source, covers: bool) {
    && settings.id in s.domains && LiveNode(s, settings.nodeId)
    && (forall id | id in s.jobs && IsActive(s.jobs[id]) && s.jobs[id].domainId == settings.id ::
          !(s.jobs[id].payload.ApplyDomain? && s.jobs[id].payload.customConfig.Some?))
    && (settings.certificateId == "" || (settings.certificateId in s.certificates && covers))
    && (source.AcmeSource? || settings.autoRenew ==>
          settings.acmeAccountId in s.acmeAccounts && settings.dnsAccountId in s.dnsAccounts)
    && forall n | Lists(settings.syncNodeIds, n) && n != "" && n != settings.nodeId :: LiveNode(s, n)
  }

  lemma ChangeIsTakenIff(s: State, settings: Domain, source: Source, covers: bool, now: Time)
    ensures UpdateDomain(s, settings, source, covers, now).Some? <==> ChangeIsSound(s, settings, source, covers)
  {
    hide ValidatedNodeIds, Deployment, WithRenewalSettings, ChangedDomain, Lists, LiveNode;
    TargetsAreThoseListed(s, settings.syncNodeIds, settings.nodeId);
  }

  /** The job that deploys the change: an issue where an ACME certificate is still missing, otherwise an application of
      the chosen certificate, or of none where it is already on the node. */
  predicate Deploys(payload: Payload, settings: Domain, source: Source) {
    if source.AcmeSource? && settings.certificateId == ""
        then payload == IssueCertificate(settings.id, "", "", "", "", false, [])
    else if source.UploadSource? || source.AcmeSource? then payload == ApplyDomain(settings.id, settings.certificateId, None)
    else payload == ApplyDomain(settings.id, "", None)
  }

  /** The domain takes the settings, is enabled, keeps its name and custom text, and is deployed by a new job unless it is
      only observed; a certificate that it renews takes over its renewal settings. */
  lemma ChangeLeaves(s: State, settings: Domain, source: Source, covers: bool, now: Time)
    requires Keyed(s) && UpdateDomain(s, settings, source, covers, now).Some?
    ensures
      var before, t := s.domains[settings.id], UpdateDomain(s, settings, source, covers, now).value;
      && settings.id in t.domains
      && var after := t.domains[settings.id];
      && t.domains == s.domains[settings.id := after]
      && after == settings.(
           name := before.name, observedOnly := before.observedOnly, customConfig := before.customConfig,
           lastJobId := after.lastJobId, enabled := true, deleting := false, syncNodeIds := after.syncNodeIds)
      && (forall n :: n in after.syncNodeIds <==> Lists(settings.syncNodeIds, n) && n != "" && n != settings.nodeId)
      && t == s.(domains := t.domains, certificates := t.certificates, jobs := t.jobs, nextJobId := t.nextJobId)
      && (forall k | k in s.jobs :: k in t.jobs && t.jobs[k] == s.jobs[k])
      && (if before.observedOnly then t.jobs == s.jobs && t.nextJobId == s.nextJobId && after.lastJobId == before.lastJobId
          else
            && s.nextJobId in t.jobs && Deploys(t.jobs[s.nextJobId].payload, settings, source)
            && Queues(s, t, [settings.nodeId], settings.id, t.jobs[s.nextJobId].payload, now)
            && after.lastJobId == Some(s.nextJobId))
      && t.certificates ==
           (if settings.certificateId == "" || !settings.autoRenew then s.certificates
            else s.certificates[settings.certificateId := s.certificates[settings.certificateId].(
              autoRenew := true, renewBeforeDays := settings.renewBeforeDays,
              acmeAccountId := settings.acmeAccountId, dnsAccountId := settings.dnsAccountId)])
  {
    hide ValidatedNodeIds, Lists, LiveNode, HasActiveCustomConfigJob, Deployment, SettingsHold, Queues;
    SettingsAreSound(s, settings, source, covers);
    TargetsAreThoseListed(s, settings.syncNodeIds, settings.nodeId);
    var domain := ChangedDomain(s, settings);
    var changed := if domain.certificateId == "" then s else WithRenewalSettings(s, domain);
    if !domain.observedOnly {
      DeploymentIsQueued(s, changed, domain, settings, source, now);
    }
  }

  lemma SettingsAreSound(s: State, settings: Domain, source: Source, covers: bool)
    requires SettingsHold(s, settings, source, covers)
    ensures ValidatedNodeIds(s, settings.syncNodeIds, settings.nodeId).Some?
    ensures settings.certificateId != "" ==> settings.certificateId in s.certificates
  {
  }

  lemma DeploymentIsQueued(s: State, changed: State, domain: Domain, settings: Domain, source: Source, now: Time)
    requires changed.jobs == s.jobs && changed.nextJobId == s.nextJobId && FreshIds(s)
    requires domain.id == settings.id && domain.certificateId == settings.certificateId && domain.nodeId == settings.nodeId
    ensures
      var t := EnqueueForDomain(changed, domain, Deployment(domain, source), now);
      && s.nextJobId in t.jobs && Deploys(t.jobs[s.nextJobId].payload, settings, source)
      && Queues(s, t, [settings.nodeId], settings.id, t.jobs[s.nextJobId].payload, now)
      && forall k | k in s.jobs :: k in t.jobs && t.jobs[k] == s.jobs[k]
  {
  }

  // ----- A revocation -----

  /** Taking a value out of a list leaves the others where they were. */
  lemma {:induction false} WithoutIsFilter(first: seq<string>, value: string, rest: seq<string>, target: string)
    ensures Without([], target) == []
    ensures
      Without(first + [value] + rest, target) ==
        Without(first, target) + (if value == target then [] else [value]) + Without(rest, target)
  {
    var all := first + [value] + rest;
    if first == [] {
      assert all == [value] + rest && all[1..] == rest;
    } else {
      assert all[1..] == first[1..] + [value] + rest && all[0] == first[0];
      WithoutIsFilter(first[1..], value, rest, target);
    }
  }

  /** A domain of the revoked node has no owner, is disabled and does not renew; one whose deletion fails with the
      revocation is an ordinary domain again. */
  ghost predicate DomainRevoked(s: State, before: Domain, after: Domain, nodeId: NodeId) {
    var owned := before.nodeId == nodeId;
    var undeleted := exists id | id in s.jobs :: s.jobs[id].nodeId == nodeId && DeletesDomain(s, id, before.id);
    after == before.(
      syncNodeIds := Without(before.syncNodeIds, nodeId), nodeId := if owned then "" else before.nodeId,
      autoRenew := before.autoRenew && !owned, deleting := before.deleting && !owned && !undeleted,
      enabled := if owned then false else if undeleted then before.nodeId != "" else before.enabled)
  }

  /** A certificate that the node issued has no issuer and does not renew. */
  predicate CertificateRevoked(before: Certificate, after: Certificate, nodeId: NodeId) {
    var issued := before.issuerNodeId == nodeId;
    after == before.(
      deployedNodeIds := Without(before.deployedNodeIds, nodeId), issuerNodeId := if issued then "" else before.issuerNodeId,
      autoRenew := before.autoRenew && !issued)
  }

  lemma RevokedDomainForm(s: State, before: Domain, nodeId: NodeId)
    ensures DomainRevoked(s, before, RevokedDomain(s, before, nodeId), nodeId)
  {
    hide Without;
    assert forall id | id in s.jobs ::
      RevokesDeletion(s, id, before.id, nodeId) <==> s.jobs[id].nodeId == nodeId && DeletesDomain(s, id, before.id);
  }

  /** The revoked node points at nothing, and every domain and certificate is without it. */
  lemma RevocationLeaves(s: State, nodeId: NodeId, now: Time)
    requires nodeId in s.nodes
    ensures
      var t := Revoke(s, nodeId, now).value;
      && t.nodes == s.nodes[nodeId := s.nodes[nodeId].(status := Revoked, revokedAt := Some(now), runningJobId := None)]
      && t.domains.Keys == s.domains.Keys && t.certificates.Keys == s.certificates.Keys && t.jobs.Keys == s.jobs.Keys
      && (forall d | d in s.domains :: DomainRevoked(s, s.domains[d], t.domains[d], nodeId))
      && (forall c | c in s.certificates :: CertificateRevoked(s.certificates[c], t.certificates[c], nodeId))
  {
    hide Without, DomainRevoked, RevokedDomain, RevokedJob;
    forall d | d in s.domains ensures DomainRevoked(s, s.domains[d], RevokedDomain(s, s.domains[d], nodeId), nodeId) {
      RevokedDomainForm(s, s.domains[d], nodeId);
    }
  }

  // ----- A claim -----

  /** Only a queued or running issue can be claimed; the claim starts it and counts an attempt. */
  lemma ClaimLeaves(s: State, id: JobId, now: Time)
    ensures
      && (Claim(s, id, now).Some? <==> id in s.jobs && s.jobs[id].payload.IssueCertificate? && IsActive(s.jobs[id]))
      && (Claim(s, id, now).Some? ==>
            var job, t := s.jobs[id], Claim(s, id, now).value;
            && t == s.(jobs := s.jobs[id := job.(status := Running, attempts := job.attempts + 1, startedAt := Some(now))],
                       nodes := t.nodes)
            && t.nodes.Keys == s.nodes.Keys
            && forall n | n in s.nodes ::
                 t.nodes[n] == s.nodes[n].(runningJobId :=
                   if n == job.nodeId && s.nodes[n].runningJobId == Some(id) then None else s.nodes[n].runningJobId))
  {
  }
}
