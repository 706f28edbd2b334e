/** What holds in every state a run can reach. */
module Reachable {
  import opened Model
  import opened Jobs
  import opened Protocol
  import opened Transitions
  import opened Invariants
  import opened AdminSteps

  /** The invariants hold along every run. */
  lemma {:induction false} InvRun(sys: System, events: seq<Event>)
    requires Inv(sys) && LegalRun(sys, events)
    ensures Inv(Run(sys, events))
    decreases |events|
  {
    hide Inv, Enabled, Next;
    if events != [] {
      InvStep(sys, events[0]);
      InvRun(Next(sys, events[0]), events[1..]);
    }
  }

  /** A controller that starts with nothing satisfies the invariants for ever. */
  lemma InvReachable(start: Time, events: seq<Event>)
    requires LegalRun(System(EmptyState(), start), events)
    ensures Inv(Run(System(EmptyState(), start), events))
  {
    assert Inv(System(EmptyState(), start));
    InvRun(System(EmptyState(), start), events);
  }

  /** In every reachable state a node has at most one running node job, and `RunningJobID`
      names exactly that job. */
  lemma OneRunningJobPerNode(start: Time, events: seq<Event>)
    requires LegalRun(System(EmptyState(), start), events)
    ensures
      var s := Run(System(EmptyState(), start), events).state;
      && (forall n, a, b | Runs(s, n, a) && Runs(s, n, b) :: a == b)
      && (forall n, id: JobId | n in s.nodes :: s.nodes[n].runningJobId == Some(id) <==> Runs(s, n, id))
      && (forall n, id | Runs(s, n, id) :: LiveNode(s, n))
  {
    InvReachable(start, events);
  }

  /** Hence the search for orphaned running jobs in a poll never finds one: a poll that sends a
      running job again sends the one that the node points at. */
  lemma OrphanSearchFindsNothing(sys: System, nodeId: NodeId, case_: PollCase)
    requires Inv(sys) && Takes(sys.state, nodeId, case_) && LiveNode(sys.state, nodeId)
    ensures sys.state.nodes[nodeId].runningJobId.None? ==> forall id :: !Runs(sys.state, nodeId, id)
    ensures case_.Redispatch? ==> sys.state.nodes[nodeId].runningJobId == Some(case_.id)
    ensures sys.state.nodes[nodeId].runningJobId.Some? ==>
      (case_.Redispatch? || case_.ObserveUpdate?) && case_.id == sys.state.nodes[nodeId].runningJobId.value
  {
    hide LinksInv, JobsInv, Keyed;
    forall id | Waits(sys.state, nodeId, id) ensures Runs(sys.state, nodeId, id) {
    }
  }

  // ----- Deletion flags -----

  /** Without clears, a domain flagged as being deleted always has a queued or running delete job. */
  lemma {:induction false} DeletionRun(sys: System, events: seq<Event>)
    requires Inv(sys) && DeletionInv(sys.state) && LegalRun(sys, events)
    requires forall e | e in events :: !e.action.ClearPending?
    ensures DeletionInv(Run(sys, events).state)
    decreases |events|
  {
    hide Inv, Enabled, Next, DeletionInv;
    if events != [] {
      InvStep(sys, events[0]);
      DeletionStep(sys, events[0]);
      DeletionRun(Next(sys, events[0]), events[1..]);
    }
  }

  ghost predicate RunningDeletion(s: State, id: JobId, domainId: DomainId) {
    DeletesDomain(s, id, domainId) && s.jobs[id].status == Running
  }

  /** The last job of the domain is a delete job that a clear removes. */
  predicate ClearUnflags(s: State, domain: Domain) {
    && domain.lastJobId.Some? && Clearable(s, domain.lastJobId.value)
    && s.jobs[domain.lastJobId.value].payload.DeleteDomain?
  }

  /** A clear keeps the deletion flags consistent exactly when every flagged domain either has a
      delete job that is running or has a queued or failed delete job as its last job. */
  lemma ClearKeepsDeletionsIff(s: State)
    ensures DeletionInv(Clear(s)) <==>
      forall d | d in s.domains && s.domains[d].deleting ::
        ClearUnflags(s, s.domains[d]) || exists id :: RunningDeletion(s, id, d)
  {
    var t := Clear(s);
    forall id, d ensures DeletesDomain(t, id, d) <==> RunningDeletion(s, id, d) {
    }
    forall d | d in s.domains
      ensures t.domains[d].deleting <==> s.domains[d].deleting && !ClearUnflags(s, s.domains[d])
    {
    }
  }

  // A run in which a clear loses a deletion: a renewal makes an issue job the domain's last job.

  const WITNESS_NODE := Node("n", Online, None, None, "", false, None)
  const WITNESS_DOMAIN := Domain("d", "example.org", "n", "", "acme", "dns", true, 30, [], true, false, false, "", None)
  const WITNESS_CONFIG := Config(90 * SECOND, _ => false)

  function WitnessEvents(start: Time): seq<Event> {
    [Event(Enroll(WITNESS_NODE), start),
     Event(SetAccounts({"acme"}, {"dns"}), start),
     Event(AddDomain(WITNESS_DOMAIN, None), start),
     Event(RemoveDomain("d"), start),
     Event(RunMaintenance(WITNESS_CONFIG, Orders([], ["d"], [])), start),
     Event(ClearPending, start)]
  }

  function DeletionQueued(start: Time): State {
    State(map["n" := WITNESS_NODE],
          map[0 := NewJob(0, "n", "d", DeleteDomain, start)],
          map["d" := WITNESS_DOMAIN.(enabled := false, deleting := true, lastJobId := Some(0))],
          map[], {"acme"}, {"dns"}, 1)
  }

  function RenewalQueued(start: Time): State {
    var issue := NewJob(1, "n", "d", IssueCertificate("d", "", "", "", "", false, []), start);
    DeletionQueued(start).(
      nodes := map["n" := WITNESS_NODE.(status := Offline)],
      jobs := map[0 := NewJob(0, "n", "d", DeleteDomain, start), 1 := issue],
      domains := map["d" := WITNESS_DOMAIN.(enabled := false, deleting := true, lastJobId := Some(1))],
      nextJobId := 2)
  }

  lemma WitnessRequests(start: Time)
    ensures
      var s1 := Apply(EmptyState(), Enroll(WITNESS_NODE), start);
      var s2 := Apply(s1, SetAccounts({"acme"}, {"dns"}), start);
      var s3 := Apply(s2, AddDomain(WITNESS_DOMAIN, None), start);
      && Legal(EmptyState(), Enroll(WITNESS_NODE)) && Legal(s2, AddDomain(WITNESS_DOMAIN, None))
      && Apply(s3, RemoveDomain("d"), start) == DeletionQueued(start)
  {
  }

  lemma WitnessPass(start: Time)
    ensures
      MaintainJobs(MarkOffline(DeletionQueued(start), WITNESS_CONFIG, start), start)
      == DeletionQueued(start).(nodes := map["n" := WITNESS_NODE.(status := Offline)])
  {
    hide Recoverable, DomainDue, CertificateDue;
  }

  lemma WitnessMaintenance(start: Time)
    ensures Maintain(DeletionQueued(start), WITNESS_CONFIG, Orders([], ["d"], []), start) == RenewalQueued(start)
  {
    hide MaintainJobs, MarkOffline, RecoverJob, RenewCertificate;
    WitnessPass(start);
    var s := DeletionQueued(start).(nodes := map["n" := WITNESS_NODE.(status := Offline)]);
    assert ["d"][..0] == [];
    assert RenewDomains(s, ["d"], start) == RenewDomain(s, "d", start);
  }

  lemma RunCons(sys: System, event: Event, events: seq<Event>)
    requires Enabled(sys, event) && LegalRun(Next(sys, event), events)
    ensures LegalRun(sys, [event] + events) && Run(sys, [event] + events) == Run(Next(sys, event), events)
  {
    assert ([event] + events)[1..] == events;
  }

  /** From the queued deletion on: a maintenance pass, then a clear. */
  lemma WitnessTail(start: Time)
    ensures
      var sys := System(DeletionQueued(start), start);
      LegalRun(sys, WitnessEvents(start)[4..]) && Run(sys, WitnessEvents(start)[4..]).state == Clear(RenewalQueued(start))
  {
    hide Maintain, Clear;
    WitnessMaintenance(start);
    var e := WitnessEvents(start);
    RunCons(System(RenewalQueued(start), start), e[5], []);
    RunCons(System(DeletionQueued(start), start), e[4], [e[5]]);
    assert e[4..] == [e[4]] + [e[5]];
  }

  lemma WitnessRun(start: Time)
    ensures
      var sys := System(EmptyState(), start);
      LegalRun(sys, WitnessEvents(start)) && Run(sys, WitnessEvents(start)).state == Clear(RenewalQueued(start))
  {
    hide Clear, DeletionQueued, RenewalQueued, DeleteDomainRequest;
    WitnessRequests(start);
    WitnessTail(start);
    var s1 := Apply(EmptyState(), Enroll(WITNESS_NODE), start);
    var s2 := Apply(s1, SetAccounts({"acme"}, {"dns"}), start);
    var s3 := Apply(s2, AddDomain(WITNESS_DOMAIN, None), start);
    var e := WitnessEvents(start);
    RunCons(System(s3, start), e[3], e[4..]);
    RunCons(System(s2, start), e[2], e[3..]);
    RunCons(System(s1, start), e[1], e[2..]);
    RunCons(System(EmptyState(), start), e[0], e[1..]);
    assert e[3..] == [e[3]] + e[4..] && e[2..] == [e[2]] + e[3..] && e[1..] == [e[1]] + e[2..] && e == [e[0]] + e[1..];
  }

  /** A clear can leave a domain flagged as being deleted although no job is left, and then a
      new request to delete it is refused. */
  lemma ClearCanLoseDeletion(start: Time)
    ensures
      var sys := System(EmptyState(), start);
      && LegalRun(sys, WitnessEvents(start))
      && var s := Run(sys, WitnessEvents(start)).state;
         && "d" in s.domains && s.domains["d"].deleting && s.jobs == map[]
         && DeleteDomainRequest(s, "d", start) == None
         && !DeletionInv(s)
  {
    hide Run, LegalRun, EnqueueForDomain;
    WitnessRun(start);
    var s := Clear(RenewalQueued(start));
    assert s.jobs == map[];
    assert forall id :: !DeletesDomain(s, id, "d");
  }
}
