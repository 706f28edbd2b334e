/** The job loop of a maintenance pass after some of the jobs: a function of which jobs have been
    visited, not of the order. */
module PassOrder {
  import opened Model
  import opened Jobs
  import opened UpdateConfirmation
  import opened Protocol
  import opened Invariants

  function DoneJob(s: State, done: set<JobId>, id: JobId, now: Time): Job
    requires id in s.jobs
  {
    if id in done then MaintainedJob(s, s.jobs[id], now) else s.jobs[id]
  }

  function DoneNode(s: State, done: set<JobId>, node: Node, now: Time): Node {
    if node.runningJobId.Some? && node.runningJobId.value in done then MaintainedNode(s, node, now) else node
  }

  function DoneDomain(s: State, done: set<JobId>, domain: Domain, now: Time): Domain {
    if exists id | id in done :: FailsDeletion(s, id, domain.id, now) then Restored(domain) else domain
  }

  /** The state when the loop has visited the jobs in `done`. */
  function PassDone(s: State, done: set<JobId>, now: Time): State {
    s.(jobs := map id | id in s.jobs :: DoneJob(s, done, id, now),
       nodes := map n | n in s.nodes :: DoneNode(s, done, s.nodes[n], now),
       domains := map d | d in s.domains :: DoneDomain(s, done, s.domains[d], now))
  }

  lemma PassStart(s: State, now: Time)
    ensures PassDone(s, {}, now) == s
  {
  }

  /** The loop leaves the keys, the liveness of nodes and the jobs still to come as they were. */
  lemma PassDoneKeeps(s: State, done: set<JobId>, now: Time)
    requires Keyed(s)
    ensures Keyed(PassDone(s, done, now)) && PassDone(s, done, now).jobs.Keys == s.jobs.Keys
    ensures forall n :: LiveNode(PassDone(s, done, now), n) <==> LiveNode(s, n)
    ensures forall id | id in s.jobs && id !in done :: PassDone(s, done, now).jobs[id] == s.jobs[id]
  {
    hide TimedOut, QueueExpired, FailsDeletion;
  }

  /** When every job has been visited the loop has done what the pointwise pass does. */
  lemma PassEnd(s: State, now: Time)
    ensures PassDone(s, s.jobs.Keys, now) == MaintainJobs(s, now)
  {
    hide MaintainedJob, Restored;
    forall d | d in s.domains
      ensures DoneDomain(s, s.jobs.Keys, s.domains[d], now) == MaintainedDomain(s, s.domains[d], now)
    {
    }
    forall n | n in s.nodes
      ensures DoneNode(s, s.jobs.Keys, s.nodes[n], now) == MaintainedNode(s, s.nodes[n], now)
    {
    }
  }

  /** One turn of the loop: the job is written, its node released, its domain restored. */
  function Turn(s: State, before: State, id: JobId, now: Time): State
    requires id in s.jobs
  {
    var job := s.jobs[id];
    var next := MaintainedJob(s, job, now);
    var releases := job.nodeId in before.nodes && before.nodes[job.nodeId].runningJobId == Some(id) && TimedOut(job, now);
    var restores := FailsDeletion(s, id, job.domainId, now) && job.domainId in before.domains;
    before.(
      jobs := before.jobs[id := next],
      nodes := if releases then before.nodes[job.nodeId := before.nodes[job.nodeId].(runningJobId := None)] else before.nodes,
      domains := if restores then before.domains[job.domainId := Restored(before.domains[job.domainId])] else before.domains)
  }

  lemma TurnNodes(s: State, done: set<JobId>, id: JobId, now: Time)
    requires Keyed(s) && id in s.jobs && id !in done && done <= s.jobs.Keys
    ensures Turn(s, PassDone(s, done, now), id, now).nodes == PassDone(s, done + {id}, now).nodes
  {
    hide MaintainedJob, Restored, FailsDeletion, DoneDomain, DoneJob, TimedOut;
    var before, after := PassDone(s, done, now), PassDone(s, done + {id}, now);
    forall n | n in s.nodes ensures Turn(s, before, id, now).nodes[n] == after.nodes[n] {
      if s.nodes[n].runningJobId == Some(id) {
        assert before.nodes[n] == s.nodes[n];
      }
    }
  }

  lemma TurnDomains(s: State, done: set<JobId>, id: JobId, now: Time)
    requires Keyed(s) && id in s.jobs && id !in done && done <= s.jobs.Keys
    ensures Turn(s, PassDone(s, done, now), id, now).domains == PassDone(s, done + {id}, now).domains
  {
    hide MaintainedJob, DoneNode, DoneJob, TimedOut;
    var before, after := PassDone(s, done, now), PassDone(s, done + {id}, now);
    forall d | d in s.domains ensures Turn(s, before, id, now).domains[d] == after.domains[d] {
      if FailsDeletion(s, id, d, now) {
        assert d == s.jobs[id].domainId;
      } else {
        assert (exists k | k in done + {id} :: FailsDeletion(s, k, d, now)) <==> exists k | k in done :: FailsDeletion(s, k, d, now);
      }
    }
  }

  /** A turn adds exactly its job to what has been visited. */
  lemma TurnAdvances(s: State, done: set<JobId>, id: JobId, now: Time)
    requires Keyed(s) && id in s.jobs && id !in done && done <= s.jobs.Keys
    ensures Turn(s, PassDone(s, done, now), id, now) == PassDone(s, done + {id}, now)
  {
    hide MaintainedJob, Restored, DoneDomain, DoneNode, FailsDeletion;
    TurnNodes(s, done, id, now);
    TurnDomains(s, done, id, now);
    assert Turn(s, PassDone(s, done, now), id, now).jobs == PassDone(s, done + {id}, now).jobs;
  }

  /** The turns for a list of jobs, one after the other. */
  function Turns(s: State, order: seq<JobId>, now: Time): State
    requires forall id | id in order :: id in s.jobs
  {
    if order == [] then s
    else
      var n := |order| - 1;
      assert order[n] in order;
      Turn(s, Turns(s, order[..n], now), order[n], now)
  }

  function Ids(order: seq<JobId>): set<JobId> {
    set id | id in order
  }

  /** Every job of the state, once. */
  ghost predicate Visits(s: State, order: seq<JobId>) {
    Ids(order) == s.jobs.Keys && forall i, j | 0 <= i < j < |order| :: order[i] != order[j]
  }

  lemma {:induction false} TurnsArePointwise(s: State, order: seq<JobId>, now: Time)
    requires Keyed(s) && (forall id | id in order :: id in s.jobs)
    requires forall i, j | 0 <= i < j < |order| :: order[i] != order[j]
    ensures Turns(s, order, now) == PassDone(s, Ids(order), now)
  {
    hide Turn, PassDone, Keyed;
    if order == [] {
      PassStart(s, now);
      assert Ids(order) == {};
    } else {
      var n := |order| - 1;
      TurnsArePointwise(s, order[..n], now);
      assert Ids(order) == Ids(order[..n]) + {order[n]};
      assert order[n] !in Ids(order[..n]) && Ids(order[..n]) <= s.jobs.Keys;
      TurnAdvances(s, Ids(order[..n]), order[n], now);
    }
  }

  /** The job loop gives the same result in whatever order it visits the jobs: that of the pointwise pass. */
  lemma JobLoopHasNoOrder(s: State, order: seq<JobId>, now: Time)
    requires Keyed(s) && Visits(s, order)
    ensures (forall id | id in order :: id in s.jobs) && Turns(s, order, now) == MaintainJobs(s, now)
  {
    hide Turns, MaintainJobs, PassDone, Keyed;
    assert forall id | id in order :: id in Ids(order);
    TurnsArePointwise(s, order, now);
    PassEnd(s, now);
  }
}
