/** The renewal half of a maintenance pass: everything due gets an issue job, nothing gets two. */
module Renewal {
  import opened Model
  import opened Jobs
  import opened Protocol
  import opened Transitions
  import opened Invariants
  import opened Preservation
  import opened MaintenanceSteps

  function Renewals(s: State, domains: seq<DomainId>, certificates: seq<CertificateId>, now: Time): State {
    RenewCertificates(RenewDomains(s, domains, now), certificates, now)
  }

  ghost predicate DomainsRenewed(s: State, now: Time) {
    forall d | d in s.domains && DomainDue(s, s.domains[d], now) :: HasActiveJob(s, d)
  }

  ghost predicate CertificatesRenewed(s: State, now: Time) {
    forall c | c in s.certificates && CertificateDue(s, s.certificates[c], now) :: HasActiveCertificateJob(s, c)
  }

  /** Every domain and every unlinked certificate that is due has an issue job queued or running. */
  ghost predicate Renewed(s: State, now: Time) {
    DomainsRenewed(s, now) && CertificatesRenewed(s, now)
  }

  /** Scheduling adds jobs and changes nothing about a domain but its last job. */
  ghost predicate Schedules(s: State, t: State) {
    && t == s.(jobs := t.jobs, domains := t.domains, nextJobId := t.nextJobId)
    && t.domains.Keys == s.domains.Keys
    && (forall d | d in s.domains :: t.domains[d] == s.domains[d].(lastJobId := t.domains[d].lastJobId))
    && (forall id | id in s.jobs :: id in t.jobs && t.jobs[id] == s.jobs[id])
  }

  /** What is due does not depend on what has been scheduled. */
  lemma DueIsStable(s: State, t: State, now: Time)
    requires Schedules(s, t)
    ensures forall d | d in s.domains :: DomainDue(t, t.domains[d], now) <==> DomainDue(s, s.domains[d], now)
    ensures forall c | c in s.certificates ::
      CertificateDue(t, t.certificates[c], now) <==> CertificateDue(s, s.certificates[c], now)
    ensures forall d | HasActiveJob(s, d) :: HasActiveJob(t, d)
    ensures forall c | HasActiveCertificateJob(s, c) :: HasActiveCertificateJob(t, c)
  {
    hide NormalizeRenewBeforeDays;
    assert forall c :: Linked(s, c) <==> Linked(t, c);
  }

  lemma SchedulesTwice(s: State, t: State, u: State)
    requires Schedules(s, t) && Schedules(t, u)
    ensures Schedules(s, u)
  {
  }

  // ----- One record -----

  lemma RenewDomainSchedules(s: State, d: DomainId, now: Time)
    requires Keyed(s)
    ensures var t := RenewDomain(s, d, now);
      && Schedules(s, t) && Keyed(t)
      && (d in s.domains && DomainDue(s, s.domains[d], now) ==> HasActiveJob(t, d))
  {
    hide DomainDue;
    var t := RenewDomain(s, d, now);
    if t != s {
      assert s.nextJobId in t.jobs && t.jobs[s.nextJobId].domainId == d;
    }
  }

  lemma RenewCertificateSchedules(s: State, c: CertificateId, now: Time)
    requires Keyed(s)
    ensures var t := RenewCertificate(s, c, now);
      && Schedules(s, t) && Keyed(t) && t.domains == s.domains
      && (c in s.certificates && CertificateDue(s, s.certificates[c], now) ==> HasActiveCertificateJob(t, c))
  {
    hide CertificateDue;
    var t := RenewCertificate(s, c, now);
    if t != s {
      assert s.nextJobId in t.jobs;
    }
  }

  // ----- All of them, in any order -----

  lemma {:induction false} RenewDomainsCovers(s: State, order: seq<DomainId>, now: Time)
    requires Keyed(s)
    ensures var t := RenewDomains(s, order, now);
      && Schedules(s, t) && Keyed(t)
      && forall d | d in order && d in s.domains && DomainDue(s, s.domains[d], now) :: HasActiveJob(t, d)
  {
    hide Keyed, DomainDue, HasActiveJob, RenewDomain;
    if order != [] {
      var n := |order| - 1;
      var before := RenewDomains(s, order[..n], now);
      RenewDomainsCovers(s, order[..n], now);
      RenewDomainSchedules(before, order[n], now);
      SchedulesTwice(s, before, RenewDomains(s, order, now));
      DueIsStable(s, before, now);
      DueIsStable(before, RenewDomains(s, order, now), now);
    }
  }

  lemma {:induction false} RenewCertificatesCovers(s: State, order: seq<CertificateId>, now: Time)
    requires Keyed(s)
    ensures var t := RenewCertificates(s, order, now);
      && Schedules(s, t) && Keyed(t) && t.domains == s.domains
      && forall c | c in order && c in s.certificates && CertificateDue(s, s.certificates[c], now) ::
           HasActiveCertificateJob(t, c)
  {
    hide Keyed, CertificateDue, HasActiveCertificateJob, RenewCertificate;
    if order != [] {
      var n := |order| - 1;
      var before := RenewCertificates(s, order[..n], now);
      RenewCertificatesCovers(s, order[..n], now);
      RenewCertificateSchedules(before, order[n], now);
      SchedulesTwice(s, before, RenewCertificates(s, order, now));
      DueIsStable(s, before, now);
      DueIsStable(before, RenewCertificates(s, order, now), now);
    }
  }

  /** After the renewal loops have visited everything, everything that is due has an active issue job. */
  lemma RenewalsCoverAll(s: State, domains: seq<DomainId>, certificates: seq<CertificateId>, now: Time)
    requires Keyed(s)
    requires (forall d | d in s.domains :: d in domains) && (forall c | c in s.certificates :: c in certificates)
    ensures Renewed(Renewals(s, domains, certificates, now), now)
  {
    hide Keyed, DomainDue, CertificateDue, HasActiveJob, HasActiveCertificateJob, RenewDomains, RenewCertificates;
    var m := RenewDomains(s, domains, now);
    RenewDomainsCovers(s, domains, now);
    RenewCertificatesCovers(m, certificates, now);
    DueIsStable(s, m, now);
    DueIsStable(m, RenewCertificates(m, certificates, now), now);
  }

  /** The same for a whole maintenance pass. */
  lemma PassRenewsAll(s: State, config: Config, orders: Orders, now: Time)
    requires StateInv(s) && AttemptsLeft(s)
    requires (forall d | d in s.domains :: d in orders.domains) && (forall c | c in s.certificates :: c in orders.certificates)
    ensures Renewed(Maintain(s, config, orders, now), now)
  {
    hide LinksInv, PointersInv, DeletionInv, JobsMoved, MaintainedJob, Renewed, Recover, RenewDomains, RenewCertificates;
    OfflineThenMaintainedIsOk(s, config, now);
    var m := MaintainJobs(MarkOffline(s, config, now), now);
    RecoverExtends(m, orders.jobs, config, now);
    RenewalsCoverAll(Recover(m, orders.jobs, config, now), orders.domains, orders.certificates, now);
  }

  // ----- Nothing is scheduled twice -----

  lemma {:induction false} RenewedDomainsStay(s: State, order: seq<DomainId>, now: Time)
    requires Keyed(s) && DomainsRenewed(s, now)
    ensures RenewDomains(s, order, now) == s
  {
    hide DomainDue, HasActiveJob;
    if order != [] { RenewedDomainsStay(s, order[..|order| - 1], now); }
  }

  lemma {:induction false} RenewedCertificatesStay(s: State, order: seq<CertificateId>, now: Time)
    requires CertificatesRenewed(s, now)
    ensures RenewCertificates(s, order, now) == s
  {
    hide CertificateDue, HasActiveCertificateJob;
    if order != [] { RenewedCertificatesStay(s, order[..|order| - 1], now); }
  }

  /** The loops change nothing exactly when everything due already has an active issue job; so
      repeating them at the same instant, in any order, adds nothing. */
  lemma RenewalsStayIffRenewed(s: State, domains: seq<DomainId>, certificates: seq<CertificateId>, now: Time)
    requires Keyed(s)
    requires (forall d | d in s.domains :: d in domains) && (forall c | c in s.certificates :: c in certificates)
    ensures Renewals(s, domains, certificates, now) == s <==> Renewed(s, now)
  {
    hide Keyed, DomainDue, CertificateDue, HasActiveJob, HasActiveCertificateJob, RenewDomains, RenewCertificates;
    if Renewed(s, now) {
      RenewedDomainsStay(s, domains, now);
      RenewedCertificatesStay(s, certificates, now);
    }
    RenewalsCoverAll(s, domains, certificates, now);
  }

  lemma RepeatedRenewalsAddNothing(
    s: State, domains: seq<DomainId>, certificates: seq<CertificateId>,
    domainsAgain: seq<DomainId>, certificatesAgain: seq<CertificateId>, now: Time)
    requires Keyed(s)
    requires (forall d | d in s.domains :: d in domains) && (forall c | c in s.certificates :: c in certificates)
    ensures
      var t := Renewals(s, domains, certificates, now);
      Renewals(t, domainsAgain, certificatesAgain, now) == t
  {
    hide Keyed, DomainDue, CertificateDue, HasActiveJob, HasActiveCertificateJob, RenewDomains, RenewCertificates;
    var t := Renewals(s, domains, certificates, now);
    RenewalsCoverAll(s, domains, certificates, now);
    assert Keyed(t) by {
      RenewDomainsCovers(s, domains, now);
      RenewCertificatesCovers(RenewDomains(s, domains, now), certificates, now);
    }
    RenewedDomainsStay(t, domainsAgain, now);
    RenewedCertificatesStay(t, certificatesAgain, now);
  }

  /** The jobs that the domain loop adds: at most one for each domain, and none where one was active. */
  ghost predicate OneRenewalEach(s: State, t: State) {
    && (forall id | id in t.jobs && id !in s.jobs ::
          t.jobs[id].payload.IssueCertificate? && t.jobs[id].status == Queued && !HasActiveJob(s, t.jobs[id].domainId))
    && (forall a, b | a in t.jobs && b in t.jobs && a !in s.jobs && b !in s.jobs
          && t.jobs[a].domainId == t.jobs[b].domainId :: a == b)
  }

  lemma OneMoreRenewal(s: State, t: State, d: DomainId, now: Time)
    requires Keyed(t) && Schedules(s, t) && OneRenewalEach(s, t)
    ensures OneRenewalEach(s, RenewDomain(t, d, now))
  {
    hide DomainDue;
    var u := RenewDomain(t, d, now);
    if u != t {
      assert !HasActiveJob(t, d);
      assert !HasActiveJob(s, d) by {
        assert forall id | id in s.jobs :: t.jobs[id] == s.jobs[id];
      }
      forall id | id in t.jobs && id !in s.jobs ensures t.jobs[id].domainId != d {
        assert IsActive(t.jobs[id]);
      }
      assert u.jobs == t.jobs[t.nextJobId := u.jobs[t.nextJobId]];
    }
  }

  /** The domain loop never adds a second active issue job for a domain, in whatever order, even
      if it were to visit a domain twice. */
  lemma {:induction false} RenewDomainsAddsOneEach(s: State, order: seq<DomainId>, now: Time)
    requires Keyed(s)
    ensures OneRenewalEach(s, RenewDomains(s, order, now))
  {
    hide Keyed, RenewDomain, OneRenewalEach;
    if order == [] {
      NothingAdded(s);
    } else {
      var n := |order| - 1;
      RenewDomainsAddsOneEach(s, order[..n], now);
      RenewDomainsCovers(s, order[..n], now);
      OneMoreRenewal(s, RenewDomains(s, order[..n], now), order[n], now);
    }
  }

  lemma NothingAdded(s: State)
    ensures OneRenewalEach(s, s) && OneCertificateRenewalEach(s, s)
  {
  }

  /** The jobs that the certificate loop adds: at most one for each certificate, none where one was active. */
  ghost predicate OneCertificateRenewalEach(s: State, t: State) {
    && (forall id | id in t.jobs && id !in s.jobs ::
          t.jobs[id].payload.IssueCertificate? && t.jobs[id].status == Queued
          && !HasActiveCertificateJob(s, t.jobs[id].payload.issueCertificateId))
    && (forall a, b | a in t.jobs && b in t.jobs && a !in s.jobs && b !in s.jobs
          && t.jobs[a].payload.issueCertificateId == t.jobs[b].payload.issueCertificateId :: a == b)
  }

  lemma OneMoreCertificateRenewal(s: State, t: State, c: CertificateId, now: Time)
    requires Keyed(t) && Schedules(s, t) && OneCertificateRenewalEach(s, t)
    ensures OneCertificateRenewalEach(s, RenewCertificate(t, c, now))
  {
    hide CertificateDue;
    var u := RenewCertificate(t, c, now);
    if u != t {
      assert !HasActiveCertificateJob(t, c);
      assert !HasActiveCertificateJob(s, c) by {
        assert forall id | id in s.jobs :: t.jobs[id] == s.jobs[id];
      }
      forall id | id in t.jobs && id !in s.jobs ensures t.jobs[id].payload.issueCertificateId != c {
        assert IsActive(t.jobs[id]);
      }
      assert u.jobs == t.jobs[t.nextJobId := u.jobs[t.nextJobId]];
    }
  }

  lemma {:induction false} RenewCertificatesAddsOneEach(s: State, order: seq<CertificateId>, now: Time)
    requires Keyed(s)
    ensures OneCertificateRenewalEach(s, RenewCertificates(s, order, now))
  {
    hide Keyed, RenewCertificate, OneCertificateRenewalEach;
    if order == [] {
      NothingAdded(s);
    } else {
      var n := |order| - 1;
      RenewCertificatesAddsOneEach(s, order[..n], now);
      RenewCertificatesCovers(s, order[..n], now);
      OneMoreCertificateRenewal(s, RenewCertificates(s, order[..n], now), order[n], now);
    }
  }
}
