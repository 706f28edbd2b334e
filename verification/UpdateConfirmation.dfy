/**
 internal/server/update_confirmation.go: an accepted self-update stays running
 until the node has reported the expected version steadily, or a deadline passes.
 */
module UpdateConfirmation {
  import opened Model
  import opened Text

  const OBSERVATION_DELAY := 3 * MINUTE
  const STABLE_DURATION := 30 * SECOND
  const MAX_REPORT_GAP := 30 * SECOND
  const CONFIRMATION_TIMEOUT := 30 * MINUTE

  predicate AwaitingUpdateConfirmation(job: Job) {
    job.payload.UpdateAtlas? && job.status == Running && job.updateAcceptedAt.Some?
  }

  /** Whether a reported agent version is the one the job installs. */
  predicate Matches(job: Job, version: string)
    requires job.payload.UpdateAtlas?
  {
    NormalizeVersion(job.payload.expectedVersion) != "" && SameVersion(version, job.payload.expectedVersion)
  }

  /** The job part of finishUpdateConfirmation. */
  function Finish(job: Job, success: bool, now: Time): Job {
    job.(finishedAt := Some(now),
         status := if success then Succeeded else Failed,
         error := if success then "" else "update activation was not confirmed before timeout")
  }

  /** The job part of observeUpdate: one poll, with or without a report. */
  function Observe(job: Job, report: Option<string>, now: Time): Job
    requires AwaitingUpdateConfirmation(job)
  {
    if now - job.updateAcceptedAt.value >= CONFIRMATION_TIMEOUT then Finish(job, false, now)
    else if report.None? then job
    else if !Matches(job, report.value) then
      job.(updateVersionSeenAt := None, updateLastReportAt := Some(now))
    else
      var seen :=
        if job.updateVersionSeenAt.None? || job.updateLastReportAt.None?
           || now - job.updateLastReportAt.value > MAX_REPORT_GAP
        then now else job.updateVersionSeenAt.value;
      if now - job.updateAcceptedAt.value >= OBSERVATION_DELAY && now - seen >= STABLE_DURATION
      then Finish(job.(updateVersionSeenAt := Some(seen)), true, now)
      else job.(updateVersionSeenAt := Some(seen), updateLastReportAt := Some(now))
  }

  /** A version with or without its leading v, and with space around it. */
  predicate Spells(text: string, core: string) {
    TrimSpace(text) == ['v'] + core || (TrimSpace(text) == core && (core == "" || core[0] != 'v'))
  }

  /** A report matches exactly if it and the job spell the same version, which is not blank. */
  lemma MatchesIff(job: Job, version: string)
    requires job.payload.UpdateAtlas?
    ensures Matches(job, version) <==>
      exists core :: core != "" && Spells(version, core) && Spells(job.payload.expectedVersion, core)
  {
    hide TrimSpace;
    SpellsNormalized(version);
    SpellsNormalized(job.payload.expectedVersion);
    assert Spells(version, NormalizeVersion(version));
  }

  lemma SpellsNormalized(text: string)
    ensures forall core :: Spells(text, core) <==> core == NormalizeVersion(text)
  {
    hide TrimSpace;
    var trimmed := TrimSpace(text);
    assert trimmed != "" ==> trimmed[..1] == [trimmed[0]];
    assert HasPrefix(trimmed, "v") <==> trimmed != "" && trimmed[0] == 'v';
    forall core ensures Spells(text, core) <==> core == NormalizeVersion(text) {
      assert (['v'] + core)[1..] == core;
      assert HasPrefix(trimmed, "v") ==> trimmed == ['v'] + trimmed[1..];
    }
  }

  /** A poll changes only the outcome and the two timestamps. */
  lemma ObserveKeeps(job: Job, report: Option<string>, now: Time)
    requires AwaitingUpdateConfirmation(job)
    ensures
      var next := Observe(job, report, now);
      && next == job.(status := next.status, error := next.error, finishedAt := next.finishedAt,
                      updateVersionSeenAt := next.updateVersionSeenAt, updateLastReportAt := next.updateLastReportAt)
      && next.status != Queued
  {
  }

  // ----- The detector against the whole history of polls -----

  datatype PollEvent = PollEvent(at: Time, report: Option<string>)

  /** The job after a run of polls; polls after it has left the waiting state do nothing to it. */
  function ObserveAll(job: Job, polls: seq<PollEvent>): Job {
    if polls == [] then job
    else
      var before := ObserveAll(job, polls[..|polls| - 1]);
      var poll := polls[|polls| - 1];
      if AwaitingUpdateConfirmation(before) then Observe(before, poll.report, poll.at) else before
  }

  /** What a history predicate needs of one report. */
  datatype Sighting = Sighting(at: Time, matches: bool)

  /** The reports among a run of polls, in order. */
  ghost function Sightings(job: Job, polls: seq<PollEvent>): (seen: seq<Sighting>)
    requires job.payload.UpdateAtlas?
    ensures |seen| <= |polls|
  {
    if polls == [] then []
    else
      var before := Sightings(job, polls[..|polls| - 1]);
      var poll := polls[|polls| - 1];
      if poll.report.None? then before else before + [Sighting(poll.at, Matches(job, poll.report.value))]
  }

  ghost predicate Chronological(start: Time, times: seq<Time>) {
    && (forall i | 0 <= i < |times| :: start <= times[i])
    && (forall i, j | 0 <= i < j < |times| :: times[i] <= times[j])
  }

  ghost function PollTimes(polls: seq<PollEvent>): (times: seq<Time>)
    ensures |times| == |polls|
  {
    seq(|polls|, i requires 0 <= i < |polls| => polls[i].at)
  }

  ghost function SightingTimes(seen: seq<Sighting>): (times: seq<Time>)
    ensures |times| == |seen|
  {
    seq(|seen|, i requires 0 <= i < |seen| => seen[i].at)
  }

  /** Reports `first..last` all match and no two neighbours are more than 30 seconds apart. */
  ghost predicate MatchingRun(seen: seq<Sighting>, first: nat, last: nat) {
    && first <= last < |seen|
    && (forall i | first <= i <= last :: seen[i].matches)
    && (forall i | first < i <= last :: seen[i].at - seen[i - 1].at <= MAX_REPORT_GAP)
  }

  /** The history predicate: report `k` comes 3 minutes or more after acceptance and ends a
      matching run that spans 30 seconds or more. */
  ghost predicate Confirms(accepted: Time, seen: seq<Sighting>, k: nat) {
    && k < |seen|
    && seen[k].at - accepted >= OBSERVATION_DELAY
    && exists first: nat :: MatchingRun(seen, first, k) && seen[k].at - seen[first].at >= STABLE_DURATION
  }

  ghost predicate Unconfirmed(accepted: Time, seen: seq<Sighting>) {
    forall k: nat :: !Confirms(accepted, seen, k)
  }

  /** `at` is the instant of the first report that confirms. */
  ghost predicate FirstConfirmedAt(accepted: Time, seen: seq<Sighting>, at: Time) {
    exists k: nat :: Confirms(accepted, seen, k) && Unconfirmed(accepted, seen[..k]) && seen[k].at == at
  }

  /** Where the matching run that ends with the last report began. */
  ghost function RunStart(seen: seq<Sighting>): (start: Option<nat>)
    ensures start.Some? ==> start.value < |seen|
  {
    if seen == [] then None
    else
      var n := |seen| - 1;
      if !seen[n].matches then None
      else
        var before := RunStart(seen[..n]);
        if before.None? || seen[n].at - seen[n - 1].at > MAX_REPORT_GAP then Some(n) else before
  }

  /** RunStart is the earliest start of a matching run that ends with the last report. */
  lemma {:induction false} RunStartIsMaximal(seen: seq<Sighting>, first: nat)
    requires first < |seen|
    ensures MatchingRun(seen, first, |seen| - 1) <==> RunStart(seen).Some? && RunStart(seen).value <= first
  {
    var n := |seen| - 1;
    if first < n {
      RunStartIsMaximal(seen[..n], first);
      assert MatchingRun(seen, first, n) <==>
        MatchingRun(seen[..n], first, n - 1) && seen[n].matches && seen[n].at - seen[n - 1].at <= MAX_REPORT_GAP;
    }
  }

  /** Whether the last report confirms can be read off the start of its run. */
  lemma ConfirmsIffRunStart(accepted: Time, seen: seq<Sighting>)
    requires seen != [] && Chronological(accepted, SightingTimes(seen))
    ensures
      var n := |seen| - 1; var start := RunStart(seen);
      Confirms(accepted, seen, n) <==>
        seen[n].at - accepted >= OBSERVATION_DELAY && start.Some? && seen[n].at - seen[start.value].at >= STABLE_DURATION
  {
    var n := |seen| - 1;
    var start := RunStart(seen);
    if Confirms(accepted, seen, n) {
      var first: nat :| MatchingRun(seen, first, n) && seen[n].at - seen[first].at >= STABLE_DURATION;
      RunStartIsMaximal(seen, first);
      assert SightingTimes(seen)[start.value] <= SightingTimes(seen)[first];
    }
    if start.Some? {
      RunStartIsMaximal(seen, start.value);
    }
  }

  lemma ConfirmsOfPrefix(accepted: Time, seen: seq<Sighting>, last: Sighting, k: nat)
    requires k < |seen|
    ensures Confirms(accepted, seen, k) <==> Confirms(accepted, seen + [last], k)
  {
    var longer := seen + [last];
    forall first: nat ensures MatchingRun(seen, first, k) <==> MatchingRun(longer, first, k) {
      assert forall i | 0 <= i <= k :: longer[i] == seen[i];
    }
  }

  lemma UnconfirmedExtends(accepted: Time, seen: seq<Sighting>, last: Sighting)
    requires Unconfirmed(accepted, seen)
    ensures if Confirms(accepted, seen + [last], |seen|) then FirstConfirmedAt(accepted, seen + [last], last.at)
            else Unconfirmed(accepted, seen + [last])
  {
    if Confirms(accepted, seen + [last], |seen|) {
      assert (seen + [last])[..|seen|] == seen;
    } else {
      forall k: nat ensures !Confirms(accepted, seen + [last], k) {
        if k < |seen| { ConfirmsOfPrefix(accepted, seen, last, k); }
      }
    }
  }

  lemma ConfirmedExtends(accepted: Time, seen: seq<Sighting>, last: Sighting, at: Time)
    requires FirstConfirmedAt(accepted, seen, at)
    ensures FirstConfirmedAt(accepted, seen + [last], at)
  {
    var k: nat :| Confirms(accepted, seen, k) && Unconfirmed(accepted, seen[..k]) && seen[k].at == at;
    ConfirmsOfPrefix(accepted, seen, last, k);
    assert (seen + [last])[..k] == seen[..k];
  }

  ghost predicate FreshlyAccepted(job: Job) {
    AwaitingUpdateConfirmation(job) && job.updateVersionSeenAt.None? && job.updateLastReportAt.None?
  }

  /** What the two timestamps remember: when the current run began and when the last report came. */
  ghost predicate Remembers(job: Job, seen: seq<Sighting>, now: Job) {
    && now == job.(updateVersionSeenAt := now.updateVersionSeenAt, updateLastReportAt := now.updateLastReportAt)
    && now.updateLastReportAt == (if seen == [] then None else Some(seen[|seen| - 1].at))
    && var start := RunStart(seen);
       now.updateVersionSeenAt == (if start.None? then None else Some(seen[start.value].at))
  }

  /** One report before the deadline: it confirms exactly when the history predicate says so. */
  lemma ReportFollowsHistory(job: Job, seen: seq<Sighting>, now: Job, version: string, last: Sighting)
    requires AwaitingUpdateConfirmation(job) && Remembers(job, seen, now)
    requires last.matches == Matches(job, version)
    requires last.at - job.updateAcceptedAt.value < CONFIRMATION_TIMEOUT
    requires Chronological(job.updateAcceptedAt.value, SightingTimes(seen + [last]))
    ensures
      var next := Observe(now, Some(version), last.at);
      if Confirms(job.updateAcceptedAt.value, seen + [last], |seen|)
      then next.status == Succeeded && next.finishedAt == Some(last.at)
      else Remembers(job, seen + [last], next)
  {
    var longer := seen + [last];
    ConfirmsIffRunStart(job.updateAcceptedAt.value, longer);
    assert longer[..|seen|] == seen;
  }

  ghost predicate DetectorAgrees(job: Job, seen: seq<Sighting>, now: Job)
    requires AwaitingUpdateConfirmation(job)
  {
    var accepted := job.updateAcceptedAt.value;
    if Unconfirmed(accepted, seen) then Remembers(job, seen, now)
    else now.status == Succeeded && now.finishedAt.Some? && FirstConfirmedAt(accepted, seen, now.finishedAt.value)
  }

  lemma {:induction false} SightingsAreChronological(job: Job, polls: seq<PollEvent>)
    requires job.payload.UpdateAtlas? && job.updateAcceptedAt.Some?
    requires Chronological(job.updateAcceptedAt.value, PollTimes(polls))
    ensures Chronological(job.updateAcceptedAt.value, SightingTimes(Sightings(job, polls)))
    ensures forall i | 0 <= i < |Sightings(job, polls)| :: Sightings(job, polls)[i].at <= polls[|polls| - 1].at
  {
    if polls != [] {
      var n := |polls| - 1;
      var earlier := Sightings(job, polls[..n]);
      var seen := Sightings(job, polls);
      var times := PollTimes(polls);
      assert forall i | 0 <= i < n :: PollTimes(polls[..n])[i] == times[i];
      SightingsAreChronological(job, polls[..n]);
      assert n > 0 ==> times[n - 1] <= times[n];
      assert times[n] == polls[n].at;
      assert forall i | 0 <= i < |earlier| :: SightingTimes(seen)[i] == SightingTimes(earlier)[i] == earlier[i].at;
    }
  }

  /** Before the deadline the two timestamps decide exactly what the history predicate decides
      over the reports alone; heartbeats change nothing. */
  lemma {:induction false} DetectorEqualsHistory(job: Job, polls: seq<PollEvent>)
    requires FreshlyAccepted(job)
    requires Chronological(job.updateAcceptedAt.value, PollTimes(polls))
    requires forall p | p in polls :: p.at - job.updateAcceptedAt.value < CONFIRMATION_TIMEOUT
    ensures DetectorAgrees(job, Sightings(job, polls), ObserveAll(job, polls))
  {
    var accepted := job.updateAcceptedAt.value;
    if polls == [] {
      assert forall k: nat :: !Confirms(accepted, [], k);
    } else {
      var n := |polls| - 1;
      assert polls[n] in polls;
      assert forall i | 0 <= i < n :: PollTimes(polls[..n])[i] == PollTimes(polls)[i];
      DetectorEqualsHistory(job, polls[..n]);
      if polls[n].report.Some? {
        SightingsAreChronological(job, polls);
        var seen := Sightings(job, polls[..n]);
        var now := ObserveAll(job, polls[..n]);
        var last := Sighting(polls[n].at, Matches(job, polls[n].report.value));
        if Unconfirmed(accepted, seen) {
          ReportFollowsHistory(job, seen, now, polls[n].report.value, last);
          UnconfirmedExtends(accepted, seen, last);
        } else {
          ConfirmedExtends(accepted, seen, last, now.finishedAt.value);
        }
      }
    }
  }

  /** The polls before the 30-minute deadline: a prefix, when the clock never goes back. */
  function BeforeDeadline(accepted: Time, polls: seq<PollEvent>): (before: seq<PollEvent>)
    ensures |before| <= |polls| && before == polls[..|before|]
    ensures forall p | p in before :: p.at - accepted < CONFIRMATION_TIMEOUT
    ensures |before| < |polls| ==> polls[|before|].at - accepted >= CONFIRMATION_TIMEOUT
  {
    if polls == [] || polls[0].at - accepted >= CONFIRMATION_TIMEOUT then []
    else [polls[0]] + BeforeDeadline(accepted, polls[1..])
  }

  /** Polls after the job has finished leave it as it is. */
  lemma {:induction false} FinishedStays(job: Job, polls: seq<PollEvent>, n: nat)
    requires n <= |polls| && !AwaitingUpdateConfirmation(ObserveAll(job, polls[..n]))
    ensures ObserveAll(job, polls) == ObserveAll(job, polls[..n])
    decreases |polls|
  {
    if n < |polls| {
      assert polls[..|polls| - 1][..n] == polls[..n];
      FinishedStays(job, polls[..|polls| - 1], n);
    } else {
      assert polls[..n] == polls;
    }
  }

  /**
   The outcome of any run of polls.  The job succeeds at the first report before the deadline
   that confirms it; otherwise it fails at the first poll, report or heartbeat, at or after
   the deadline; otherwise it is still waiting.
   */
  lemma OutcomeOfPolls(job: Job, polls: seq<PollEvent>)
    requires FreshlyAccepted(job)
    requires Chronological(job.updateAcceptedAt.value, PollTimes(polls))
    ensures
      var accepted := job.updateAcceptedAt.value;
      var inTime := BeforeDeadline(accepted, polls);
      var seen := Sightings(job, inTime);
      var out := ObserveAll(job, polls);
      if !Unconfirmed(accepted, seen) then
        out.status == Succeeded && out.finishedAt.Some? && FirstConfirmedAt(accepted, seen, out.finishedAt.value)
      else if |inTime| < |polls| then
        out.status == Failed && out.finishedAt == Some(polls[|inTime|].at)
      else
        AwaitingUpdateConfirmation(out)
  {
    var accepted := job.updateAcceptedAt.value;
    var inTime := BeforeDeadline(accepted, polls);
    var n := |inTime|;
    assert forall i | 0 <= i < n :: PollTimes(inTime)[i] == PollTimes(polls)[i];
    DetectorEqualsHistory(job, inTime);
    if !Unconfirmed(accepted, Sightings(job, inTime)) {
      FinishedStays(job, polls, n);
    } else if n < |polls| {
      DeadlineFails(job, polls, n);
    } else {
      assert polls == inTime;
    }
  }

  lemma DeadlineFails(job: Job, polls: seq<PollEvent>, n: nat)
    requires n < |polls| && AwaitingUpdateConfirmation(ObserveAll(job, polls[..n]))
    requires polls[n].at - ObserveAll(job, polls[..n]).updateAcceptedAt.value >= CONFIRMATION_TIMEOUT
    ensures ObserveAll(job, polls).status == Failed && ObserveAll(job, polls).finishedAt == Some(polls[n].at)
  {
    assert polls[..n + 1][..n] == polls[..n];
    FinishedStays(job, polls, n + 1);
  }
}
