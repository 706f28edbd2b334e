/**
 The self-update protocol between an agent, an external watchdog and the
 controller (internal/agent/client.go, update_rollback.go, the tail of
 updateAtlas in executor.go, and update_confirmation.go).

 The three parties run concurrently, so the protocol is a state machine: each
 step is one file operation, command or request that the source performs, and
 steps interleave freely.  Restores, removals, cancellations and requests may
 fail wherever the source allows for it, the rollback helper at each of its commands; the agent process may be
 replaced at any instant.
 */
module SelfUpdate {
  import opened Model
  import opened Text
  import opened Jobs
  import opened UpdateConfirmation

  const WATCHDOG_DELAY := 90 * SECOND
  // systemd fires the timer within AccuracySec=1s of its delay.
  const WATCHDOG_LATEST := 91 * SECOND
  const HEALTH_DELAY := 30 * SECOND

  /** What the proof assumes of the host and the network. */
  datatype Env = Env(
    restartWithin: int,  // an ordered restart replaces the process within this time
    reportWithin: int,   // a report is handled within this time of being made
    expected: JobId -> Version)  // the version a job installs; a job's payload never changes

  ghost predicate ValidEnv(env: Env) {
    && env.restartWithin >= 0 && env.reportWithin >= 0
    && WATCHDOG_LATEST + env.restartWithin + env.reportWithin < OBSERVATION_DELAY
  }

  type Version = string

  datatype Watchdog = Watchdog(rollbackUnit: nat, backup: Version, armedAt: Time)
  datatype Marker = Marker(expected: Version, rollbackUnit: nat)
  datatype Process = Process(version: Version, startedAt: Time)
  datatype Report = Report(version: Version, sentAt: Time)
  datatype Update = Update(jobId: JobId, expected: Version, backup: Version, rollbackUnit: nat)

  /** How far the agent process has got with an update job. */
  datatype Stage =
    | Idle
    | Fetched(fetchedId: JobId, fetchedVersion: Version)
    | Marked(update: Update)
    | Swapped(update: Update)
    | Posting(update: Update, success: bool, scheduled: bool)
    | UndoBinary(update: Update, scheduled: bool)
    | UndoMarker(update: Update, scheduled: bool)
    | UndoTimer(update: Update)
    | Restarting(update: Update)

  datatype World = World(
    now: Time,
    installed: Version,        // the binary on disk
    marker: Option<Marker>,    // pending-update.json
    timers: set<Watchdog>,     // armed rollback timers
    orders: set<Time>,         // restarts ordered and not yet served
    process: Process,          // the running agent
    stage: Stage,
    job: Job,                  // the controller's update job for this node
    wire: set<Report>,         // reports on their way
    stray: set<JobId>,         // result requests the agent gave up on, not having fetched a job since
    late: set<JobId>)          // those it gave up on before it last fetched one

  /** How putting the old binary back went: the error may come after the rename, from flushing the directory. */
  datatype Restoring = Restored | RestoredWithError | NotRestored

  /** How far the rollback helper gets: it puts the old binary back, orders the restart and removes the marker, and
      gives up at the first of these that fails. */
  datatype Firing = Completes | MarkerStays | RestartFails | RestoreFails

  datatype Delivery = Acknowledged | AnswerLost | NotHandled

  datatype Step =
    | Tick(to: Time)
    | ChangeJob(job: Job)                          // requeue, timeout, retry, new job, revocation
    | Poll                                         // a heartbeat, or the maintenance pass
    | SendReport
    | HandleReport(report: Report)
    | Fetch
    | Refuse(delivery: Delivery)                   // the update fails before touching files
    | WriteMarker(rollbackUnit: nat)
    | SwapBinary(ok: bool, removed: bool)
    | ArmWatchdog
    | ArmFails(armedAnyway: bool, restoring: Restoring, removed: bool)
    | PostResult(delivery: Delivery)
    | HandleStray(id: JobId)
    | RestoreBinary(restoring: Restoring)
    | RemoveMarker(removed: bool)
    | StopTimer(stopped: bool)
    | OrderRestart(ordered: bool)
    | Replace(served: set<Time>)
    | Fire(watchdog: Watchdog, firing: Firing)
    | Confirm(stopped: bool)

  predicate Acceptable(job: Job, id: JobId) {
    job.id == id && job.status == Running && job.payload.UpdateAtlas?
  }

  /** The controller's handling of a result: acceptance, or a failed attempt; a duplicate changes nothing. */
  function HandleResult(job: Job, success: bool, now: Time): Job {
    if AwaitingUpdateConfirmation(job) then job
    else if success then job.(updateAcceptedAt := Some(now), error := "")
    else AfterFailedResult(job, "update failed", now)
  }

  predicate Enabled(env: Env, w: World, step: Step) {
    match step
    case Tick(to) =>
      && w.now <= to
      && (forall t | t in w.timers :: to <= t.armedAt + WATCHDOG_LATEST)
      && (forall o | o in w.orders :: to <= o + env.restartWithin)
    case ChangeJob(job) =>
      && job.payload == UpdateAtlas(env.expected(job.id))
      && !AwaitingUpdateConfirmation(job)
      && job.status != Succeeded
      && (AwaitingUpdateConfirmation(w.job) ==> job.status == Failed)
      && job.updateVersionSeenAt.None? && job.updateLastReportAt.None?
    case Poll => AwaitingUpdateConfirmation(w.job)
    case SendReport => true
    case HandleReport(report) => report in w.wire && w.now - report.sentAt <= env.reportWithin
    case Fetch => w.stage.Idle? && Acceptable(w.job, w.job.id) && !AwaitingUpdateConfirmation(w.job)
    case Refuse(delivery) => w.stage.Fetched? && (delivery != NotHandled ==> Acceptable(w.job, w.stage.fetchedId))
    case WriteMarker(_) =>
      w.stage.Fetched? && w.marker.None? && !SameVersion(w.process.version, w.stage.fetchedVersion)
    case SwapBinary(_, _) => w.stage.Marked?
    case ArmWatchdog => w.stage.Swapped?
    case ArmFails(_, _, _) => w.stage.Swapped?
    case PostResult(delivery) => w.stage.Posting? && (delivery != NotHandled ==> Acceptable(w.job, w.stage.update.jobId))
    case HandleStray(id) => id in w.stray + w.late && Acceptable(w.job, id)
    case RestoreBinary(_) => w.stage.UndoBinary?
    case RemoveMarker(_) => w.stage.UndoMarker?
    case StopTimer(_) => w.stage.UndoTimer?
    case OrderRestart(_) => w.stage.Restarting?
    case Replace(served) => served <= w.orders
    case Fire(watchdog, _) => watchdog in w.timers && w.now - watchdog.armedAt >= WATCHDOG_DELAY
    case Confirm(_) =>
      && w.marker.Some? && SameVersion(w.marker.value.expected, w.process.version)
      && w.now - w.process.startedAt >= HEALTH_DELAY
  }

  function WithoutUnit(timers: set<Watchdog>, rollbackUnit: nat): set<Watchdog> {
    set t | t in timers && t.rollbackUnit != rollbackUnit
  }

  function Armed(w: World): set<Watchdog>
    requires w.stage.Swapped?
  {
    w.timers + {Watchdog(w.stage.update.rollbackUnit, w.stage.update.backup, w.now)}
  }

  /** The binary that a watchdog leaves. */
  function LeftBinary(w: World, watchdog: Watchdog, firing: Firing): Version {
    if firing.RestoreFails? then w.installed else watchdog.backup
  }

  function Next(env: Env, w: World, step: Step): World
    requires Enabled(env, w, step)
  {
    match step
    case Tick(to) => w.(now := to)
    case ChangeJob(job) => w.(job := job)
    case Poll => w.(job := Observe(w.job, None, w.now))
    case SendReport => w.(wire := w.wire + {Report(w.process.version, w.now)})
    case HandleReport(report) =>
      var handled := w.(wire := w.wire - {report});
      if AwaitingUpdateConfirmation(w.job) then handled.(job := Observe(w.job, Some(report.version), w.now)) else handled
    case Fetch =>
      w.(stage := Fetched(w.job.id, w.job.payload.expectedVersion), stray := {}, late := w.late + w.stray)
    case Refuse(delivery) =>
      w.(stage := Idle, job := if delivery == NotHandled then w.job else HandleResult(w.job, false, w.now))
    case WriteMarker(rollbackUnit) =>
      w.(marker := Some(Marker(w.stage.fetchedVersion, rollbackUnit)),
         stage := Marked(Update(w.stage.fetchedId, w.stage.fetchedVersion, w.installed, rollbackUnit)))
    case SwapBinary(ok, removed) =>
      if ok then w.(installed := w.stage.update.expected, stage := Swapped(w.stage.update))
      else w.(marker := if removed then None else w.marker, stage := Fetched(w.stage.update.jobId, w.stage.update.expected))
    case ArmWatchdog => w.(timers := Armed(w), stage := Posting(w.stage.update, true, true))
    case ArmFails(armedAnyway, restoring, removed) =>
      w.(timers := if armedAnyway then Armed(w) else w.timers,
         installed := if restoring.NotRestored? then w.installed else w.stage.update.backup,
         marker := if restoring.Restored? && removed then None else w.marker,
         stage := Posting(w.stage.update, false, false))
    case PostResult(delivery) =>
      var u := w.stage.update;
      w.(job := if delivery == NotHandled then w.job else HandleResult(w.job, w.stage.success, w.now),
         stray := if delivery == NotHandled && w.stage.success then w.stray + {u.jobId} else w.stray,
         stage := if delivery != Acknowledged then UndoBinary(u, w.stage.scheduled)
                  else if w.stage.success then Restarting(u) else Idle)
    case HandleStray(id) =>
      w.(job := HandleResult(w.job, true, w.now), stray := w.stray - {id},
         late := if id in w.stray then w.late else w.late - {id})
    case RestoreBinary(restoring) =>
      w.(installed := if restoring.NotRestored? then w.installed else w.stage.update.backup,
         stage := if restoring.Restored? then UndoMarker(w.stage.update, w.stage.scheduled) else Idle)
    case RemoveMarker(removed) =>
      w.(marker := if removed then None else w.marker,
         stage := if w.stage.scheduled then UndoTimer(w.stage.update) else Idle)
    case StopTimer(stopped) =>
      w.(timers := if stopped then WithoutUnit(w.timers, w.stage.update.rollbackUnit) else w.timers, stage := Idle)
    case OrderRestart(ordered) => w.(orders := if ordered then w.orders + {w.now} else w.orders, stage := Idle)
    case Replace(served) => w.(process := Process(w.installed, w.now), orders := w.orders - served, stage := Idle)
    case Fire(watchdog, firing) =>
      var fired := w.(timers := w.timers - {watchdog});
      if w.marker.None? then fired
      else fired.(installed := LeftBinary(w, watchdog, firing),
                  orders := if firing.Completes? || firing.MarkerStays? then w.orders + {w.now} else w.orders,
                  marker := if firing.Completes? then None else w.marker)
    case Confirm(stopped) =>
      w.(marker := None,
         timers := if stopped then WithoutUnit(w.timers, w.marker.value.rollbackUnit) else w.timers)
  }

  // ----- Runs -----

  ghost predicate Legal(env: Env, w: World, steps: seq<Step>)
    decreases |steps|
  {
    steps == [] || (Enabled(env, w, steps[0]) && Legal(env, Next(env, w, steps[0]), steps[1..]))
  }

  ghost function Run(env: Env, w: World, steps: seq<Step>): World
    requires Legal(env, w, steps)
    decreases |steps|
  {
    if steps == [] then w else Run(env, Next(env, w, steps[0]), steps[1..])
  }

  /** A run may begin on any host: any binary, markers, timers, pending restarts and late requests left
      by earlier updates, as long as no update is in flight and no deadline has been missed. */
  ghost predicate Start(env: Env, w: World) {
    && w.stage.Idle? && w.stray == {}
    && !AwaitingUpdateConfirmation(w.job) && w.job.status != Succeeded
    && w.job.updateVersionSeenAt.None? && w.job.updateLastReportAt.None?
    && w.job.payload == UpdateAtlas(env.expected(w.job.id))
    && OnTime(env, w)
  }

  ghost predicate OnTime(env: Env, w: World) {
    && (forall t | t in w.timers :: t.armedAt <= w.now <= t.armedAt + WATCHDOG_LATEST)
    && (forall o | o in w.orders :: o <= w.now <= o + env.restartWithin)
    && (forall r | r in w.wire :: r.sentAt <= w.now)
  }

  /** What the protocol promises of an update the controller has marked succeeded: the expected
      binary is installed and running, the marker is gone, and no armed timer is left to undo it. */
  ghost predicate Settled(w: World) {
    w.job.status == Succeeded && w.job.payload.UpdateAtlas? ==>
      && SameVersion(w.installed, w.job.payload.expectedVersion)
      && SameVersion(w.process.version, w.job.payload.expectedVersion)
      && w.marker.None?
      && w.timers == {}
  }

  // ----- The inductive invariant -----

  ghost predicate Working(stage: Stage) {
    !stage.Idle? && !stage.Fetched?
  }

  /** While an agent works on an update its own process is not the expected version. */
  ghost predicate StageInv(env: Env, w: World) {
    && w.job.payload == UpdateAtlas(env.expected(w.job.id))
    && (w.stage.Fetched? ==> w.stage.fetchedVersion == env.expected(w.stage.fetchedId))
    && (Working(w.stage) ==>
          && w.stage.update.expected == env.expected(w.stage.update.jobId)
          && !SameVersion(w.process.version, w.stage.update.expected)
          && (w.marker.Some? ==> w.marker.value.expected == w.stage.update.expected))
    && (w.stage.Posting? && w.stage.success ==> w.stage.scheduled && Guarded(w, w.stage.update.expected))
    && (w.stage.UndoMarker? && w.stage.scheduled && w.marker.Some? && SameVersion(w.installed, w.stage.update.expected) ==>
          SameVersion(w.stage.update.backup, w.stage.update.expected))
    && (w.stage.UndoTimer? && w.marker.Some? ==> !SameVersion(w.installed, w.stage.update.expected))
  }

  /** A marker without any watchdog stands only beside an old binary that no undo replaces by the new one. */
  ghost predicate Guarded(w: World, expected: Version) {
    w.marker.Some? && w.timers == {} ==>
      && !SameVersion(w.installed, expected)
      && (w.stage.Posting? || w.stage.UndoBinary? ==> !SameVersion(w.stage.update.backup, expected))
  }

  ghost predicate Wrapping(stage: Stage) {
    || ((stage.UndoBinary? || stage.UndoMarker?) && stage.scheduled)
    || stage.UndoTimer? || stage.Restarting?
  }

  /** The agent is through with an attempt at `expected`, or wraps it up. */
  ghost predicate AttemptInv(w: World, expected: Version) {
    && (w.stage.Idle? || (Wrapping(w.stage) && w.stage.update.expected == expected))
    && (w.marker.Some? ==> w.marker.value.expected == expected)
    && Guarded(w, expected)
  }

  /** A new process over an old binary has a restart ahead that was ordered by then. */
  ghost predicate GoesBack(w: World, expected: Version, latest: Time) {
    SameVersion(w.process.version, expected) && !SameVersion(w.installed, expected) ==>
      exists o :: o in w.orders && o <= latest
  }

  /** A result that may still be handled without mishap is that of an attempt the agent undoes or has undone. */
  ghost predicate StrayInv(env: Env, w: World) {
    forall id | id in w.stray :: AttemptInv(w, env.expected(id)) && GoesBack(w, env.expected(id), w.now)
  }

  ghost predicate AwaitingInv(env: Env, w: World)
    requires AwaitingUpdateConfirmation(w.job)
  {
    var accepted := w.job.updateAcceptedAt.value;
    var expected := w.job.payload.expectedVersion;
    && accepted <= w.now
    && (forall t | t in w.timers :: t.armedAt <= accepted)
    && AttemptInv(w, expected)
    && GoesBack(w, expected, accepted + WATCHDOG_LATEST)
    && (forall r | r in w.wire :: ReportInv(env, w, r))
  }

  /** A matching report made after the last rollback could have taken effect is conclusive. */
  ghost predicate ReportInv(env: Env, w: World, r: Report)
    requires AwaitingUpdateConfirmation(w.job)
  {
    var expected := w.job.payload.expectedVersion;
    SameVersion(r.version, expected)
    && r.sentAt > w.job.updateAcceptedAt.value + WATCHDOG_LATEST + env.restartWithin ==>
      w.stage.Idle? && SameVersion(w.installed, expected) && SameVersion(w.process.version, expected)
  }

  ghost predicate SucceededInv(w: World) {
    w.job.status == Succeeded ==> w.stage.Idle? && Settled(w)
  }

  ghost predicate Inv(env: Env, w: World) {
    && OnTime(env, w)
    && StageInv(env, w)
    && StrayInv(env, w)
    && (AwaitingUpdateConfirmation(w.job) ==> AwaitingInv(env, w))
    && SucceededInv(w)
  }

  // ----- What can go wrong -----

  /**
   LateResult: the controller accepts a result although the agent has fetched a job since it gave up on it, and more
   is under way on the host than the rest of an attempt at the same version.
   StuckMarker: an undo cannot remove the marker but takes the watchdog away, and the binary it put back is the new
   version already.
   FailedWatchdog: a watchdog fails while a successful result is being reported or an update waits to be confirmed,
   and leaves the new binary without a watchdog, or the new process over the old binary without a restart.
   */
  datatype Mishap = LateResult | StuckMarker | FailedWatchdog

  ghost predicate IsLateResult(w: World, step: Step) {
    && step.HandleStray? && step.id !in w.stray && !AwaitingUpdateConfirmation(w.job)
    && !(w.job.payload.UpdateAtlas? && AtRest(w, w.job.payload.expectedVersion))
  }

  /** The agent is through with an attempt at `expected`, or wraps it up; a marker is of that attempt and has a
      watchdog, and a new process over an old binary has a restart ahead. */
  ghost predicate AtRest(w: World, expected: Version) {
    && (w.stage.Idle? || (Wrapping(w.stage) && w.stage.update.expected == expected))
    && (w.marker.Some? ==> w.marker.value.expected == expected && w.timers != {})
    && (SameVersion(w.process.version, expected) && !SameVersion(w.installed, expected) ==> w.orders != {})
  }

  ghost predicate IsStuckMarker(w: World, step: Step) {
    && step.RemoveMarker? && !step.removed && w.stage.UndoMarker? && w.stage.scheduled
    && SameVersion(w.stage.update.backup, w.stage.update.expected)
  }

  ghost predicate IsFailedWatchdog(w: World, step: Step) {
    && step.Fire? && !step.firing.Completes? && w.marker.Some? && AtStake(w)
    && (LeavesNewBinary(w, step.watchdog, step.firing) || LeavesNewProcess(w, step.watchdog, step.firing))
  }

  /** A successful result is being reported, or its update waits to be confirmed or may still do so. */
  ghost predicate AtStake(w: World) {
    || (w.stage.Posting? && w.stage.success)
    || Wrapping(w.stage)
    || (w.stage.Idle? && (AwaitingUpdateConfirmation(w.job) || w.stray != {}))
  }

  /** No other watchdog is there to fire later, or an undo is about to take it away, and the binary is the new one or
      about to be put back as such. */
  predicate LeavesNewBinary(w: World, watchdog: Watchdog, firing: Firing)
    requires w.marker.Some?
  {
    var expected := w.marker.value.expected;
    && (w.timers == {watchdog} || (!firing.RestoreFails? && (w.stage.UndoMarker? || w.stage.UndoTimer?)))
    && (SameVersion(LeftBinary(w, watchdog, firing), expected)
        || ((w.stage.Posting? || w.stage.UndoBinary?) && SameVersion(w.stage.update.backup, expected)))
  }

  predicate LeavesNewProcess(w: World, watchdog: Watchdog, firing: Firing)
    requires w.marker.Some?
  {
    var expected := w.marker.value.expected;
    && firing.RestartFails? && w.orders == {}
    && SameVersion(w.process.version, expected) && !SameVersion(watchdog.backup, expected)
  }

  ghost function MishapsOf(w: World, step: Step): set<Mishap> {
    if IsLateResult(w, step) then {LateResult}
    else if IsStuckMarker(w, step) then {StuckMarker}
    else if IsFailedWatchdog(w, step) then {FailedWatchdog}
    else {}
  }

  /** The kinds of mishaps that happen in a run. */
  ghost function Mishaps(env: Env, w: World, steps: seq<Step>): set<Mishap>
    requires Legal(env, w, steps)
    decreases |steps|
  {
    if steps == [] then {} else MishapsOf(w, steps[0]) + Mishaps(env, Next(env, w, steps[0]), steps[1..])
  }

  lemma NoMishap(mishaps: set<Mishap>)
    requires LateResult !in mishaps && StuckMarker !in mishaps && FailedWatchdog !in mishaps
    ensures mishaps == {}
  {
    forall mishap ensures mishap !in mishaps {
      assert mishap == LateResult || mishap == StuckMarker || mishap == FailedWatchdog;
    }
  }

  // ----- The invariant holds in every run without mishap -----

  lemma OnTimeStep(env: Env, w: World, step: Step)
    requires ValidEnv(env) && OnTime(env, w) && Enabled(env, w, step)
    ensures OnTime(env, Next(env, w, step))
  {
  }

  lemma StageStep(env: Env, w: World, step: Step)
    requires StageInv(env, w) && Enabled(env, w, step) && MishapsOf(w, step) == {}
    ensures StageInv(env, Next(env, w, step))
  {
    hide SameVersion, WithoutUnit;
  }

  lemma SomeOrder(orders: set<Time>)
    ensures orders == {} || exists o :: o in orders
  {
    if forall o :: o !in orders {
      assert orders == {};
    }
  }

  lemma StrayStep(env: Env, w: World, step: Step)
    requires ValidEnv(env) && OnTime(env, w) && StageInv(env, w) && StrayInv(env, w)
    requires Enabled(env, w, step) && MishapsOf(w, step) == {}
    ensures StrayInv(env, Next(env, w, step))
  {
    hide SameVersion, Observe, HandleResult, AwaitingUpdateConfirmation;
    SomeOrder(w.orders);
  }

  /** A job that starts to wait was accepted while its result was being posted. */
  lemma Acceptance(env: Env, w: World, step: Step)
    requires ValidEnv(env) && Inv(env, w) && Enabled(env, w, step) && MishapsOf(w, step) == {}
    requires !AwaitingUpdateConfirmation(w.job) && AwaitingUpdateConfirmation(Next(env, w, step).job)
    ensures AwaitingInv(env, Next(env, w, step))
  {
    assert step.PostResult? || step.HandleStray?;
    SomeOrder(w.orders);
  }

  lemma StillAwaitingFired(env: Env, w: World, watchdog: Watchdog, firing: Firing)
    requires ValidEnv(env) && Inv(env, w) && AwaitingUpdateConfirmation(w.job)
    requires Enabled(env, w, Fire(watchdog, firing)) && MishapsOf(w, Fire(watchdog, firing)) == {}
    ensures AwaitingInv(env, Next(env, w, Fire(watchdog, firing)))
  {
    hide StrayInv, SucceededInv, SameVersion;
    SomeOrder(w.orders);
  }

  lemma StillAwaiting(env: Env, w: World, step: Step)
    requires ValidEnv(env) && Inv(env, w) && Enabled(env, w, step) && MishapsOf(w, step) == {}
    requires AwaitingUpdateConfirmation(w.job) && AwaitingUpdateConfirmation(Next(env, w, step).job)
    ensures AwaitingInv(env, Next(env, w, step))
  {
    if step.Fire? {
      StillAwaitingFired(env, w, step.watchdog, step.firing);
    } else {
      hide LeftBinary, IsFailedWatchdog, IsLateResult;
    }
  }

  lemma SuccessSettles(env: Env, w: World, step: Step)
    requires ValidEnv(env) && Inv(env, w) && Enabled(env, w, step) && MishapsOf(w, step) == {}
    requires w.job.status != Succeeded
    ensures SucceededInv(Next(env, w, step))
  {
  }

  lemma StaysSettled(env: Env, w: World, step: Step)
    requires ValidEnv(env) && Inv(env, w) && Enabled(env, w, step) && MishapsOf(w, step) == {}
    requires w.job.status == Succeeded
    ensures SucceededInv(Next(env, w, step))
  {
  }

  lemma InvStep(env: Env, w: World, step: Step)
    requires ValidEnv(env) && Inv(env, w) && Enabled(env, w, step) && MishapsOf(w, step) == {}
    ensures Inv(env, Next(env, w, step))
  {
    OnTimeStep(env, w, step);
    StageStep(env, w, step);
    StrayStep(env, w, step);
    var next := Next(env, w, step);
    if AwaitingUpdateConfirmation(next.job) {
      if AwaitingUpdateConfirmation(w.job) {
        StillAwaiting(env, w, step);
      } else {
        Acceptance(env, w, step);
      }
    }
    if w.job.status == Succeeded {
      StaysSettled(env, w, step);
    } else {
      SuccessSettles(env, w, step);
    }
  }

  lemma {:induction false} InvRun(env: Env, w: World, steps: seq<Step>)
    requires ValidEnv(env) && Inv(env, w) && Legal(env, w, steps) && Mishaps(env, w, steps) == {}
    ensures Inv(env, Run(env, w, steps))
    decreases |steps|
  {
    if steps != [] {
      InvStep(env, w, steps[0]);
      InvRun(env, Next(env, w, steps[0]), steps[1..]);
    }
  }

  /**
   Whenever the controller has marked an update succeeded, in every run without
   mishap: the expected binary is installed and running, the marker is gone and
   no watchdog that could restore the old binary is armed.
   */
  lemma UpdateIsSafe(env: Env, w: World, steps: seq<Step>)
    requires ValidEnv(env) && Start(env, w) && Legal(env, w, steps) && Mishaps(env, w, steps) == {}
    ensures Settled(Run(env, w, steps))
  {
    InvRun(env, w, steps);
  }

  /** An update whose backup would be the new version already. */
  predicate AlreadyInstalled(w: World, step: Step) {
    step.WriteMarker? && w.stage.Fetched? && SameVersion(w.installed, w.stage.fetchedVersion)
  }

  ghost predicate NeverInstalledBefore(env: Env, w: World, steps: seq<Step>)
    requires Legal(env, w, steps)
    decreases |steps|
  {
    steps == [] || (!AlreadyInstalled(w, steps[0]) && NeverInstalledBefore(env, Next(env, w, steps[0]), steps[1..]))
  }

  /** A stuck marker is a mishap only of an update that began with the new binary on disk. */
  lemma {:induction false} StuckMarkerNeedsInstalled(env: Env, w: World, steps: seq<Step>)
    requires Legal(env, w, steps) && NeverInstalledBefore(env, w, steps)
    requires Working(w.stage) ==> !SameVersion(w.stage.update.backup, w.stage.update.expected)
    ensures StuckMarker !in Mishaps(env, w, steps)
    decreases |steps|
  {
    hide SameVersion, HandleResult, Observe;
    if steps != [] {
      StuckMarkerNeedsInstalled(env, Next(env, w, steps[0]), steps[1..]);
    }
  }

  /** So where no update finds the new binary on disk already, late results and failed watchdogs are all there is to
      fear, whichever markers stay. */
  lemma SafeIfBinaryIsNew(env: Env, w: World, steps: seq<Step>)
    requires ValidEnv(env) && Start(env, w) && Legal(env, w, steps)
    requires NeverInstalledBefore(env, w, steps) && Mishaps(env, w, steps) <= {StuckMarker}
    ensures Settled(Run(env, w, steps))
  {
    hide Enabled, Next, Settled;
    StuckMarkerNeedsInstalled(env, w, steps);
    NoMishap(Mishaps(env, w, steps));
    UpdateIsSafe(env, w, steps);
  }

  // ----- A late result breaks the promise -----

  lemma {:induction false} Extend(env: Env, w: World, steps: seq<Step>, step: Step)
    requires Legal(env, w, steps) && Enabled(env, Run(env, w, steps), step)
    ensures Legal(env, w, steps + [step])
    ensures Run(env, w, steps + [step]) == Next(env, Run(env, w, steps), step)
    ensures Mishaps(env, w, steps + [step]) == Mishaps(env, w, steps) + MishapsOf(Run(env, w, steps), step)
    decreases |steps|
  {
    var longer := steps + [step];
    if steps == [] {
      assert longer[1..] == [];
    } else {
      Extend(env, Next(env, w, steps[0]), steps[1..], step);
      assert longer[1..] == steps[1..] + [step];
    }
  }

  /** A run from `w` to `end` with at most these kinds of mishaps. */
  ghost predicate Reaches(env: Env, mishaps: set<Mishap>, w: World, end: World) {
    exists steps :: Legal(env, w, steps) && Mishaps(env, w, steps) <= mishaps && Run(env, w, steps) == end
  }

  lemma ReachesNext(env: Env, mishaps: set<Mishap>, w: World, middle: World, step: Step)
    requires Reaches(env, mishaps, w, middle) && Enabled(env, middle, step) && MishapsOf(middle, step) <= mishaps
    ensures Reaches(env, mishaps, w, Next(env, middle, step))
  {
    var steps :| Legal(env, w, steps) && Mishaps(env, w, steps) <= mishaps && Run(env, w, steps) == middle;
    Extend(env, w, steps, step);
  }

  lemma StartsThere(env: Env, mishaps: set<Mishap>, w: World)
    ensures Reaches(env, mishaps, w, w)
  {
    assert Legal(env, w, []) && Run(env, w, []) == w;
  }

  /** A job that waits to be fetched, on a host with an older binary. */
  function OldHost(env: Env, id: JobId): World {
    var job := Dispatched(NewJob(id, "node", "", UpdateAtlas(env.expected(id)), 0), 0);
    World(0, "", None, {}, {}, Process("", 0), Idle, job, {}, {}, {})
  }

  /** ReachesNext as a move: the world after the step. */
  lemma Advance(env: Env, mishaps: set<Mishap>, w: World, middle: World, step: Step) returns (next: World)
    requires Reaches(env, mishaps, w, middle) && Enabled(env, middle, step) && MishapsOf(middle, step) <= mishaps
    ensures Reaches(env, mishaps, w, next) && next == Next(env, middle, step)
  {
    ReachesNext(env, mishaps, w, middle, step);
    next := Next(env, middle, step);
  }

  /** From fetching the job to arming the watchdog, on a host whose agent is the empty version. */
  lemma Arms(env: Env, mishaps: set<Mishap>, start: World, fetched: World, rollbackUnit: nat) returns (w: World)
    requires Reaches(env, mishaps, start, fetched) && fetched.stage.Fetched? && fetched.marker.None?
    requires fetched.process.version == "" && NormalizeVersion(fetched.stage.fetchedVersion) != ""
    ensures Reaches(env, mishaps, start, w)
    ensures
      var u := Update(fetched.stage.fetchedId, fetched.stage.fetchedVersion, fetched.installed, rollbackUnit);
      w == fetched.(installed := u.expected, marker := Some(Marker(u.expected, rollbackUnit)),
                    timers := fetched.timers + {Watchdog(rollbackUnit, u.backup, fetched.now)}, stage := Posting(u, true, true))
  {
    w := Advance(env, mishaps, start, fetched, WriteMarker(rollbackUnit));
    w := Advance(env, mishaps, start, w, SwapBinary(true, true));
    w := Advance(env, mishaps, start, w, ArmWatchdog);
  }

  /** The result request is given up on, and the host is as before the update. */
  lemma Undoes(env: Env, mishaps: set<Mishap>, start: World, armed: World) returns (w: World)
    requires Reaches(env, mishaps, start, armed)
    requires armed.stage.Posting? && armed.stage.success && armed.stage.scheduled
    ensures Reaches(env, mishaps, start, w)
    ensures
      var u := armed.stage.update;
      w == armed.(installed := u.backup, marker := None, timers := WithoutUnit(armed.timers, u.rollbackUnit),
                  stage := Idle, stray := armed.stray + {u.jobId})
  {
    w := Advance(env, mishaps, start, armed, PostResult(NotHandled));
    w := Advance(env, mishaps, start, w, RestoreBinary(Restored));
    w := Advance(env, mishaps, start, w, RemoveMarker(true));
    w := Advance(env, mishaps, start, w, StopTimer(true));
  }

  /** The result is delivered, the restart ordered and the process replaced at the same instant. */
  lemma Restarts(env: Env, mishaps: set<Mishap>, start: World, armed: World) returns (w: World)
    requires Reaches(env, mishaps, start, armed) && armed.stage.Posting? && armed.stage.success && armed.orders == {}
    requires Acceptable(armed.job, armed.stage.update.jobId)
    ensures Reaches(env, mishaps, start, w)
    ensures w == armed.(job := HandleResult(armed.job, true, armed.now), stage := Idle,
                        process := Process(armed.installed, armed.now))
  {
    hide HandleResult;
    w := Advance(env, mishaps, start, armed, PostResult(Acknowledged));
    w := Advance(env, mishaps, start, w, OrderRestart(true));
    w := Advance(env, mishaps, start, w, Replace({armed.now}));
    assert {armed.now} - {armed.now} == {};
  }

  /** One attempt is given up, and the job fetched again. */
  lemma GivesUp(env: Env, mishaps: set<Mishap>, id: JobId) returns (w: World)
    requires NormalizeVersion(env.expected(id)) != ""
    ensures Reaches(env, mishaps, OldHost(env, id), w)
    ensures w == OldHost(env, id).(stage := Fetched(id, env.expected(id)), late := {id})
  {
    var start := OldHost(env, id);
    StartsThere(env, mishaps, start);
    w := Advance(env, mishaps, start, start, Fetch);
    w := Arms(env, mishaps, start, w, 0);
    w := Undoes(env, mishaps, start, w);
    w := Advance(env, mishaps, start, w, Fetch);
  }

  /** The first result is accepted late; the second attempt arms its own watchdog 170 seconds later
      and the new process starts. */
  lemma ArmsAfterAcceptance(env: Env, id: JobId) returns (w: World)
    requires ValidEnv(env) && NormalizeVersion(env.expected(id)) != ""
    ensures Reaches(env, {LateResult}, OldHost(env, id), w)
    ensures
      var job := OldHost(env, id).job.(updateAcceptedAt := Some(0));
      var at := 170 * SECOND;
      w == World(at, env.expected(id), Some(Marker(env.expected(id), 1)), {Watchdog(1, "", at)}, {},
                 Process(env.expected(id), at), Idle, job, {}, {}, {})
  {
    hide Observe, Reaches;
    var start := OldHost(env, id);
    w := GivesUp(env, {LateResult}, id);
    w := Advance(env, {LateResult}, start, w, HandleStray(id));
    w := Advance(env, {LateResult}, start, w, Tick(170 * SECOND));
    w := Arms(env, {LateResult}, start, w, 1);
    w := Restarts(env, {LateResult}, start, w);
  }

  /** Thirty seconds of matching reports confirm the update while its watchdog is still armed. */
  lemma ConfirmedTooEarly(env: Env, id: JobId) returns (w: World)
    requires ValidEnv(env) && NormalizeVersion(env.expected(id)) != ""
    ensures Reaches(env, {LateResult}, OldHost(env, id), w) && !Settled(w)
  {
    hide Reaches, WithoutUnit, HandleResult;
    var start := OldHost(env, id);
    var v := env.expected(id);
    w := ArmsAfterAcceptance(env, id);
    w := Advance(env, {LateResult}, start, w, SendReport);
    w := Advance(env, {LateResult}, start, w, HandleReport(Report(v, 170 * SECOND)));
    w := Advance(env, {LateResult}, start, w, Tick(200 * SECOND));
    w := Advance(env, {LateResult}, start, w, SendReport);
    w := Advance(env, {LateResult}, start, w, HandleReport(Report(v, 200 * SECOND)));
  }

  /** A host on which the expected version has been running quietly. */
  ghost predicate Active(env: Env, w: World, id: JobId) {
    && w.timers == {} && w.orders == {} && w.wire == {} && w.process.version == env.expected(id)
  }

  /** The clock moves on, and a report is made and handled at once. */
  lemma ReportsAt(env: Env, mishaps: set<Mishap>, start: World, active: World, id: JobId, at: Time) returns (w: World)
    requires ValidEnv(env) && Reaches(env, mishaps, start, active) && Active(env, active, id) && active.now <= at
    requires AwaitingUpdateConfirmation(active.job)
    ensures Reaches(env, mishaps, start, w)
    ensures w == active.(now := at, job := Observe(active.job, Some(env.expected(id)), at))
  {
    hide Observe;
    w := Advance(env, mishaps, start, active, Tick(at));
    w := Advance(env, mishaps, start, w, SendReport);
    w := Advance(env, mishaps, start, w, HandleReport(Report(env.expected(id), at)));
  }

  /** Reports over the last 30 of the first 180 seconds after acceptance confirm an update. */
  lemma ReportsConfirm(env: Env, mishaps: set<Mishap>, start: World, active: World, id: JobId) returns (w: World)
    requires ValidEnv(env) && NormalizeVersion(env.expected(id)) != "" && Reaches(env, mishaps, start, active)
    requires Active(env, active, id) && active.now <= 150 * SECOND
    requires active.job == OldHost(env, id).job.(updateAcceptedAt := Some(0))
    ensures Reaches(env, mishaps, start, w)
    ensures w.job.status == Succeeded && w.job.payload == active.job.payload
    ensures w.installed == active.installed && w.marker == active.marker
  {
    w := ReportsAt(env, mishaps, start, active, id, 150 * SECOND);
    w := ReportsAt(env, mishaps, start, w, id, 180 * SECOND);
  }

  // ----- So does a marker that cannot be removed -----

  /** A host on which the binary is already the one to be installed, but not yet running. */
  function HalfUpdatedHost(env: Env, id: JobId): World {
    OldHost(env, id).(installed := env.expected(id))
  }

  /** The answer to the result is lost; the old binary comes back, but the marker stays behind. */
  lemma UndoesButMarker(env: Env, mishaps: set<Mishap>, start: World, armed: World) returns (w: World)
    requires Reaches(env, mishaps, start, armed) && StuckMarker in mishaps
    requires armed.stage.Posting? && armed.stage.success && armed.stage.scheduled
    requires Acceptable(armed.job, armed.stage.update.jobId)
    ensures Reaches(env, mishaps, start, w)
    ensures
      var u := armed.stage.update;
      w == armed.(job := HandleResult(armed.job, true, armed.now), installed := u.backup,
                  timers := WithoutUnit(armed.timers, u.rollbackUnit), stage := Idle)
  {
    hide HandleResult, WithoutUnit;
    w := Advance(env, mishaps, start, armed, PostResult(AnswerLost));
    w := Advance(env, mishaps, start, w, RestoreBinary(Restored));
    w := Advance(env, mishaps, start, w, RemoveMarker(false));
    w := Advance(env, mishaps, start, w, StopTimer(true));
  }

  lemma LeavesMarker(env: Env, id: JobId) returns (w: World)
    requires NormalizeVersion(env.expected(id)) != ""
    ensures Reaches(env, {StuckMarker}, HalfUpdatedHost(env, id), w)
    ensures
      w == HalfUpdatedHost(env, id).(marker := Some(Marker(env.expected(id), 0)),
                                     job := OldHost(env, id).job.(updateAcceptedAt := Some(0)))
  {
    var start := HalfUpdatedHost(env, id);
    StartsThere(env, {StuckMarker}, start);
    w := Advance(env, {StuckMarker}, start, start, Fetch);
    w := Arms(env, {StuckMarker}, start, w, 0);
    w := UndoesButMarker(env, {StuckMarker}, start, w);
  }

  /** The process is replaced by the binary that was there before, and its reports confirm the update. */
  lemma ConfirmedWithMarker(env: Env, id: JobId) returns (w: World)
    requires ValidEnv(env) && NormalizeVersion(env.expected(id)) != ""
    ensures Reaches(env, {StuckMarker}, HalfUpdatedHost(env, id), w) && Start(env, HalfUpdatedHost(env, id)) && !Settled(w)
  {
    var start := HalfUpdatedHost(env, id);
    w := LeavesMarker(env, id);
    w := Advance(env, {StuckMarker}, start, w, Replace({}));
    w := ReportsConfirm(env, {StuckMarker}, start, w, id);
  }

  // ----- And so does a watchdog that fails -----

  /** The update is accepted and runs, but its watchdog fires, because the host is not healthy, and fails. */
  lemma LosesWatchdog(env: Env, id: JobId) returns (w: World)
    requires ValidEnv(env) && NormalizeVersion(env.expected(id)) != ""
    ensures Reaches(env, {FailedWatchdog}, OldHost(env, id), w)
    ensures
      w == World(WATCHDOG_DELAY, env.expected(id), Some(Marker(env.expected(id), 0)), {}, {},
                 Process(env.expected(id), 0), Idle,
                 OldHost(env, id).job.(updateAcceptedAt := Some(0)), {}, {}, {})
  {
    hide Observe, Reaches;
    var start := OldHost(env, id);
    StartsThere(env, {FailedWatchdog}, start);
    w := Advance(env, {FailedWatchdog}, start, start, Fetch);
    w := Arms(env, {FailedWatchdog}, start, w, 0);
    w := Restarts(env, {FailedWatchdog}, start, w);
    w := Advance(env, {FailedWatchdog}, start, w, Tick(WATCHDOG_DELAY));
    w := Advance(env, {FailedWatchdog}, start, w, Fire(Watchdog(0, "", 0), RestoreFails));
  }

  /** Its reports confirm the update all the same. */
  lemma ConfirmedUnwatched(env: Env, id: JobId) returns (w: World)
    requires ValidEnv(env) && NormalizeVersion(env.expected(id)) != ""
    ensures Reaches(env, {FailedWatchdog}, OldHost(env, id), w) && Start(env, OldHost(env, id)) && !Settled(w)
  {
    w := LosesWatchdog(env, id);
    w := ReportsConfirm(env, {FailedWatchdog}, OldHost(env, id), w, id);
  }

  // ----- The exact condition -----

  lemma ReachesMore(env: Env, fewer: set<Mishap>, more: set<Mishap>, w: World, end: World)
    requires Reaches(env, fewer, w, end) && fewer <= more
    ensures Reaches(env, more, w, end)
  {
  }

  /** The promise holds in every run exactly as long as no kind of mishap is possible; any one alone breaks it. */
  lemma SafeIffNoMishap(env: Env, mishaps: set<Mishap>, id: JobId)
    requires ValidEnv(env) && NormalizeVersion(env.expected(id)) != ""
    ensures (forall w, end | Start(env, w) && Reaches(env, mishaps, w, end) :: Settled(end)) <==> mishaps == {}
  {
    if LateResult in mishaps {
      var end := ConfirmedTooEarly(env, id);
      ReachesMore(env, {LateResult}, mishaps, OldHost(env, id), end);
      assert Start(env, OldHost(env, id));
    } else if StuckMarker in mishaps {
      var end := ConfirmedWithMarker(env, id);
      ReachesMore(env, {StuckMarker}, mishaps, HalfUpdatedHost(env, id), end);
    } else if FailedWatchdog in mishaps {
      var end := ConfirmedUnwatched(env, id);
      ReachesMore(env, {FailedWatchdog}, mishaps, OldHost(env, id), end);
    } else {
      NoMishap(mishaps);
      forall w, end | Start(env, w) && Reaches(env, mishaps, w, end) ensures Settled(end) {
        var steps :| Legal(env, w, steps) && Mishaps(env, w, steps) <= mishaps && Run(env, w, steps) == end;
        UpdateIsSafe(env, w, steps);
      }
    }
  }

  // ----- The promise is not empty: an update does succeed -----

  /** An undisturbed update: swapped, armed, accepted, restarted, and disarmed after 30 healthy seconds. */
  lemma Activates(env: Env, id: JobId) returns (w: World)
    requires ValidEnv(env) && NormalizeVersion(env.expected(id)) != ""
    ensures Reaches(env, {}, OldHost(env, id), w)
    ensures
      w == World(HEALTH_DELAY, env.expected(id), None, {}, {}, Process(env.expected(id), 0), Idle,
                 OldHost(env, id).job.(updateAcceptedAt := Some(0)), {}, {}, {})
  {
    hide Observe, Reaches;
    var start := OldHost(env, id);
    StartsThere(env, {}, start);
    w := Advance(env, {}, start, start, Fetch);
    w := Arms(env, {}, start, w, 0);
    w := Restarts(env, {}, start, w);
    w := Advance(env, {}, start, w, Tick(HEALTH_DELAY));
    w := Advance(env, {}, start, w, Confirm(true));
  }

  lemma SuccessIsReachable(env: Env, id: JobId) returns (w: World)
    requires ValidEnv(env) && NormalizeVersion(env.expected(id)) != ""
    ensures Reaches(env, {}, OldHost(env, id), w) && Start(env, OldHost(env, id))
    ensures w.job.status == Succeeded && w.installed == env.expected(id)
  {
    w := Activates(env, id);
    w := ReportsConfirm(env, {}, OldHost(env, id), w, id);
  }
}
