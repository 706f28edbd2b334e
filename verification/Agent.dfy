/**
 The agent's side of a self-update as the code runs it: the tail of updateAtlas, pollOnce with its
 undo, and confirmPendingUpdate.  Undisturbed by other parties, each method is proved to be a run of
 the protocol in SelfUpdate, so what is proved of every run there covers this code.
 */
module Agent {
  import opened Model
  import opened Text
  import opened Jobs
  import opened UpdateConfirmation
  import opened SelfUpdate

  /** What systemd-run makes of arming the watchdog: an error may come although the timer exists. */
  datatype Arming = ArmedFine | ArmError(armedAnyway: bool)

  /** The job as the poll response brings it. */
  datatype Fetched = Fetched(id: JobId, expectedVersion: Version)

  class Agent {
    var installed: Version
    var marker: Option<Marker>
    var timers: set<Watchdog>
    var orders: set<Time>
    const process: Process
    // The rest of the world, which these methods see only through their requests.
    ghost var job: Job
    ghost var wire: set<Report>
    ghost var stray: set<JobId>
    ghost var late: set<JobId>

    constructor (world: World)
      ensures Value(world.now, world.stage) == world
    {
      installed, marker, timers, orders, process := world.installed, world.marker, world.timers, world.orders, world.process;
      job, wire, stray, late := world.job, world.wire, world.stray, world.late;
    }

    ghost function Value(now: Time, stage: Stage): World
      reads this
    {
      World(now, installed, marker, timers, orders, process, stage, job, wire, stray, late)
    }

    /** The tail of updateAtlas: marker first, if everything up to it `writes`, then the binary; a failed rename takes
        the marker back, where it can. */
    method InstallUpdate(expected: Version, rollbackUnit: nat, writes: bool, renames: bool, unmarks: bool)
        returns (backup: Option<Version>)
      modifies this`installed, this`marker
      ensures backup.Some? <==> old(marker).None? && !SameVersion(process.version, expected) && writes && renames
      ensures backup.Some? ==>
        backup == Some(old(installed)) && installed == expected && marker == Some(Marker(expected, rollbackUnit))
      ensures backup.None? ==> installed == old(installed)
      ensures backup.None? ==>
        marker == if old(marker).None? && !SameVersion(process.version, expected) && writes && !unmarks
                  then Some(Marker(expected, rollbackUnit)) else old(marker)
    {
      if SameVersion(process.version, expected) || marker.Some? || !writes {
        return None;
      }
      var replaced := installed;
      marker := Some(Marker(expected, rollbackUnit));
      if !renames {
        if unmarks {
          marker := None;
        }
        return None;
      }
      installed := expected;
      return Some(replaced);
    }

    /** pollOnce after the poll: execute, arm, report, and restart or undo.  The marker may be removed after a failed
        rename (`unmarks`), after a failed arming (`clears`) and when the result was not delivered (`removes`). */
    method RunUpdate(
        update: Fetched, rollbackUnit: nat, writes: bool, renames: bool, unmarks: bool, arming: Arming,
        restoring: Restoring, clears: bool, delivery: Delivery, undoing: Restoring, removes: bool, stops: bool,
        restarts: bool, now: Time, ghost env: Env)
        returns (ghost steps: seq<Step>)
      requires update.id == job.id && update.expectedVersion == env.expected(job.id)
      requires job.payload == UpdateAtlas(update.expectedVersion)
      requires Acceptable(job, job.id) && !AwaitingUpdateConfirmation(job)
      modifies this
      ensures SelfUpdate.Legal(env, old(Value(now, Idle)), steps)
      ensures SelfUpdate.Run(env, old(Value(now, Idle)), steps) == Value(now, Idle)
      ensures
        var tried := old(marker).None? && !SameVersion(process.version, update.expectedVersion) && writes;
        var swapped := tried && renames;
        var armed := swapped && arming.ArmedFine?;
        var marked := Some(Marker(update.expectedVersion, rollbackUnit));
        var watchdog := Watchdog(rollbackUnit, old(installed), now);
        var undone := swapped && delivery != Acknowledged;
        // The new binary stays unless it was never there or a restore put the old one back.
        && installed == (if swapped && (armed || restoring.NotRestored?) && (!undone || undoing.NotRestored?)
                         then update.expectedVersion else old(installed))
        && marker == (if !tried then old(marker)
                      else if (!renames && unmarks) || (swapped && !armed && restoring.Restored? && clears)
                              || (undone && undoing.Restored? && removes)
                      then None else marked)
        && (forall w :: w in timers <==>
              (w in old(timers) || (w == watchdog && swapped && (armed || arming.armedAnyway)))
              && !(undone && undoing.Restored? && armed && stops && w.rollbackUnit == rollbackUnit))
        && orders == (if armed && !undone && restarts then old(orders) + {now} else old(orders))
        && job == (if delivery == NotHandled then old(job) else HandleResult(old(job), armed, now))
    {
      hide HandleResult, AwaitingUpdateConfirmation, SameVersion, SelfUpdate.Run, SelfUpdate.Legal,
          SelfUpdate.Next, WithoutUnit;
      ghost var start := Value(now, Idle);
      var backup;
      backup, steps := Execute(update, rollbackUnit, writes, renames, unmarks, now, env);
      ghost var more;
      if backup.None? {
        ghost var failed := Value(now, SelfUpdate.Stage.Fetched(update.id, update.expectedVersion));
        more := Fail(update, delivery, now, env);
        steps := Then(env, start, steps, failed, more);
      } else {
        var u := SelfUpdate.Update(update.id, update.expectedVersion, backup.value, rollbackUnit);
        ghost var swapped := Value(now, Swapped(u));
        more := Activate(u, arming, restoring, clears, delivery, undoing, removes, stops, restarts, now, env);
        steps := Then(env, start, steps, swapped, more);
      }
    }

    /** The job is fetched, and the new binary put in place or not. */
    method Execute(
        update: Fetched, rollbackUnit: nat, writes: bool, renames: bool, unmarks: bool, now: Time, ghost env: Env)
        returns (backup: Option<Version>, ghost steps: seq<Step>)
      requires update.id == job.id && update.expectedVersion == env.expected(job.id)
      requires job.payload == UpdateAtlas(update.expectedVersion)
      requires Acceptable(job, job.id) && !AwaitingUpdateConfirmation(job)
      modifies this`installed, this`marker, this`stray, this`late
      ensures
        var tried := old(marker).None? && !SameVersion(process.version, update.expectedVersion) && writes;
        && backup == (if tried && renames then Some(old(installed)) else None)
        && installed == (if tried && renames then update.expectedVersion else old(installed))
        && marker == (if !tried then old(marker)
                      else if !renames && unmarks then None else Some(Marker(update.expectedVersion, rollbackUnit)))
      ensures SelfUpdate.Legal(env, old(Value(now, Idle)), steps)
      ensures
        SelfUpdate.Run(env, old(Value(now, Idle)), steps) ==
          Value(now, if backup.None? then SelfUpdate.Stage.Fetched(update.id, update.expectedVersion)
                     else Swapped(SelfUpdate.Update(update.id, update.expectedVersion, backup.value, rollbackUnit)))
    {
      hide HandleResult, AwaitingUpdateConfirmation, SameVersion, SelfUpdate.Run, SelfUpdate.Legal, WithoutUnit;
      ghost var start := Value(now, Idle);
      NotYet(env, start);
      steps := Did(env, start, [], start, Fetch);
      ghost var fetched := SelfUpdate.Next(env, start, Fetch);
      stray, late := {}, late + stray;
      backup := InstallUpdate(update.expectedVersion, rollbackUnit, writes, renames, unmarks);
      if start.marker.None? && !SameVersion(process.version, update.expectedVersion) && writes {
        steps := TriedInstall(env, start, steps, fetched, rollbackUnit, renames, unmarks);
      }
    }

    /** The failure is reported; nothing has to be undone. */
    method Fail(update: Fetched, delivery: Delivery, now: Time, ghost env: Env) returns (ghost steps: seq<Step>)
      requires Acceptable(job, update.id)
      modifies this`job
      ensures job == if delivery == NotHandled then old(job) else HandleResult(old(job), false, now)
      ensures SelfUpdate.Legal(env, old(Value(now, SelfUpdate.Stage.Fetched(update.id, update.expectedVersion))), steps)
      ensures
        SelfUpdate.Run(env, old(Value(now, SelfUpdate.Stage.Fetched(update.id, update.expectedVersion))), steps) ==
          Value(now, Idle)
    {
      hide HandleResult, AwaitingUpdateConfirmation;
      ghost var fetched := Value(now, SelfUpdate.Stage.Fetched(update.id, update.expectedVersion));
      steps := Did(env, fetched, [], fetched, Refuse(delivery));
      Handled(false, delivery, now);
    }

    /** What follows once the new binary is in place. */
    method Activate(
        u: SelfUpdate.Update, arming: Arming, restoring: Restoring, clears: bool, delivery: Delivery, undoing: Restoring,
        removes: bool, stops: bool, restarts: bool, now: Time, ghost env: Env)
        returns (ghost steps: seq<Step>)
      requires Acceptable(job, u.jobId)
      modifies this`installed, this`marker, this`timers, this`orders, this`job, this`stray
      ensures SelfUpdate.Legal(env, old(Value(now, Swapped(u))), steps)
      ensures SelfUpdate.Run(env, old(Value(now, Swapped(u))), steps) == Value(now, Idle)
      ensures
        var armed, undone := arming.ArmedFine?, delivery != Acknowledged;
        && installed == (if (!armed && !restoring.NotRestored?) || (undone && !undoing.NotRestored?)
                         then u.backup else old(installed))
        && marker == (if (!armed && restoring.Restored? && clears) || (undone && undoing.Restored? && removes)
                      then None else old(marker))
        && (forall w :: w in timers <==>
              && (w in old(timers)
                  || (w == Watchdog(u.rollbackUnit, u.backup, now) && (armed || arming.armedAnyway)))
              && !(undone && undoing.Restored? && armed && stops && w.rollbackUnit == u.rollbackUnit))
        && orders == (if armed && !undone && restarts then old(orders) + {now} else old(orders))
        && job == (if delivery == NotHandled then old(job) else HandleResult(old(job), armed, now))
    {
      hide HandleResult, AwaitingUpdateConfirmation, SelfUpdate.Run, SelfUpdate.Legal;
      ghost var start := Value(now, Swapped(u));
      var success;
      success, steps := Arm(u, arming, restoring, clears, now, env);
      ghost var posting := Value(now, Posting(u, success, success));
      ghost var more := ReportAndRestart(u, success, delivery, undoing, removes, stops, restarts, now, env);
      steps := Then(env, start, steps, posting, more);
    }

    /** scheduleUpdateRollback; when it reports an error the old binary is put back at once. */
    method Arm(u: SelfUpdate.Update, arming: Arming, restoring: Restoring, clears: bool, now: Time, ghost env: Env)
        returns (success: bool, ghost steps: seq<Step>)
      modifies this`installed, this`marker, this`timers
      ensures success == arming.ArmedFine?
      ensures SelfUpdate.Legal(env, old(Value(now, Swapped(u))), steps)
      ensures SelfUpdate.Run(env, old(Value(now, Swapped(u))), steps) == Value(now, Posting(u, success, success))
      ensures timers ==
        if success || arming.armedAnyway then old(timers) + {Watchdog(u.rollbackUnit, u.backup, now)} else old(timers)
      ensures installed == if success || restoring.NotRestored? then old(installed) else u.backup
      ensures marker == if !success && restoring.Restored? && clears then None else old(marker)
    {
      ghost var start := Value(now, Swapped(u));
      success := arming.ArmedFine?;
      if arming.ArmedFine? || arming.armedAnyway {
        timers := timers + {Watchdog(u.rollbackUnit, u.backup, now)};
      }
      if !success && !restoring.NotRestored? {
        installed := u.backup;
      }
      if !success && restoring.Restored? && clears {
        marker := None;
      }
      steps := Did(env, start, [], start, if success then ArmWatchdog else ArmFails(arming.armedAnyway, restoring, clears));
    }

    /** The result goes out; delivered, a successful one is followed by the restart, undelivered, all is undone. */
    method ReportAndRestart(
        u: SelfUpdate.Update, success: bool, delivery: Delivery, undoing: Restoring, removes: bool, stops: bool,
        restarts: bool, now: Time, ghost env: Env)
        returns (ghost steps: seq<Step>)
      requires Acceptable(job, u.jobId)
      modifies this`installed, this`marker, this`timers, this`orders, this`job, this`stray
      ensures SelfUpdate.Legal(env, old(Value(now, Posting(u, success, success))), steps)
      ensures SelfUpdate.Run(env, old(Value(now, Posting(u, success, success))), steps) == Value(now, Idle)
      ensures orders == if delivery == Acknowledged && success && restarts then old(orders) + {now} else old(orders)
      ensures delivery == Acknowledged ==> installed == old(installed) && marker == old(marker) && timers == old(timers)
      ensures delivery != Acknowledged ==>
        && installed == (if undoing.NotRestored? then old(installed) else u.backup)
        && marker == (if undoing.Restored? && removes then None else old(marker))
        && (forall w :: w in timers <==>
              w in old(timers) && !(undoing.Restored? && success && stops && w.rollbackUnit == u.rollbackUnit))
      ensures job == if delivery == NotHandled then old(job) else HandleResult(old(job), success, now)
    {
      hide HandleResult, AwaitingUpdateConfirmation, SameVersion;
      ghost var start := Value(now, Posting(u, success, success));
      steps := Did(env, start, [], start, PostResult(delivery));
      ghost var posted := SelfUpdate.Next(env, start, PostResult(delivery));
      Handled(success, delivery, now);
      if delivery == NotHandled && success {
        stray := stray + {u.jobId};
      }
      if delivery != Acknowledged {
        ghost var more := Undo(u.backup, u.rollbackUnit, success, undoing, removes, stops, now, env, u);
        steps := Then(env, start, steps, posted, more);
        return;
      }
      if success {
        steps := Did(env, start, steps, posted, OrderRestart(restarts));
        if restarts {
          orders := orders + {now};
        }
      }
    }

    /** The controller's side of a delivered result. */
    ghost method Handled(success: bool, delivery: Delivery, now: Time)
      modifies this`job
      ensures job == if delivery == NotHandled then old(job) else HandleResult(old(job), success, now)
    {
      if delivery != NotHandled {
        job := HandleResult(job, success, now);
      }
    }

    /** The result could not be delivered: the old binary comes back, then the marker and the watchdog go. */
    method Undo(
        backup: Version, rollbackUnit: nat, scheduled: bool, undoing: Restoring, removes: bool, stops: bool, now: Time,
        ghost env: Env, ghost u: SelfUpdate.Update)
        returns (ghost steps: seq<Step>)
      requires u.backup == backup && u.rollbackUnit == rollbackUnit
      modifies this`installed, this`marker, this`timers
      ensures SelfUpdate.Legal(env, old(Value(now, UndoBinary(u, scheduled))), steps)
      ensures SelfUpdate.Run(env, old(Value(now, UndoBinary(u, scheduled))), steps) == Value(now, Idle)
      ensures installed == if undoing.NotRestored? then old(installed) else backup
      ensures marker == if undoing.Restored? && removes then None else old(marker)
      ensures forall w :: w in timers <==>
        w in old(timers) && !(undoing.Restored? && scheduled && stops && w.rollbackUnit == rollbackUnit)
    {
      hide HandleResult, Observe, SameVersion, AwaitingUpdateConfirmation;
      ghost var start := Value(now, UndoBinary(u, scheduled));
      steps := Did(env, start, [], start, RestoreBinary(undoing));
      if !undoing.NotRestored? {
        installed := backup;
      }
      if undoing.Restored? {
        steps := Did(env, start, steps, Value(now, UndoMarker(u, scheduled)), RemoveMarker(removes));
        if removes {
          marker := None;
        }
        if scheduled {
          steps := Did(env, start, steps, Value(now, UndoTimer(u)), StopTimer(stops));
          if stops {
            timers := WithoutUnit(timers, rollbackUnit);
          }
        }
      }
    }

    /** confirmPendingUpdate: after 30 healthy seconds of the expected version the marker goes, then the
        watchdog; with a marker that cannot be removed nothing changes.  `healthy` says of each service of the
        marker whether it is active. */
    method ConfirmPendingUpdate(healthy: seq<bool>, removes: bool, stops: bool, now: Time, ghost env: Env, ghost stage: Stage)
        returns (ghost steps: seq<Step>)
      modifies this`marker, this`timers
      ensures SelfUpdate.Legal(env, old(Value(now, stage)), steps)
      ensures SelfUpdate.Run(env, old(Value(now, stage)), steps) == Value(now, stage)
      ensures steps != [] <==>
        && old(marker).Some? && SameVersion(old(marker).value.expected, process.version)
        && now - process.startedAt >= HEALTH_DELAY && removes && forall i | 0 <= i < |healthy| :: healthy[i]
      ensures steps == [] ==> Value(now, stage) == old(Value(now, stage))
      ensures steps != [] ==>
        && marker.None?
        && forall w :: w in timers <==> w in old(timers) && !(stops && w.rollbackUnit == old(marker).value.rollbackUnit)
    {
      steps := [];
      if marker.None? {
        return;
      }
      var update := marker.value;
      if !SameVersion(update.expected, process.version) || now - process.startedAt < HEALTH_DELAY {
        return;
      }
      for i := 0 to |healthy|
        invariant forall k | 0 <= k < i :: healthy[k]
      {
        if !healthy[i] {
          return;
        }
      }
      if !removes {
        return;
      }
      ghost var start := Value(now, stage);
      steps := Did(env, start, [], start, Confirm(stops));
      marker := None;
      if stops {
        timers := WithoutUnit(timers, update.rollbackUnit);
      }
    }
  }

  lemma NotYet(env: Env, start: World)
    ensures SelfUpdate.Legal(env, start, []) && SelfUpdate.Run(env, start, []) == start
  {
  }

  /** One step more of a run. */
  lemma Did(env: Env, start: World, steps: seq<Step>, now: World, step: Step) returns (more: seq<Step>)
    requires SelfUpdate.Legal(env, start, steps) && SelfUpdate.Run(env, start, steps) == now
    requires SelfUpdate.Enabled(env, now, step)
    ensures more == steps + [step]
    ensures SelfUpdate.Legal(env, start, more) && SelfUpdate.Run(env, start, more) == SelfUpdate.Next(env, now, step)
  {
    more := steps + [step];
    Extend(env, start, steps, step);
  }

  /** Marker and binary, from a job just fetched. */
  lemma TriedInstall(
      env: Env, start: World, steps: seq<Step>, fetched: World, rollbackUnit: nat, renames: bool, unmarks: bool)
      returns (more: seq<Step>)
    requires SelfUpdate.Legal(env, start, steps) && SelfUpdate.Run(env, start, steps) == fetched && fetched.stage.Fetched?
    requires fetched.marker.None? && !SameVersion(fetched.process.version, fetched.stage.fetchedVersion)
    ensures SelfUpdate.Legal(env, start, more)
    ensures
      var expected := fetched.stage.fetchedVersion;
      var marker := Some(Marker(expected, rollbackUnit));
      SelfUpdate.Run(env, start, more) ==
        if renames
        then fetched.(installed := expected, marker := marker,
                      stage := Swapped(SelfUpdate.Update(fetched.stage.fetchedId, expected, fetched.installed, rollbackUnit)))
        else fetched.(marker := if unmarks then None else marker)
  {
    hide SelfUpdate.Legal, SelfUpdate.Run, SameVersion;
    more := Did(env, start, steps, fetched, WriteMarker(rollbackUnit));
    more := Did(env, start, more, SelfUpdate.Next(env, fetched, WriteMarker(rollbackUnit)), SwapBinary(renames, unmarks));
  }

  /** A run, and another one from where it ends. */
  lemma {:induction false} Then(env: Env, start: World, steps: seq<Step>, middle: World, rest: seq<Step>)
      returns (more: seq<Step>)
    requires SelfUpdate.Legal(env, start, steps) && SelfUpdate.Run(env, start, steps) == middle
    requires SelfUpdate.Legal(env, middle, rest)
    ensures SelfUpdate.Legal(env, start, more) && SelfUpdate.Run(env, start, more) == SelfUpdate.Run(env, middle, rest)
    decreases |rest|
  {
    if rest == [] {
      more := steps;
    } else {
      more := Did(env, start, steps, middle, rest[0]);
      more := Then(env, start, more, SelfUpdate.Next(env, middle, rest[0]), rest[1..]);
    }
  }
}
