/**
 The agent's file transactions of internal/agent/executor.go on a map from paths to contents:
 apply, delete and certificate sync with capture and rollback, and the takeover of a file that
 another site shares.  Any step may fail: `fails` is the set of steps that do.
 */
module FileTransactions {
  import opened Model
  import opened Text
  import opened ServerBlocks

  type Path = string
  type Files = map<Path, string>

  datatype Step =
    | Capture(path: Path) | RestoreFile(path: Path)
    | WriteChain | WriteKey
    | ReadLocal | CopyChain | CopyKey | VerifyLocal
    | InspectSource | CheckSource | InspectSaved | ReadSource | WriteBackup | InspectMode | RemoveSource | RewriteSource | DropBackup
    | InspectBackup | ReadBackup | CheckOccupied | RestoreSource | RemoveBackup | MoveBack
    | RemoveManaged | WriteConfig | Test | Reload | ReadBack

  // ----- Capturing and restoring -----

  datatype Backup = Backup(path: Path, data: Option<string>)

  function ContentOf(files: Files, path: Path): Option<string> {
    if path in files then Some(files[path]) else None
  }

  /** captureFiles: what the paths hold, unless one of them cannot be read. */
  function CaptureFiles(files: Files, paths: seq<Path>, fails: set<Step>): Option<seq<Backup>> {
    if paths == [] then Some([])
    else if Capture(paths[0]) in fails then None
    else
      var rest := CaptureFiles(files, paths[1..], fails);
      if rest.None? then None else Some([Backup(paths[0], ContentOf(files, paths[0]))] + rest.value)
  }

  function Put(files: Files, path: Path, data: Option<string>): Files {
    if data.Some? then files[path := data.value] else files - {path}
  }

  /** restoreFiles: every backup is tried, whichever of them cannot be written. */
  function RestoreFiles(files: Files, backups: seq<Backup>, fails: set<Step>): Files
    decreases |backups|
  {
    if backups == [] then files
    else
      var backup := backups[0];
      RestoreFiles(if RestoreFile(backup.path) in fails then files else Put(files, backup.path, backup.data), backups[1..], fails)
  }

  // ----- Certificates -----

  /** `valid` is what certutil.Validate says of the bundle. */
  datatype Bundle = Bundle(chain: string, key: string, valid: bool)

  datatype Site = Site(domain: string, managed: Path, chain: Path, key: Path)

  datatype Written = Written(files: Files, ok: bool)

  /** installCertificate. */
  function Install(files: Files, site: Site, bundle: Bundle, fails: set<Step>): Written {
    if !bundle.valid || WriteChain in fails then Written(files, false)
    else
      var chained := files[site.chain := bundle.chain];
      if WriteKey in fails then Written(chained, false) else Written(chained[site.key := bundle.key], true)
  }

  /** A certificate in another directory of the node; `valid` as for a bundle. */
  datatype Local = Local(chain: Path, key: Path, same: bool, valid: bool)

  predicate Usable(files: Files, local: Local) {
    local.chain in files && local.key in files && local.valid
  }

  /** ensureLocalCertificate: a copy never overwrites a file. */
  function EnsureLocal(files: Files, site: Site, local: Local, fails: set<Step>): Written {
    if !Usable(files, local) || ReadLocal in fails then Written(files, false)
    else if local.same then Written(files, true)
    else if site.chain in files || CopyChain in fails then Written(files, false)
    else
      var chained := files[site.chain := files[local.chain]];
      if site.key in chained || CopyKey in fails then Written(chained, false)
      else Written(chained[site.key := files[local.key]], VerifyLocal !in fails)
  }

  // ----- Takeover of a shared file -----

  datatype Takeover = Takeover(source: Path, backup: Path)

  predicate AllowedSource(path: Path) {
    HasPrefix(path, "/etc/nginx/conf.d/") || HasPrefix(path, "/etc/nginx/sites-enabled/")
  }

  datatype Disabled = Disabled(files: Files, changed: bool, ok: bool)

  /** The file without the domain's blocks, or no file when nothing but space is left. */
  ghost function Rewrite(files: Files, t: Takeover, removal: Removal, fails: set<Step>): Disabled {
    if OnlyWhitespace(removal.text) then
      if RemoveSource in fails then Disabled(files, false, false) else Disabled(files - {t.source}, true, true)
    else if InspectMode in fails || RewriteSource in fails then Disabled(files, false, false)
    else Disabled(files[t.source := removal.text], true, true)
  }

  /** reapplyTakeoverRemoval. */
  ghost function Reapply(files: Files, t: Takeover, domain: string, fails: set<Step>): Disabled
    requires t.source in files
  {
    if ReadSource in fails then Disabled(files, false, false)
    else
      var removal := Surgery(files[t.source], domain);
      if removal.None? then Disabled(files, false, false)
      else if removal.value.removed == 0 then Disabled(files, false, true)
      else Rewrite(files, t, removal.value, fails)
  }

  function Dropped(files: Files, t: Takeover, fails: set<Step>): Files {
    if DropBackup in fails then files else files - {t.backup}
  }

  /** The first takeover of a file: its contents are saved, then the domain's blocks go. */
  ghost function FirstTakeover(files: Files, t: Takeover, domain: string, fails: set<Step>): Disabled
    requires t.source in files
  {
    if ReadSource in fails || WriteBackup in fails then Disabled(files, false, false)
    else
      var saved := files[t.backup := files[t.source]];
      var removal := Surgery(files[t.source], domain);
      if removal.None? || removal.value.removed == 0 then Disabled(Dropped(saved, t, fails), false, false)
      else
        var rewritten := Rewrite(saved, t, removal.value, fails);
        if rewritten.ok then rewritten else Disabled(Dropped(saved, t, fails), false, false)
  }

  /** disableTakeoverConfig. */
  ghost function Disable(files: Files, managed: Path, t: Takeover, domain: string, fails: set<Step>): Disabled {
    if !AllowedSource(t.source) || t.source == managed || InspectSource in fails then Disabled(files, false, false)
    else if t.source !in files then Disabled(files, false, t.backup in files && InspectSaved !in fails)
    else if CheckSource in fails || InspectSaved in fails then Disabled(files, false, false)
    else if t.backup in files then Reapply(files, t, domain, fails)
    else FirstTakeover(files, t, domain, fails)
  }

  /** restoreTakeoverConfig. */
  function RestoreTakeover(files: Files, t: Takeover, fails: set<Step>): Disabled {
    if !AllowedSource(t.source) || InspectBackup in fails then Disabled(files, false, false)
    else if t.backup !in files then Disabled(files, false, true)
    else if ReadBackup in fails then Disabled(files, false, false)
    else
      var restored := files[t.source := files[t.backup]];
      if t.source in files then
        if CheckOccupied in fails || RestoreSource in fails then Disabled(files, false, false)
        else if RemoveBackup in fails then Disabled(restored, false, false)
        else Disabled(restored - {t.backup}, true, true)
      else if MoveBack in fails then Disabled(files, false, false)
      else Disabled(restored - {t.backup}, true, true)
  }

  // ----- Certificate sync -----

  datatype Outcome = Done | Aborted | AbortedLate

  datatype Transacted = Transacted(files: Files, outcome: Outcome)

  /** syncCertificate. */
  function Sync(files: Files, site: Site, bundle: Bundle, reload: bool, fails: set<Step>): Transacted {
    var backup := CaptureFiles(files, [site.chain, site.key], fails);
    if backup.None? then Transacted(files, Aborted)
    else
      var installed := Install(files, site, bundle, fails);
      if !installed.ok || (reload && (Test in fails || Reload in fails))
      then Transacted(RestoreFiles(installed.files, backup.value, fails), Aborted)
      else Transacted(installed.files, Done)
  }

  // ----- Apply -----

  /** A deployment; `config` is None when it cannot be rendered or the custom text is invalid. */
  datatype Deployment = Deployment(
    site: Site, config: Option<string>, tls: bool, bundle: Option<Bundle>, useLocal: bool, local: Local,
    takeover: Option<Takeover>, capture: bool)

  /** The certificate a deployment brings along. */
  function Provide(files: Files, d: Deployment, fails: set<Step>): Written {
    if d.bundle.Some? then Install(files, d.site, d.bundle.value, fails)
    else if d.tls && d.useLocal then EnsureLocal(files, d.site, d.local, fails)
    else Written(files, !d.tls)
  }

  function CapturedPaths(d: Deployment): seq<Path> {
    [d.site.managed] + if d.tls then [d.site.chain, d.site.key] else []
  }

  function Rollback(files: Files, backup: seq<Backup>, d: Deployment, changed: bool, fails: set<Step>): Files {
    var restored := RestoreFiles(files, backup, fails);
    if changed && d.takeover.Some? then RestoreTakeover(restored, d.takeover.value, fails).files else restored
  }

  /** applyDomain. */
  ghost function Apply(files: Files, d: Deployment, fails: set<Step>): Transacted {
    if d.config.None? then Transacted(files, Aborted)
    else
      var backup := CaptureFiles(files, CapturedPaths(d), fails);
      if backup.None? then Transacted(files, Aborted)
      else
        var provided := Provide(files, d, fails);
        if !provided.ok then
          // Only an installed bundle is rolled back here, a local certificate is not.
          Transacted(if d.bundle.Some? then Rollback(provided.files, backup.value, d, false, fails) else provided.files, Aborted)
        else
          var disabled := if d.takeover.None? then Disabled(provided.files, false, true)
                          else Disable(provided.files, d.site.managed, d.takeover.value, d.site.domain, fails);
          if !disabled.ok then Transacted(Rollback(disabled.files, backup.value, d, disabled.changed, fails), Aborted)
          else if WriteConfig in fails then
            Transacted(Rollback(disabled.files, backup.value, d, disabled.changed, fails), Aborted)
          else
            var written := disabled.files[d.site.managed := d.config.value];
            if Test in fails || Reload in fails
            then Transacted(Rollback(written, backup.value, d, disabled.changed, fails), Aborted)
            else Transacted(written, if d.capture && d.tls && ReadBack in fails then AbortedLate else Done)
  }

  // ----- Delete -----

  /** deleteDomain; AbortedLate is a failure of the validation or the reload after the removal. */
  ghost function Delete(files: Files, site: Site, takeover: Option<Takeover>, fails: set<Step>): Transacted {
    var backup := CaptureFiles(files, [site.managed], fails);
    if backup.None? || RemoveManaged in fails then Transacted(files, Aborted)
    else
      var removed := files - {site.managed};
      var restored := if takeover.None? then Disabled(removed, false, true) else RestoreTakeover(removed, takeover.value, fails);
      if !restored.ok then Transacted(RestoreFiles(restored.files, backup.value, fails), Aborted)
      else if Test in fails || Reload in fails then
        var again := if restored.changed && takeover.Some?
                     then Disable(restored.files, site.managed, takeover.value, site.domain, fails).files else restored.files;
        Transacted(RestoreFiles(again, backup.value, fails), AbortedLate)
      else Transacted(restored.files, Done)
  }

  // ----- All or nothing -----

  /** A step that only an undo performs: of a certificate sync or a deployment. */
  predicate IsUndo(step: Step) {
    || step.RestoreFile? || step == DropBackup || step == InspectBackup || step == ReadBackup
    || step == CheckOccupied || step == RestoreSource || step == RemoveBackup || step == MoveBack
  }

  ghost predicate UndoWorks(fails: set<Step>) {
    forall step | step in fails :: !IsUndo(step)
  }

  /** The contents of two file systems agree outside some paths. */
  ghost predicate SameBut(files: Files, other: Files, paths: set<Path>) {
    forall p :: p !in paths ==> ContentOf(files, p) == ContentOf(other, p)
  }

  lemma SameFiles(files: Files, other: Files)
    requires SameBut(files, other, {})
    ensures files == other
  {
    forall p ensures p in files <==> p in other {
      assert ContentOf(files, p) == ContentOf(other, p);
    }
    forall p | p in files ensures files[p] == other[p] {
      assert ContentOf(files, p) == ContentOf(other, p);
    }
  }

  lemma {:induction false} CapturedContents(files: Files, paths: seq<Path>, fails: set<Step>)
    requires CaptureFiles(files, paths, fails).Some?
    ensures
      var backups := CaptureFiles(files, paths, fails).value;
      |backups| == |paths|
      && forall i | 0 <= i < |paths| :: backups[i] == Backup(paths[i], ContentOf(files, paths[i]))
  {
    if paths != [] { CapturedContents(files, paths[1..], fails); }
  }

  /** Restoring what was captured undoes every change to the captured paths, and touches no other. */
  lemma {:induction false} RestoreUndoes(before: Files, now: Files, paths: seq<Path>, backups: seq<Backup>, fails: set<Step>)
    requires |backups| == |paths|
    requires forall i | 0 <= i < |paths| :: backups[i] == Backup(paths[i], ContentOf(before, paths[i]))
    requires UndoWorks(fails)
    ensures
      var restored := RestoreFiles(now, backups, fails);
      forall p :: ContentOf(restored, p) == if p in paths then ContentOf(before, p) else ContentOf(now, p)
    decreases |paths|
  {
    if paths != [] {
      var next := Put(now, paths[0], ContentOf(before, paths[0]));
      assert backups[0] == Backup(paths[0], ContentOf(before, paths[0]));
      RestoreUndoes(before, next, paths[1..], backups[1..], fails);
      assert RestoreFiles(now, backups, fails) == RestoreFiles(next, backups[1..], fails);
      forall p ensures ContentOf(next, p) == if p == paths[0] then ContentOf(before, p) else ContentOf(now, p) {
      }
    }
  }

  lemma RollbackUndoes(before: Files, now: Files, paths: seq<Path>, fails: set<Step>)
    requires CaptureFiles(before, paths, fails).Some? && UndoWorks(fails)
    requires SameBut(before, now, set p | p in paths)
    ensures RestoreFiles(now, CaptureFiles(before, paths, fails).value, fails) == before
  {
    var backups := CaptureFiles(before, paths, fails).value;
    CapturedContents(before, paths, fails);
    RestoreUndoes(before, now, paths, backups, fails);
    SameFiles(RestoreFiles(now, backups, fails), before);
  }

  lemma InstallTouches(files: Files, site: Site, bundle: Bundle, fails: set<Step>)
    ensures SameBut(files, Install(files, site, bundle, fails).files, {site.chain, site.key})
  {
  }

  /** A certificate sync changes both files or nothing: whichever write, validation or reload fails,
      the node keeps the contents it had. */
  lemma SyncIsAllOrNothing(files: Files, site: Site, bundle: Bundle, reload: bool, fails: set<Step>)
    requires UndoWorks(fails)
    ensures
      var after := Sync(files, site, bundle, reload, fails);
      if after.outcome == Done
      then bundle.valid && after.files == files[site.chain := bundle.chain][site.key := bundle.key]
      else after.files == files
  {
    var paths := [site.chain, site.key];
    if CaptureFiles(files, paths, fails).Some? {
      var installed := Install(files, site, bundle, fails);
      InstallTouches(files, site, bundle, fails);
      assert (set p | p in paths) == {site.chain, site.key};
      RollbackUndoes(files, installed.files, paths, fails);
    }
  }

  // ----- Deployments -----

  ghost predicate Distinct(site: Site, takeover: Option<Takeover>) {
    && site.managed != site.chain && site.managed != site.key && site.chain != site.key
    && (takeover.Some? ==>
          var t := takeover.value;
          t.source !in {site.chain, site.key, t.backup} && t.backup !in {site.chain, site.key, site.managed})
  }

  /** A bundle that comes with TLS off overwrites certificate files that were not captured. */
  predicate StrayCertificate(files: Files, d: Deployment) {
    && d.config.Some? && !d.tls && d.bundle.Some? && d.bundle.value.valid
    && (ContentOf(files, d.site.chain) != Some(d.bundle.value.chain) || ContentOf(files, d.site.key) != Some(d.bundle.value.key))
  }

  /** A certificate is copied from another directory: a failure half way is not rolled back. */
  predicate StrayCopy(files: Files, d: Deployment) {
    && d.config.Some? && d.tls && d.bundle.None? && d.useLocal && !d.local.same
    && Usable(files, d.local) && d.site.chain !in files
  }

  /** The file has been taken over before and still holds blocks of this domain: the rollback then
      brings back the contents from before the first takeover. */
  ghost predicate SecondTakeover(files: Files, d: Deployment) {
    && d.config.Some? && Provide(files, d, {}).ok && d.takeover.Some?
    && var t := d.takeover.value;
    && AllowedSource(t.source) && t.source != d.site.managed && t.source in files && t.backup in files
    && var removal := Surgery(files[t.source], d.site.domain);
    && removal.Some? && removal.value.removed > 0
  }

  lemma ProvideTouches(files: Files, d: Deployment, fails: set<Step>)
    requires d.config.Some? && !StrayCertificate(files, d)
    ensures SameBut(files, Provide(files, d, fails).files, if d.tls then {d.site.chain, d.site.key} else {})
  {
  }

  lemma FailedCopyTouchesNothing(files: Files, d: Deployment, fails: set<Step>)
    requires d.config.Some? && !StrayCopy(files, d) && d.bundle.None? && !Provide(files, d, fails).ok
    ensures Provide(files, d, fails).files == files
  {
  }

  /** The original is in the backup and nothing but the shared file has changed. */
  ghost predicate TakenOver(files: Files, after: Files, t: Takeover) {
    && t.source in files && ContentOf(after, t.backup) == Some(files[t.source])
    && SameBut(files, after, {t.source, t.backup})
  }

  /** A takeover that is refused changes nothing; a first one saves the original. */
  lemma DisableIsSafe(files: Files, managed: Path, t: Takeover, domain: string, fails: set<Step>)
    requires UndoWorks(fails) && t.source != t.backup
    requires AllowedSource(t.source) && t.source != managed && t.source in files && t.backup in files ==>
      Surgery(files[t.source], domain).None? || Surgery(files[t.source], domain).value.removed == 0
    ensures
      var after := Disable(files, managed, t, domain, fails);
      if after.ok && after.changed
      then TakenOver(files, after.files, t) && t.backup !in files && AllowedSource(t.source) && t.source != managed
      else after.files == files && !after.changed
  {
    hide Surgery, OnlyWhitespace, AllowedSource;
    if t.backup !in files && t.source in files {
      var saved := files[t.backup := files[t.source]];
      assert saved - {t.backup} == files;
    }
  }

  /** Undoing a first takeover brings the original back and leaves no backup. */
  lemma TakeoverUndone(before: Files, now: Files, t: Takeover, fails: set<Step>)
    requires UndoWorks(fails) && AllowedSource(t.source) && t.source != t.backup
    requires TakenOver(before, now, t) && t.backup !in before
    ensures RestoreTakeover(now, t, fails).files == before
  {
    hide AllowedSource;
    var after := RestoreTakeover(now, t, fails).files;
    assert t.backup in now && after == now[t.source := now[t.backup]] - {t.backup};
    forall p ensures ContentOf(after, p) == ContentOf(before, p) {
      if p != t.source && p != t.backup { assert ContentOf(now, p) == ContentOf(before, p); }
    }
    SameFiles(after, before);
  }

  /** The rollback of a deployment after a takeover that did nothing, or a first one. */
  lemma DeploymentRollsBack(files: Files, now: Files, d: Deployment, changed: bool, fails: set<Step>)
    requires UndoWorks(fails) && Distinct(d.site, d.takeover) && CaptureFiles(files, CapturedPaths(d), fails).Some?
    requires !changed ==> SameBut(files, now, set p | p in CapturedPaths(d))
    requires changed ==>
      && d.takeover.Some? && AllowedSource(d.takeover.value.source) && d.takeover.value.source != d.site.managed
      && d.takeover.value.backup !in files && d.takeover.value.source in files
      && ContentOf(now, d.takeover.value.backup) == Some(files[d.takeover.value.source])
      && SameBut(files, now, (set p | p in CapturedPaths(d)) + {d.takeover.value.source, d.takeover.value.backup})
    ensures Rollback(now, CaptureFiles(files, CapturedPaths(d), fails).value, d, changed, fails) == files
  {
    hide AllowedSource;
    var paths := CapturedPaths(d);
    if !changed {
      RollbackUndoes(files, now, paths, fails);
    } else {
      var t := d.takeover.value;
      var backups := CaptureFiles(files, paths, fails).value;
      CapturedContents(files, paths, fails);
      RestoreUndoes(files, now, paths, backups, fails);
      var restored := RestoreFiles(now, backups, fails);
      assert t.source !in paths && t.backup !in paths;
      assert TakenOver(files, restored, t);
      TakeoverUndone(files, restored, t, fails);
    }
  }

  /** A deployment that fails before its final capture stage leaves every file as it was. */
  lemma DeploymentKeepsFiles(files: Files, d: Deployment, fails: set<Step>)
    requires UndoWorks(fails) && Distinct(d.site, d.takeover)
    requires !StrayCertificate(files, d) && !StrayCopy(files, d) && !SecondTakeover(files, d)
    requires Apply(files, d, fails).outcome == Aborted
    ensures Apply(files, d, fails).files == files
  {
    hide AllowedSource, Surgery, Disable, RestoreTakeover, RestoreFiles, SameBut, SecondTakeover, StrayCertificate, StrayCopy;
    if d.config.Some? && CaptureFiles(files, CapturedPaths(d), fails).Some? {
      var provided := Provide(files, d, fails);
      ProvidedIsCaptured(files, d, fails);
      if !provided.ok {
        if d.bundle.None? {
          FailedCopyTouchesNothing(files, d, fails);
        } else {
          DeploymentRollsBack(files, provided.files, d, false, fails);
        }
      } else if d.takeover.None? {
        ManagedIsCaptured(files, provided.files, d);
        DeploymentRollsBack(files, provided.files, d, false, fails);
        DeploymentRollsBack(files, provided.files[d.site.managed := d.config.value], d, false, fails);
      } else {
        TakeoverRollsBack(files, d, fails);
      }
    }
  }

  lemma ProvidedIsCaptured(files: Files, d: Deployment, fails: set<Step>)
    requires d.config.Some? && !StrayCertificate(files, d)
    ensures SameBut(files, Provide(files, d, fails).files, set p | p in CapturedPaths(d))
  {
    hide StrayCertificate, Provide;
    ProvideTouches(files, d, fails);
  }

  lemma ManagedIsCaptured(files: Files, now: Files, d: Deployment)
    requires d.config.Some?
    ensures
      SameBut(files, now, set p | p in CapturedPaths(d)) ==>
        SameBut(files, now[d.site.managed := d.config.value], set p | p in CapturedPaths(d))
  {
  }

  lemma TakeoverRollsBack(files: Files, d: Deployment, fails: set<Step>)
    requires UndoWorks(fails) && Distinct(d.site, d.takeover) && d.takeover.Some? && d.config.Some?
    requires !StrayCertificate(files, d) && !SecondTakeover(files, d)
    requires CaptureFiles(files, CapturedPaths(d), fails).Some? && Provide(files, d, fails).ok
    ensures
      var backup := CaptureFiles(files, CapturedPaths(d), fails).value;
      var disabled := Disable(Provide(files, d, fails).files, d.site.managed, d.takeover.value, d.site.domain, fails);
      && Rollback(disabled.files, backup, d, disabled.changed, fails) == files
      && (disabled.ok ==>
            Rollback(disabled.files[d.site.managed := d.config.value], backup, d, disabled.changed, fails) == files)
  {
    hide AllowedSource, Surgery, Disable, StrayCertificate;
    var t, p := d.takeover.value, Provide(files, d, fails).files;
    ProvidedIsCaptured(files, d, fails);
    ProvidedOk(files, d, fails);
    ProvideKeepsTakeover(files, d, fails);
    DisableIsSafe(p, d.site.managed, t, d.site.domain, fails);
    var disabled := Disable(p, d.site.managed, t, d.site.domain, fails);
    hide Provide, CaptureFiles, Rollback, SecondTakeover;
    DeploymentRollsBack(files, disabled.files, d, disabled.changed, fails);
    if disabled.ok {
      DeploymentRollsBack(files, disabled.files[d.site.managed := d.config.value], d, disabled.changed, fails);
    }
  }

  lemma ProvidedOk(files: Files, d: Deployment, fails: set<Step>)
    requires Provide(files, d, fails).ok
    ensures Provide(files, d, {}).ok && Provide(files, d, {}).files == Provide(files, d, fails).files
  {
  }

  lemma ProvideKeepsTakeover(files: Files, d: Deployment, fails: set<Step>)
    requires Distinct(d.site, d.takeover) && d.takeover.Some?
    ensures
      var p, t := Provide(files, d, fails).files, d.takeover.value;
      ContentOf(p, t.source) == ContentOf(files, t.source) && ContentOf(p, t.backup) == ContentOf(files, t.backup)
  {
  }

  /** Whatever fails, as long as undoing works, a deployment that fails leaves every file as it was. */
  ghost predicate AllOrNothing(files: Files, d: Deployment) {
    forall fails | UndoWorks(fails) && Apply(files, d, fails).outcome == Aborted :: Apply(files, d, fails).files == files
  }

  /** What is rolled back when the site file cannot be written. */
  ghost function BeforeConfig(files: Files, d: Deployment): Disabled {
    var provided := Provide(files, d, {WriteConfig}).files;
    if d.takeover.None? then Disabled(provided, false, true)
    else Disable(provided, d.site.managed, d.takeover.value, d.site.domain, {WriteConfig})
  }

  lemma FailedConfig(files: Files, d: Deployment) returns (backup: seq<Backup>)
    requires d.config.Some? && Provide(files, d, {WriteConfig}).ok
    ensures CaptureFiles(files, CapturedPaths(d), {WriteConfig}) == Some(backup)
    ensures
      var before := BeforeConfig(files, d);
      Apply(files, d, {WriteConfig}) == Transacted(Rollback(before.files, backup, d, before.changed, {WriteConfig}), Aborted)
    ensures
      var before := BeforeConfig(files, d).files;
      var restored := RestoreFiles(before, backup, {WriteConfig});
      forall p | p !in CapturedPaths(d) :: ContentOf(restored, p) == ContentOf(before, p)
  {
    hide Provide, Disable, Rollback;
    var fails := {WriteConfig};
    CaptureWorks(files, CapturedPaths(d), fails);
    backup := CaptureFiles(files, CapturedPaths(d), fails).value;
    CapturedContents(files, CapturedPaths(d), fails);
    RestoreUndoes(files, BeforeConfig(files, d).files, CapturedPaths(d), backup, fails);
  }

  lemma TakeoverTouches(files: Files, managed: Path, t: Takeover, domain: string, fails: set<Step>)
    ensures SameBut(files, Disable(files, managed, t, domain, fails).files, {t.source, t.backup})
    ensures SameBut(files, RestoreTakeover(files, t, fails).files, {t.source, t.backup})
  {
    hide Surgery, OnlyWhitespace, AllowedSource;
  }

  lemma StrayCertificateStays(files: Files, d: Deployment)
    requires Distinct(d.site, d.takeover) && StrayCertificate(files, d)
    ensures !AllOrNothing(files, d)
  {
    hide Disable, RestoreTakeover, RestoreFiles, CaptureFiles;
    var fails := {WriteConfig};
    var provided := Provide(files, d, fails).files;
    var backup := FailedConfig(files, d);
    var before := BeforeConfig(files, d);
    var restored := RestoreFiles(before.files, backup, fails);
    var after := Apply(files, d, fails).files;
    if d.takeover.Some? {
      TakeoverTouches(provided, d.site.managed, d.takeover.value, d.site.domain, fails);
      TakeoverTouches(restored, d.site.managed, d.takeover.value, d.site.domain, fails);
    }
    hide Apply;
    assert ContentOf(after, d.site.chain) == ContentOf(provided, d.site.chain);
    assert ContentOf(after, d.site.key) == ContentOf(provided, d.site.key);
    assert UndoWorks(fails) && after != files;
  }

  lemma {:induction false} CaptureWorks(files: Files, paths: seq<Path>, fails: set<Step>)
    requires forall p :: Capture(p) !in fails
    ensures CaptureFiles(files, paths, fails).Some?
  {
    if paths != [] { CaptureWorks(files, paths[1..], fails); }
  }

  lemma StrayCopyStays(files: Files, d: Deployment)
    requires Distinct(d.site, d.takeover) && StrayCopy(files, d)
    ensures !AllOrNothing(files, d)
  {
    var fails := {CopyKey};
    CaptureWorks(files, CapturedPaths(d), fails);
    hide CaptureFiles;
    assert UndoWorks(fails);
    var after := Apply(files, d, fails);
    assert after.outcome == Aborted && d.site.chain in after.files;
  }

  lemma SecondTakeoverDisables(files: Files, d: Deployment)
    requires Distinct(d.site, d.takeover) && SecondTakeover(files, d)
    ensures
      var before := BeforeConfig(files, d);
      Provide(files, d, {WriteConfig}).ok && before.changed && d.takeover.value.backup in before.files
  {
    hide Surgery, AllowedSource, OnlyWhitespace;
    ProvideKeepsTakeover(files, d, {WriteConfig});
    var provided := Provide(files, d, {WriteConfig});
    assert provided == Provide(files, d, {});
    var t := d.takeover.value;
    assert t.source in provided.files && t.backup in provided.files && provided.files[t.source] == files[t.source];
  }

  lemma SecondTakeoverIsLost(files: Files, d: Deployment)
    requires Distinct(d.site, d.takeover) && SecondTakeover(files, d)
    ensures !AllOrNothing(files, d)
  {
    hide AllowedSource, CaptureFiles, RestoreFiles, Provide, Disable;
    var fails := {WriteConfig};
    SecondTakeoverDisables(files, d);
    var backup := FailedConfig(files, d);
    var t, before := d.takeover.value, BeforeConfig(files, d);
    var restored := RestoreFiles(before.files, backup, fails);
    assert ContentOf(restored, t.backup) == ContentOf(before.files, t.backup);
    var after := Apply(files, d, fails).files;
    assert after == RestoreTakeover(restored, t, fails).files;
    hide Apply;
    assert UndoWorks(fails) && t.backup !in after && t.backup in files;
  }

  /** A deployment is all or nothing exactly when no certificate comes with TLS off, none is copied
      from another directory, and the shared file was not taken over before with blocks of this domain
      left in it. */
  lemma AllOrNothingIff(files: Files, d: Deployment)
    requires Distinct(d.site, d.takeover)
    ensures AllOrNothing(files, d) <==> !StrayCertificate(files, d) && !StrayCopy(files, d) && !SecondTakeover(files, d)
  {
    hide Apply, StrayCertificate, StrayCopy, SecondTakeover, UndoWorks;
    if StrayCertificate(files, d) {
      StrayCertificateStays(files, d);
    } else if StrayCopy(files, d) {
      StrayCopyStays(files, d);
    } else if SecondTakeover(files, d) {
      SecondTakeoverIsLost(files, d);
    } else {
      forall fails | UndoWorks(fails) && Apply(files, d, fails).outcome == Aborted ensures Apply(files, d, fails).files == files {
        DeploymentKeepsFiles(files, d, fails);
      }
    }
  }

  // ----- What a deployment and a deletion achieve -----

  /** The shared file without the domain's blocks, or no file at all. */
  ghost function Remaining(original: string, domain: string): Option<string> {
    var removal := Surgery(original, domain);
    if removal.None? then Some(original)
    else if removal.value.removed == 0 then Some(original)
    else if OnlyWhitespace(removal.value.text) then None
    else Some(removal.value.text)
  }

  /** The file holds blocks of the domain, and a reading. */
  ghost predicate HasBlocks(original: string, domain: string) {
    Surgery(original, domain).Some? && Surgery(original, domain).value.removed > 0
  }

  /** A deployment that succeeds over a file it takes over for the first time leaves the new site, the
      shared file without the domain's blocks, and the original in the backup. */
  lemma FirstDeployment(files: Files, d: Deployment, fails: set<Step>)
    requires Distinct(d.site, d.takeover) && d.takeover.Some? && d.config.Some?
    requires d.takeover.value.source in files && d.takeover.value.backup !in files
    requires Apply(files, d, fails).outcome != Aborted
    ensures
      var after, t := Apply(files, d, fails).files, d.takeover.value;
      var original := files[t.source];
      && HasBlocks(original, d.site.domain)
      && ContentOf(after, d.site.managed) == d.config
      && ContentOf(after, t.source) == Remaining(original, d.site.domain)
      && ContentOf(after, t.backup) == Some(original)
      && SameBut(files, after, {d.site.managed, d.site.chain, d.site.key, t.source, t.backup})
  {
    hide Surgery, OnlyWhitespace, AllowedSource, CaptureFiles, Rollback;
    var provided := Provide(files, d, fails).files;
    ProvideKeepsTakeover(files, d, fails);
    assert SameBut(files, provided, {d.site.chain, d.site.key});
  }

  /** A deletion that succeeds gives the original back and leaves neither the site, unless that is where the original
      belongs, nor the backup. */
  lemma DeleteRestoresOriginal(files: Files, site: Site, t: Takeover, fails: set<Step>)
    requires Distinct(site, Some(t)) && t.backup in files
    requires Delete(files, site, Some(t), fails).outcome == Done
    ensures
      var after := Delete(files, site, Some(t), fails).files;
      && ContentOf(after, t.source) == Some(files[t.backup])
      && (t.source != site.managed ==> site.managed !in after) && t.backup !in after
      && SameBut(files, after, {site.managed, t.source, t.backup})
  {
    hide AllowedSource, CaptureFiles, RestoreFiles;
  }

  /** The round trip: a first takeover and then a deletion leave the shared file as it was, and
      neither the site nor a backup; of all other files only the certificate may have changed. */
  lemma TakeoverRoundTrip(files: Files, d: Deployment, fails: set<Step>, later: set<Step>)
    requires Distinct(d.site, d.takeover) && d.takeover.Some? && d.config.Some?
    requires d.takeover.value.source in files && d.takeover.value.backup !in files
    requires Apply(files, d, fails).outcome != Aborted
    requires Delete(Apply(files, d, fails).files, d.site, d.takeover, later).outcome == Done
    ensures
      var after := Delete(Apply(files, d, fails).files, d.site, d.takeover, later).files;
      && d.site.managed !in after && d.takeover.value.backup !in after
      && SameBut(files, after, {d.site.managed, d.site.chain, d.site.key})
  {
    hide Apply, Delete, Remaining, HasBlocks;
    var t, deployed := d.takeover.value, Apply(files, d, fails).files;
    FirstDeployment(files, d, fails);
    SourceIsNotManaged(files, d, fails);
    DeleteRestoresOriginal(deployed, d.site, t, later);
    var after := Delete(deployed, d.site, d.takeover, later).files;
    forall p | p !in {d.site.managed, d.site.chain, d.site.key} ensures ContentOf(files, p) == ContentOf(after, p) {
      if p != t.source && p != t.backup {
        assert ContentOf(files, p) == ContentOf(deployed, p);
      }
    }
  }

  lemma SourceIsNotManaged(files: Files, d: Deployment, fails: set<Step>)
    requires d.takeover.Some? && Apply(files, d, fails).outcome != Aborted
    ensures d.takeover.value.source != d.site.managed
  {
    hide Surgery, CaptureFiles, Rollback, Provide;
  }

  // ----- A deletion that fails -----

  /** The undo of a deletion works: the site is written back and the takeover done again. */
  ghost predicate RedoWorks(fails: set<Step>) {
    forall step | step in fails ::
      !step.RestoreFile? && step !in {InspectSource, CheckSource, InspectSaved, ReadSource, WriteBackup, InspectMode, RemoveSource, RewriteSource}
  }

  /** The backup is the original and the shared file is what is left of it without the domain. */
  ghost predicate TakenOverBy(files: Files, t: Takeover, domain: string) {
    && t.backup in files && HasBlocks(files[t.backup], domain)
    && ContentOf(files, t.source) == Remaining(files[t.backup], domain)
  }

  /** Whatever fails, a deletion whose validation or reload fails leaves every file as it was. */
  ghost predicate DeleteUndoes(files: Files, site: Site, takeover: Option<Takeover>) {
    forall fails | RedoWorks(fails) && Delete(files, site, takeover, fails).outcome == AbortedLate ::
      Delete(files, site, takeover, fails).files == files
  }

  /** Doing the takeover again, where it was undone. */
  lemma DisableAgain(files: Files, managed: Path, t: Takeover, domain: string, fails: set<Step>)
    requires RedoWorks(fails) && AllowedSource(t.source) && t.source != managed && t.source != t.backup
    requires t.source in files && t.backup !in files
    ensures
      var after, original := Disable(files, managed, t, domain, fails), files[t.source];
      if HasBlocks(original, domain) then
        && ContentOf(after.files, t.backup) == Some(original)
        && ContentOf(after.files, t.source) == Remaining(original, domain)
        && SameBut(files, after.files, {t.source, t.backup})
      else
        ContentOf(after.files, t.backup) == if DropBackup in fails then Some(original) else None
  {
    hide Surgery, OnlyWhitespace, AllowedSource;
  }

  lemma FailedDeletionForm(files: Files, site: Site, t: Takeover, fails: set<Step>)
    requires Distinct(site, Some(t)) && t.source != site.managed && RedoWorks(fails)
    requires Delete(files, site, Some(t), fails).outcome == AbortedLate
    ensures
      var after := Delete(files, site, Some(t), fails).files;
      if t.backup !in files then after == files
      else if HasBlocks(files[t.backup], site.domain) then
        && ContentOf(after, t.backup) == Some(files[t.backup])
        && ContentOf(after, t.source) == Remaining(files[t.backup], site.domain)
        && SameBut(files, after, {t.source, t.backup})
      else ContentOf(after, t.backup) == if DropBackup in fails then Some(files[t.backup]) else None
  {
    hide Surgery, OnlyWhitespace, AllowedSource, Remaining, HasBlocks, Disable;
    var removed := files - {site.managed};
    var restored := RestoreTakeover(removed, t, fails);
    var backup := CaptureFiles(files, [site.managed], fails).value;
    CapturedContents(files, [site.managed], fails);
    if t.backup in files {
      assert t.source in restored.files && t.backup !in restored.files && restored.files[t.source] == files[t.backup];
      assert SameBut(removed, restored.files, {t.source, t.backup});
      DisableAgain(restored.files, site.managed, t, site.domain, fails);
    }
    var again := if restored.changed then Disable(restored.files, site.managed, t, site.domain, fails).files else restored.files;
    hide CaptureFiles, RestoreTakeover;
    RestoreManaged(files, again, site, backup, fails);
    var after := RestoreFiles(again, backup, fails);
    if t.backup !in files {
      SameFiles(after, files);
    }
  }

  lemma RestoreManaged(files: Files, now: Files, site: Site, backup: seq<Backup>, fails: set<Step>)
    requires RestoreFile(site.managed) !in fails && backup == [Backup(site.managed, ContentOf(files, site.managed))]
    ensures
      var after := RestoreFiles(now, backup, fails);
      forall p :: ContentOf(after, p) == if p == site.managed then ContentOf(files, p) else ContentOf(now, p)
  {
    assert backup[1..] == [];
    assert RestoreFiles(now, backup, fails) == Put(now, site.managed, ContentOf(files, site.managed));
  }

  /** A deletion whose validation or reload fails leaves site, shared file and backup as they were
      exactly when there was no takeover to undo, or the backup is the original and the shared file,
      which is not the site's own, is that original with the domain's blocks removed. */
  lemma DeleteUndoesIff(files: Files, site: Site, t: Takeover)
    requires Distinct(site, Some(t))
    ensures DeleteUndoes(files, site, Some(t)) <==>
      || !AllowedSource(t.source) || t.backup !in files
      || (t.source != site.managed && TakenOverBy(files, t, site.domain))
  {
    hide AllowedSource, Delete, HasBlocks, Remaining, RedoWorks, TakenOverBy;
    if t.source == site.managed {
      DeleteUndoesOwnIff(files, site, t);
    } else {
      DeleteUndoesSharedIff(files, site, t);
    }
  }

  /** The original moves into the place of the site, and is overwritten when the site comes back: the backup is lost. */
  lemma FailedDeletionOfOwn(files: Files, site: Site, t: Takeover, fails: set<Step>)
    requires Distinct(site, Some(t)) && t.source == site.managed && RedoWorks(fails)
    requires Delete(files, site, Some(t), fails).outcome == AbortedLate
    ensures Delete(files, site, Some(t), fails).files == files - {t.backup}
  {
    hide AllowedSource;
    var removed := files - {site.managed};
    var restored := RestoreTakeover(removed, t, fails).files;
    var backup := CaptureFiles(files, [site.managed], fails).value;
    CapturedContents(files, [site.managed], fails);
    hide CaptureFiles;
    RestoreManaged(files, restored, site, backup, fails);
    SameFiles(RestoreFiles(restored, backup, fails), files - {t.backup});
  }

  lemma DeleteUndoesOwnIff(files: Files, site: Site, t: Takeover)
    requires Distinct(site, Some(t)) && t.source == site.managed
    ensures DeleteUndoes(files, site, Some(t)) <==> !AllowedSource(t.source) || t.backup !in files
  {
    hide AllowedSource, Delete, RedoWorks;
    if AllowedSource(t.source) && t.backup in files {
      TestFails(files, site, t);
      FailedDeletionOfOwn(files, site, t, {Test});
      assert t.backup !in files - {t.backup};
    } else {
      forall fails | RedoWorks(fails) && Delete(files, site, Some(t), fails).outcome == AbortedLate
        ensures Delete(files, site, Some(t), fails).files == files
      {
        if AllowedSource(t.source) {
          FailedDeletionOfOwn(files, site, t, fails);
          assert files - {t.backup} == files;
        } else {
          RefusedSourceAbortsEarly(files, site, t, fails);
        }
      }
    }
  }

  lemma DeleteUndoesSharedIff(files: Files, site: Site, t: Takeover)
    requires Distinct(site, Some(t)) && t.source != site.managed
    ensures DeleteUndoes(files, site, Some(t)) <==>
      !AllowedSource(t.source) || t.backup !in files || TakenOverBy(files, t, site.domain)
  {
    hide AllowedSource, Delete, HasBlocks, Remaining, RedoWorks;
    if !AllowedSource(t.source) {
      forall fails ensures Delete(files, site, Some(t), fails).outcome != AbortedLate {
        RefusedSourceAbortsEarly(files, site, t, fails);
      }
    } else if t.backup !in files || TakenOverBy(files, t, site.domain) {
      forall fails | RedoWorks(fails) && Delete(files, site, Some(t), fails).outcome == AbortedLate
        ensures Delete(files, site, Some(t), fails).files == files
      {
        FailedDeletionForm(files, site, t, fails);
        var after := Delete(files, site, Some(t), fails).files;
        if t.backup in files {
          forall p ensures ContentOf(after, p) == ContentOf(files, p) {
            if p != t.source && p != t.backup { assert ContentOf(files, p) == ContentOf(after, p); }
          }
          SameFiles(after, files);
        }
      }
    } else {
      var fails := {Test};
      TestFails(files, site, t);
      FailedDeletionForm(files, site, t, fails);
      assert ContentOf(files, t.backup) == Some(files[t.backup]);
    }
  }

  lemma RefusedSourceAbortsEarly(files: Files, site: Site, t: Takeover, fails: set<Step>)
    requires !AllowedSource(t.source)
    ensures Delete(files, site, Some(t), fails).outcome == Aborted
  {
    hide AllowedSource, CaptureFiles, RestoreFiles, Disable;
  }

  lemma TestFails(files: Files, site: Site, t: Takeover)
    requires AllowedSource(t.source)
    ensures RedoWorks({Test}) && Delete(files, site, Some(t), {Test}).outcome == AbortedLate
  {
    CaptureWorks(files, [site.managed], {Test});
  }

  /** Without a takeover a deletion that fails, early or late, leaves every file as it was. */
  lemma PlainDeleteIsAllOrNothing(files: Files, site: Site, fails: set<Step>)
    requires forall p :: RestoreFile(p) !in fails
    ensures
      var after := Delete(files, site, None, fails);
      after.files == if after.outcome == Done then files - {site.managed} else files
  {
    if CaptureFiles(files, [site.managed], fails).Some? {
      CapturedContents(files, [site.managed], fails);
      RestoreManaged(files, files - {site.managed}, site, CaptureFiles(files, [site.managed], fails).value, fails);
      SameFiles(RestoreFiles(files - {site.managed}, CaptureFiles(files, [site.managed], fails).value, fails), files);
    }
  }

  /** Whatever fails, a deletion that fails before its validation leaves every file as it was. */
  ghost predicate EarlyDeleteUndoes(files: Files, site: Site, t: Takeover) {
    forall fails | (forall p :: RestoreFile(p) !in fails) && Delete(files, site, Some(t), fails).outcome == Aborted ::
      Delete(files, site, Some(t), fails).files == files
  }

  /** Where the takeover cannot be undone, files stay, but for an original that is back while its backup
      could not be removed. */
  lemma FailedRestoreTouches(files: Files, t: Takeover, fails: set<Step>)
    requires t.source != t.backup && !RestoreTakeover(files, t, fails).ok
    ensures
      var after := RestoreTakeover(files, t, fails).files;
      after == files || (t.backup in files && t.source in files && AllowedSource(t.source) && after == files[t.source := files[t.backup]])
  {
    hide AllowedSource;
  }

  /** There is a shared file in the place where the original belongs. */
  predicate Overwrites(files: Files, site: Site, t: Takeover) {
    t.source != site.managed && AllowedSource(t.source) && t.backup in files && t.source in files
  }

  lemma EarlyDeletionForm(files: Files, site: Site, t: Takeover, fails: set<Step>)
    requires Distinct(site, Some(t)) && forall p :: RestoreFile(p) !in fails
    requires Delete(files, site, Some(t), fails).outcome == Aborted
    ensures
      var after := Delete(files, site, Some(t), fails).files;
      after == files || (Overwrites(files, site, t) && after == files[t.source := files[t.backup]])
  {
    hide AllowedSource, RestoreTakeover, Disable;
    if CaptureFiles(files, [site.managed], fails).Some? && RemoveManaged !in fails {
      var backup := CaptureFiles(files, [site.managed], fails).value;
      CapturedContents(files, [site.managed], fails);
      var removed := files - {site.managed};
      FailedRestoreTouches(removed, t, fails);
      var restored := RestoreTakeover(removed, t, fails).files;
      RestoreManaged(files, restored, site, backup, fails);
      var after := RestoreFiles(restored, backup, fails);
      if restored == removed {
        SameFiles(after, files);
      } else {
        SameFiles(after, files[t.source := files[t.backup]]);
      }
    }
  }

  lemma StuckBackup(files: Files, site: Site, t: Takeover)
    requires Distinct(site, Some(t)) && Overwrites(files, site, t)
    ensures
      var after := Delete(files, site, Some(t), {RemoveBackup});
      after.outcome == Aborted && ContentOf(after.files, t.source) == Some(files[t.backup])
  {
    hide AllowedSource, Disable;
    var fails := {RemoveBackup};
    CaptureWorks(files, [site.managed], fails);
    CapturedContents(files, [site.managed], fails);
    var restored := (files - {site.managed})[t.source := files[t.backup]];
    RestoreManaged(files, restored, site, CaptureFiles(files, [site.managed], fails).value, fails);
  }

  /** A deletion that fails before its validation leaves every file as it was exactly when it would not
      overwrite a shared file with a different original: the original may be back while its backup stays. */
  lemma EarlyDeleteUndoesIff(files: Files, site: Site, t: Takeover)
    requires Distinct(site, Some(t))
    ensures EarlyDeleteUndoes(files, site, t) <==> !(Overwrites(files, site, t) && files[t.source] != files[t.backup])
  {
    hide AllowedSource, Delete;
    if Overwrites(files, site, t) && files[t.source] != files[t.backup] {
      StuckBackup(files, site, t);
    } else {
      forall fails | (forall p :: RestoreFile(p) !in fails) && Delete(files, site, Some(t), fails).outcome == Aborted
        ensures Delete(files, site, Some(t), fails).files == files
      {
        EarlyDeletionForm(files, site, t, fails);
        if t.source in files && t.backup in files && files[t.source] == files[t.backup] {
          assert files[t.source := files[t.backup]] == files;
        }
      }
    }
  }
}
