/** What a deployment, a deletion and a certificate sync leave behind when they succeed, and when they do. */
module Deployments {
  import opened Model
  import opened Text
  import opened ServerBlocks
  import opened FileTransactions

  // ----- A deployment that is not aborted -----

  /** Where the deployed certificate comes from: the bundle, a certificate of another directory, or nowhere. */
  ghost predicate HoldsCertificate(files: Files, after: Files, d: Deployment) {
    if d.bundle.Some? then
      && d.bundle.value.valid
      && ContentOf(after, d.site.chain) == Some(d.bundle.value.chain)
      && ContentOf(after, d.site.key) == Some(d.bundle.value.key)
    else if d.tls && !d.local.same then
      && d.useLocal && d.local.valid && d.site.chain !in files && d.site.key !in files
      && d.local.chain in files && ContentOf(after, d.site.chain) == Some(files[d.local.chain])
      && d.local.key in files && ContentOf(after, d.site.key) == Some(files[d.local.key])
    else
      && (d.tls ==> d.useLocal && d.local.valid && d.local.chain in files && d.local.key in files)
      && ContentOf(after, d.site.chain) == ContentOf(files, d.site.chain)
      && ContentOf(after, d.site.key) == ContentOf(files, d.site.key)
  }

  /** The shared file has lost the domain's blocks, and its first contents are in the backup. */
  ghost predicate GaveWay(files: Files, after: Files, t: Takeover, domain: string) {
    if t.source !in files then
      && t.backup in files && t.source !in after && ContentOf(after, t.backup) == Some(files[t.backup])
    else
      && ContentOf(after, t.source) == Remaining(files[t.source], domain)
      && ContentOf(after, t.backup) == Some(if t.backup in files then files[t.backup] else files[t.source])
      && (t.backup !in files ==> HasBlocks(files[t.source], domain))
  }

  /** The paths that a deployment may write. */
  function WrittenPaths(d: Deployment): set<Path> {
    {d.site.managed, d.site.chain, d.site.key}
    + if d.takeover.Some? then {d.takeover.value.source, d.takeover.value.backup} else {}
  }

  lemma ProvidedCertificate(files: Files, d: Deployment, fails: set<Step>)
    requires Distinct(d.site, d.takeover) && Provide(files, d, fails).ok
    ensures HoldsCertificate(files, Provide(files, d, fails).files, d)
    ensures SameBut(files, Provide(files, d, fails).files, {d.site.chain, d.site.key})
  {
  }

  lemma Gives(files: Files, managed: Path, t: Takeover, domain: string, fails: set<Step>)
    requires t.source != t.backup && Disable(files, managed, t, domain, fails).ok
    ensures
      var after := Disable(files, managed, t, domain, fails).files;
      && GaveWay(files, after, t, domain) && SameBut(files, after, {t.source, t.backup})
      && AllowedSource(t.source) && t.source != managed
  {
    hide Surgery, OnlyWhitespace, AllowedSource;
  }

  /** A deployment that is not aborted leaves the new site, its certificate and the shared file as they should be, and
      every other file as it was: with or without a takeover, the first or a repeated one. */
  lemma DeploymentOutcome(files: Files, d: Deployment, fails: set<Step>)
    requires Distinct(d.site, d.takeover) && Apply(files, d, fails).outcome != Aborted
    ensures
      var after := Apply(files, d, fails).files;
      && d.config.Some? && ContentOf(after, d.site.managed) == d.config
      && HoldsCertificate(files, after, d)
      && (d.takeover.Some? ==>
            && AllowedSource(d.takeover.value.source) && d.takeover.value.source != d.site.managed
            && GaveWay(files, after, d.takeover.value, d.site.domain))
      && SameBut(files, after, WrittenPaths(d))
  {
    hide Surgery, OnlyWhitespace, AllowedSource, CaptureFiles, Rollback, Provide, Disable, Remaining, HasBlocks;
    var provided := Provide(files, d, fails).files;
    ProvidedCertificate(files, d, fails);
    if d.takeover.Some? {
      Gives(provided, d.site.managed, d.takeover.value, d.site.domain, fails);
    }
    AfterTakeover(files, d, fails, provided);
  }

  /** The site is written last. */
  lemma AfterTakeover(files: Files, d: Deployment, fails: set<Step>, provided: Files)
    requires Distinct(d.site, d.takeover) && Apply(files, d, fails).outcome != Aborted
    requires provided == Provide(files, d, fails).files && HoldsCertificate(files, provided, d)
    requires SameBut(files, provided, {d.site.chain, d.site.key})
    requires d.takeover.Some? ==>
      var t, after := d.takeover.value, Disable(provided, d.site.managed, d.takeover.value, d.site.domain, fails).files;
      GaveWay(provided, after, t, d.site.domain) && SameBut(provided, after, {t.source, t.backup})
          && t.source != d.site.managed
    ensures
      var after := Apply(files, d, fails).files;
      && d.config.Some? && ContentOf(after, d.site.managed) == d.config
      && HoldsCertificate(files, after, d)
      && (d.takeover.Some? ==> GaveWay(files, after, d.takeover.value, d.site.domain))
      && SameBut(files, after, WrittenPaths(d))
  {
    hide Surgery, OnlyWhitespace, AllowedSource, CaptureFiles, Rollback, Provide, Disable, Remaining, HasBlocks;
    var before := if d.takeover.None? then provided
                  else Disable(provided, d.site.managed, d.takeover.value, d.site.domain, fails).files;
    var after := Apply(files, d, fails).files;
    assert after == before[d.site.managed := d.config.value];
    hide Apply;
    forall p | p !in WrittenPaths(d) ensures ContentOf(files, p) == ContentOf(after, p) {
      assert ContentOf(files, p) == ContentOf(provided, p) == ContentOf(before, p);
    }
    if d.takeover.Some? {
      var t := d.takeover.value;
      assert ContentOf(files, t.source) == ContentOf(provided, t.source);
      assert ContentOf(files, t.backup) == ContentOf(provided, t.backup);
    }
  }

  // ----- A takeover that fails -----

  /** A takeover that fails reports no change, whatever fails in it, even the removal of its own backup. */
  lemma FailedTakeoverReportsNoChange(files: Files, managed: Path, t: Takeover, domain: string, fails: set<Step>)
    ensures !Disable(files, managed, t, domain, fails).ok ==> !Disable(files, managed, t, domain, fails).changed
  {
    hide Surgery, OnlyWhitespace, AllowedSource;
  }

  /** Giving the original back reports a change exactly if it succeeds and there was a backup. */
  lemma RestoringReportsChange(files: Files, t: Takeover, fails: set<Step>)
    ensures RestoreTakeover(files, t, fails).changed <==> RestoreTakeover(files, t, fails).ok && t.backup in files
  {
    hide AllowedSource;
  }

  /** So a deployment whose takeover fails leaves every file as it was, even where the shared file had been taken over
      before: the first backup stays. */
  lemma FailedTakeoverKeepsFiles(files: Files, d: Deployment, fails: set<Step>)
    requires UndoWorks(fails) && Distinct(d.site, d.takeover) && d.config.Some? && d.takeover.Some?
    requires !StrayCertificate(files, d) && Provide(files, d, fails).ok && CaptureFiles(files, CapturedPaths(d), fails).Some?
    requires !Disable(Provide(files, d, fails).files, d.site.managed, d.takeover.value, d.site.domain, fails).ok
    ensures Apply(files, d, fails).outcome == Aborted && Apply(files, d, fails).files == files
  {
    hide Surgery, OnlyWhitespace, AllowedSource, CaptureFiles, Provide, RestoreFiles, RestoreTakeover, StrayCertificate;
    var provided, t := Provide(files, d, fails).files, d.takeover.value;
    var after := Disable(provided, d.site.managed, t, d.site.domain, fails);
    FailedTakeoverReportsNoChange(provided, d.site.managed, t, d.site.domain, fails);
    FailedTakeoverTouchesNothing(provided, d.site.managed, t, d.site.domain, fails);
    hide Disable;
    ProvideTouches(files, d, fails);
    assert (set p | p in CapturedPaths(d)) == {d.site.managed} + if d.tls then {d.site.chain, d.site.key} else {};
    RollbackUndoes(files, provided, CapturedPaths(d), fails);
  }

  lemma FailedTakeoverTouchesNothing(files: Files, managed: Path, t: Takeover, domain: string, fails: set<Step>)
    requires UndoWorks(fails) && t.source != t.backup && !Disable(files, managed, t, domain, fails).ok
    ensures Disable(files, managed, t, domain, fails).files == files
  {
    hide Surgery, OnlyWhitespace, AllowedSource;
    if t.backup !in files && t.source in files {
      assert files[t.backup := files[t.source]] - {t.backup} == files;
    }
  }

  // ----- When a deployment succeeds -----

  /** The certificate of the deployment is to be had. */
  predicate CertificateAtHand(files: Files, d: Deployment) {
    if d.bundle.Some? then d.bundle.value.valid
    else d.tls ==>
      && d.useLocal && d.local.valid && d.local.chain in files && d.local.key in files
      && (d.local.same || (d.site.chain !in files && d.site.key !in files))
  }

  /** The shared file may be taken over, and can be: it holds blocks of the domain, or has been taken over before. */
  ghost predicate CanGiveWay(files: Files, managed: Path, t: Takeover, domain: string) {
    && AllowedSource(t.source) && t.source != managed
    && (if t.source !in files then t.backup in files
        else if t.backup in files then Surgery(files[t.source], domain).Some? else HasBlocks(files[t.source], domain))
  }

  function CertificateSteps(d: Deployment): set<Step> {
    if d.bundle.Some? then {WriteChain, WriteKey}
    else if !d.tls then {}
    else {ReadLocal} + if d.local.same then {} else {CopyChain, CopyKey, VerifyLocal}
  }

  ghost function TakeoverSteps(files: Files, t: Takeover, domain: string): set<Step> {
    if t.source !in files then {InspectSource, InspectSaved}
    else
      {InspectSource, CheckSource, InspectSaved, ReadSource}
      + (if t.backup in files then {} else {WriteBackup})
      + (if !HasBlocks(files[t.source], domain) then {}
         else if Remaining(files[t.source], domain).None? then {RemoveSource} else {InspectMode, RewriteSource})
  }

  ghost function DeploymentSteps(files: Files, d: Deployment): set<Step> {
    (set p | p in CapturedPaths(d) :: Capture(p)) + CertificateSteps(d)
    + (if d.takeover.Some? then TakeoverSteps(files, d.takeover.value, d.site.domain) else {})
    + {WriteConfig, Test, Reload}
  }

  lemma {:induction false} CapturesIff(files: Files, paths: seq<Path>, fails: set<Step>)
    ensures CaptureFiles(files, paths, fails).Some? <==> forall p | p in paths :: Capture(p) !in fails
  {
    if paths != [] { CapturesIff(files, paths[1..], fails); }
  }

  lemma ProvidesIff(files: Files, d: Deployment, fails: set<Step>)
    requires Distinct(d.site, d.takeover)
    ensures Provide(files, d, fails).ok <==> CertificateAtHand(files, d) && CertificateSteps(d) !! fails
  {
  }

  lemma DisablesIff(files: Files, managed: Path, t: Takeover, domain: string, fails: set<Step>)
    requires t.source != t.backup
    ensures Disable(files, managed, t, domain, fails).ok <==>
      CanGiveWay(files, managed, t, domain) && TakeoverSteps(files, t, domain) !! fails
  {
    hide Surgery, OnlyWhitespace, AllowedSource;
  }

  /** A deployment succeeds, up to the final capture stage, exactly if its configuration can be rendered, its certificate
      is at hand, the shared file can give way, and none of the steps that it then takes fails; the capture stage can
      fail only where a certificate is to be captured. */
  lemma DeploymentSucceedsIff(files: Files, d: Deployment, fails: set<Step>)
    requires Distinct(d.site, d.takeover)
    ensures Apply(files, d, fails).outcome != Aborted <==>
      && d.config.Some? && CertificateAtHand(files, d)
      && (d.takeover.Some? ==> CanGiveWay(files, d.site.managed, d.takeover.value, d.site.domain))
      && DeploymentSteps(files, d) !! fails
    ensures Apply(files, d, fails).outcome != Aborted ==>
      (Apply(files, d, fails).outcome == Done <==> !(d.capture && d.tls && ReadBack in fails))
  {
    hide Surgery, OnlyWhitespace, AllowedSource, CaptureFiles, Rollback, Provide, Disable, CertificateAtHand,
        CertificateSteps,
      CanGiveWay, TakeoverSteps, CapturedPaths;
    CapturesIff(files, CapturedPaths(d), fails);
    ProvidesIff(files, d, fails);
    if d.config.Some? && Provide(files, d, fails).ok {
      ProvidedCertificate(files, d, fails);
      if d.takeover.Some? {
        var t, provided := d.takeover.value, Provide(files, d, fails).files;
        DisablesIff(provided, d.site.managed, t, d.site.domain, fails);
        SameTakeover(files, provided, d.site.managed, t, d.site.domain);
      }
    }
    StepsFail(files, d, fails);
  }

  lemma SameTakeover(files: Files, provided: Files, managed: Path, t: Takeover, domain: string)
    requires ContentOf(files, t.source) == ContentOf(provided, t.source)
    requires ContentOf(files, t.backup) == ContentOf(provided, t.backup)
    ensures CanGiveWay(files, managed, t, domain) <==> CanGiveWay(provided, managed, t, domain)
    ensures TakeoverSteps(files, t, domain) == TakeoverSteps(provided, t, domain)
  {
    hide AllowedSource, Surgery, Remaining, HasBlocks;
  }

  lemma StepsFail(files: Files, d: Deployment, fails: set<Step>)
    ensures DeploymentSteps(files, d) !! fails <==>
      && (forall p | p in CapturedPaths(d) :: Capture(p) !in fails) && CertificateSteps(d) !! fails
      && (d.takeover.Some? ==> TakeoverSteps(files, d.takeover.value, d.site.domain) !! fails)
      && WriteConfig !in fails && Test !in fails && Reload !in fails
  {
    hide CapturedPaths, CertificateSteps, TakeoverSteps;
    var captures := set p | p in CapturedPaths(d) :: Capture(p);
    assert captures !! fails <==> forall p | p in CapturedPaths(d) :: Capture(p) !in fails by {
      assert forall p | p in CapturedPaths(d) :: Capture(p) in captures;
    }
    var last := {WriteConfig, Test, Reload};
    assert last !! fails <==> WriteConfig !in fails && Test !in fails && Reload !in fails by {
      assert WriteConfig in last && Test in last && Reload in last;
    }
  }

  /** The two directories of which a shared file may be taken over. */
  lemma AllowedSourceIff(path: Path)
    ensures AllowedSource(path) <==>
      exists name :: path == "/etc/nginx/conf.d/" + name || path == "/etc/nginx/sites-enabled/" + name
  {
    if HasPrefix(path, "/etc/nginx/conf.d/") {
      assert path == "/etc/nginx/conf.d/" + path[18..];
    } else if HasPrefix(path, "/etc/nginx/sites-enabled/") {
      assert path == "/etc/nginx/sites-enabled/" + path[25..];
    }
  }

  /** The steps of a deletion. */
  function DeletionSteps(files: Files, site: Site, takeover: Option<Takeover>): set<Step> {
    {Capture(site.managed), RemoveManaged, Test, Reload}
    + (if takeover.None? then {}
       else if takeover.value.backup !in files then {InspectBackup}
       else if takeover.value.source in files && takeover.value.source != site.managed
       then {InspectBackup, ReadBackup, CheckOccupied, RestoreSource, RemoveBackup}
       else {InspectBackup, ReadBackup, MoveBack})
  }

  /** A deletion succeeds exactly if the path of its takeover is allowed and none of its steps fails. */
  lemma DeletionSucceedsIff(files: Files, site: Site, takeover: Option<Takeover>, fails: set<Step>)
    requires Distinct(site, takeover)
    ensures Delete(files, site, takeover, fails).outcome == Done <==>
      (takeover.Some? ==> AllowedSource(takeover.value.source)) && DeletionSteps(files, site, takeover) !! fails
  {
    hide AllowedSource, RestoreFiles, Disable, CaptureFiles;
    CapturesIff(files, [site.managed], fails);
  }

  /** A deletion with nothing to give back removes the site alone. */
  lemma DeletionWithoutBackup(files: Files, site: Site, t: Takeover, fails: set<Step>)
    requires t.backup !in files && Delete(files, site, Some(t), fails).outcome == Done
    ensures Delete(files, site, Some(t), fails).files == files - {site.managed}
  {
    hide AllowedSource, RestoreFiles, CaptureFiles;
  }

  /** A sync succeeds exactly for a valid certificate and if none of its steps fails. */
  lemma SyncSucceedsIff(files: Files, site: Site, bundle: Bundle, reload: bool, fails: set<Step>)
    ensures Sync(files, site, bundle, reload, fails).outcome == Done <==>
      && bundle.valid
      && {Capture(site.chain), Capture(site.key), WriteChain, WriteKey} + (if reload then {Test, Reload} else {}) !! fails
  {
    hide CaptureFiles, RestoreFiles;
    CapturesIff(files, [site.chain, site.key], fails);
  }
}
