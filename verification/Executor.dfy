/** The agent's executor as the object it is: operations that change files step by step, each proved
    to do what the function of the same transaction in FileTransactions says. */
module Executor {
  import opened Model
  import opened ServerBlocks
  import opened FileTransactions

  function Prepended(taken: seq<Backup>, rest: Option<seq<Backup>>): Option<seq<Backup>> {
    if rest.None? then None else Some(taken + rest.value)
  }

  lemma PrependedTwice(taken: seq<Backup>, backup: Backup, rest: Option<seq<Backup>>)
    ensures Prepended(taken, Prepended([backup], rest)) == Prepended(taken + [backup], rest)
  {
    if rest.Some? { assert taken + ([backup] + rest.value) == (taken + [backup]) + rest.value; }
  }

  class Executor {
    var files: Files

    constructor (initial: Files)
      ensures files == initial
    {
      files := initial;
    }

    method Capture(paths: seq<Path>, fails: set<Step>) returns (backups: Option<seq<Backup>>)
      ensures backups == CaptureFiles(files, paths, fails)
    {
      var taken: seq<Backup> := [];
      var i := 0;
      assert paths[0..] == paths;
      ghost var whole := CaptureFiles(files, paths, fails);
      assert whole.Some? ==> [] + whole.value == whole.value;
      while i < |paths|
        invariant 0 <= i <= |paths|
        invariant whole == Prepended(taken, CaptureFiles(files, paths[i..], fails))
      {
        var path := paths[i];
        assert paths[i..][1..] == paths[i + 1..];
        if Step.Capture(path) in fails {
          return None;
        }
        PrependedTwice(taken, Backup(path, ContentOf(files, path)), CaptureFiles(files, paths[i + 1..], fails));
        if path !in files {
          taken := taken + [Backup(path, None)];
        } else {
          taken := taken + [Backup(path, Some(files[path]))];
        }
        i := i + 1;
      }
      assert taken + [] == taken;
      return Some(taken);
    }

    method Restore(backups: seq<Backup>, fails: set<Step>)
      modifies this
      ensures files == RestoreFiles(old(files), backups, fails)
    {
      var i := 0;
      while i < |backups|
        invariant 0 <= i <= |backups|
        invariant RestoreFiles(files, backups[i..], fails) == RestoreFiles(old(files), backups, fails)
      {
        var backup := backups[i];
        assert backups[i..][1..] == backups[i + 1..];
        if RestoreFile(backup.path) !in fails {
          if backup.data.None? {
            files := files - {backup.path};
          } else {
            files := files[backup.path := backup.data.value];
          }
        }
        i := i + 1;
      }
    }

    method InstallCertificate(site: Site, bundle: Bundle, fails: set<Step>) returns (ok: bool)
      modifies this
      ensures Written(files, ok) == Install(old(files), site, bundle, fails)
    {
      if !bundle.valid {
        return false;
      }
      if WriteChain in fails {
        return false;
      }
      files := files[site.chain := bundle.chain];
      if WriteKey in fails {
        return false;
      }
      files := files[site.key := bundle.key];
      return true;
    }

    /** A copy is opened exclusively: it fails where the target exists. */
    method CopyRegularFile(source: Path, target: Path, step: Step, fails: set<Step>) returns (ok: bool)
      requires source in files
      modifies this
      ensures ok == (target !in old(files) && step !in fails)
      ensures files == if ok then old(files)[target := old(files)[source]] else old(files)
    {
      if target in files || step in fails {
        return false;
      }
      files := files[target := files[source]];
      return true;
    }

    method EnsureLocalCertificate(site: Site, local: Local, fails: set<Step>) returns (ok: bool)
      requires local.same || (local.chain != site.chain && local.key != site.chain)
      modifies this
      ensures Written(files, ok) == EnsureLocal(old(files), site, local, fails)
    {
      if local.chain !in files || local.key !in files || !local.valid || ReadLocal in fails {
        return false;
      }
      if local.same {
        return true;
      }
      ok := CopyRegularFile(local.chain, site.chain, CopyChain, fails);
      if !ok {
        return;
      }
      ok := CopyRegularFile(local.key, site.key, CopyKey, fails);
      if !ok {
        return;
      }
      return VerifyLocal !in fails;
    }

    // ----- Takeover -----

    method Blocks(content: string, domain: string) returns (removal: Option<Removal>)
      ensures removal == Surgery(content, domain)
    {
      removal := RemoveServerBlocksForDomain(content, domain);
      SurgeryIsTheResult(content, domain, removal);
    }

    method RewriteShared(t: Takeover, removal: Removal, fails: set<Step>) returns (changed: bool, ok: bool)
      modifies this
      ensures Disabled(files, changed, ok) == Rewrite(old(files), t, removal, fails)
    {
      if OnlyWhitespace(removal.text) {
        if RemoveSource in fails {
          return false, false;
        }
        files := files - {t.source};
        return true, true;
      }
      if InspectMode in fails || RewriteSource in fails {
        return false, false;
      }
      files := files[t.source := removal.text];
      return true, true;
    }

    method ReapplyTakeoverRemoval(t: Takeover, domain: string, fails: set<Step>) returns (changed: bool, ok: bool)
      requires t.source in files
      modifies this
      ensures Disabled(files, changed, ok) == Reapply(old(files), t, domain, fails)
    {
      hide Surgery, Rewrite;
      if ReadSource in fails {
        return false, false;
      }
      var removal := Blocks(files[t.source], domain);
      if removal.None? {
        return false, false;
      }
      if removal.value.removed == 0 {
        return false, true;
      }
      changed, ok := RewriteShared(t, removal.value, fails);
    }

    method DropTakeoverBackup(t: Takeover, fails: set<Step>)
      modifies this
      ensures files == Dropped(old(files), t, fails)
    {
      if DropBackup !in fails {
        files := files - {t.backup};
      }
    }

    method DisableTakeoverConfig(managed: Path, t: Takeover, domain: string, fails: set<Step>) returns (changed: bool, ok: bool)
      requires t.source != t.backup
      modifies this
      ensures Disabled(files, changed, ok) == Disable(old(files), managed, t, domain, fails)
    {
      hide Surgery, Reapply, Dropped, AllowedSource, OnlyWhitespace;
      if !AllowedSource(t.source) || t.source == managed || InspectSource in fails {
        return false, false;
      }
      if t.source !in files && t.backup in files && InspectSaved !in fails {
        return false, true;
      }
      if t.source !in files || CheckSource in fails {
        return false, false;
      }
      if InspectSaved in fails {
        return false, false;
      }
      if t.backup in files {
        changed, ok := ReapplyTakeoverRemoval(t, domain, fails);
        return;
      }
      if ReadSource in fails || WriteBackup in fails {
        return false, false;
      }
      var content := files[t.source];
      files := files[t.backup := content];
      var removal := Blocks(content, domain);
      if removal.None? || removal.value.removed == 0 {
        DropTakeoverBackup(t, fails);
        return false, false;
      }
      changed, ok := RewriteShared(t, removal.value, fails);
      if !ok {
        DropTakeoverBackup(t, fails);
      }
    }

    method RestoreTakeoverConfig(t: Takeover, fails: set<Step>) returns (changed: bool, ok: bool)
      modifies this
      ensures Disabled(files, changed, ok) == RestoreTakeover(old(files), t, fails)
    {
      hide AllowedSource;
      if !AllowedSource(t.source) || InspectBackup in fails {
        return false, false;
      }
      if t.backup !in files {
        return false, true;
      }
      if ReadBackup in fails {
        return false, false;
      }
      var content := files[t.backup];
      if t.source in files {
        if CheckOccupied in fails || RestoreSource in fails {
          return false, false;
        }
        files := files[t.source := content];
        if RemoveBackup in fails {
          return false, false;
        }
        files := files - {t.backup};
        return true, true;
      }
      if MoveBack in fails {
        return false, false;
      }
      files := files[t.source := content] - {t.backup};
      return true, true;
    }

    // ----- The transactions -----

    method SyncCertificate(site: Site, bundle: Bundle, reload: bool, fails: set<Step>) returns (outcome: Outcome)
      modifies this
      ensures Transacted(files, outcome) == Sync(old(files), site, bundle, reload, fails)
    {
      hide CaptureFiles, RestoreFiles, Install;
      var backup := Capture([site.chain, site.key], fails);
      if backup.None? {
        return Aborted;
      }
      var ok := InstallCertificate(site, bundle, fails);
      if !ok {
        Restore(backup.value, fails);
        return Aborted;
      }
      if !reload {
        return Done;
      }
      if Test in fails || Reload in fails {
        Restore(backup.value, fails);
        return Aborted;
      }
      return Done;
    }

    method RollBack(backup: seq<Backup>, d: Deployment, changed: bool, fails: set<Step>)
      modifies this
      ensures files == Rollback(old(files), backup, d, changed, fails)
    {
      hide RestoreFiles, RestoreTakeover;
      Restore(backup, fails);
      if changed && d.takeover.Some? {
        var _, _ := RestoreTakeoverConfig(d.takeover.value, fails);
      }
    }

    method ProvideCertificate(d: Deployment, fails: set<Step>) returns (ok: bool)
      requires d.local.same || (d.local.chain != d.site.chain && d.local.key != d.site.chain)
      modifies this
      ensures Written(files, ok) == Provide(old(files), d, fails)
    {
      hide Install, EnsureLocal;
      if d.bundle.Some? {
        ok := InstallCertificate(d.site, d.bundle.value, fails);
      } else if d.tls && d.useLocal {
        ok := EnsureLocalCertificate(d.site, d.local, fails);
      } else {
        ok := !d.tls;
      }
    }

    method ApplyDomain(d: Deployment, fails: set<Step>) returns (outcome: Outcome)
      requires d.takeover.Some? ==> d.takeover.value.source != d.takeover.value.backup
      requires d.local.same || (d.local.chain != d.site.chain && d.local.key != d.site.chain)
      modifies this
      ensures Transacted(files, outcome) == Apply(old(files), d, fails)
    {
      hide CaptureFiles, RestoreFiles, RestoreTakeover, Provide, Disable, Rollback;
      if d.config.None? {
        return Aborted;
      }
      var paths := [d.site.managed];
      if d.tls {
        paths := paths + [d.site.chain, d.site.key];
      }
      assert paths == CapturedPaths(d);
      var backup := Capture(paths, fails);
      if backup.None? {
        return Aborted;
      }
      var ok := ProvideCertificate(d, fails);
      if !ok {
        if d.bundle.Some? {
          RollBack(backup.value, d, false, fails);
        }
        return Aborted;
      }
      var changed := false;
      if d.takeover.Some? {
        changed, ok := DisableTakeoverConfig(d.site.managed, d.takeover.value, d.site.domain, fails);
        if !ok {
          RollBack(backup.value, d, changed, fails);
          return Aborted;
        }
      }
      if WriteConfig in fails {
        RollBack(backup.value, d, changed, fails);
        return Aborted;
      }
      files := files[d.site.managed := d.config.value];
      if Test in fails || Reload in fails {
        RollBack(backup.value, d, changed, fails);
        return Aborted;
      }
      if d.capture && d.tls && ReadBack in fails {
        return AbortedLate;
      }
      return Done;
    }

    method DeleteDomain(site: Site, takeover: Option<Takeover>, fails: set<Step>) returns (outcome: Outcome)
      requires takeover.Some? ==> takeover.value.source != takeover.value.backup
      modifies this
      ensures Transacted(files, outcome) == Delete(old(files), site, takeover, fails)
    {
      hide CaptureFiles, RestoreFiles, RestoreTakeover, Disable;
      var backup := Capture([site.managed], fails);
      if backup.None? || RemoveManaged in fails {
        return Aborted;
      }
      files := files - {site.managed};
      var restored := false;
      if takeover.Some? {
        var ok;
        restored, ok := RestoreTakeoverConfig(takeover.value, fails);
        if !ok {
          Restore(backup.value, fails);
          return Aborted;
        }
      }
      if Test in fails || Reload in fails {
        if restored {
          var _, _ := DisableTakeoverConfig(site.managed, takeover.value, site.domain, fails);
        }
        Restore(backup.value, fails);
        return AbortedLate;
      }
      return Done;
    }
  }
}
