/** How a call ends: what it takes to get as far as the service, and what service, symlink and record are on each exit
    from there on. */
module SensorOutcome {
  import opened Tables
  import opened Schema
  import opened Archive
  import opened ArchiveLayout
  import opened NetworkAgents
  import opened Sensor
  import opened SensorSafety
  import opened SensorFolders
  import opened Text
  import L = ObjectLocation

  // ----- Getting as far as the service ----------------------------------------------

  /** The download lies complete in the scratch folder, and is what the manifest announced. */
  predicate Fetched(disk: Disk, cfg: Config, call: Call, f: Faults) {
    && PlainName(L.AfterLastSlash(call.url)) && CanCreate(disk, ScratchPath(cfg, call)) && f.write.Written?
    && !f.hash && Sha256(call.content) == call.digest
  }

  lemma FetchedIff(disk: Disk, cfg: Config, call: Call, f: Faults)
    ensures var at := ScratchPath(cfg, call);
      && (Fetch(disk, at, call, f).1 <==> Fetched(disk, cfg, call, f))
      && (Fetched(disk, cfg, call, f) ==> Fetch(disk, at, call, f).0 == Write(disk, at, call.content))
  {
    hide CanCreate, PlainName, Write, Fetch;
    var at := ScratchPath(cfg, call);
    assert at[|at| - 1] == L.AfterLastSlash(call.url);
    FetchedAt(disk, at, call, f);
  }

  lemma FetchedAt(disk: Disk, at: Path, call: Call, f: Faults)
    requires at != []
    ensures Fetch(disk, at, call, f).1 <==>
      PlainName(at[|at| - 1]) && CanCreate(disk, at) && f.write.Written? && !f.hash
        && Sha256(call.content) == call.digest
    ensures Fetch(disk, at, call, f).1 ==> Fetch(disk, at, call, f).0 == Write(disk, at, call.content)
  {
    hide CanCreate, PlainName;
  }

  /** The folder in use, as far as the symlink tells. */
  predicate LeadsTo(s: State, f: Faults, active: Path) {
    !f.realPath && s.symlink == Some(active) && active in s.disk.dirs
  }

  /** The disk with the download unpacked in the folder out of use, and whether it could be laid out. */
  function UnpackedSoftware(cfg: Config, s: State, call: Call, f: Faults): (Disk, bool)
    requires s.symlink.Some?
  {
    var folder := FolderToDeploy(cfg, s.symlink.value);
    var cleaned := CleanSoftware(Write(s.disk, ScratchPath(cfg, call), call.content), folder, f).0;
    Extract(cleaned, folder, cfg.unpack(call.content), f.extract)
  }

  /** Exactly these things keep a call from stopping the service: a lock that is seen, a download that cannot be
      stored or is another, a symlink that leads to neither folder, a failed removal under bin, an archive that cannot
      be laid out. Whether the lock can be made, and what becomes of lib, do not matter. */
  lemma ReachesStopIff(cfg: Config, s: State, call: Call, f: Faults)
    ensures ReachesStop(cfg, s, call, f) <==>
      && (s.locked ==> f.lockStat) && Fetched(s.disk, cfg, call, f)
      && s.symlink.Some? && LeadsTo(s, f, s.symlink.value) && s.symlink.value != []
      && FolderToDeploy(cfg, s.symlink.value) != []
      && f.cleanBin.None? && UnpackedSoftware(cfg, s, call, f).1
  {
    hide Fetch, Fetched, Deploy, FolderToDeploy, CleanSoftware, Extract;
    FetchedIff(s.disk, cfg, call, f);
    var taken := TakeLock(s, f).0;
    var ready := taken.(disk := Write(s.disk, ScratchPath(cfg, call), call.content));
    DeploysIff(cfg, ready, call, f);
    FetchedIsPlain(s.disk, cfg, call, f);
  }

  lemma FetchedIsPlain(disk: Disk, cfg: Config, call: Call, f: Faults)
    ensures Fetched(disk, cfg, call, f) ==> L.AfterLastSlash(call.url) != ""
  {
    hide CanCreate;
  }

  lemma DeploysIff(cfg: Config, s: State, call: Call, f: Faults)
    ensures var (after, folder) := Deploy(cfg, s, call, f);
      && (folder.Some? <==>
            && s.symlink.Some? && LeadsTo(s, f, s.symlink.value) && s.symlink.value != []
            && FolderToDeploy(cfg, s.symlink.value) != [] && f.cleanBin.None?
            && Extract(CleanSoftware(s.disk, FolderToDeploy(cfg, s.symlink.value), f).0,
                 FolderToDeploy(cfg, s.symlink.value), cfg.unpack(call.content), f.extract).1)
  {
    hide Extract, FolderToDeploy, CleanFiles;
  }

  /** The disk of a call that gets as far as the service. */
  lemma StopDisk(cfg: Config, s: State, call: Call, f: Faults)
    requires ReachesStop(cfg, s, call, f)
    ensures s.symlink.Some?
    ensures var taken := TakeLock(s, f).0;
      var ready := taken.(disk := Fetch(s.disk, ScratchPath(cfg, call), call, f).0);
      Deploy(cfg, ready, call, f)
        == (taken.(disk := UnpackedSoftware(cfg, s, call, f).0), Some(FolderToDeploy(cfg, s.symlink.value)))
  {
    hide Fetch, Deploy, CleanSoftware, Extract, FolderToDeploy, CanCreate;
    var taken := TakeLock(s, f).0;
    var at := ScratchPath(cfg, call);
    FetchWrites(s.disk, at, call, f);
    var ready := taken.(disk := Fetch(s.disk, at, call, f).0);
    DeployedDisk(cfg, ready, call, f);
    DeployKeepsRest(cfg, ready, call, f);
    DeployUnpacksBut(cfg, ready, call, f, at);
  }

  // ----- The service after a software call ------------------------------------------

  /** The folder holds the configuration file, and it can be seen. */
  predicate ConfiguredIn(cfg: Config, disk: Disk, folder: Path, f: Faults) {
    !f.cfgStat && (folder + cfg.cfgFile in disk.files || folder + cfg.cfgFile in disk.dirs)
  }

  /** So it is with the folder just filled. */
  predicate Configured(cfg: Config, s: State, call: Call, f: Faults)
    requires s.symlink.Some?
  {
    ConfiguredIn(cfg, UnpackedSoftware(cfg, s, call, f).0, FolderToDeploy(cfg, s.symlink.value), f)
  }

  /** The symlink could be made anew. */
  predicate Flipped(f: Faults) {
    f.stop.Stopped? && !f.unlink && !f.link
  }

  /** The record can be read and its file opened for writing. */
  predicate Recordable(s: State, f: Faults) {
    !f.load && s.record.Readable? && !f.saveCreate
  }

  lemma SwitchService(cfg: Config, s: State, folder: Path, call: Call, f: Faults)
    requires s.symlink.Some?
    ensures var after := Switch(cfg, s, folder, call, f).0;
      && (f.stop.StillRunning? ==> after.running == s.running)
      && (!f.stop.StillRunning? ==>
            (after.running <==> Flipped(f) && ConfiguredIn(cfg, s.disk, folder, f) && !f.start.NotStarted?))
      && after.symlink
         == (if !f.stop.Stopped? || f.unlink then s.symlink else if f.link then None else Some(folder))
  {
  }

  lemma SwitchRecord(cfg: Config, s: State, folder: Path, call: Call, f: Faults)
    requires s.symlink.Some?
    ensures var (after, ok) := Switch(cfg, s, folder, call, f);
      var reached := Flipped(f) && (ConfiguredIn(cfg, s.disk, folder, f) ==> f.start.Started?) && Recordable(s, f);
      && (ok <==> reached && !f.saveWrite)
      && (reached && f.saveWrite ==> after.record == Unreadable)
      && (!reached ==> after.record == s.record)
  {
  }

  /** From the stop command on: the service runs again exactly when the symlink could be made anew, the folder it
      leads to is configured and the start did not leave it stopped. */
  lemma ServiceAfterSoftware(cfg: Config, s: State, call: Call, f: Faults)
    requires ReachesStop(cfg, s, call, f)
    ensures s.symlink.Some?
    ensures var (after, ok) := Software(cfg, s, call, f);
      && (f.stop.StillRunning? ==> after.running == s.running)
      && (!f.stop.StillRunning? ==>
            (after.running <==> Flipped(f) && Configured(cfg, s, call, f) && !f.start.NotStarted?))
      && after.symlink
         == (if !f.stop.Stopped? || f.unlink then s.symlink
             else if f.link then None
             else Some(FolderToDeploy(cfg, s.symlink.value)))
  {
    hide Software, InstallSoftware, Fetch, Deploy, DropScratch, UnpackedSoftware, FolderToDeploy, Switch, ConfiguredIn;
    StopDisk(cfg, s, call, f);
    CallIsInstall(cfg, s, call, f);
    var taken := TakeLock(s, f).0;
    InstallStages(cfg, taken, call, f);
    SwitchService(cfg, taken.(disk := UnpackedSoftware(cfg, s, call, f).0), FolderToDeploy(cfg, s.symlink.value),
      call, f);
  }

  /** SUCCESS leaves the service running if and only if the folder is configured: no call that succeeds leaves a
      configured sensor without its service, and none starts one that is not. */
  lemma SuccessRunsIff(cfg: Config, s: State, call: Call, f: Faults)
    requires Software(cfg, s, call, f).1
    ensures s.symlink.Some?
    ensures Software(cfg, s, call, f).0.running <==> Configured(cfg, s, call, f)
  {
    hide Software, ReachesStop, Configured;
    if !ReachesStop(cfg, s, call, f) || !f.stop.Stopped? {
      NothingBeforeStop(cfg, s, call, f);
    }
    ServiceAfterSoftware(cfg, s, call, f);
    SoftwareOutcome(cfg, s, call, f);
  }

  /** A call answers SUCCESS exactly when every step up to the written record works; the record is lost exactly when
      the very last write fails, and is otherwise as it was. */
  lemma SoftwareOutcome(cfg: Config, s: State, call: Call, f: Faults)
    requires ReachesStop(cfg, s, call, f)
    ensures s.symlink.Some?
    ensures var (after, ok) := Software(cfg, s, call, f);
      var reached := Flipped(f) && (Configured(cfg, s, call, f) ==> f.start.Started?) && Recordable(s, f);
      && (ok <==> reached && !f.saveWrite)
      && (reached && f.saveWrite ==> after.record == Unreadable)
      && (!reached ==> after.record == s.record)
  {
    hide Software, InstallSoftware, Fetch, Deploy, DropScratch, UnpackedSoftware, FolderToDeploy, Switch, ConfiguredIn;
    StopDisk(cfg, s, call, f);
    CallIsInstall(cfg, s, call, f);
    var taken := TakeLock(s, f).0;
    InstallStages(cfg, taken, call, f);
    SwitchRecord(cfg, taken.(disk := UnpackedSoftware(cfg, s, call, f).0), FolderToDeploy(cfg, s.symlink.value),
      call, f);
  }

  // ----- The service after a rules call ---------------------------------------------

  /** The folders that the glob of the rules cleaning matches are empty. */
  ghost predicate NothingBlocks(cfg: Config, disk: Disk, active: Path) {
    forall p, q | p in disk.dirs && p !in disk.files && Matched(GlobFolder(cfg, active), LastElement(cfg), ".rules", p)
      && (q in disk.dirs || q in disk.files) && Under(p, q) :: q == p
  }

  lemma BlockedIff(cfg: Config, disk: Disk, active: Path)
    ensures Blocked(disk, GlobFolder(cfg, active), LastElement(cfg), ".rules") == {} <==>
      NothingBlocks(cfg, disk, active)
  {
    hide Matched, GlobFolder, LastElement, Under;
    var dir, last := GlobFolder(cfg, active), LastElement(cfg);
    var blocked := Blocked(disk, dir, last, ".rules");
    forall p ensures p in blocked <==>
      p in disk.dirs && p !in disk.files && Matched(dir, last, ".rules", p) && !EmptyFolder(disk, p)
    {
    }
    if p :| p in blocked {
      assert !EmptyFolder(disk, p);
    }
  }

  /** The disk with the rules unpacked in the folder in use, and whether they could be laid out. */
  function UnpackedRules(cfg: Config, s: State, call: Call, f: Faults): (Disk, bool)
    requires s.symlink.Some?
  {
    var active := s.symlink.value;
    var cleaned := CleanRules(cfg, Write(s.disk, ScratchPath(cfg, call), call.content), active, f).0;
    Extract(cleaned, RulesDir(cfg, active), cfg.unpack(call.content), f.extract)
  }

  /** Nothing after the lock keeps the call from the restart command. */
  ghost predicate InstallReachesRestart(cfg: Config, s: State, call: Call, f: Faults) {
    && Fetched(s.disk, cfg, call, f)
    && s.symlink.Some? && LeadsTo(s, f, s.symlink.value)
    && f.cleanFiles.None? && NothingBlocks(cfg, Write(s.disk, ScratchPath(cfg, call), call.content), s.symlink.value)
    && UnpackedRules(cfg, s, call, f).1
  }

  /** The call gets as far as the restart command. */
  ghost predicate ReachesRestart(cfg: Config, s: State, call: Call, f: Faults) {
    (s.locked ==> f.lockStat) && InstallReachesRestart(cfg, s, call, f)
  }

  lemma RulesDeployIff(cfg: Config, s: State, call: Call, f: Faults)
    ensures DeployRules(cfg, s, call, f).1 <==>
      && s.symlink.Some? && LeadsTo(s, f, s.symlink.value)
      && f.cleanFiles.None? && NothingBlocks(cfg, s.disk, s.symlink.value)
      && Extract(CleanRules(cfg, s.disk, s.symlink.value, f).0, RulesDir(cfg, s.symlink.value),
        cfg.unpack(call.content), f.extract).1
  {
    hide Extract, RulesDir, NothingBlocks, GlobFolder, LastElement, Blocked, Cleaned;
    if s.symlink.Some? {
      BlockedIff(cfg, s.disk, s.symlink.value);
    }
  }

  /** A rules call ends before the restart with service and record as they were, or as the restart does. */
  lemma RulesStages(cfg: Config, s: State, call: Call, f: Faults)
    ensures var (after, ok) := Rules(cfg, s, call, f);
      if ReachesRestart(cfg, s, call, f) then
        var (done, recorded) := RestartAndRecord(s, call, f);
        ok == recorded && after.running == done.running && after.record == done.record
      else !ok && after.running == s.running && after.record == s.record
  {
    hide Fetched, InstallRules, ReachesRestart, RestartAndRecord, DropScratch;
    FetchedIsPlain(s.disk, cfg, call, f);
    var taken := TakeLock(s, f).0;
    ReachesIff(cfg, s, call, f);
    InstallReaches(cfg, taken, call, f);
    RestartIgnores(s, taken, call, f);
  }

  lemma ReachesIff(cfg: Config, s: State, call: Call, f: Faults)
    ensures ReachesRestart(cfg, s, call, f) <==>
      !TakeLock(s, f).1 && Fetched(s.disk, cfg, call, f) && InstallReachesRestart(cfg, TakeLock(s, f).0, call, f)
  {
    hide Fetched, NothingBlocks, CleanRules, Extract, RulesDir;
  }

  lemma InstallReaches(cfg: Config, s: State, call: Call, f: Faults)
    ensures var (after, ok) := InstallRules(cfg, s, call, f);
      if InstallReachesRestart(cfg, s, call, f) then
        var (done, recorded) := RestartAndRecord(s, call, f);
        ok == recorded && after.running == done.running && after.record == done.record
      else !ok && after.running == s.running && after.record == s.record
  {
    hide Fetch, Fetched, InstallRules, LeadsTo, DeployRules, RestartAndRecord, NothingBlocks, CleanRules, Extract,
      RulesDir;
    FetchedIff(s.disk, cfg, call, f);
    InstallRulesStages(cfg, s, call, f);
    var ready := s.(disk := Fetch(s.disk, ScratchPath(cfg, call), call, f).0);
    LeadsToSame(s, ready, f);
    RulesDeployIff(cfg, ready, call, f);
    DeployRulesKeepsRest(cfg, ready, call, f);
    RestartIgnores(s, DeployRules(cfg, ready, call, f).0, call, f);
    FetchKeepsDirs(s.disk, ScratchPath(cfg, call), call, f);
  }

  lemma LeadsToSame(a: State, b: State, f: Faults)
    ensures b.symlink == a.symlink && b.disk.dirs == a.disk.dirs ==>
      forall active :: LeadsTo(b, f, active) <==> LeadsTo(a, f, active)
  {
  }

  /** The restart looks neither at the disk nor at the lock. */
  lemma RestartIgnores(a: State, b: State, call: Call, f: Faults)
    ensures a.running == b.running && a.record == b.record ==>
      var (x, ok) := RestartAndRecord(a, call, f);
      var (y, done) := RestartAndRecord(b, call, f);
      ok == done && x.running == y.running && x.record == y.record
  {
  }

  /** SUCCESS, service and record of a rules call, on every exit and from every state of the service. */
  lemma RulesOutcome(cfg: Config, s: State, call: Call, f: Faults)
    ensures var (after, ok) := Rules(cfg, s, call, f);
      var restarted := ReachesRestart(cfg, s, call, f) && f.restart.Restarted?;
      var stopped := ReachesRestart(cfg, s, call, f) && f.restart.LeftStopped?;
      && (ok <==> restarted && Recordable(s, f) && !f.saveWrite)
      && (after.running <==> restarted || (s.running && !stopped))
      && (restarted && Recordable(s, f) && f.saveWrite ==> after.record == Unreadable)
      && (!(restarted && Recordable(s, f)) ==> after.record == s.record)
  {
    hide Rules, ReachesRestart;
    RulesStages(cfg, s, call, f);
  }

  /** With every step working, exactly these things refuse a rules update: a lock, a useless file name, a scratch file
      that cannot be made, a wrong digest, a symlink that leads to no folder, a folder with something in it that the
      glob matches, an archive that cannot be laid out, and an unreadable record. */
  lemma RulesSucceedIff(cfg: Config, s: State, call: Call)
    ensures var at := ScratchPath(cfg, call);
      Rules(cfg, s, call, NO_FAULTS).1 <==>
        && !s.locked && PlainName(L.AfterLastSlash(call.url)) && CanCreate(s.disk, at)
        && Sha256(call.content) == call.digest
        && s.symlink.Some? && s.symlink.value in s.disk.dirs
        && NothingBlocks(cfg, Write(s.disk, at, call.content), s.symlink.value)
        && Extract(CleanRules(cfg, Write(s.disk, at, call.content), s.symlink.value, NO_FAULTS).0,
          RulesDir(cfg, s.symlink.value), cfg.unpack(call.content), NoFault).1
        && s.record.Readable?
  {
    hide Rules, CanCreate, NothingBlocks, CleanRules, RulesDir, Extract;
    RulesOutcome(cfg, s, call, NO_FAULTS);
  }

  // ----- Folders and names ----------------------------------------------------------

  /** Nothing is ever stopped or switched unless the symlink leads to one of the two folders, whatever the case of its
      letters. */
  lemma OnlyThePair(cfg: Config, s: State, call: Call, f: Faults)
    requires ReachesStop(cfg, s, call, f)
    ensures s.symlink.Some? && (EqualFold(s.symlink.value, cfg.folderOne) || EqualFold(s.symlink.value, cfg.folderTwo))
  {
    hide ReachesStop, Fetched, UnpackedSoftware, EqualFold;
    ReachesStopIff(cfg, s, call, f);
  }

  /** However the letters of the folder in use are spelt, the other one of the pair is deployed to. */
  lemma SpeltOtherwise(cfg: Config, active: Path, spelt: Path)
    requires Layout(cfg) && OfThePair(cfg, active)
    requires |spelt| == |active| && forall i | 0 <= i < |active| :: Lower(spelt[i]) == Lower(active[i])
    ensures FolderToDeploy(cfg, spelt) == Other(cfg, active)
  {
  }

  /** The pattern dir/prefix*suffix matches the names that begin and end so, with anything between. */
  lemma MatchedIff(dir: Path, prefix: string, suffix: string, p: Path)
    ensures Matched(dir, prefix, suffix, p) <==> exists mid: string :: p == dir + [prefix + mid + suffix]
  {
    if Matched(dir, prefix, suffix, p) {
      var name := p[|dir|];
      var mid := name[|prefix|..|name| - |suffix|];
      assert name == prefix + mid + suffix;
      assert p == dir + [prefix + mid + suffix];
    }
    forall mid: string | p == dir + [prefix + mid + suffix] ensures Matched(dir, prefix, suffix, p) {
      assert p[|dir|] == prefix + mid + suffix;
      assert (prefix + mid + suffix)[..|prefix|] == prefix;
      assert (prefix + mid + suffix)[|prefix + mid|..] == suffix;
    }
  }

  /** The names agree before place i, and there the first ends or has the smaller character. */
  predicate SmallerAt(a: string, b: string, i: nat) {
    i <= |a| && i < |b| && a[..i] == b[..i] && (i < |a| ==> a[i] < b[i])
  }

  /** A glob lists names in the order of a dictionary. */
  lemma {:induction false} NameBeforeIff(a: string, b: string)
    ensures NameBefore(a, b) <==> exists i: nat :: SmallerAt(a, b, i)
    decreases |a|
  {
    if a == "" || b == "" {
      assert b != "" ==> SmallerAt(a, b, 0);
    } else if a[0] != b[0] {
      if a[0] < b[0] {
        assert SmallerAt(a, b, 0);
      }
      forall i: nat | SmallerAt(a, b, i) ensures a[0] < b[0] {
        assert i > 0 ==> a[..i][0] == b[..i][0];
      }
    } else {
      NameBeforeIff(a[1..], b[1..]);
      forall i: nat | SmallerAt(a[1..], b[1..], i) ensures SmallerAt(a, b, i + 1) {
        assert a[..i + 1] == [a[0]] + a[1..][..i] && b[..i + 1] == [b[0]] + b[1..][..i];
      }
      forall i: nat | SmallerAt(a, b, i) ensures i > 0 && SmallerAt(a[1..], b[1..], i - 1) {
        assert a[1..][..i - 1] == a[..i][1..] && b[1..][..i - 1] == b[..i][1..];
      }
    }
  }

  /** The rules folder is the setting, followed element by element from the folder in use. */
  lemma RulesDirIsSetting(cfg: Config, active: Path)
    ensures RulesDir(cfg, active) == Join(active, Parts(cfg.rulesFolder, '/'))
  {
    hide Parts, Join, Descend;
    var text, last := cfg.rulesFolder, LastElement(cfg);
    var front := text[..|text| - |last|];
    FollowedBy(active, front, last);
    assert front + last == text;
  }

  lemma JoinOne(dir: Path, e: string)
    ensures Join(dir, [e]) == Descend(dir, e)
  {
    hide Descend;
    assert [e][1..] == [];
  }

  lemma FollowedBy(dir: Path, front: string, last: string)
    requires '/' !in last && (front != "" ==> front[|front| - 1] == '/')
    ensures Descend(Join(dir, Parts(front, '/')), last) == Join(dir, Parts(front + last, '/'))
  {
    hide Parts, Join, Descend;
    PartsOfWhole(last, '/');
    PartsOfWhole("", '/');
    JoinOne(dir, last);
    if front == "" {
      assert front + last == last;
      JoinOne(dir, "");
      NothingAdded(dir);
    } else {
      var above := front[..|front| - 1];
      assert front == above + ['/'] + "" && front + last == above + ['/'] + last;
      PartsOfJoined(above, "", '/');
      PartsOfJoined(above, last, '/');
      var at := Join(dir, Parts(above, '/'));
      JoinTwice(dir, Parts(above, '/'), [""]);
      JoinTwice(dir, Parts(above, '/'), [last]);
      JoinOne(at, "");
      JoinOne(at, last);
      NothingAdded(at);
    }
  }

  lemma NothingAdded(dir: Path)
    ensures Descend(dir, "") == dir
  {
  }

  /** A call leaves a lock exactly when the lock cannot be removed and was there or has been made. */
  lemma LockAfter(cfg: Config, s: State, call: Call, f: Faults)
    ensures var left := f.lockRemove && (s.locked || (!f.lockStat && !f.lockCreate));
      Software(cfg, s, call, f).0.locked == left == Rules(cfg, s, call, f).0.locked
  {
    hide InstallSoftware, InstallRules, DropScratch;
    InstallKeepsLock(cfg, TakeLock(s, f).0, call, f);
  }

  lemma InstallKeepsLock(cfg: Config, s: State, call: Call, f: Faults)
    ensures InstallSoftware(cfg, s, call, f).0.locked == s.locked == InstallRules(cfg, s, call, f).0.locked
  {
    hide Fetch, Deploy, DeployRules, Switch, RestartAndRecord;
    InstallStages(cfg, s, call, f);
    InstallRulesStages(cfg, s, call, f);
    var ready := s.(disk := Fetch(s.disk, ScratchPath(cfg, call), call, f).0);
    DeployKeepsRest(cfg, ready, call, f);
    DeployRulesKeepsRest(cfg, ready, call, f);
    var (deployed, folder) := Deploy(cfg, ready, call, f);
    if folder.Some? {
      SwitchEffects(cfg, deployed, folder.value, call, f);
    }
    RestartEffects(DeployRules(cfg, ready, call, f).0, call, f);
  }
}
