/** What one call of the installer does and does not do, whichever of its steps fail. */
module SensorSafety {
  import opened Tables
  import opened Schema
  import opened Archive
  import opened NetworkAgents
  import opened Sensor
  import L = ObjectLocation

  // ----- Layout ---------------------------------------------------------------------

  predicate ApartFolders(a: Path, b: Path) {
    !Under(a, b) && !Under(b, a)
  }

  /** The two folders are apart, differ under case folding, and neither holds the scratch folder. */
  predicate Layout(cfg: Config) {
    && cfg.folderOne != [] && cfg.folderTwo != []
    && ApartFolders(cfg.folderOne, cfg.folderTwo) && !EqualFold(cfg.folderOne, cfg.folderTwo)
    && !Under(cfg.folderOne, cfg.scratch) && !Under(cfg.folderTwo, cfg.scratch)
  }

  predicate OfThePair(cfg: Config, folder: Path) {
    folder == cfg.folderOne || folder == cfg.folderTwo
  }

  function Other(cfg: Config, folder: Path): Path {
    if folder == cfg.folderOne then cfg.folderTwo else cfg.folderOne
  }

  lemma FoldReflexive(p: Path)
    ensures EqualFold(p, p)
  {
  }

  lemma FoldSymmetric(p: Path, q: Path)
    ensures EqualFold(p, q) ==> EqualFold(q, p)
  {
  }

  lemma DeploysToOther(cfg: Config, active: Path)
    requires Layout(cfg) && OfThePair(cfg, active)
    ensures FolderToDeploy(cfg, active) == Other(cfg, active) != [] && ApartFolders(active, Other(cfg, active))
    ensures ApartFolders(Other(cfg, active), active)
    ensures OfThePair(cfg, Other(cfg, active)) && Other(cfg, Other(cfg, active)) == active
  {
    FoldReflexive(active);
    FoldSymmetric(cfg.folderTwo, cfg.folderOne);
  }

  // ----- What each disk step leaves alone -------------------------------------------

  lemma SameUnderTrans(folder: Path, a: map<Path, Bytes>, b: map<Path, Bytes>, c: map<Path, Bytes>)
    requires SameUnder(folder, a, b) && SameUnder(folder, b, c)
    ensures SameUnder(folder, a, c)
  {
  }

  lemma ApartBelow(a: Path, b: Path, below: seq<string>)
    requires ApartFolders(a, b)
    ensures ApartFolders(a, b + below)
  {
  }

  lemma FetchLeaves(disk: Disk, at: Path, call: Call, f: Faults, folder: Path)
    requires at != [] && (Under(folder, at) ==> at in disk.dirs)
    ensures SameUnder(folder, disk.files, Fetch(disk, at, call, f).0.files)
    ensures Fetch(disk, at, call, f).0.dirs == disk.dirs
  {
  }

  lemma CleanFilesLeaves(disk: Disk, dir: Path, prefix: string, suffix: string, stops: Option<set<Path>>, folder: Path)
    requires ApartFolders(folder, dir)
    ensures SameUnder(folder, disk.files, CleanFiles(disk, dir, prefix, suffix, stops).0.files)
  {
    forall p | p in disk.files && Under(dir, p) ensures !Under(folder, p) {
      Apart(folder, dir, p);
    }
  }

  lemma RemoveAllLeaves(disk: Disk, dir: Path, stops: Option<set<Path>>, folder: Path)
    requires ApartFolders(folder, dir)
    ensures SameUnder(folder, disk.files, RemoveAll(disk, dir, stops).0.files)
  {
    forall p | p in disk.files && Under(dir, p) ensures !Under(folder, p) {
      Apart(folder, dir, p);
    }
  }

  lemma CleanSoftwareLeaves(disk: Disk, standby: Path, f: Faults, folder: Path)
    requires ApartFolders(folder, standby)
    ensures SameUnder(folder, disk.files, CleanSoftware(disk, standby, f).0.files)
  {
    ApartBelow(folder, standby, ["bin", "*"]);
    ApartBelow(folder, standby, ["lib"]);
    var after := RemoveAll(disk, standby + ["bin", "*"], f.cleanBin).0;
    RemoveAllLeaves(disk, standby + ["bin", "*"], f.cleanBin, folder);
    CleanFilesLeaves(after, standby + ["lib"], "lib", "", f.cleanFiles, folder);
    SameUnderTrans(folder, disk.files, after.files,
      CleanFiles(after, standby + ["lib"], "lib", "", f.cleanFiles).0.files);
  }

  lemma DropScratchLeaves(disk: Disk, at: Path, f: Faults, folder: Path)
    requires at != [] && (Under(folder, at) ==> at !in disk.files)
    ensures SameUnder(folder, disk.files, DropScratch(disk, at, f).files)
  {
  }

  /** Cleaned or not, unpacking into `standby` leaves the files of the folder alone. */
  predicate UnpackingKeeps(cfg: Config, disk: Disk, standby: Path, call: Call, f: Faults, folder: Path) {
    var (cleaned, ok) := CleanSoftware(disk, standby, f);
    ok ==> SameUnder(folder, cleaned.files, Extract(cleaned, standby, cfg.unpack(call.content), f.extract).0.files)
  }

  /** The deployment touches no file of a folder apart from its target that unpacking leaves alone. */
  lemma DeployLeaves(cfg: Config, s: State, call: Call, f: Faults, folder: Path)
    requires s.symlink.Some? ==> var standby := FolderToDeploy(cfg, s.symlink.value);
      standby != [] ==> ApartFolders(folder, standby) && UnpackingKeeps(cfg, s.disk, standby, call, f, folder)
    ensures SameUnder(folder, s.disk.files, Deploy(cfg, s, call, f).0.disk.files)
  {
    hide CleanSoftware, Extract, FolderToDeploy, ApartFolders;
    if s.symlink.Some? && FolderToDeploy(cfg, s.symlink.value) != [] {
      var standby := FolderToDeploy(cfg, s.symlink.value);
      var (cleaned, ok) := CleanSoftware(s.disk, standby, f);
      CleanSoftwareLeaves(s.disk, standby, f, folder);
      if ok {
        SameUnderTrans(folder, s.disk.files, cleaned.files,
                       Extract(cleaned, standby, cfg.unpack(call.content), f.extract).0.files);
      }
    }
  }

  lemma SwitchKeepsDisk(cfg: Config, s: State, folder: Path, call: Call, f: Faults)
    ensures Switch(cfg, s, folder, call, f).0.disk == s.disk
  {
  }

  lemma ScratchOutside(cfg: Config, call: Call, folder: Path)
    requires !Under(folder, cfg.scratch)
    ensures Under(folder, ScratchPath(cfg, call)) ==> ScratchPath(cfg, call) == folder
  {
  }

  // ----- A/B safety -----------------------------------------------------------------

  /** For every pattern of failures, on every exit, no file of the folder in use when the call begins is created,
      changed or removed, if unpacking the download into the other leaves it alone. */
  lemma ActiveFolderKept(cfg: Config, s: State, call: Call, f: Faults, active: Path)
    requires Layout(cfg) && s.disk.files.Keys !! s.disk.dirs
    requires s.symlink == Some(active) && OfThePair(cfg, active) && active in s.disk.dirs
    requires var (disk, fetched) := Fetch(s.disk, ScratchPath(cfg, call), call, f);
      fetched ==> UnpackingKeeps(cfg, disk, Other(cfg, active), call, f, active)
    ensures SameUnder(active, s.disk.files, Software(cfg, s, call, f).0.disk.files)
  {
    hide Layout, OfThePair, FolderToDeploy, InstallSoftware, Fetch, UnpackingKeeps, DropScratch, SameUnder, Other,
      Under, ApartFolders, EqualFold;
    LayoutKeepsScratchOut(cfg, active);
    ScratchOutside(cfg, call, active);
    var at, taken := ScratchPath(cfg, call), TakeLock(s, f).0;
    DeploysToOther(cfg, active);
    InstallLeaves(cfg, taken, call, f, active, Other(cfg, active));
    var after := InstallSoftware(cfg, taken, call, f).0;
    SameUnderSelf(active, s.disk.files);
    SameUnderAt(active, s.disk.files, after.disk.files);
    DropScratchLeaves(after.disk, at, f, active);
    SameUnderTrans(active, s.disk.files, after.disk.files, DropScratch(after.disk, at, f).files);
  }

  lemma InstallLeaves(cfg: Config, s: State, call: Call, f: Faults, active: Path, standby: Path)
    requires s.symlink == Some(active) && active in s.disk.dirs
    requires FolderToDeploy(cfg, active) == standby && ApartFolders(active, standby)
    requires Under(active, ScratchPath(cfg, call)) ==> ScratchPath(cfg, call) == active
    requires var (disk, fetched) := Fetch(s.disk, ScratchPath(cfg, call), call, f);
      fetched ==> UnpackingKeeps(cfg, disk, standby, call, f, active)
    ensures SameUnder(active, s.disk.files, InstallSoftware(cfg, s, call, f).0.disk.files)
  {
    hide InstallSoftware, FolderToDeploy, Fetch, Deploy, UnpackingKeeps, SameUnder, ApartFolders, Under, PlainName;
    var (disk, fetched) := Fetch(s.disk, ScratchPath(cfg, call), call, f);
    FetchLeaves(s.disk, ScratchPath(cfg, call), call, f, active);
    InstallDisk(cfg, s, call, f);
    if fetched {
      var ready := s.(disk := disk);
      DeployLeaves(cfg, ready, call, f, active);
      SameUnderTrans(active, s.disk.files, disk.files, Deploy(cfg, ready, call, f).0.disk.files);
    }
  }

  /** An install leaves the disk as fetching or deploying left it. */
  lemma InstallDisk(cfg: Config, s: State, call: Call, f: Faults)
    ensures var (disk, fetched) := Fetch(s.disk, ScratchPath(cfg, call), call, f);
      InstallSoftware(cfg, s, call, f).0.disk == if fetched then Deploy(cfg, s.(disk := disk), call, f).0.disk else disk
  {
    hide Fetch, Deploy, Switch;
    var (disk, fetched) := Fetch(s.disk, ScratchPath(cfg, call), call, f);
    var (deployed, folder) := Deploy(cfg, s.(disk := disk), call, f);
    if fetched && folder.Some? {
      SwitchKeepsDisk(cfg, deployed, folder.value, call, f);
    }
  }

  lemma LayoutKeepsScratchOut(cfg: Config, folder: Path)
    requires Layout(cfg) && OfThePair(cfg, folder)
    ensures !Under(folder, cfg.scratch)
  {
  }

  lemma SameUnderSelf(folder: Path, a: map<Path, Bytes>)
    ensures SameUnder(folder, a, a)
  {
  }

  lemma SameUnderAt(folder: Path, a: map<Path, Bytes>, b: map<Path, Bytes>)
    requires SameUnder(folder, a, b)
    ensures folder in b ==> folder in a
  {
  }

  /** In particular if no name in the archive leads there. */
  lemma ActiveFolderSafe(cfg: Config, s: State, call: Call, f: Faults, active: Path)
    requires Layout(cfg) && s.disk.files.Keys !! s.disk.dirs
    requires s.symlink == Some(active) && OfThePair(cfg, active) && active in s.disk.dirs
    requires NoneUnder(Other(cfg, active), cfg.unpack(call.content), active)
    ensures SameUnder(active, s.disk.files, Software(cfg, s, call, f).0.disk.files)
  {
    hide Software, Extract, CleanSoftware, Layout, NoneUnder, SameUnder;
    UnpackingKeepsFiles(cfg, Fetch(s.disk, ScratchPath(cfg, call), call, f).0, Other(cfg, active), call, f, active);
    ActiveFolderKept(cfg, s, call, f, active);
  }

  lemma UnpackingKeepsFiles(cfg: Config, disk: Disk, standby: Path, call: Call, f: Faults, folder: Path)
    requires NoneUnder(standby, cfg.unpack(call.content), folder)
    ensures UnpackingKeeps(cfg, disk, standby, call, f, folder)
  {
    hide CleanSoftware, Extract, NoneUnder;
    ExtractLeavesFolder(CleanSoftware(disk, standby, f).0, standby, cfg.unpack(call.content), f.extract, folder);
  }

  /** And so when every name stays inside the folder it is unpacked into. */
  lemma ContainedArchiveIsSafe(cfg: Config, s: State, call: Call, f: Faults, active: Path)
    requires Layout(cfg) && s.disk.files.Keys !! s.disk.dirs
    requires s.symlink == Some(active) && OfThePair(cfg, active) && active in s.disk.dirs
    requires forall e | e in cfg.unpack(call.content) && e.FileEntry? :: StaysInside(e.name, 0)
    ensures SameUnder(active, s.disk.files, Software(cfg, s, call, f).0.disk.files)
  {
    hide Software;
    DeploysToOther(cfg, active);
    InsideIsSafe(Other(cfg, active), cfg.unpack(call.content), active);
    ActiveFolderSafe(cfg, s, call, f, active);
  }

  // ----- Before the stop command ----------------------------------------------------

  /** The call gets as far as the stop command: not refused, downloaded, verified and unpacked. */
  predicate ReachesStop(cfg: Config, s: State, call: Call, f: Faults) {
    var (taken, refused) := TakeLock(s, f);
    !refused && L.AfterLastSlash(call.url) != "" && InstallReachesStop(cfg, taken, call, f)
  }

  predicate InstallReachesStop(cfg: Config, s: State, call: Call, f: Faults) {
    var (disk, fetched) := Fetch(s.disk, ScratchPath(cfg, call), call, f);
    fetched && Deploy(cfg, s.(disk := disk), call, f).1.Some?
  }

  /** Lock and scratch file aside, a call is an install, or a refusal. */
  lemma CallIsInstall(cfg: Config, s: State, call: Call, f: Faults)
    ensures var (after, ok) := Software(cfg, s, call, f);
      var (installed, done) := InstallSoftware(cfg, TakeLock(s, f).0, call, f);
      && (!f.lockRemove ==> !after.locked)
      && if Refused(s, f) || L.AfterLastSlash(call.url) == "" then
           !ok && after.record == s.record && after.symlink == s.symlink && after.running == s.running
         else
           ok == done && after.record == installed.record && after.symlink == installed.symlink
             && after.running == installed.running
           && after.disk == DropScratch(installed.disk, ScratchPath(cfg, call), f)
  {
    hide InstallSoftware, DropScratch;
  }

  lemma InstallBeforeStop(cfg: Config, s: State, call: Call, f: Faults)
    requires !InstallReachesStop(cfg, s, call, f) || !f.stop.Stopped?
    ensures var (after, ok) := InstallSoftware(cfg, s, call, f);
      !ok && after.symlink == s.symlink && after.record == s.record
      && after.running == (s.running && !(InstallReachesStop(cfg, s, call, f) && f.stop.StoppedWithError?))
  {
    hide InstallSoftware, Fetch, Deploy, Switch;
    InstallStages(cfg, s, call, f);
    var (disk, fetched) := Fetch(s.disk, ScratchPath(cfg, call), call, f);
    var (deployed, folder) := Deploy(cfg, s.(disk := disk), call, f);
    if fetched && folder.Some? {
      DeployKeepsRest(cfg, s.(disk := disk), call, f);
      StopFails(cfg, deployed, folder.value, call, f);
    }
  }

  lemma StopFails(cfg: Config, s: State, folder: Path, call: Call, f: Faults)
    requires !f.stop.Stopped?
    ensures Switch(cfg, s, folder, call, f) == (s.(running := s.running && f.stop.StillRunning?), false)
  {
  }

  /** An exit before the stop command leaves symlink, service and record unchanged; a stop that fails leaves symlink
      and record unchanged, and the service running or stopped. */
  lemma NothingBeforeStop(cfg: Config, s: State, call: Call, f: Faults)
    requires !ReachesStop(cfg, s, call, f) || !f.stop.Stopped?
    ensures var (after, ok) := Software(cfg, s, call, f);
      !ok && after.symlink == s.symlink && after.record == s.record
      && after.running == (s.running && !(ReachesStop(cfg, s, call, f) && f.stop.StoppedWithError?))
  {
    hide Software, InstallSoftware, InstallReachesStop, DropScratch;
    CallIsInstall(cfg, s, call, f);
    if !Refused(s, f) && L.AfterLastSlash(call.url) != "" {
      InstallBeforeStop(cfg, TakeLock(s, f).0, call, f);
    }
  }

  // ----- What SUCCESS means ---------------------------------------------------------

  /** Every path the archive names under the folder, but for the scratch file, holds its last entry's bytes. */
  ghost predicate Unpacked(disk: Disk, folder: Path, entries: seq<Entry>, but: Path) {
    forall i: nat, p | LastFor(folder, entries, i, p) && p != but ::
      p in disk.files && disk.files[p] == entries[i].content
  }

  lemma DeployUnpacks(cfg: Config, s: State, call: Call, f: Faults)
    requires Deploy(cfg, s, call, f).1.Some?
    ensures var (after, folder) := Deploy(cfg, s, call, f);
      && s.symlink.Some? && folder.value == FolderToDeploy(cfg, s.symlink.value)
      && (forall but :: Unpacked(after.disk, folder.value, cfg.unpack(call.content), but))
      && after == s.(disk := after.disk)
  {
    hide CleanSoftware, FolderToDeploy, Extract;
    var folder := FolderToDeploy(cfg, s.symlink.value);
    var cleaned := CleanSoftware(s.disk, folder, f).0;
    var entries := cfg.unpack(call.content);
    ExtractRefinesFold(cleaned, folder, entries, f.extract);
    forall i: nat, p | LastFor(folder, entries, i, p)
      ensures p in Overlay(cleaned.files, folder, entries)
        && Overlay(cleaned.files, folder, entries)[p] == entries[i].content
    {
      LastEntryWins(cleaned.files, folder, entries, p);
    }
  }

  lemma DropKeepsUnpacked(disk: Disk, folder: Path, entries: seq<Entry>, at: Path, f: Faults)
    requires at != [] && Unpacked(disk, folder, entries, at)
    ensures Unpacked(DropScratch(disk, at, f), folder, entries, at)
  {
  }

  lemma FetchVerifies(disk: Disk, at: Path, call: Call, f: Faults)
    requires at != [] && Fetch(disk, at, call, f).1
    ensures Sha256(call.content) == call.digest
  {
  }

  lemma SwitchEffects(cfg: Config, s: State, folder: Path, call: Call, f: Faults)
    ensures var (after, ok) := Switch(cfg, s, folder, call, f);
      && after.disk == s.disk && after.locked == s.locked
      && (after.symlink == s.symlink || after.symlink == None || after.symlink == Some(folder))
      && (s.symlink.None? ==> !ok && after.symlink == None && after.record == s.record)
      && (ok ==> after.symlink == Some(folder))
      && (ok ==> s.record.Readable?)
      && (ok ==>
            after.record == Readable(s.record.installed.(software := Installed(call.version, call.digest))))
      && (!ok ==> after.record == s.record || after.record == Unreadable)
  {
  }

  /** Whenever the symlink comes to lead to another folder, on success and on late failures alike, the download had
      the manifest's digest and that folder is the former standby, with the archive unpacked in it. On success the
      record has exactly its software entry replaced. */
  lemma SymlinkLeadsToUnpacked(cfg: Config, s: State, call: Call, f: Faults)
    ensures var (after, ok) := Software(cfg, s, call, f);
      && (ok ==> s.symlink.Some? && after.symlink == Some(FolderToDeploy(cfg, s.symlink.value)))
      && (ok ==> s.record.Readable?)
      && (ok ==>
            after.record == Readable(s.record.installed.(software := Installed(call.version, call.digest))))
      && (!ok ==> after.record == s.record || after.record == Unreadable)
      && (ok || after.symlink != s.symlink ==> Sha256(call.content) == call.digest)
      && (ok || (after.symlink.Some? && after.symlink != s.symlink) ==>
            && s.symlink.Some? && after.symlink == Some(FolderToDeploy(cfg, s.symlink.value))
            && Unpacked(after.disk, after.symlink.value, cfg.unpack(call.content), ScratchPath(cfg, call)))
  {
    hide Software, InstallSoftware, DropScratch, Unpacked, FolderToDeploy;
    CallIsInstall(cfg, s, call, f);
    var taken := TakeLock(s, f).0;
    var (installed, done) := InstallSoftware(cfg, taken, call, f);
    InstallEffects(cfg, taken, call, f);
    if installed.symlink.Some? && Unpacked(installed.disk, installed.symlink.value, cfg.unpack(call.content),
      ScratchPath(cfg, call))
    {
      DropKeepsUnpacked(installed.disk, installed.symlink.value, cfg.unpack(call.content), ScratchPath(cfg, call), f);
    }
  }

  lemma InstallEffects(cfg: Config, s: State, call: Call, f: Faults)
    ensures var (after, ok) := InstallSoftware(cfg, s, call, f);
      && (ok ==> s.symlink.Some? && after.symlink == Some(FolderToDeploy(cfg, s.symlink.value)))
      && (ok ==> s.record.Readable?)
      && (ok ==>
            after.record == Readable(s.record.installed.(software := Installed(call.version, call.digest))))
      && (!ok ==> after.record == s.record || after.record == Unreadable)
      && (ok || after.symlink != s.symlink ==> Sha256(call.content) == call.digest)
      && (ok || (after.symlink.Some? && after.symlink != s.symlink) ==>
            && s.symlink.Some? && after.symlink == Some(FolderToDeploy(cfg, s.symlink.value))
            && Unpacked(after.disk, after.symlink.value, cfg.unpack(call.content), ScratchPath(cfg, call)))
  {
    hide InstallSoftware, Fetch, Deploy, Switch, Unpacked, FolderToDeploy;
    InstallStages(cfg, s, call, f);
    var (disk, fetched) := Fetch(s.disk, ScratchPath(cfg, call), call, f);
    var (deployed, folder) := Deploy(cfg, s.(disk := disk), call, f);
    if fetched && folder.Some? {
      FetchVerifies(s.disk, ScratchPath(cfg, call), call, f);
      DeployUnpacksBut(cfg, s.(disk := disk), call, f, ScratchPath(cfg, call));
      SwitchEffects(cfg, deployed, folder.value, call, f);
    }
  }

  lemma DeployUnpacksBut(cfg: Config, s: State, call: Call, f: Faults, but: Path)
    requires Deploy(cfg, s, call, f).1.Some?
    ensures var (after, folder) := Deploy(cfg, s, call, f);
      && s.symlink.Some? && folder.value == FolderToDeploy(cfg, s.symlink.value)
      && Unpacked(after.disk, folder.value, cfg.unpack(call.content), but)
      && after.symlink == s.symlink && after.record == s.record
  {
    hide Deploy, Unpacked;
    DeployUnpacks(cfg, s, call, f);
  }

  /** An install ends before the switch, with nothing but the disk changed, or as the switch does. */
  lemma InstallStages(cfg: Config, s: State, call: Call, f: Faults)
    ensures var (disk, fetched) := Fetch(s.disk, ScratchPath(cfg, call), call, f);
      var (deployed, folder) := Deploy(cfg, s.(disk := disk), call, f);
      var (after, ok) := InstallSoftware(cfg, s, call, f);
      if fetched && folder.Some? then (after, ok) == Switch(cfg, deployed, folder.value, call, f)
      else !ok && after == s.(disk := after.disk)
  {
    hide Fetch, Deploy, Switch;
    var (disk, fetched) := Fetch(s.disk, ScratchPath(cfg, call), call, f);
    if fetched {
      DeployKeepsRest(cfg, s.(disk := disk), call, f);
    }
  }

  lemma DeployKeepsRest(cfg: Config, s: State, call: Call, f: Faults)
    ensures var after := Deploy(cfg, s, call, f).0; after == s.(disk := after.disk)
  {
  }

  /** Nothing downloaded is left in the scratch folder, on any exit, while its removal works. */
  lemma ScratchGone(cfg: Config, s: State, call: Call, f: Faults)
    requires !f.scratchRemove && PlainName(L.AfterLastSlash(call.url)) && !Refused(s, f)
    ensures ScratchPath(cfg, call) !in Software(cfg, s, call, f).0.disk.files
    ensures ScratchPath(cfg, call) !in Rules(cfg, s, call, f).0.disk.files
  {
    hide InstallSoftware, InstallRules, DropScratch, TakeLock;
    var at, taken := ScratchPath(cfg, call), TakeLock(s, f).0;
    assert at[|at| - 1] == L.AfterLastSlash(call.url);
    DroppedIsGone(InstallSoftware(cfg, taken, call, f).0.disk, at, f);
    DroppedIsGone(InstallRules(cfg, taken, call, f).0.disk, at, f);
  }

  lemma DroppedIsGone(disk: Disk, at: Path, f: Faults)
    requires at != [] && !f.scratchRemove && PlainName(at[|at| - 1])
    ensures at !in DropScratch(disk, at, f).files
  {
    hide EmptyFolder;
  }

  /** With every step working, exactly these things refuse an update: a lock, a useless file name, a scratch file
      that cannot be made, a wrong digest, a symlink that leads to neither folder, an archive that cannot be laid
      out, and an unreadable record. */
  lemma SucceedsIff(cfg: Config, s: State, call: Call)
    requires Layout(cfg)
    ensures var at := ScratchPath(cfg, call);
      Software(cfg, s, call, NO_FAULTS).1 <==>
        && !s.locked && PlainName(L.AfterLastSlash(call.url)) && CanCreate(s.disk, at)
        && Sha256(call.content) == call.digest
        && s.symlink.Some? && s.symlink.value in s.disk.dirs && s.symlink.value != []
        && var folder := FolderToDeploy(cfg, s.symlink.value);
        && folder != []
        && Extract(CleanSoftware(Write(s.disk, at, call.content), folder, NO_FAULTS).0, folder,
          cfg.unpack(call.content), NoFault).1
        && s.record.Readable?
  {
    hide Fetch, Deploy, Switch, FolderToDeploy, DropScratch, Layout, Extract, CleanSoftware, CanCreate;
    var at := ScratchPath(cfg, call);
    FetchIff(s.disk, at, call);
    var taken := TakeLock(s, NO_FAULTS).0;
    var ready := taken.(disk := Fetch(s.disk, at, call, NO_FAULTS).0);
    DeployIff(cfg, ready, call);
    DeployKeepsRest(cfg, ready, call, NO_FAULTS);
    var (deployed, folder) := Deploy(cfg, ready, call, NO_FAULTS);
    if folder.Some? {
      SwitchIff(cfg, deployed, folder.value, call);
    }
  }

  lemma FetchIff(disk: Disk, at: Path, call: Call)
    requires at != []
    ensures Fetch(disk, at, call, NO_FAULTS).1 <==>
      PlainName(at[|at| - 1]) && CanCreate(disk, at) && Sha256(call.content) == call.digest
    ensures Fetch(disk, at, call, NO_FAULTS).1 ==> Fetch(disk, at, call, NO_FAULTS).0 == Write(disk, at, call.content)
  {
    hide CanCreate;
  }

  lemma DeployIff(cfg: Config, s: State, call: Call)
    ensures Deploy(cfg, s, call, NO_FAULTS).1.Some? <==>
      && s.symlink.Some? && s.symlink.value in s.disk.dirs && s.symlink.value != []
      && var folder := FolderToDeploy(cfg, s.symlink.value);
      && folder != []
      && Extract(CleanSoftware(s.disk, folder, NO_FAULTS).0, folder, cfg.unpack(call.content), NoFault).1
  {
    hide Extract, FolderToDeploy, CleanFiles;
  }

  lemma SwitchIff(cfg: Config, s: State, folder: Path, call: Call)
    requires s.symlink.Some?
    ensures Switch(cfg, s, folder, call, NO_FAULTS).1 <==> s.record.Readable?
  {
  }

  // ----- What cleaning misses -------------------------------------------------------

  /** Cleaning takes no file under bin, unless it lies at or below the name "*". */
  lemma OldBinariesStay(disk: Disk, folder: Path, f: Faults, p: Path)
    requires p in disk.files && Under(folder + ["bin"], p) && !Under(folder + ["bin", "*"], p)
    ensures p in CleanSoftware(disk, folder, f).0.files && CleanSoftware(disk, folder, f).0.files[p] == disk.files[p]
  {
    var after := RemoveAll(disk, folder + ["bin", "*"], f.cleanBin).0;
    assert p[|folder|] == (folder + ["bin"])[|folder|] == "bin";
  }

  /** When the cleaning before a rules update succeeds, it has taken exactly the files that the text of the setting,
      the star and the ending match: those directly in the folder before its last slash. */
  lemma RulesCleanedIff(cfg: Config, disk: Disk, active: Path, f: Faults, p: Path)
    requires CleanRules(cfg, disk, active, f).1 && p in disk.files
    ensures p !in CleanRules(cfg, disk, active, f).0.files <==>
      Matched(GlobFolder(cfg, active), LastElement(cfg), ".rules", p)
  {
    hide CleanFiles, GlobFolder, LastElement, Matched;
    CleanedIff(disk, GlobFolder(cfg, active), LastElement(cfg), ".rules", f.cleanFiles, p);
  }

  lemma CleanedIff(disk: Disk, dir: Path, prefix: string, suffix: string, stops: Option<set<Path>>, p: Path)
    requires CleanFiles(disk, dir, prefix, suffix, stops).1 && p in disk.files
    ensures p !in CleanFiles(disk, dir, prefix, suffix, stops).0.files <==> Matched(dir, prefix, suffix, p)
  {
    hide Matched;
    assert Blocked(disk, dir, prefix, suffix) == {};
  }

  /** Inside the rules folder it takes something only when the setting is empty or ends in a slash, and then the
      *.rules files at its top; else every old rule stays, on success and failure. */
  lemma OldRulesStay(cfg: Config, disk: Disk, active: Path, f: Faults, p: Path)
    requires PlainName(LastElement(cfg)) && p in disk.files && Under(RulesDir(cfg, active), p)
    ensures p in CleanRules(cfg, disk, active, f).0.files
      && CleanRules(cfg, disk, active, f).0.files[p] == disk.files[p]
    ensures !Matched(GlobFolder(cfg, active), LastElement(cfg), ".rules", p)
  {
    var dir, last := GlobFolder(cfg, active), LastElement(cfg);
    assert RulesDir(cfg, active) == dir + [last];
    assert (dir + [last])[|dir|] == last == p[|dir|];
  }

  /** When the setting is empty or ends in a slash, the files taken are the *.rules files at the top of the rules
      folder. */
  lemma SlashMakesItClean(cfg: Config, active: Path)
    ensures LastElement(cfg) == "" <==> cfg.rulesFolder == "" || cfg.rulesFolder[|cfg.rulesFolder| - 1] == '/'
    ensures LastElement(cfg) == "" ==> forall p :: Matched(GlobFolder(cfg, active), LastElement(cfg), ".rules", p) <==>
      (|p| == |RulesDir(cfg, active)| + 1 && Under(RulesDir(cfg, active), p)
        && EndsWith(p[|RulesDir(cfg, active)|], ".rules"))
  {
    hide GlobFolder;
  }

  // ----- Rules ----------------------------------------------------------------------

  /** A rules call never moves the symlink, and touches no file of the folder out of use that its archive does not
      name. */
  lemma StandbySafe(cfg: Config, s: State, call: Call, f: Faults, active: Path)
    requires Layout(cfg) && s.disk.files.Keys !! s.disk.dirs
    requires s.symlink == Some(active) && OfThePair(cfg, active)
    requires var standby := Other(cfg, active);
      && standby in s.disk.dirs
      && Under(active, GlobFolder(cfg, active)) && NoneUnder(RulesDir(cfg, active), cfg.unpack(call.content), standby)
    ensures var after := Rules(cfg, s, call, f).0;
      after.symlink == s.symlink && SameUnder(Other(cfg, active), s.disk.files, after.disk.files)
  {
    hide Layout, OfThePair, FolderToDeploy, GlobFolder, RulesDir, InstallRules, DropScratch, NoneUnder, SameUnder,
      Other, Under, ApartFolders, EqualFold;
    var standby := Other(cfg, active);
    DeploysToOther(cfg, active);
    LayoutKeepsScratchOut(cfg, standby);
    ScratchOutside(cfg, call, standby);
    var at, taken := ScratchPath(cfg, call), TakeLock(s, f).0;
    InstallRulesLeaves(cfg, taken, call, f, active, standby);
    var after := InstallRules(cfg, taken, call, f).0;
    SameUnderSelf(standby, s.disk.files);
    SameUnderAt(standby, s.disk.files, after.disk.files);
    DropScratchLeaves(after.disk, at, f, standby);
    SameUnderTrans(standby, s.disk.files, after.disk.files, DropScratch(after.disk, at, f).files);
  }

  lemma InstallRulesLeaves(cfg: Config, s: State, call: Call, f: Faults, active: Path, standby: Path)
    requires s.symlink == Some(active) && ApartFolders(standby, active) && standby in s.disk.dirs
    requires Under(standby, ScratchPath(cfg, call)) ==> ScratchPath(cfg, call) == standby
    requires Under(active, GlobFolder(cfg, active))
      && NoneUnder(RulesDir(cfg, active), cfg.unpack(call.content), standby)
    ensures var after := InstallRules(cfg, s, call, f).0;
      after.symlink == s.symlink && SameUnder(standby, s.disk.files, after.disk.files)
  {
    hide InstallRules, Fetch, DeployRules, NoneUnder, SameUnder, RestartAndRecord, ApartFolders, Under, PlainName;
    InstallRulesStages(cfg, s, call, f);
    var (disk, fetched) := Fetch(s.disk, ScratchPath(cfg, call), call, f);
    FetchLeaves(s.disk, ScratchPath(cfg, call), call, f, standby);
    if fetched {
      var ready := s.(disk := disk);
      var (deployed, ok) := DeployRules(cfg, ready, call, f);
      DeployRulesLeaves(cfg, ready, call, f, active, standby);
      SameUnderTrans(standby, s.disk.files, disk.files, deployed.disk.files);
      RestartEffects(deployed, call, f);
    }
  }

  /** A rules install ends before the restart, with nothing but the disk changed, or as the restart does. */
  lemma InstallRulesStages(cfg: Config, s: State, call: Call, f: Faults)
    ensures var (disk, fetched) := Fetch(s.disk, ScratchPath(cfg, call), call, f);
      var (deployed, unpacked) := DeployRules(cfg, s.(disk := disk), call, f);
      var (after, ok) := InstallRules(cfg, s, call, f);
      if !fetched then (after, ok) == (s.(disk := disk), false)
      else if !unpacked then (after, ok) == (deployed, false)
      else (after, ok) == RestartAndRecord(deployed, call, f)
  {
    hide Fetch, DeployRules, RestartAndRecord;
  }

  lemma CleanRulesLeaves(cfg: Config, disk: Disk, active: Path, f: Faults, folder: Path)
    requires ApartFolders(folder, active) && Under(active, GlobFolder(cfg, active))
    ensures SameUnder(folder, disk.files, CleanRules(cfg, disk, active, f).0.files)
  {
    hide CleanFiles, SameUnder, GlobFolder, LastElement, ApartFolders;
    var dir := GlobFolder(cfg, active);
    ApartBelow(folder, active, dir[|active|..]);
    assert dir == active + dir[|active|..];
    CleanFilesLeaves(disk, dir, LastElement(cfg), ".rules", f.cleanFiles, folder);
  }

  lemma DeployRulesLeaves(cfg: Config, s: State, call: Call, f: Faults, active: Path, folder: Path)
    requires s.symlink == Some(active) && ApartFolders(folder, active)
    requires Under(active, GlobFolder(cfg, active))
      && NoneUnder(RulesDir(cfg, active), cfg.unpack(call.content), folder)
    ensures var after := DeployRules(cfg, s, call, f).0;
      SameUnder(folder, s.disk.files, after.disk.files) && after == s.(disk := after.disk)
  {
    hide RulesDir, GlobFolder, CleanRules, Extract, NoneUnder;
    var cleaned := CleanRules(cfg, s.disk, active, f).0;
    CleanRulesLeaves(cfg, s.disk, active, f, folder);
    var dest := RulesDir(cfg, active);
    ExtractLeavesFolder(cleaned, dest, cfg.unpack(call.content), f.extract, folder);
    SameUnderTrans(folder, s.disk.files, cleaned.files,
      Extract(cleaned, dest, cfg.unpack(call.content), f.extract).0.files);
  }

  lemma DeployRulesUnpacks(cfg: Config, s: State, call: Call, f: Faults)
    requires DeployRules(cfg, s, call, f).1
    ensures var after := DeployRules(cfg, s, call, f).0;
      s.symlink.Some? && forall but ::
        Unpacked(after.disk, RulesDir(cfg, s.symlink.value), cfg.unpack(call.content), but)
  {
    hide CleanRules, Extract, RulesDir;
    var folder := RulesDir(cfg, s.symlink.value);
    var cleaned := CleanRules(cfg, s.disk, s.symlink.value, f).0;
    var entries := cfg.unpack(call.content);
    ExtractRefinesFold(cleaned, folder, entries, f.extract);
    forall i: nat, p | LastFor(folder, entries, i, p)
      ensures p in Overlay(cleaned.files, folder, entries)
        && Overlay(cleaned.files, folder, entries)[p] == entries[i].content
    {
      LastEntryWins(cleaned.files, folder, entries, p);
    }
  }

  /** On success the rules archive lies in the rules folder of the folder in use, and the service runs. */
  lemma RulesAreUnpacked(cfg: Config, s: State, call: Call, f: Faults)
    requires Rules(cfg, s, call, f).1
    ensures var after := Rules(cfg, s, call, f).0;
      && s.symlink.Some? && after.running
      && Unpacked(after.disk, RulesDir(cfg, s.symlink.value), cfg.unpack(call.content), ScratchPath(cfg, call))
  {
    hide InstallRules, DropScratch, Unpacked;
    var taken := TakeLock(s, f).0;
    InstalledRulesUnpacked(cfg, taken, call, f);
    DropKeepsUnpacked(InstallRules(cfg, taken, call, f).0.disk, RulesDir(cfg, s.symlink.value),
      cfg.unpack(call.content),
                      ScratchPath(cfg, call), f);
  }

  lemma InstalledRulesUnpacked(cfg: Config, s: State, call: Call, f: Faults)
    requires InstallRules(cfg, s, call, f).1
    ensures var after := InstallRules(cfg, s, call, f).0;
      && s.symlink.Some? && after.running
      && Unpacked(after.disk, RulesDir(cfg, s.symlink.value), cfg.unpack(call.content), ScratchPath(cfg, call))
  {
    hide InstallRules, Fetch, DeployRules, Unpacked, RestartAndRecord;
    InstallRulesStages(cfg, s, call, f);
    var ready := s.(disk := Fetch(s.disk, ScratchPath(cfg, call), call, f).0);
    DeployRulesUnpacks(cfg, ready, call, f);
    RestartEffects(DeployRules(cfg, ready, call, f).0, call, f);
  }

  lemma RestartEffects(s: State, call: Call, f: Faults)
    ensures var (after, ok) := RestartAndRecord(s, call, f);
      && after.disk == s.disk && after.symlink == s.symlink && after.locked == s.locked
      && (ok ==> after.running && s.record.Readable?)
      && (ok ==> after.record == Readable(s.record.installed.(rules := Installed(call.version, call.digest))))
      && (!ok ==> after.record == s.record || after.record == Unreadable)
  {
  }

  // ----- What a run needs to know of a call -----------------------------------------

  /** The record after a call: the given one on success, and otherwise unchanged or unreadable. */
  predicate RecordStep(before: Record, after: Record, ok: bool, installed: Reported) {
    if ok then before.Readable? && after == Readable(installed) else after == before || after == Unreadable
  }

  function WithSoftware(record: Record, call: Call): Reported {
    if record.Readable? then record.installed.(software := Installed(call.version, call.digest))
    else Reported(Installed(call.version, call.digest), Installed("", NoDigest), Installed("", NoDigest))
  }

  function WithRules(record: Record, call: Call): Reported {
    if record.Readable? then record.installed.(rules := Installed(call.version, call.digest))
    else Reported(Installed("", NoDigest), Installed(call.version, call.digest), Installed("", NoDigest))
  }

  /** Was the call refused because of the lock? */
  predicate Refused(s: State, f: Faults) {
    TakeLock(s, f).1
  }

  lemma SoftwareForRuns(cfg: Config, s: State, call: Call, f: Faults)
    ensures var (after, ok) := Software(cfg, s, call, f);
      && RecordStep(s.record, after.record, ok, WithSoftware(s.record, call))
      && (s.record.Unreadable? ==> !ok && after.record.Unreadable?)
      && (s.symlink.None? ==> !ok && after.symlink.None? && after.record == s.record)
      && (ok ==> Sha256(call.content) == call.digest)
      && (Refused(s, f) ==> !ok && after.record == s.record && after.symlink == s.symlink)
      && (!f.lockRemove ==> !after.locked)
  {
    hide Software, InstallSoftware, Unpacked, FolderToDeploy, ReachesStop, DropScratch;
    SymlinkLeadsToUnpacked(cfg, s, call, f);
    CallIsInstall(cfg, s, call, f);
    if s.symlink.None? {
      NoSymlinkNoStop(cfg, s, call, f);
      NothingBeforeStop(cfg, s, call, f);
    }
  }

  lemma NoSymlinkNoStop(cfg: Config, s: State, call: Call, f: Faults)
    requires s.symlink.None?
    ensures !ReachesStop(cfg, s, call, f)
  {
    hide Fetch, CleanSoftware, Extract;
  }

  lemma RulesForRuns(cfg: Config, s: State, call: Call, f: Faults)
    ensures var (after, ok) := Rules(cfg, s, call, f);
      && RecordStep(s.record, after.record, ok, WithRules(s.record, call))
      && (s.record.Unreadable? ==> !ok && after.record.Unreadable?)
      && after.symlink == s.symlink
      && (s.symlink.None? ==> !ok && after.record == s.record)
      && (ok ==> Sha256(call.content) == call.digest)
      && (Refused(s, f) ==> !ok && after.record == s.record)
      && (!f.lockRemove ==> !after.locked)
  {
    hide Rules, InstallRules;
    InstallRulesEffects(cfg, TakeLock(s, f).0, call, f);
    RulesLock(cfg, s, call, f);
  }

  lemma RulesLock(cfg: Config, s: State, call: Call, f: Faults)
    ensures var (after, ok) := Rules(cfg, s, call, f);
      var (installed, done) := InstallRules(cfg, TakeLock(s, f).0, call, f);
      && (!f.lockRemove ==> !after.locked)
      && if Refused(s, f) || L.AfterLastSlash(call.url) == ""
        then !ok && after.record == s.record && after.symlink == s.symlink
         else ok == done && after.record == installed.record && after.symlink == installed.symlink
  {
    hide InstallRules, DropScratch;
  }

  lemma InstallRulesEffects(cfg: Config, s: State, call: Call, f: Faults)
    ensures var (after, ok) := InstallRules(cfg, s, call, f);
      && RecordStep(s.record, after.record, ok, WithRules(s.record, call))
      && after.symlink == s.symlink
      && (s.symlink.None? ==> !ok && after.record == s.record)
      && (ok ==> Sha256(call.content) == call.digest)
  {
    hide InstallRules, Fetch, DeployRules, RestartAndRecord;
    InstallRulesStages(cfg, s, call, f);
    var (disk, fetched) := Fetch(s.disk, ScratchPath(cfg, call), call, f);
    if fetched {
      FetchVerifies(s.disk, ScratchPath(cfg, call), call, f);
      var ready := s.(disk := disk);
      DeployRulesKeepsRest(cfg, ready, call, f);
      RestartEffects(DeployRules(cfg, ready, call, f).0, call, f);
    }
  }

  lemma DeployRulesKeepsRest(cfg: Config, s: State, call: Call, f: Faults)
    ensures var (after, ok) := DeployRules(cfg, s, call, f);
      after == s.(disk := after.disk) && (s.symlink.None? ==> !ok)
  {
  }
}
