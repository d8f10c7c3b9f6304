/** What a call leaves in the folders: when a deployed folder is exactly the archive, what an unverified download can
    change, and which directories come and go. */
module SensorFolders {
  import opened Tables
  import opened Schema
  import opened Archive
  import opened NetworkAgents
  import opened Sensor
  import opened SensorSafety
  import L = ObjectLocation

  // ----- When a folder is the archive -----------------------------------------------

  lemma {:induction false} NamedHasLast(dest: Path, entries: seq<Entry>, p: Path)
    requires Names(dest, entries, p)
    ensures exists i: nat :: LastFor(dest, entries, i, p)
  {
    var n := |entries| - 1;
    if entries[n].FileEntry? && Target(dest, entries[n]) == p {
      assert LastFor(dest, entries, n, p);
    } else {
      var i :| 0 <= i < |entries| && entries[i].FileEntry? && Target(dest, entries[i]) == p;
      assert entries[..n][i] == entries[i];
      NamedHasLast(dest, entries[..n], p);
      var k: nat :| LastFor(dest, entries[..n], k, p);
      assert LastFor(dest, entries, k, p);
    }
  }

  /** Laid over some files and laid over none, the archive gives the same folder exactly when it names every file that
      was in the folder. */
  lemma OverlayIsArchiveIff(files: map<Path, Bytes>, dest: Path, entries: seq<Entry>, folder: Path)
    ensures SameUnder(folder, Overlay(files, dest, entries), Overlay(map[], dest, entries))
      <==> forall p | p in files && Under(folder, p) :: Names(dest, entries, p)
  {
    hide Overlay, LastFor, Names;
    forall p
      ensures var a, b := Overlay(files, dest, entries), Overlay(map[], dest, entries);
        if Names(dest, entries, p) then p in a && p in b && a[p] == b[p] else (p in a <==> p in files) && p !in b
    {
      LastEntryWins(files, dest, entries, p);
      LastEntryWins(map[], dest, entries, p);
      if Names(dest, entries, p) {
        NamedHasLast(dest, entries, p);
      }
    }
  }

  /** The files the cleaning before a software update takes: all at or below bin/"*", and those directly in lib whose
      name starts with "lib", up to the first such folder that is not empty. */
  predicate SoftwareTakes(disk: Disk, folder: Path, f: Faults, p: Path) {
    || Under(folder + ["bin", "*"], p)
    || p in Cleaned(RemoveAll(disk, folder + ["bin", "*"], None).0, folder + ["lib"], "lib", "", f.cleanFiles)
  }

  /** If nothing stops the second half, these are simply all files directly in lib whose name starts with "lib". */
  lemma SoftwareTakesIff(disk: Disk, folder: Path, f: Faults, p: Path)
    requires p in disk.files
    requires CleanFiles(RemoveAll(disk, folder + ["bin", "*"], None).0, folder + ["lib"], "lib", "", f.cleanFiles).1
    ensures SoftwareTakes(disk, folder, f, p) <==>
      Under(folder + ["bin", "*"], p) || Matched(folder + ["lib"], "lib", "", p)
  {
    hide Matched;
    var removed := RemoveAll(disk, folder + ["bin", "*"], None).0;
    assert Blocked(removed, folder + ["lib"], "lib", "") == {};
  }

  lemma CleanedFiles(disk: Disk, folder: Path, f: Faults)
    requires CleanSoftware(disk, folder, f).1
    ensures forall p :: p in CleanSoftware(disk, folder, f).0.files <==>
      p in disk.files && !SoftwareTakes(disk, folder, f, p)
  {
    hide Cleaned;
  }

  /** A file outside the folder changes nothing about what cleaning takes from it. */
  lemma WriteKeepsTaken(disk: Disk, at: Path, content: Bytes, folder: Path, f: Faults, p: Path)
    requires !Under(folder, at) && Under(folder, p)
    ensures SoftwareTakes(Write(disk, at, content), folder, f, p) <==> SoftwareTakes(disk, folder, f, p)
  {
    hide Cleaned, Under;
    var dir := folder + ["lib"];
    var before := RemoveAll(disk, folder + ["bin", "*"], None).0;
    var after := RemoveAll(Write(disk, at, content), folder + ["bin", "*"], None).0;
    forall q | q != at ensures q in after.files <==> q in before.files {
    }
    assert after.dirs == before.dirs;
    OutsideKeepsCleaned(before, after, at, dir, "lib", "", f.cleanFiles) by {
      NotUnderBelow(folder, ["lib"], at);
    }
  }

  lemma NotUnderBelow(folder: Path, below: seq<string>, p: Path)
    requires !Under(folder, p)
    ensures !Under(folder + below, p)
  {
  }

  lemma OutsideKeepsCleaned(before: Disk, after: Disk, at: Path, dir: Path, prefix: string, suffix: string,
      stops: Option<set<Path>>)
    requires !Under(dir, at) && after.dirs == before.dirs && forall q | q != at :: q in after.files <==>
      q in before.files
    ensures Cleaned(after, dir, prefix, suffix, stops) == Cleaned(before, dir, prefix, suffix, stops)
  {
    forall q | Under(dir, q) ensures EmptyFolder(after, q) <==> EmptyFolder(before, q) {
      assert !Under(q, at);
    }
    assert Matches(after, dir, prefix, suffix) == Matches(before, dir, prefix, suffix);
    assert Blocked(after, dir, prefix, suffix) == Blocked(before, dir, prefix, suffix);
  }

  /** What a successful software call leaves on the disk. */
  lemma SoftwareDisk(cfg: Config, s: State, call: Call, f: Faults)
    requires Software(cfg, s, call, f).1
    ensures s.symlink.Some? && CanCreate(s.disk, ScratchPath(cfg, call))
    ensures var folder := FolderToDeploy(cfg, s.symlink.value);
      var (cleaned, ok) := CleanSoftware(Write(s.disk, ScratchPath(cfg, call), call.content), folder, f);
      && ok && Extract(cleaned, folder, cfg.unpack(call.content), f.extract).1
      && Software(cfg, s, call, f).0.disk
         == DropScratch(Extract(cleaned, folder, cfg.unpack(call.content), f.extract).0, ScratchPath(cfg, call), f)
  {
    hide Software, InstallSoftware, Fetch, Deploy, Switch, CleanSoftware, Extract, DropScratch, FolderToDeploy,
      CanCreate;
    var at, taken := ScratchPath(cfg, call), TakeLock(s, f).0;
    CallIsInstall(cfg, s, call, f);
    InstallStages(cfg, taken, call, f);
    InstallDisk(cfg, taken, call, f);
    FetchWrites(s.disk, at, call, f);
    DeployedDisk(cfg, taken.(disk := Write(s.disk, at, call.content)), call, f);
  }

  lemma FetchWrites(disk: Disk, at: Path, call: Call, f: Faults)
    requires at != []
    ensures Fetch(disk, at, call, f).1 ==>
      CanCreate(disk, at) && Fetch(disk, at, call, f).0 == Write(disk, at, call.content)
  {
  }

  lemma DeployedDisk(cfg: Config, s: State, call: Call, f: Faults)
    ensures Deploy(cfg, s, call, f).1.Some? ==>
      s.symlink.Some? &&
      var folder := FolderToDeploy(cfg, s.symlink.value);
      var (cleaned, ok) := CleanSoftware(s.disk, folder, f);
      ok && Deploy(cfg, s, call, f).0.disk == Extract(cleaned, folder, cfg.unpack(call.content), f.extract).0
      && Extract(cleaned, folder, cfg.unpack(call.content), f.extract).1
  {
    hide CleanSoftware, Extract, FolderToDeploy;
  }

  /** After SUCCESS the folder that was out of use holds exactly the files of the archive if and only if each file that
      was in it before is named by the archive or is one the cleaning takes. */
  lemma DeployedIsArchiveIff(cfg: Config, s: State, call: Call, f: Faults)
    requires Layout(cfg) && Software(cfg, s, call, f).1
    requires s.symlink.Some? ==> OfThePair(cfg, s.symlink.value) && Other(cfg, s.symlink.value) in s.disk.dirs
    ensures s.symlink.Some?
    ensures var folder := Other(cfg, s.symlink.value);
      SameUnder(folder, Software(cfg, s, call, f).0.disk.files, Overlay(map[], folder, cfg.unpack(call.content)))
      <==> forall p | p in s.disk.files && Under(folder, p) ::
        Names(folder, cfg.unpack(call.content), p) || SoftwareTakes(s.disk, folder, f, p)
  {
    hide Software, CleanSoftware, Extract, Layout, Other, OfThePair, EqualFold, FolderToDeploy, SoftwareTakes,
      Names, Overlay, SameUnder, Under, DropScratch;
    SoftwareDisk(cfg, s, call, f);
    var folder, entries, at := Other(cfg, s.symlink.value), cfg.unpack(call.content), ScratchPath(cfg, call);
    DeploysToOther(cfg, s.symlink.value);
    LayoutKeepsScratchOut(cfg, folder);
    ScratchOutside(cfg, call, folder);
    var cleaned := CleanSoftware(Write(s.disk, at, call.content), folder, f).0;
    CleanedUnder(s.disk, at, call.content, folder, f);
    ExtractRefinesFold(cleaned, folder, entries, f.extract);
    OverlayIsArchiveIff(cleaned.files, folder, entries, folder);
    DropOutside(Extract(cleaned, folder, entries, f.extract).0, at, f, folder, Overlay(map[], folder, entries));
  }

  lemma CleanedUnder(disk: Disk, at: Path, content: Bytes, folder: Path, f: Faults)
    requires !Under(folder, at) && CleanSoftware(Write(disk, at, content), folder, f).1
    ensures forall p | Under(folder, p) ::
      p in CleanSoftware(Write(disk, at, content), folder, f).0.files <==>
        (p in disk.files && !SoftwareTakes(disk, folder, f, p))
  {
    hide CleanSoftware, SoftwareTakes;
    CleanedFiles(Write(disk, at, content), folder, f);
    forall p | Under(folder, p)
      ensures SoftwareTakes(Write(disk, at, content), folder, f, p) <==> SoftwareTakes(disk, folder, f, p)
    {
      WriteKeepsTaken(disk, at, content, folder, f, p);
    }
  }

  lemma DropOutside(disk: Disk, at: Path, f: Faults, folder: Path, other: map<Path, Bytes>)
    requires at != [] && !Under(folder, at)
    ensures SameUnder(folder, DropScratch(disk, at, f).files, other) <==> SameUnder(folder, disk.files, other)
  {
    hide Under;
  }

  /** What a successful rules call leaves on the disk. */
  lemma RulesDisk(cfg: Config, s: State, call: Call, f: Faults)
    requires Rules(cfg, s, call, f).1
    ensures s.symlink.Some?
    ensures var active := s.symlink.value;
      var (cleaned, ok) := CleanRules(cfg, Write(s.disk, ScratchPath(cfg, call), call.content), active, f);
      && ok && Extract(cleaned, RulesDir(cfg, active), cfg.unpack(call.content), f.extract).1
      && Rules(cfg, s, call, f).0.disk
         == DropScratch(Extract(cleaned, RulesDir(cfg, active), cfg.unpack(call.content), f.extract).0,
           ScratchPath(cfg, call), f)
  {
    hide InstallRules, Fetch, DeployRules, RestartAndRecord, CleanRules, Extract, DropScratch, RulesDir, CanCreate;
    var at, taken := ScratchPath(cfg, call), TakeLock(s, f).0;
    InstallRulesStages(cfg, taken, call, f);
    FetchWrites(s.disk, at, call, f);
    var ready := taken.(disk := Write(s.disk, at, call.content));
    DeployedRulesDisk(cfg, ready, call, f);
    RestartEffects(DeployRules(cfg, ready, call, f).0, call, f);
  }

  lemma DeployedRulesDisk(cfg: Config, s: State, call: Call, f: Faults)
    ensures DeployRules(cfg, s, call, f).1 ==>
      s.symlink.Some? &&
      var (cleaned, ok) := CleanRules(cfg, s.disk, s.symlink.value, f);
      ok && DeployRules(cfg, s, call, f).0.disk == Extract(cleaned, RulesDir(cfg, s.symlink.value),
        cfg.unpack(call.content), f.extract).0
      && Extract(cleaned, RulesDir(cfg, s.symlink.value), cfg.unpack(call.content), f.extract).1
  {
    hide CleanRules, Extract, RulesDir;
  }

  /** After SUCCESS the rules folder holds exactly the files of the archive if and only if each file that was in
      it before is named by the archive or matched by the glob: none is, unless the setting is empty or ends in a
      slash, and then the *.rules files at the top are. */
  lemma RulesFolderIsArchiveIff(cfg: Config, s: State, call: Call, f: Faults)
    requires Rules(cfg, s, call, f).1
    requires s.symlink.Some? ==> !Under(RulesDir(cfg, s.symlink.value), ScratchPath(cfg, call))
    ensures s.symlink.Some?
    ensures var active := s.symlink.value;
      var folder := RulesDir(cfg, active);
      SameUnder(folder, Rules(cfg, s, call, f).0.disk.files, Overlay(map[], folder, cfg.unpack(call.content)))
      <==> forall p | p in s.disk.files && Under(folder, p) ::
        Names(folder, cfg.unpack(call.content), p) || Matched(GlobFolder(cfg, active), LastElement(cfg), ".rules", p)
  {
    hide Rules, CleanRules, Extract, RulesDir, GlobFolder, LastElement, Names, Overlay, SameUnder, Under,
      DropScratch, Matched;
    RulesDisk(cfg, s, call, f);
    var active := s.symlink.value;
    var folder, entries, at := RulesDir(cfg, active), cfg.unpack(call.content), ScratchPath(cfg, call);
    var disk := Write(s.disk, at, call.content);
    var cleaned := CleanRules(cfg, disk, active, f).0;
    forall p | Under(folder, p)
      ensures p in cleaned.files <==>
        p in s.disk.files && !Matched(GlobFolder(cfg, active), LastElement(cfg), ".rules", p)
    {
      if p in disk.files {
        RulesCleanedIff(cfg, disk, active, f, p);
      } else {
        CleaningAddsNothing(cfg, disk, active, f, p);
      }
    }
    ExtractRefinesFold(cleaned, folder, entries, f.extract);
    OverlayIsArchiveIff(cleaned.files, folder, entries, folder);
    DropOutside(Extract(cleaned, folder, entries, f.extract).0, at, f, folder, Overlay(map[], folder, entries));
  }

  lemma CleaningAddsNothing(cfg: Config, disk: Disk, active: Path, f: Faults, p: Path)
    ensures p in CleanRules(cfg, disk, active, f).0.files ==> p in disk.files
  {
    hide GlobFolder, LastElement, Cleaned;
  }

  // ----- What an unverified download can change -------------------------------------

  /** The disks differ at most at the given path. */
  ghost predicate SameBut(at: Path, a: Disk, b: Disk) {
    && (forall p | p != at :: (p in a.files <==> p in b.files) && (p in a.files ==> a.files[p] == b.files[p]))
    && (forall p | p != at :: p in a.dirs <==> p in b.dirs)
  }

  /** Only the scratch file and the lock differ. */
  ghost predicate Untouched(s: State, after: State, at: Path) {
    SameBut(at, s.disk, after.disk) && after.symlink == s.symlink && after.running == s.running
      && after.record == s.record
  }

  lemma FetchTouchesScratch(disk: Disk, at: Path, call: Call, f: Faults)
    requires at != []
    ensures SameBut(at, disk, Fetch(disk, at, call, f).0)
      && SameBut(at, disk, DropScratch(Fetch(disk, at, call, f).0, at, f))
    ensures SameBut(at, disk, disk)
  {
  }

  /** Without the digest of the manifest, nothing but the scratch file and the lock can differ after a call: not a
      file or directory elsewhere, nor symlink, service or record. */
  lemma UnverifiedChangesNothing(cfg: Config, s: State, call: Call, f: Faults)
    requires Sha256(call.content) != call.digest
    ensures Untouched(s, Software(cfg, s, call, f).0, ScratchPath(cfg, call))
    ensures Untouched(s, Rules(cfg, s, call, f).0, ScratchPath(cfg, call))
    ensures !Software(cfg, s, call, f).1 && !Rules(cfg, s, call, f).1
  {
    hide Fetch, Deploy, DeployRules, Switch, RestartAndRecord, DropScratch, SameBut, ScratchPath;
    ScratchIsAt(cfg, call);
    FetchTouchesScratch(s.disk, ScratchPath(cfg, call), call, f);
    UnverifiedIsNotFetched(s.disk, ScratchPath(cfg, call), call, f);
  }

  lemma ScratchIsAt(cfg: Config, call: Call)
    ensures ScratchPath(cfg, call) != []
  {
  }

  lemma UnverifiedIsNotFetched(disk: Disk, at: Path, call: Call, f: Faults)
    requires at != [] && Sha256(call.content) != call.digest
    ensures !Fetch(disk, at, call, f).1
  {
  }

  // ----- Directories ----------------------------------------------------------------

  ghost predicate SameDirs(folder: Path, a: set<Path>, b: set<Path>) {
    forall p | Under(folder, p) :: p in a <==> p in b
  }

  predicate NothingUnder(dest: Path, entries: seq<Entry>, folder: Path) {
    forall i | 0 <= i < |entries| :: !Under(folder, Target(dest, entries[i]))
  }

  lemma {:induction false} UnpackKeepsDirs(disk: Disk, dest: Path, entries: seq<Entry>, n: nat, fault: Fault,
      folder: Path)
    requires n <= |entries| && NothingUnder(dest, entries, folder)
    ensures SameDirs(folder, disk.dirs, Unpack(disk, dest, entries, n, fault).0.dirs)
    decreases n
  {
    if n > 0 {
      UnpackKeepsDirs(disk, dest, entries, n - 1, fault, folder);
      var target := Target(dest, entries[n - 1]);
      assert !Under(folder, target);
      forall p | p in Prefixes(target) ensures !Under(folder, p) {
        PrefixOutside(folder, p, target);
      }
    }
  }

  lemma PrefixOutside(folder: Path, p: Path, target: Path)
    requires Under(p, target) && !Under(folder, target)
    ensures !Under(folder, p)
  {
  }

  lemma CleanFilesKeepsDirs(disk: Disk, dir: Path, prefix: string, suffix: string, stops: Option<set<Path>>,
      folder: Path)
    requires ApartFolders(folder, dir)
    ensures SameDirs(folder, disk.dirs, CleanFiles(disk, dir, prefix, suffix, stops).0.dirs)
  {
    forall p | Under(folder, p) ensures !Under(dir, p) {
      Apart(dir, folder, p);
    }
  }

  lemma CleanSoftwareKeepsDirs(disk: Disk, standby: Path, f: Faults, folder: Path)
    requires ApartFolders(folder, standby)
    ensures SameDirs(folder, disk.dirs, CleanSoftware(disk, standby, f).0.dirs)
  {
    hide ApartFolders;
    ApartBelow(folder, standby, ["bin", "*"]);
    ApartBelow(folder, standby, ["lib"]);
    var after := RemoveAll(disk, standby + ["bin", "*"], f.cleanBin).0;
    RemoveAllKeepsDirs(disk, standby + ["bin", "*"], f.cleanBin, folder);
    CleanFilesKeepsDirs(after, standby + ["lib"], "lib", "", f.cleanFiles, folder);
  }

  lemma RemoveAllKeepsDirs(disk: Disk, dir: Path, stops: Option<set<Path>>, folder: Path)
    requires ApartFolders(folder, dir)
    ensures SameDirs(folder, disk.dirs, RemoveAll(disk, dir, stops).0.dirs)
  {
    forall p | Under(folder, p) ensures !Under(dir, p) {
      Apart(dir, folder, p);
    }
  }

  lemma DropScratchKeepsDirs(before: Disk, after: Disk, at: Path, f: Faults, folder: Path)
    requires at != [] && (Under(folder, at) ==> at == folder && !EmptyFolder(before, folder))
    requires SameUnder(folder, before.files, after.files) && SameDirs(folder, before.dirs, after.dirs)
    ensures SameDirs(folder, before.dirs, DropScratch(after, at, f).dirs)
  {
  }

  /** The same for the directories of the folder in use: none is made or removed below it on any exit,
      if no entry of the archive leads there; and the folder itself goes only when it is empty and the
      download has its very name. */
  lemma ActiveDirsSafe(cfg: Config, s: State, call: Call, f: Faults, active: Path)
    requires Layout(cfg) && s.disk.files.Keys !! s.disk.dirs
    requires s.symlink == Some(active) && OfThePair(cfg, active) && active in s.disk.dirs
    requires NothingUnder(Other(cfg, active), cfg.unpack(call.content), active)
    requires ScratchPath(cfg, call) == active ==> !EmptyFolder(s.disk, active)
    ensures SameDirs(active, s.disk.dirs, Software(cfg, s, call, f).0.disk.dirs)
  {
    hide Layout, OfThePair, FolderToDeploy, InstallSoftware, DropScratch, SameUnder, SameDirs, Under, ApartFolders,
      EqualFold, EmptyFolder, NothingUnder, Other;
    var at, taken := ScratchPath(cfg, call), TakeLock(s, f).0;
    DeploysToOther(cfg, active);
    LayoutKeepsScratchOut(cfg, active);
    ScratchOutside(cfg, call, active);
    NothingIsNone(Other(cfg, active), cfg.unpack(call.content), active);
    UnpackingKeepsFiles(cfg, Fetch(s.disk, at, call, f).0, Other(cfg, active), call, f, active);
    InstallLeaves(cfg, taken, call, f, active, Other(cfg, active));
    InstallKeepsDirs(cfg, taken, call, f, active, Other(cfg, active));
    DropScratchKeepsDirs(s.disk, InstallSoftware(cfg, taken, call, f).0.disk, at, f, active);
    SameDirsSelf(active, s.disk.dirs);
  }

  lemma SameDirsSelf(folder: Path, a: set<Path>)
    ensures SameDirs(folder, a, a)
  {
  }

  lemma NothingIsNone(dest: Path, entries: seq<Entry>, folder: Path)
    requires NothingUnder(dest, entries, folder)
    ensures NoneUnder(dest, entries, folder)
  {
  }

  lemma InstallKeepsDirs(cfg: Config, s: State, call: Call, f: Faults, active: Path, standby: Path)
    requires s.symlink == Some(active) && FolderToDeploy(cfg, active) == standby && ApartFolders(active, standby)
    requires NothingUnder(standby, cfg.unpack(call.content), active)
    ensures SameDirs(active, s.disk.dirs, InstallSoftware(cfg, s, call, f).0.disk.dirs)
  {
    hide InstallSoftware, Fetch, Deploy, FolderToDeploy, ApartFolders, NothingUnder, SameDirs;
    InstallDisk(cfg, s, call, f);
    var (disk, fetched) := Fetch(s.disk, ScratchPath(cfg, call), call, f);
    FetchKeepsDirs(s.disk, ScratchPath(cfg, call), call, f);
    SameDirsSelf(active, s.disk.dirs);
    if fetched {
      DeployKeepsDirs(cfg, s.(disk := disk), call, f, active, standby);
    }
  }

  lemma FetchKeepsDirs(disk: Disk, at: Path, call: Call, f: Faults)
    requires at != []
    ensures Fetch(disk, at, call, f).0.dirs == disk.dirs
  {
  }

  lemma DeployKeepsDirs(cfg: Config, s: State, call: Call, f: Faults, active: Path, standby: Path)
    requires s.symlink == Some(active) && FolderToDeploy(cfg, active) == standby && ApartFolders(active, standby)
    requires NothingUnder(standby, cfg.unpack(call.content), active)
    ensures SameDirs(active, s.disk.dirs, Deploy(cfg, s, call, f).0.disk.dirs)
  {
    hide FolderToDeploy, ApartFolders, NothingUnder, CleanSoftware, Unpack, Under;
    var cleaned := CleanSoftware(s.disk, standby, f).0;
    CleanSoftwareKeepsDirs(s.disk, standby, f, active);
    UnpackKeepsDirs(cleaned, standby, cfg.unpack(call.content), |cfg.unpack(call.content)|, f.extract, active);
  }

  /** A rules call neither makes nor removes a directory in the folder out of use, under the like conditions. */
  lemma StandbyDirsSafe(cfg: Config, s: State, call: Call, f: Faults, active: Path)
    requires Layout(cfg) && s.disk.files.Keys !! s.disk.dirs
    requires s.symlink == Some(active) && OfThePair(cfg, active) && Other(cfg, active) in s.disk.dirs
    requires Under(active, GlobFolder(cfg, active))
      && NothingUnder(RulesDir(cfg, active), cfg.unpack(call.content), Other(cfg, active))
    requires ScratchPath(cfg, call) == Other(cfg, active) ==> !EmptyFolder(s.disk, Other(cfg, active))
    ensures SameDirs(Other(cfg, active), s.disk.dirs, Rules(cfg, s, call, f).0.disk.dirs)
  {
    hide Layout, OfThePair, GlobFolder, RulesDir, InstallRules, DropScratch, SameUnder, SameDirs, Under,
      ApartFolders, EqualFold, EmptyFolder, NothingUnder, Other;
    var at, taken, standby := ScratchPath(cfg, call), TakeLock(s, f).0, Other(cfg, active);
    DeploysToOther(cfg, active);
    LayoutKeepsScratchOut(cfg, standby);
    ScratchOutside(cfg, call, standby);
    NothingIsNone(RulesDir(cfg, active), cfg.unpack(call.content), standby);
    InstallRulesLeaves(cfg, taken, call, f, active, standby);
    InstallRulesKeepsDirs(cfg, taken, call, f, active, standby);
    DropScratchKeepsDirs(s.disk, InstallRules(cfg, taken, call, f).0.disk, at, f, standby);
    SameDirsSelf(standby, s.disk.dirs);
  }

  lemma InstallRulesKeepsDirs(cfg: Config, s: State, call: Call, f: Faults, active: Path, standby: Path)
    requires s.symlink == Some(active) && ApartFolders(standby, active) && Under(active, GlobFolder(cfg, active))
    requires NothingUnder(RulesDir(cfg, active), cfg.unpack(call.content), standby)
    ensures SameDirs(standby, s.disk.dirs, InstallRules(cfg, s, call, f).0.disk.dirs)
  {
    hide InstallRules, Fetch, DeployRules, RestartAndRecord, ApartFolders, NothingUnder, SameDirs, RulesDir,
      GlobFolder, Under;
    InstallRulesStages(cfg, s, call, f);
    var (disk, fetched) := Fetch(s.disk, ScratchPath(cfg, call), call, f);
    FetchKeepsDirs(s.disk, ScratchPath(cfg, call), call, f);
    SameDirsSelf(standby, s.disk.dirs);
    if fetched {
      DeployRulesKeepsDirs(cfg, s.(disk := disk), call, f, active, standby);
      RestartEffects(DeployRules(cfg, s.(disk := disk), call, f).0, call, f);
    }
  }

  lemma DeployRulesKeepsDirs(cfg: Config, s: State, call: Call, f: Faults, active: Path, standby: Path)
    requires s.symlink == Some(active) && ApartFolders(standby, active) && Under(active, GlobFolder(cfg, active))
    requires NothingUnder(RulesDir(cfg, active), cfg.unpack(call.content), standby)
    ensures SameDirs(standby, s.disk.dirs, DeployRules(cfg, s, call, f).0.disk.dirs)
  {
    hide ApartFolders, NothingUnder, GlobFolder, RulesDir, LastElement, CleanFiles, Unpack;
    var dir := GlobFolder(cfg, active);
    assert dir == active + dir[|active|..];
    ApartBelow(standby, active, dir[|active|..]);
    CleanFilesKeepsDirs(s.disk, dir, LastElement(cfg), ".rules", f.cleanFiles, standby);
    var cleaned := CleanRules(cfg, s.disk, active, f).0;
    UnpackKeepsDirs(cleaned, RulesDir(cfg, active), cfg.unpack(call.content), |cfg.unpack(call.content)|, f.extract,
      standby);
  }
}
