/** The sensor's installer: a pair of folders, a symlink to the one in use, a supervised service, a lock
    file and the record of installed versions. Every step can fail. */
module Sensor {
  import opened Tables
  import opened Schema
  import opened Archive
  import opened NetworkAgents
  import T = Text
  import L = ObjectLocation

  /** `rulesFolder` is the text of the setting, and `unpack` what gzip and tar make of a download. */
  datatype Config = Config(folderOne: Path, folderTwo: Path, rulesFolder: string, cfgFile: seq<string>, scratch: Path,
                           unpack: Bytes -> seq<Entry>)

  datatype Record = Readable(installed: Reported) | Unreadable

  datatype State = State(disk: Disk, symlink: Option<Path>, running: bool, record: Record, locked: bool)

  /** A download, and what the manifest said about it. */
  datatype Call = Call(content: Bytes, version: string, digest: Digest, url: string)

  /** How a stop ends: with the service stopped, with an error that left it running, or with one after it stopped. */
  datatype StopFault = Stopped | StillRunning | StoppedWithError

  /** How a start ends: with the service running, or with an error that left it stopped or running. */
  datatype StartFault = Started | NotStarted | StartedWithError

  /** How a restart ends: with the service running, with an error before or with one after it was stopped. */
  datatype RestartFault = Restarted | NotStopped | LeftStopped

  datatype WriteFault = Written | NotCreated | WrittenInPart(n: nat)

  /** Which steps fail. A removal of several files that fails has removed the given ones. */
  datatype Faults = Faults(
    lockStat: bool, lockCreate: bool, lockRemove: bool,
    write: WriteFault, hash: bool, scratchRemove: bool,
    realPath: bool, cleanBin: Option<set<Path>>, cleanFiles: Option<set<Path>>, extract: Fault,
    stop: StopFault, unlink: bool, link: bool, cfgStat: bool, start: StartFault, restart: RestartFault,
    load: bool, saveCreate: bool, saveWrite: bool)

  const NO_FAULTS: Faults :=
    Faults(false, false, false, Written, false, false, false, None, None, NoFault,
           Stopped, false, false, false, Started, Restarted, false, false, false)

  // ----- Lock and scratch file ------------------------------------------------------

  /** The lock is looked up, and created when it is missing; the call is refused only when it was there. */
  function TakeLock(s: State, f: Faults): (State, bool) {
    if f.lockStat then (s, false)
    else if s.locked then (s, true)
    else (s.(locked := !f.lockCreate), false)
  }

  /** Deferred before the lock is looked up, and so done on every exit, a refusal included. */
  function DropLock(s: State, f: Faults): State {
    s.(locked := s.locked && f.lockRemove)
  }

  predicate PlainName(name: string) {
    name != "" && name != "." && name != ".."
  }

  /** Write the download to the scratch folder and compare its hash with the manifest's. */
  function Fetch(disk: Disk, at: Path, call: Call, f: Faults): (Disk, bool)
    requires at != []
  {
    if f.write.NotCreated? || !PlainName(at[|at| - 1]) || !CanCreate(disk, at) then (disk, false)
    else if f.write.WrittenInPart? then
      (Write(disk, at, call.content[..if f.write.n < |call.content| then f.write.n else |call.content|]), false)
    else (Write(disk, at, call.content), !f.hash && Sha256(call.content) == call.digest)
  }

  predicate EmptyFolder(disk: Disk, p: Path) {
    && p in disk.dirs
    && (forall q | q in disk.dirs && Under(p, q) :: q == p)
    && (forall q | q in disk.files :: !Under(p, q))
  }

  /** os.Remove: a file, or a folder with nothing in it. */
  function RemoveAt(disk: Disk, p: Path): Disk {
    if p in disk.files then disk.(files := disk.files - {p})
    else if EmptyFolder(disk, p) then disk.(dirs := disk.dirs - {p})
    else disk
  }

  function DropScratch(disk: Disk, at: Path, f: Faults): Disk
    requires at != []
  {
    if f.scratchRemove || !PlainName(at[|at| - 1]) then disk else RemoveAt(disk, at)
  }

  // ----- Folders --------------------------------------------------------------------

  function RealPath(s: State, f: Faults): Option<Path> {
    if f.realPath || s.symlink.None? || s.symlink.value !in s.disk.dirs then None else s.symlink
  }

  predicate EqualFold(a: Path, b: Path) {
    |a| == |b| && forall i | 0 <= i < |a| :: Lower(a[i]) == Lower(b[i])
  }

  /** The folder of the pair that is not in use; none for a path that is neither. */
  function FolderToDeploy(cfg: Config, active: Path): Path {
    if EqualFold(active, cfg.folderOne) then cfg.folderTwo
    else if EqualFold(active, cfg.folderTwo) then cfg.folderOne
    else []
  }

  predicate StartsWith(s: string, t: string) {
    |s| >= |t| && s[..|t|] == t
  }

  /** The files and folders in `dir` that a pattern prefix*suffix matches. */
  function Matches(disk: Disk, dir: Path, prefix: string, suffix: string): set<Path> {
    set p | p in disk.files.Keys + disk.dirs && Matched(dir, prefix, suffix, p)
  }

  predicate Matched(dir: Path, prefix: string, suffix: string, p: Path) {
    |p| == |dir| + 1 && Under(dir, p) && StartsWith(p[|dir|], prefix) && EndsWith(p[|dir|], suffix)
    && |p[|dir|]| >= |prefix| + |suffix|
  }

  /** The order in which a glob lists names. */
  predicate NameBefore(a: string, b: string)
    decreases |a|
  {
    if b == "" then false
    else if a == "" then true
    else if a[0] == b[0] then NameBefore(a[1..], b[1..])
    else a[0] < b[0]
  }

  /** The matches os.Remove refuses: folders with something in them. */
  function Blocked(disk: Disk, dir: Path, prefix: string, suffix: string): set<Path> {
    set p | p in Matches(disk, dir, prefix, suffix) && p !in disk.files && !EmptyFolder(disk, p)
  }

  /** What is removed: the matches listed before the first refused one, or as many of them as the failure lets. */
  function Cleaned(disk: Disk, dir: Path, prefix: string, suffix: string, stops: Option<set<Path>>): set<Path> {
    set p | p in Matches(disk, dir, prefix, suffix) && (stops.None? || p in stops.value)
      && forall b | b in Blocked(disk, dir, prefix, suffix) :: NameBefore(p[|dir|], b[|dir|])
  }

  function Remove(disk: Disk, gone: set<Path>): Disk {
    Disk(disk.files - gone, disk.dirs - gone)
  }

  /** CleanupFilesInFolder */
  function CleanFiles(disk: Disk, dir: Path, prefix: string, suffix: string, stops: Option<set<Path>>): (Disk, bool) {
    (Remove(disk, Cleaned(disk, dir, prefix, suffix, stops)), stops.None? && Blocked(disk, dir, prefix, suffix) == {})
  }

  /** os.RemoveAll(p): everything at or below p, or the given part of it. */
  function RemoveAll(disk: Disk, p: Path, stops: Option<set<Path>>): (Disk, bool) {
    var files := set q | q in disk.files && Under(p, q) && (stops.None? || q in stops.value);
    var dirs := set q | q in disk.dirs && Under(p, q) && (stops.None? || q in stops.value);
    (Disk(disk.files - files, disk.dirs - dirs), stops.None?)
  }

  /** CleanupSoftwareFolder: the star is taken literally under bin, and an error under lib is ignored. */
  function CleanSoftware(disk: Disk, folder: Path, f: Faults): (Disk, bool) {
    var (after, ok) := RemoveAll(disk, folder + ["bin", "*"], f.cleanBin);
    if !ok then (after, false) else (CleanFiles(after, folder + ["lib"], "lib", "", f.cleanFiles).0, true)
  }

  // ----- Software -------------------------------------------------------------------

  /** Clean the folder out of use and unpack into it; its path, when that succeeds. */
  function Deploy(cfg: Config, s: State, call: Call, f: Faults): (State, Option<Path>) {
    var active := RealPath(s, f);
    if active.None? || active.value == [] then (s, None)
    else
      var folder := FolderToDeploy(cfg, active.value);
      if folder == [] then (s, None)
      else
        var (cleaned, ok) := CleanSoftware(s.disk, folder, f);
        if !ok then (s.(disk := cleaned), None)
        else
          var (disk, unpacked) := Extract(cleaned, folder, cfg.unpack(call.content), f.extract);
          (s.(disk := disk), if unpacked then Some(folder) else None)
  }

  /** Remove the symlink, then make it anew. */
  function Relink(s: State, folder: Path, f: Faults): (State, bool) {
    if f.unlink || s.symlink.None? then (s, false)
    else if f.link then (s.(symlink := None), false)
    else (s.(symlink := Some(folder)), true)
  }

  function SaveRecord(s: State, installed: Reported, f: Faults): (State, bool) {
    if f.saveCreate then (s, false)
    else if f.saveWrite then (s.(record := Unreadable), false)
    else (s.(record := Readable(installed)), true)
  }

  function RecordSoftware(s: State, call: Call, f: Faults): (State, bool) {
    if f.load || s.record.Unreadable? then (s, false)
    else SaveRecord(s, s.record.installed.(software := Installed(call.version, call.digest)), f)
  }

  /** Start the service if the folder has its configuration, and write the record. */
  function StartAndRecord(cfg: Config, s: State, folder: Path, call: Call, f: Faults): (State, bool) {
    var cfgPath := folder + cfg.cfgFile;
    if f.cfgStat || !(cfgPath in s.disk.files || cfgPath in s.disk.dirs) then RecordSoftware(s, call, f)
    else
      match f.start
      case NotStarted => (s, false)
      case StartedWithError => (s.(running := true), false)
      case Started => RecordSoftware(s.(running := true), call, f)
  }

  /** Stop the service, flip the symlink, start the service, write the record. */
  function Switch(cfg: Config, s: State, folder: Path, call: Call, f: Faults): (State, bool) {
    if f.stop.StillRunning? then (s, false)
    else if f.stop.StoppedWithError? then (s.(running := false), false)
    else
      var (linked, ok) := Relink(s.(running := false), folder, f);
      if !ok then (linked, false) else StartAndRecord(cfg, linked, folder, call, f)
  }

  function ScratchPath(cfg: Config, call: Call): Path {
    cfg.scratch + [L.AfterLastSlash(call.url)]
  }

  function InstallSoftware(cfg: Config, s: State, call: Call, f: Faults): (State, bool) {
    var (disk, fetched) := Fetch(s.disk, ScratchPath(cfg, call), call, f);
    if !fetched then (s.(disk := disk), false)
    else
      var (deployed, folder) := Deploy(cfg, s.(disk := disk), call, f);
      if folder.None? then (deployed, false) else Switch(cfg, deployed, folder.value, call, f)
  }

  /** UpateSoftwareNow: the state after, and whether it answers SUCCESS. */
  function Software(cfg: Config, s: State, call: Call, f: Faults): (State, bool) {
    var (taken, refused) := TakeLock(s, f);
    if refused || L.AfterLastSlash(call.url) == "" then (DropLock(taken, f), false)
    else
      var (after, ok) := InstallSoftware(cfg, taken, call, f);
      (DropLock(after.(disk := DropScratch(after.disk, ScratchPath(cfg, call), f)), f), ok)
  }

  // ----- Rules ----------------------------------------------------------------------

  /** What the setting says after its last slash. */
  function LastElement(cfg: Config): string {
    L.AfterLastSlash(cfg.rulesFolder)
  }

  /** The folder in which the rules folder's last element is looked up. */
  function GlobFolder(cfg: Config, active: Path): Path {
    Join(active, T.Parts(cfg.rulesFolder[..|cfg.rulesFolder| - |LastElement(cfg)|], '/'))
  }

  /** The rules folder of a deployed folder; the same as the one before when the setting is empty or ends in a slash. */
  function RulesDir(cfg: Config, active: Path): Path {
    Descend(GlobFolder(cfg, active), LastElement(cfg))
  }

  /** The glob is the text of the folder with "*.rules" appended, and no slash between them. */
  function CleanRules(cfg: Config, disk: Disk, active: Path, f: Faults): (Disk, bool) {
    CleanFiles(disk, GlobFolder(cfg, active), LastElement(cfg), ".rules", f.cleanFiles)
  }

  function RecordRules(s: State, call: Call, f: Faults): (State, bool) {
    if f.load || s.record.Unreadable? then (s, false)
    else SaveRecord(s, s.record.installed.(rules := Installed(call.version, call.digest)), f)
  }

  /** Clean the rules folder of the folder in use and unpack into it. */
  function DeployRules(cfg: Config, s: State, call: Call, f: Faults): (State, bool) {
    var active := RealPath(s, f);
    if active.None? then (s, false)
    else
      var (cleaned, ok) := CleanRules(cfg, s.disk, active.value, f);
      if !ok then (s.(disk := cleaned), false)
      else
        var (disk, unpacked) := Extract(cleaned, RulesDir(cfg, active.value), cfg.unpack(call.content), f.extract);
        (s.(disk := disk), unpacked)
  }

  function RestartAndRecord(s: State, call: Call, f: Faults): (State, bool) {
    match f.restart
    case NotStopped => (s, false)
    case LeftStopped => (s.(running := false), false)
    case Restarted => RecordRules(s.(running := true), call, f)
  }

  function InstallRules(cfg: Config, s: State, call: Call, f: Faults): (State, bool) {
    var (disk, fetched) := Fetch(s.disk, ScratchPath(cfg, call), call, f);
    if !fetched then (s.(disk := disk), false)
    else
      var (deployed, ok) := DeployRules(cfg, s.(disk := disk), call, f);
      if !ok then (deployed, false) else RestartAndRecord(deployed, call, f)
  }

  /** UpateRulesNow: the state after, and whether it answers SUCCESS. */
  function Rules(cfg: Config, s: State, call: Call, f: Faults): (State, bool) {
    var (taken, refused) := TakeLock(s, f);
    if refused || L.AfterLastSlash(call.url) == "" then (DropLock(taken, f), false)
    else
      var (after, ok) := InstallRules(cfg, taken, call, f);
      (DropLock(after.(disk := DropScratch(after.disk, ScratchPath(cfg, call), f)), f), ok)
  }

  // ----- The program ----------------------------------------------------------------

  class Updater {
    const cfg: Config
    const fs: Filesystem
    var symlink: Option<Path>
    var running: bool
    var record: Record
    var locked: bool

    function Snapshot(): State
      reads this, fs
    {
      State(fs.disk, symlink, running, record, locked)
    }

    constructor (cfg: Config, s: State)
      ensures this.cfg == cfg && Snapshot() == s && fresh(fs)
    {
      this.cfg := cfg;
      fs := new Filesystem(s.disk);
      symlink, running, record, locked := s.symlink, s.running, s.record, s.locked;
    }

    /** Is an update in progress? If not, there is now. */
    method IsUpdateInProgress(f: Faults) returns (refused: bool)
      modifies this`locked
      ensures (Snapshot(), refused) == TakeLock(old(Snapshot()), f)
    {
      if f.lockStat {
        return false;
      }
      if locked {
        return true;
      }
      if !f.lockCreate {
        locked := true;
      }
      return false;
    }

    method RemoveUpdateLock(f: Faults)
      modifies this`locked
      ensures Snapshot() == DropLock(old(Snapshot()), f)
    {
      if !f.lockRemove {
        locked := false;
      }
    }

    method WriteAndVerify(call: Call, f: Faults) returns (ok: bool)
      modifies fs
      ensures (fs.disk, ok) == Fetch(old(fs.disk), ScratchPath(cfg, call), call, f)
    {
      var at := ScratchPath(cfg, call);
      if f.write.NotCreated? || !PlainName(at[|at| - 1]) || !CanCreate(fs.disk, at) {
        return false;
      }
      if f.write.WrittenInPart? {
        fs.disk := Write(fs.disk, at, call.content[..if f.write.n < |call.content| then f.write.n else |call.content|]);
        return false;
      }
      fs.disk := Write(fs.disk, at, call.content);
      if f.hash {
        return false;
      }
      return Sha256(fs.disk.files[at]) == call.digest;
    }

    method CleanupFilesInFolder(dir: Path, prefix: string, suffix: string, stops: Option<set<Path>>) returns (ok: bool)
      modifies fs
      ensures (fs.disk, ok) == CleanFiles(old(fs.disk), dir, prefix, suffix, stops)
    {
      var todo := Cleaned(fs.disk, dir, prefix, suffix, stops);
      ok := stops.None? && Blocked(fs.disk, dir, prefix, suffix) == {};
      ghost var all := todo;
      while todo != {}
        invariant todo <= all
        invariant fs.disk == Remove(old(fs.disk), all - todo)
        decreases todo
      {
        var p :| p in todo;
        todo := todo - {p};
        fs.disk := Remove(fs.disk, {p});
        assert fs.disk.files == old(fs.disk).files - (all - todo);
        assert fs.disk.dirs == old(fs.disk).dirs - (all - todo);
      }
      assert all - {} == all;
    }

    method CleanupSoftwareFolder(folder: Path, f: Faults) returns (ok: bool)
      modifies fs
      ensures (fs.disk, ok) == CleanSoftware(old(fs.disk), folder, f)
    {
      var (cleaned, removed) := RemoveAll(fs.disk, folder + ["bin", "*"], f.cleanBin);
      fs.disk := cleaned;
      if !removed {
        return false;
      }
      var _ := CleanupFilesInFolder(folder + ["lib"], "lib", "", f.cleanFiles);
      return true;
    }

    method DeploySoftware(call: Call, f: Faults) returns (folder: Option<Path>)
      modifies fs
      ensures (Snapshot(), folder) == Deploy(cfg, old(Snapshot()), call, f)
    {
      if f.realPath || symlink.None? || symlink.value !in fs.disk.dirs {
        return None;
      }
      var active := symlink.value;
      if active == [] {
        return None;
      }
      var target := FolderToDeploy(cfg, active);
      if target == [] {
        return None;
      }
      var ok := CleanupSoftwareFolder(target, f);
      if !ok {
        return None;
      }
      ok := fs.ExtractTarGz(target, cfg.unpack(call.content), f.extract);
      return if ok then Some(target) else None;
    }

    method UnlinkAndLink(folder: Path, f: Faults) returns (ok: bool)
      modifies this`symlink
      ensures (Snapshot(), ok) == Relink(old(Snapshot()), folder, f)
    {
      if f.unlink || symlink.None? {
        return false;
      }
      symlink := None;
      if f.link {
        return false;
      }
      symlink := Some(folder);
      return true;
    }

    method SaveJSONConfig(installed: Reported, f: Faults) returns (ok: bool)
      modifies this`record
      ensures (Snapshot(), ok) == SaveRecord(old(Snapshot()), installed, f)
    {
      if f.saveCreate {
        return false;
      }
      if f.saveWrite {
        record := Unreadable;
        return false;
      }
      record := Readable(installed);
      return true;
    }

    method SwitchOver(folder: Path, call: Call, f: Faults) returns (ok: bool)
      modifies this`running, this`symlink, this`record
      ensures (Snapshot(), ok) == Switch(cfg, old(Snapshot()), folder, call, f)
    {
      if f.stop.StillRunning? {
        return false;
      }
      running := false;
      if f.stop.StoppedWithError? {
        return false;
      }
      ok := UnlinkAndLink(folder, f);
      if !ok {
        return false;
      }
      var cfgPath := folder + cfg.cfgFile;
      if !f.cfgStat && (cfgPath in fs.disk.files || cfgPath in fs.disk.dirs) {
        if f.start.NotStarted? {
          return false;
        }
        running := true;
        if f.start.StartedWithError? {
          return false;
        }
      }
      if f.load || record.Unreadable? {
        return false;
      }
      ok := SaveJSONConfig(record.installed.(software := Installed(call.version, call.digest)), f);
    }

    method UpateSoftwareNow(call: Call, f: Faults) returns (ok: bool)
      modifies this, fs
      ensures (Snapshot(), ok) == Software(cfg, old(Snapshot()), call, f)
    {
      hide Fetch, Deploy, Switch, DropScratch;
      var refused := IsUpdateInProgress(f);
      if refused || L.AfterLastSlash(call.url) == "" {
        RemoveUpdateLock(f);
        return false;
      }
      ok := WriteAndVerify(call, f);
      if ok {
        var folder := DeploySoftware(call, f);
        if folder.None? {
          ok := false;
        } else {
          ok := SwitchOver(folder.value, call, f);
        }
      }
      fs.disk := DropScratch(fs.disk, ScratchPath(cfg, call), f);
      RemoveUpdateLock(f);
    }

    method DeployRulesNow(call: Call, f: Faults) returns (ok: bool)
      modifies fs
      ensures (Snapshot(), ok) == DeployRules(cfg, old(Snapshot()), call, f)
    {
      hide GlobFolder, LastElement, RulesDir, CleanFiles, Extract;
      if f.realPath || symlink.None? || symlink.value !in fs.disk.dirs {
        return false;
      }
      var active := symlink.value;
      ok := CleanupFilesInFolder(GlobFolder(cfg, active), LastElement(cfg), ".rules", f.cleanFiles);
      if !ok {
        return false;
      }
      ok := fs.ExtractTarGz(RulesDir(cfg, active), cfg.unpack(call.content), f.extract);
    }

    method UpateRulesNow(call: Call, f: Faults) returns (ok: bool)
      modifies this, fs
      ensures (Snapshot(), ok) == Rules(cfg, old(Snapshot()), call, f)
    {
      hide Fetch, DeployRules, RestartAndRecord, DropScratch;
      var refused := IsUpdateInProgress(f);
      if refused || L.AfterLastSlash(call.url) == "" {
        RemoveUpdateLock(f);
        return false;
      }
      ok := WriteAndVerify(call, f);
      if ok {
        ok := DeployRulesNow(call, f);
        if ok {
          ok := RestartService(call, f);
        }
      }
      fs.disk := DropScratch(fs.disk, ScratchPath(cfg, call), f);
      RemoveUpdateLock(f);
    }

    method RestartService(call: Call, f: Faults) returns (ok: bool)
      modifies this`running, this`record
      ensures (Snapshot(), ok) == RestartAndRecord(old(Snapshot()), call, f)
    {
      if f.restart.NotStopped? {
        return false;
      }
      if f.restart.LeftStopped? {
        running := false;
        return false;
      }
      running := true;
      if f.load || record.Unreadable? {
        return false;
      }
      ok := SaveJSONConfig(record.installed.(rules := Installed(call.version, call.digest)), f);
    }
  }
}
