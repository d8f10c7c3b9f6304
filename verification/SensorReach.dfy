/** Exactly which downloads endanger the folder in use. */
module SensorReach {
  import opened Tables
  import opened Schema
  import opened Archive
  import opened ArchiveReach
  import opened NetworkAgents
  import opened Sensor
  import opened SensorSafety
  import L = ObjectLocation

  /** The folder in use and the scratch folder are there, and after the cleaning nothing is left below bin/"*". */
  function KnownWhenUnpacking(cfg: Config, active: Path): Known {
    Known({active, cfg.scratch}, Some(Other(cfg, active) + ["bin", "*"]))
  }

  /** Some file of the archive, unpacked into the other folder, can be laid out in the folder in use. */
  predicate ReachesActive(cfg: Config, active: Path, entries: seq<Entry>) {
    Reaches(Other(cfg, active), entries, active, KnownWhenUnpacking(cfg, active))
  }

  predicate InUse(cfg: Config, s: State, active: Path) {
    TreeShaped(s.disk) && s.symlink == Some(active) && active in s.disk.dirs
  }

  // ----- Safe when not reached ------------------------------------------------------

  lemma RemoveAllKeepsTree(disk: Disk, p: Path)
    requires TreeShaped(disk) && p != []
    ensures var after := RemoveAll(disk, p, None).0;
      TreeShaped(after) && (forall q :: q in after.dirs <==> q in disk.dirs && !Under(p, q))
  {
    var after := RemoveAll(disk, p, None).0;
    forall q, i | q in after.dirs && 0 <= i <= |q| ensures q[..i] in after.dirs {
      assert Under(p, q[..i]) ==> Under(p, q);
    }
    forall q, i | q in after.files && 0 <= i < |q| ensures q[..i] in after.dirs {
      assert Under(p, q[..i]) ==> Under(p, q);
    }
  }

  lemma {:induction false} NotBeforeItself(a: string)
    ensures !NameBefore(a, a)
    decreases |a|
  {
    if a != "" {
      NotBeforeItself(a[1..]);
    }
  }

  lemma CleanedIsRemovable(disk: Disk, dir: Path, prefix: string, suffix: string, stops: Option<set<Path>>, p: Path)
    requires p in Cleaned(disk, dir, prefix, suffix, stops)
    ensures |p| == |dir| + 1 && Under(dir, p) && (p in disk.files || EmptyFolder(disk, p))
  {
    NotBeforeItself(p[|dir|]);
  }

  lemma CleanFilesKeepsTree(disk: Disk, dir: Path, prefix: string, suffix: string, stops: Option<set<Path>>)
    requires TreeShaped(disk)
    ensures var after := CleanFiles(disk, dir, prefix, suffix, stops).0;
      TreeShaped(after) && after.dirs <= disk.dirs && forall q | q in disk.dirs && !Under(dir, q) :: q in after.dirs
  {
    hide Cleaned, EmptyFolder;
    var gone := Cleaned(disk, dir, prefix, suffix, stops);
    var after := CleanFiles(disk, dir, prefix, suffix, stops).0;
    forall q | q in gone ensures |q| > 0 && Under(dir, q) {
      CleanedIsRemovable(disk, dir, prefix, suffix, stops, q);
    }
    forall q, i | q in after.dirs && 0 <= i <= |q| ensures q[..i] in after.dirs {
      if q[..i] in gone {
        CleanedIsRemovable(disk, dir, prefix, suffix, stops, q[..i]);
        NothingBelow(disk, q[..i], q);
      }
    }
    forall q, i | q in after.files && 0 <= i < |q| ensures q[..i] in after.dirs {
      if q[..i] in gone {
        CleanedIsRemovable(disk, dir, prefix, suffix, stops, q[..i]);
        NothingBelow(disk, q[..i], q);
      }
    }
  }

  lemma NothingBelow(disk: Disk, p: Path, q: Path)
    requires TreeShaped(disk) && (p in disk.files || EmptyFolder(disk, p)) && p in disk.dirs && Under(p, q)
    ensures q in disk.dirs ==> q == p
    ensures q !in disk.files
  {
  }

  lemma CleanSoftwareFits(cfg: Config, disk: Disk, f: Faults, active: Path)
    requires Layout(cfg) && OfThePair(cfg, active) && TreeShaped(disk) && active in disk.dirs
      && cfg.scratch in disk.dirs
    requires CleanSoftware(disk, Other(cfg, active), f).1
    ensures Fits(CleanSoftware(disk, Other(cfg, active), f).0, KnownWhenUnpacking(cfg, active))
  {
    hide TreeShaped, Layout, RemoveAll, CleanFiles;
    var standby := Other(cfg, active);
    var star := standby + ["bin", "*"];
    DeploysToOther(cfg, active);
    LayoutKeepsScratchOut(cfg, standby);
    var removed := RemoveAll(disk, star, None).0;
    RemoveAllFaults(disk, star, f.cleanBin);
    RemoveAllKeepsTree(disk, star);
    CleanFilesKeepsTree(removed, standby + ["lib"], "lib", "", f.cleanFiles);
    NotUnder(standby, ["bin", "*"], active);
    NotUnder(standby, ["bin", "*"], cfg.scratch);
    NotUnder(standby, ["lib"], active);
    NotUnder(standby, ["lib"], cfg.scratch);
  }

  lemma RemoveAllFaults(disk: Disk, p: Path, stops: Option<set<Path>>)
    ensures RemoveAll(disk, p, stops).1 <==> stops == None
  {
  }

  lemma NotUnder(folder: Path, below: seq<string>, p: Path)
    requires !Under(folder, p) || (folder == p && below != [])
    ensures !Under(folder + below, p)
  {
  }

  lemma UnreachedIsSafe(cfg: Config, s: State, call: Call, f: Faults, active: Path)
    requires Layout(cfg) && OfThePair(cfg, active) && InUse(cfg, s, active)
    requires !ReachesActive(cfg, active, cfg.unpack(call.content))
    ensures SameUnder(active, s.disk.files, Software(cfg, s, call, f).0.disk.files)
  {
    hide Layout, TreeShaped, CleanSoftware, Extract, Software, Reaches, Fits, SameUnder;
    var standby := Other(cfg, active);
    var (disk, fetched) := Fetch(s.disk, ScratchPath(cfg, call), call, f);
    NothingBoth(s.disk);
    if fetched {
      FetchKeepsTree(cfg, s.disk, call, f);
      var (cleaned, ok) := CleanSoftware(disk, standby, f);
      if ok {
        CleanSoftwareFits(cfg, disk, f, active);
        ExtractUnreached(cleaned, standby, cfg.unpack(call.content), f.extract, active,
          KnownWhenUnpacking(cfg, active));
      }
    }
    ActiveFolderKept(cfg, s, call, f, active);
  }

  lemma NothingBoth(disk: Disk)
    requires TreeShaped(disk)
    ensures disk.files.Keys !! disk.dirs
  {
  }

  lemma ExtractUnreached(disk: Disk, dest: Path, entries: seq<Entry>, fault: Fault, folder: Path, known: Known)
    requires Fits(disk, known) && !Reaches(dest, entries, folder, known)
    ensures SameUnder(folder, disk.files, Extract(disk, dest, entries, fault).0.files)
  {
    hide Fits, Reaches, SameUnder, Unpack;
    UnreachedIsSame(disk, dest, entries, |entries|, fault, folder, known);
  }

  lemma FetchKeepsTree(cfg: Config, disk: Disk, call: Call, f: Faults)
    requires TreeShaped(disk) && Fetch(disk, ScratchPath(cfg, call), call, f).1
    ensures var after := Fetch(disk, ScratchPath(cfg, call), call, f).0;
      TreeShaped(after) && after.dirs == disk.dirs && cfg.scratch in disk.dirs
  {
    hide TreeShaped;
    WriteKeepsTree(disk, ScratchPath(cfg, call), call.content);
    var at := ScratchPath(cfg, call);
    assert at[..|at| - 1] == cfg.scratch;
  }

  // ----- Written when reached -------------------------------------------------------

  function Longest(p: Path): (m: nat)
    ensures forall i | 0 <= i < |p| :: |p[i]| <= m
  {
    if p == [] then 0
    else
      var rest := Longest(p[1..]);
      if |p[0]| > rest then |p[0]| else rest
  }

  function LongestTarget(dest: Path, entries: seq<Entry>): (m: nat)
    ensures forall j, i | 0 <= j < |entries| && 0 <= i < |Target(dest, entries[j])| ::
      |Target(dest, entries[j])[i]| <= m
  {
    if entries == [] then 0
    else
      var n := |entries| - 1;
      var rest, here := LongestTarget(dest, entries[..n]), Longest(Target(dest, entries[n]));
      if here > rest then here else rest
  }

  function Max(a: nat, b: nat): nat {
    if a > b then a else b
  }

  /** A name longer than every element the archive, the folder in use and the scratch folder have. */
  function LongName(n: nat): (s: string)
    ensures |s| == n + 3 && s[0] == 'x' && '/' !in s && PlainName(s)
  {
    seq(n + 3, _ => 'x')
  }

  function Bound(cfg: Config, active: Path, entries: seq<Entry>): nat {
    Max(LongestTarget(Other(cfg, active), entries), Max(Longest(active), Longest(cfg.scratch)))
  }

  predicate Short(p: Path, m: nat) {
    forall i | 0 <= i < |p| :: |p[i]| <= m
  }

  /** The folders of the archive, each with one more folder in it that keeps the cleaning from removing it. */
  function WitnessFolders(cfg: Config, active: Path, entries: seq<Entry>, n: nat): set<Path>
    requires n <= |entries|
  {
    var folders := Folders(Other(cfg, active), entries, n, KnownWhenUnpacking(cfg, active));
    folders + set p | p in folders :: p + [LongName(Bound(cfg, active, entries))]
  }

  function WitnessState(cfg: Config, active: Path, entries: seq<Entry>, n: nat): State
    requires n <= |entries|
  {
    var none := Installed("", NoDigest);
    State(Disk(map[], WitnessFolders(cfg, active, entries, n)), Some(active), true,
      Readable(Reported(none, none, none)), false)
  }

  function WitnessCall(cfg: Config, active: Path, content: Bytes): Call {
    Call(content, "1", Sha256(content), LongName(Bound(cfg, active, cfg.unpack(content)) + 1))
  }

  lemma FoldersAreShort(cfg: Config, active: Path, entries: seq<Entry>, n: nat, p: Path)
    requires n <= |entries| && p in Folders(Other(cfg, active), entries, n, KnownWhenUnpacking(cfg, active))
    ensures Short(p, Bound(cfg, active, entries))
  {
  }

  lemma WitnessIsTree(cfg: Config, active: Path, entries: seq<Entry>, n: nat)
    requires Layout(cfg) && OfThePair(cfg, active) && n <= |entries|
    ensures InUse(cfg, WitnessState(cfg, active, entries, n), active)
    ensures cfg.scratch in WitnessFolders(cfg, active, entries, n)
  {
    hide Folders, Layout, LongName;
    var folders := Folders(Other(cfg, active), entries, n, KnownWhenUnpacking(cfg, active));
    var dirs := WitnessFolders(cfg, active, entries, n);
    KnownFitsLayout(cfg, active);
    WitnessFits(Other(cfg, active), entries, n, KnownWhenUnpacking(cfg, active));
    forall p, i | p in dirs && 0 <= i <= |p| ensures p[..i] in dirs {
      if p !in folders && i < |p| {
        assert p[..i] == p[..|p| - 1][..i];
      } else {
        assert i == |p| ==> p[..i] == p;
      }
    }
  }

  lemma KnownFitsLayout(cfg: Config, active: Path)
    requires Layout(cfg) && OfThePair(cfg, active)
    ensures var known := KnownWhenUnpacking(cfg, active);
      known.bare.value != [] && forall p | p in known.present :: !Under(known.bare.value, p)
  {
    hide Layout;
    var standby := Other(cfg, active);
    DeploysToOther(cfg, active);
    LayoutKeepsScratchOut(cfg, standby);
    NotUnder(standby, ["bin", "*"], active);
    NotUnder(standby, ["bin", "*"], cfg.scratch);
  }

  /** The download lies in the scratch folder, and the cleaning takes nothing. */
  lemma WitnessIsFetched(cfg: Config, active: Path, content: Bytes, n: nat)
    requires Layout(cfg) && OfThePair(cfg, active) && n <= |cfg.unpack(content)|
    ensures var s, call := WitnessState(cfg, active, cfg.unpack(content), n), WitnessCall(cfg, active, content);
      Fetch(s.disk, ScratchPath(cfg, call), call, NO_FAULTS) == (Write(s.disk, ScratchPath(cfg, call), content), true)
  {
    hide Folders, Layout, LongName;
    var s, call := WitnessState(cfg, active, cfg.unpack(content), n), WitnessCall(cfg, active, content);
    WitnessIsTree(cfg, active, cfg.unpack(content), n);
    WholeName(call.url);
    NotAWitnessFolder(cfg, active, content, n);
    var at := ScratchPath(cfg, call);
    assert at[..|at| - 1] == cfg.scratch;
  }

  lemma WholeName(name: string)
    requires '/' !in name
    ensures L.AfterLastSlash(name) == name
  {
    L.NoSlashTail(name);
  }

  lemma NotAWitnessFolder(cfg: Config, active: Path, content: Bytes, n: nat)
    requires n <= |cfg.unpack(content)|
    ensures ScratchPath(cfg, WitnessCall(cfg, active, content)) !in WitnessFolders(cfg, active, cfg.unpack(content), n)
  {
    hide Folders, Bound;
    var entries := cfg.unpack(content);
    var m := Bound(cfg, active, entries);
    var at := ScratchPath(cfg, WitnessCall(cfg, active, content));
    var folders := Folders(Other(cfg, active), entries, n, KnownWhenUnpacking(cfg, active));
    WholeName(WitnessCall(cfg, active, content).url);
    assert |at[|cfg.scratch|]| == m + 4 && at[|at| - 1] == at[|cfg.scratch|];
    if at in folders {
      FoldersAreShort(cfg, active, entries, n, at);
    }
    forall p | p in folders ensures p + [LongName(m)] != at {
      assert (p + [LongName(m)])[|p + [LongName(m)]| - 1] == LongName(m);
    }
  }

  lemma WitnessIsNotCleaned(cfg: Config, active: Path, content: Bytes, n: nat)
    requires Layout(cfg) && OfThePair(cfg, active) && n <= |cfg.unpack(content)|
    ensures var s, call := WitnessState(cfg, active, cfg.unpack(content), n), WitnessCall(cfg, active, content);
      var disk := Write(s.disk, ScratchPath(cfg, call), content);
      CleanSoftware(disk, Other(cfg, active), NO_FAULTS) == (disk, true)
  {
    hide Folders, Layout, LongName, Bound, RemoveAll, CleanFiles, Other;
    var entries := cfg.unpack(content);
    var s, call := WitnessState(cfg, active, entries, n), WitnessCall(cfg, active, content);
    var disk := Write(s.disk, ScratchPath(cfg, call), content);
    StarTakesNothing(cfg, active, content, n);
    LibTakesNothing(cfg, active, content, n);
  }

  lemma AtIsOutside(cfg: Config, active: Path, content: Bytes, below: seq<string>)
    requires Layout(cfg) && OfThePair(cfg, active) && below != []
    ensures !Under(Other(cfg, active) + below, ScratchPath(cfg, WitnessCall(cfg, active, content)))
  {
    hide Layout, WitnessCall;
    var standby, call := Other(cfg, active), WitnessCall(cfg, active, content);
    DeploysToOther(cfg, active);
    LayoutKeepsScratchOut(cfg, standby);
    ScratchOutside(cfg, call, standby);
    NotUnder(standby, below, ScratchPath(cfg, call));
  }

  lemma NothingToRemove(disk: Disk, p: Path)
    requires forall q | q in disk.files || q in disk.dirs :: !Under(p, q)
    ensures RemoveAll(disk, p, None) == (disk, true)
  {
    assert RemoveAll(disk, p, None).0.files == disk.files;
    assert RemoveAll(disk, p, None).0.dirs == disk.dirs;
  }

  lemma WitnessNotUnderStar(cfg: Config, active: Path, entries: seq<Entry>, n: nat, q: Path)
    requires Layout(cfg) && OfThePair(cfg, active) && n <= |entries| && q in WitnessFolders(cfg, active, entries, n)
    ensures !Under(Other(cfg, active) + ["bin", "*"], q)
  {
    hide Folders, Layout, OfThePair, Bound, Other, TreeShaped;
    var star := Other(cfg, active) + ["bin", "*"];
    KnownFitsLayout(cfg, active);
    WitnessFits(Other(cfg, active), entries, n, KnownWhenUnpacking(cfg, active));
    var folders := Folders(Other(cfg, active), entries, n, KnownWhenUnpacking(cfg, active));
    if q !in folders {
      var p :| p in folders && q == p + [LongName(Bound(cfg, active, entries))];
      assert !Under(star, p);
      assert q[|q| - 1] == LongName(Bound(cfg, active, entries)) != "*";
      if |q| == |star| {
        assert star[|star| - 1] == "*";
      } else {
        assert q[..|q| - 1] == p;
      }
    }
  }

  lemma StarTakesNothing(cfg: Config, active: Path, content: Bytes, n: nat)
    requires Layout(cfg) && OfThePair(cfg, active) && n <= |cfg.unpack(content)|
    ensures var s, call := WitnessState(cfg, active, cfg.unpack(content), n), WitnessCall(cfg, active, content);
      var disk := Write(s.disk, ScratchPath(cfg, call), content);
      RemoveAll(disk, Other(cfg, active) + ["bin", "*"], None) == (disk, true)
  {
    hide WitnessFolders, Layout, OfThePair, Bound, RemoveAll, Other, WitnessCall, ScratchPath, Under;
    var s, call := WitnessState(cfg, active, cfg.unpack(content), n), WitnessCall(cfg, active, content);
    var disk := Write(s.disk, ScratchPath(cfg, call), content);
    AtIsOutside(cfg, active, content, ["bin", "*"]);
    forall q | q in disk.dirs ensures !Under(Other(cfg, active) + ["bin", "*"], q) {
      WitnessNotUnderStar(cfg, active, cfg.unpack(content), n, q);
    }
    NothingToRemove(disk, Other(cfg, active) + ["bin", "*"]);
  }

  lemma LibTakesNothing(cfg: Config, active: Path, content: Bytes, n: nat)
    requires Layout(cfg) && OfThePair(cfg, active) && n <= |cfg.unpack(content)|
    ensures var s, call := WitnessState(cfg, active, cfg.unpack(content), n), WitnessCall(cfg, active, content);
      var disk := Write(s.disk, ScratchPath(cfg, call), content);
      CleanFiles(disk, Other(cfg, active) + ["lib"], "lib", "", None).0 == disk
  {
    hide Folders, Layout, Bound, Cleaned;
    var entries := cfg.unpack(content);
    var s, call := WitnessState(cfg, active, entries, n), WitnessCall(cfg, active, content);
    var disk := Write(s.disk, ScratchPath(cfg, call), content);
    var dir := Other(cfg, active) + ["lib"];
    forall p ensures p !in Cleaned(disk, dir, "lib", "", None) {
      NoWitnessCleaned(cfg, active, content, n, p);
    }
    assert Cleaned(disk, dir, "lib", "", None) == {};
    assert disk.files - {} == disk.files && disk.dirs - {} == disk.dirs;
  }

  lemma NoWitnessCleaned(cfg: Config, active: Path, content: Bytes, n: nat, p: Path)
    requires Layout(cfg) && OfThePair(cfg, active) && n <= |cfg.unpack(content)|
    ensures var s, call := WitnessState(cfg, active, cfg.unpack(content), n), WitnessCall(cfg, active, content);
      p !in Cleaned(Write(s.disk, ScratchPath(cfg, call), content), Other(cfg, active) + ["lib"], "lib", "", None)
  {
    hide Folders, Layout, OfThePair, Bound, Cleaned, Blocked, WitnessCall, ScratchPath, Other;
    var entries := cfg.unpack(content);
    var s, call := WitnessState(cfg, active, entries, n), WitnessCall(cfg, active, content);
    var disk := Write(s.disk, ScratchPath(cfg, call), content);
    var dir := Other(cfg, active) + ["lib"];
    var x := LongName(Bound(cfg, active, entries));
    AtIsOutside(cfg, active, content, ["lib"]);
    NotAWitnessFolder(cfg, active, content, n);
    OnlyMatchesCleaned(disk, dir, "lib", "", p);
    if p in Folders(Other(cfg, active), entries, n, KnownWhenUnpacking(cfg, active)) {
      assert p + [x] in disk.dirs && Under(p, p + [x]) && p + [x] != p;
      FullIsNotCleaned(disk, dir, "lib", "", p, p + [x]);
    } else if p in WitnessFolders(cfg, active, entries, n) {
      assert p[|p| - 1] == x;
    }
  }

  lemma OnlyMatchesCleaned(disk: Disk, dir: Path, prefix: string, suffix: string, p: Path)
    ensures p in Cleaned(disk, dir, prefix, suffix, None) ==>
      Matched(dir, prefix, suffix, p) && (p in disk.files || p in disk.dirs)
  {
  }

  lemma FullIsNotCleaned(disk: Disk, dir: Path, prefix: string, suffix: string, p: Path, q: Path)
    requires q in disk.dirs && Under(p, q) && q != p && p !in disk.files
    ensures p !in Cleaned(disk, dir, prefix, suffix, None)
  {
    if Matched(dir, prefix, suffix, p) && p in disk.dirs {
      assert p in Blocked(disk, dir, prefix, suffix);
      NotBeforeItself(p[|dir|]);
    }
  }

  lemma WitnessIsReady(cfg: Config, active: Path, content: Bytes, n: nat)
    requires n <= |cfg.unpack(content)|
      && LaysOut(Other(cfg, active), cfg.unpack(content), n, KnownWhenUnpacking(cfg, active))
    ensures var s, call := WitnessState(cfg, active, cfg.unpack(content), n), WitnessCall(cfg, active, content);
      Ready(Write(s.disk, ScratchPath(cfg, call), content), Other(cfg, active), cfg.unpack(content), n)
  {
    hide WitnessFolders, Folders, LaysOut, Ready, Other, FileOf, Bound;
    var entries, dest := cfg.unpack(content), Other(cfg, active);
    var s, call := WitnessState(cfg, active, entries, n), WitnessCall(cfg, active, content);
    var at := ScratchPath(cfg, call);
    WitnessHasFolders(cfg, active, entries, n);
    forall p | p in s.disk.dirs && FileOf(dest, entries, n, p)
      ensures p in Folders(dest, entries, n, KnownWhenUnpacking(cfg, active))
    {
      WitnessFileIsFolder(cfg, active, entries, n, p);
    }
    forall k: nat | k < n ensures !Under(at, Target(dest, entries[k])) {
      NotUnderScratchFile(cfg, active, content, k);
    }
    FoldersAreReady(Write(s.disk, at, content), dest, entries, n, KnownWhenUnpacking(cfg, active));
  }

  lemma WitnessHasFolders(cfg: Config, active: Path, entries: seq<Entry>, n: nat)
    requires n <= |entries|
    ensures Folders(Other(cfg, active), entries, n, KnownWhenUnpacking(cfg, active)) <= WitnessFolders(cfg, active,
      entries, n)
  {
    hide Folders;
  }

  lemma WitnessFileIsFolder(cfg: Config, active: Path, entries: seq<Entry>, n: nat, p: Path)
    requires n <= |entries| && p in WitnessFolders(cfg, active, entries, n) && FileOf(Other(cfg, active), entries, n, p)
    ensures p in Folders(Other(cfg, active), entries, n, KnownWhenUnpacking(cfg, active))
  {
    hide Folders, Bound;
    TargetsAreShort(cfg, active, entries);
    assert Short(p, Bound(cfg, active, entries));
    assert |p| > 0 ==> |p[|p| - 1]| <= Bound(cfg, active, entries);
  }

  lemma NotUnderScratchFile(cfg: Config, active: Path, content: Bytes, k: nat)
    requires k < |cfg.unpack(content)|
    ensures !Under(ScratchPath(cfg, WitnessCall(cfg, active, content)),
      Target(Other(cfg, active), cfg.unpack(content)[k]))
  {
    hide Bound;
    var at := ScratchPath(cfg, WitnessCall(cfg, active, content));
    WholeName(WitnessCall(cfg, active, content).url);
    TargetsAreShort(cfg, active, cfg.unpack(content));
    assert |at[|cfg.scratch|]| > Bound(cfg, active, cfg.unpack(content));
  }

  lemma TargetsAreShort(cfg: Config, active: Path, entries: seq<Entry>)
    ensures forall j: nat | j < |entries| :: Short(Target(Other(cfg, active), entries[j]), Bound(cfg, active, entries))
  {
  }

  /** The file lands in the folder in use, and stays there whatever becomes of the rest of the call. */
  lemma ReachedIsWritten(cfg: Config, content: Bytes, active: Path, i: nat)
    requires Layout(cfg) && OfThePair(cfg, active) && i < |cfg.unpack(content)| && cfg.unpack(content)[i].FileEntry?
    requires LaysOut(Other(cfg, active), cfg.unpack(content), i + 1, KnownWhenUnpacking(cfg, active))
    ensures var s, call := WitnessState(cfg, active, cfg.unpack(content), i + 1), WitnessCall(cfg, active, content);
      Target(Other(cfg, active), cfg.unpack(content)[i]) in Software(cfg, s, call, NO_FAULTS).0.disk.files
  {
    hide Layout, OfThePair, Fetch, Deploy, InstallSoftware, Software, WitnessFolders, Extract, CleanSoftware, Ready,
      LaysOut, EqualFold;
    var entries := cfg.unpack(content);
    var s, call := WitnessState(cfg, active, entries, i + 1), WitnessCall(cfg, active, content);
    var at := ScratchPath(cfg, call);
    WholeName(call.url);
    WitnessIsTree(cfg, active, entries, i + 1);
    WitnessIsFetched(cfg, active, content, i + 1);
    WitnessIsNotCleaned(cfg, active, content, i + 1);
    WitnessIsReady(cfg, active, content, i + 1);
    var disk := Write(s.disk, at, content);
    ReadyIsWritten(disk, Other(cfg, active), entries, i + 1, i);
    DeploysToOther(cfg, active);
    var taken := TakeLock(s, NO_FAULTS).0;
    InstallDisk(cfg, taken, call, NO_FAULTS);
    DeployDisk(cfg, taken.(disk := disk), call);
    CallIsInstall(cfg, s, call, NO_FAULTS);
    NotUnderScratchFile(cfg, active, content, i);
  }

  lemma DeployDisk(cfg: Config, s: State, call: Call)
    requires s.symlink.Some? && s.symlink.value in s.disk.dirs && s.symlink.value != []
    requires FolderToDeploy(cfg, s.symlink.value) != []
      && CleanSoftware(s.disk, FolderToDeploy(cfg, s.symlink.value), NO_FAULTS) == (s.disk, true)
    ensures Deploy(cfg, s, call, NO_FAULTS).0.disk == Extract(s.disk, FolderToDeploy(cfg, s.symlink.value),
      cfg.unpack(call.content), NoFault).0
  {
    hide CleanSoftware, Extract, FolderToDeploy;
  }

  /** A/B safety, exactly: a download leaves the files of the folder in use alone, in every state, under every failure
      and on every exit, if and only if its archive does not reach that folder. */
  lemma ActiveFolderSafeIff(cfg: Config, content: Bytes, active: Path)
    requires Layout(cfg) && OfThePair(cfg, active)
    ensures !ReachesActive(cfg, active, cfg.unpack(content)) <==>
      forall s: State, call: Call, f: Faults | InUse(cfg, s, active) && call.content == content ::
        SameUnder(active, s.disk.files, Software(cfg, s, call, f).0.disk.files)
  {
    hide Layout, OfThePair, InUse, Software, SameUnder, LaysOut, WitnessState, WitnessCall;
    var entries := cfg.unpack(content);
    if !ReachesActive(cfg, active, entries) {
      forall s: State, call: Call, f: Faults | InUse(cfg, s, active) && call.content == content
        ensures SameUnder(active, s.disk.files, Software(cfg, s, call, f).0.disk.files)
      {
        UnreachedIsSafe(cfg, s, call, f, active);
      }
    } else {
      ReachingDownload(cfg, content, active);
    }
  }

  /** A call without faults that changes a file of the folder in use. */
  ghost predicate Changes(cfg: Config, content: Bytes, active: Path, s: State, call: Call) {
    InUse(cfg, s, active) && call.content == content
    && !SameUnder(active, s.disk.files, Software(cfg, s, call, NO_FAULTS).0.disk.files)
  }

  /** For a download that reaches the folder in use there is a state in which a call without faults changes it. */
  lemma ReachingDownload(cfg: Config, content: Bytes, active: Path)
    requires Layout(cfg) && OfThePair(cfg, active) && ReachesActive(cfg, active, cfg.unpack(content))
    ensures exists s: State, call: Call :: Changes(cfg, content, active, s, call)
  {
    hide Layout, OfThePair, InUse, Software, SameUnder, LaysOut, Other, WitnessFolders, ScratchPath, Bound, Target;
    var entries := cfg.unpack(content);
    var i: nat :| i < |entries| && entries[i].FileEntry? && Under(active, Target(Other(cfg, active), entries[i]))
      && LaysOut(Other(cfg, active), entries, i + 1, KnownWhenUnpacking(cfg, active));
    var s, call := WitnessState(cfg, active, entries, i + 1), WitnessCall(cfg, active, content);
    WitnessIsTree(cfg, active, entries, i + 1);
    ReachedIsWritten(cfg, content, active, i);
    WrittenDiffers(active, s.disk.files, Software(cfg, s, call, NO_FAULTS).0.disk.files,
      Target(Other(cfg, active), entries[i]));
    assert Changes(cfg, content, active, s, call);
  }

  /** With the folders of the sample configuration, an archive of one file reaches the folder in use: there is a
      state in which a call without faults changes a file of it. */
  lemma DotDotWritesActive(cfg: Config, content: Bytes)
    requires cfg.folderOne == ["tmp", "hndr-1"] && cfg.folderTwo == ["tmp", "hndr-2"] && cfg.scratch == ["tmp"]
    requires cfg.unpack(content) == [CLIMBING]
    ensures Layout(cfg)
    ensures exists s: State, call: Call :: Changes(cfg, content, cfg.folderOne, s, call)
  {
    hide Target;
    DotDotEscapes();
    var one, two := cfg.folderOne, cfg.folderTwo;
    assert Lower("hndr-1")[5] == '1' && Lower("hndr-2")[5] == '2';
    assert one[1] == "hndr-1" && two[1] == "hndr-2";
    var known := KnownWhenUnpacking(cfg, one);
    assert Other(cfg, one) == two && known.bare.value == ["tmp", "hndr-2", "bin", "*"];
    assert Parent(["tmp", "hndr-1", "x"]) == one;
    assert LaysOut(two, [CLIMBING], 1, known);
    assert [CLIMBING][0].FileEntry? && Under(one, Target(two, [CLIMBING][0]));
    ReachingDownload(cfg, content, one);
  }
}
