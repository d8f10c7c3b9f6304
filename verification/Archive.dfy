/** A disk of directories and regular files, and unpacking an archive onto it. */
module Archive {
  import opened Tables

  type Bytes = seq<bv8>
  /** An absolute path as its elements: no empty element, no "." and no "..". */
  type Path = seq<string>

  /** A directory or a regular file of an archive, its name split at the slashes. */
  datatype Entry = DirEntry(name: seq<string>) | FileEntry(name: seq<string>, content: Bytes)

  datatype Disk = Disk(files: map<Path, Bytes>, dirs: set<Path>)

  // ----- Paths ----------------------------------------------------------------------

  /** filepath.Join: elements are taken one by one, "" and "." are dropped, ".." goes up. */
  function Join(dir: Path, name: seq<string>): Path
    decreases |name|
  {
    if name == [] then dir
    else Join(Descend(dir, name[0]), name[1..])
  }

  function Descend(dir: Path, element: string): Path {
    if element == "" || element == "." then dir
    else if element == ".." then (if dir == [] then [] else dir[..|dir| - 1])
    else dir + [element]
  }

  predicate Under(folder: Path, p: Path) {
    folder <= p
  }

  function Prefixes(p: Path): set<Path> {
    set i | 0 <= i <= |p| :: p[..i]
  }

  /** The name never climbs above the folder it is unpacked into. */
  predicate StaysInside(name: seq<string>, depth: nat)
    decreases |name|
  {
    name == [] ||
    (var e := name[0];
     if e == "" || e == "." then StaysInside(name[1..], depth)
     else if e == ".." then depth > 0 && StaysInside(name[1..], depth - 1)
     else StaysInside(name[1..], depth + 1))
  }

  lemma {:induction false} StaysUnder(folder: Path, dir: Path, name: seq<string>)
    requires Under(folder, dir) && StaysInside(name, |dir| - |folder|)
    ensures Under(folder, Join(dir, name))
    decreases |name|
  {
    if name != [] {
      StaysUnder(folder, Descend(dir, name[0]), name[1..]);
    }
  }

  // ----- What one entry does --------------------------------------------------------

  /** How unpacking is cut short: the archive cannot be opened, its i-th header cannot be read, creating the i-th
      target fails (of a directory, after some of its ancestors were made), the copy of the i-th file stops after n
      bytes, or the i-th file is written but its permissions cannot be set or looked up. */
  datatype Fault =
    | NoFault
    | CannotOpen
    | NoHeader(at: nat)
    | CannotCreate(at: nat, made: set<Path>)
    | CopyStops(at: nat, written: nat)
    | CannotChmod(at: nat)

  predicate CanMkdir(disk: Disk, target: Path) {
    forall i | 0 <= i <= |target| :: target[..i] !in disk.files
  }

  predicate CanCreate(disk: Disk, target: Path) {
    target != [] && target[..|target| - 1] in disk.dirs && target !in disk.dirs
  }

  function Mkdir(disk: Disk, target: Path): Disk {
    disk.(dirs := disk.dirs + Prefixes(target))
  }

  function Write(disk: Disk, target: Path, content: Bytes): Disk {
    disk.(files := disk.files[target := content])
  }

  function Target(dest: Path, e: Entry): Path {
    Join(dest, e.name)
  }

  predicate IsExecutable(target: Path) {
    exists i | 0 <= i < |target| - 1 ::
      EndsWith(target[i], "bin") && |target[i + 1]| >= 8 && target[i + 1][..8] == "suricata"
  }

  predicate EndsWith(s: string, t: string) {
    |s| >= |t| && s[|s| - |t|..] == t
  }

  /** The i-th entry under the fault: the disk after it, and whether unpacking goes on. */
  function UnpackEntry(disk: Disk, dest: Path, e: Entry, i: nat, fault: Fault): (Disk, bool) {
    var target := Target(dest, e);
    if fault == NoHeader(i) then (disk, false)
    else
      match e
      case DirEntry(_) =>
        if fault.CannotCreate? && fault.at == i then (disk.(dirs := disk.dirs + (Prefixes(target) * fault.made)), false)
        else if !CanMkdir(disk, target) then (disk, false)
        else (Mkdir(disk, target), true)
      case FileEntry(_, content) =>
        if (fault.CannotCreate? && fault.at == i) || !CanCreate(disk, target) then (disk, false)
        else if fault.CopyStops? && fault.at == i then
          (Write(disk, target, content[..if fault.written < |content| then fault.written else |content|]), false)
        else (Write(disk, target, content), !(fault == CannotChmod(i) && IsExecutable(target)))
  }

  /** The first n entries in order, up to the first that stops it. */
  function Unpack(disk: Disk, dest: Path, entries: seq<Entry>, n: nat, fault: Fault): (Disk, bool)
    requires n <= |entries|
    decreases n
  {
    if n == 0 then (disk, fault != CannotOpen)
    else
      var (before, ok) := Unpack(disk, dest, entries, n - 1, fault);
      if !ok then (before, false) else UnpackEntry(before, dest, entries[n - 1], n - 1, fault)
  }

  /** The whole archive; the end of the archive, too, may be unreadable. */
  function Extract(disk: Disk, dest: Path, entries: seq<Entry>, fault: Fault): (Disk, bool) {
    var (after, ok) := Unpack(disk, dest, entries, |entries|, fault);
    (after, ok && fault != NoHeader(|entries|))
  }

  // ----- The fold of the entries ----------------------------------------------------

  /** The files once the entries have been laid over the given ones, in order. */
  function Overlay(files: map<Path, Bytes>, dest: Path, entries: seq<Entry>): map<Path, Bytes> {
    if entries == [] then files
    else
      var last := entries[|entries| - 1];
      var before := Overlay(files, dest, entries[..|entries| - 1]);
      if last.FileEntry? then before[Target(dest, last) := last.content] else before
  }

  /** Entry i is the last one for path p. */
  predicate LastFor(dest: Path, entries: seq<Entry>, i: nat, p: Path) {
    && i < |entries| && entries[i].FileEntry? && Target(dest, entries[i]) == p
    && forall j | i < j < |entries| :: !(entries[j].FileEntry? && Target(dest, entries[j]) == p)
  }

  predicate Names(dest: Path, entries: seq<Entry>, p: Path) {
    exists i | 0 <= i < |entries| :: entries[i].FileEntry? && Target(dest, entries[i]) == p
  }

  /** Each path named holds the bytes of its last entry, and every other path is as it was. */
  lemma {:induction false} LastEntryWins(files: map<Path, Bytes>, dest: Path, entries: seq<Entry>, p: Path)
    ensures var after := Overlay(files, dest, entries);
      && (forall i: nat | LastFor(dest, entries, i, p) :: p in after && after[p] == entries[i].content)
      && (!Names(dest, entries, p) ==> (p in after <==> p in files) && (p in files ==> after[p] == files[p]))
  {
    hide Target;
    if entries != [] {
      var n := |entries| - 1;
      LastEntryWins(files, dest, entries[..n], p);
      if !(entries[n].FileEntry? && Target(dest, entries[n]) == p) {
        DropLast(dest, entries, p);
      }
    }
  }

  lemma DropLast(dest: Path, entries: seq<Entry>, p: Path)
    requires entries != [] && !(entries[|entries| - 1].FileEntry? && Target(dest, entries[|entries| - 1]) == p)
    ensures forall i: nat | LastFor(dest, entries, i, p) :: LastFor(dest, entries[..|entries| - 1], i, p)
    ensures Names(dest, entries[..|entries| - 1], p) ==> Names(dest, entries, p)
  {
    hide Target;
    var before := entries[..|entries| - 1];
    if i :| 0 <= i < |before| && before[i].FileEntry? && Target(dest, before[i]) == p {
      assert entries[i] == before[i];
    }
  }

  lemma {:induction false} NamedIsPresent(files: map<Path, Bytes>, dest: Path, entries: seq<Entry>, i: nat)
    requires i < |entries| && entries[i].FileEntry?
    ensures Target(dest, entries[i]) in Overlay(files, dest, entries)
  {
    if i < |entries| - 1 {
      NamedIsPresent(files, dest, entries[..|entries| - 1], i);
    }
  }

  /** No file entry names a path in the folder. For the fold of the entries over any files this is exactly what leaves
      the folder's files alone; an unpacking can stop before it gets to such an entry. */
  predicate NoneUnder(dest: Path, entries: seq<Entry>, folder: Path) {
    forall i | 0 <= i < |entries| && entries[i].FileEntry? :: !Under(folder, Target(dest, entries[i]))
  }

  predicate SameUnder(folder: Path, a: map<Path, Bytes>, b: map<Path, Bytes>) {
    && (forall p | p in a && Under(folder, p) :: p in b && b[p] == a[p])
    && (forall p | p in b && Under(folder, p) :: p in a)
  }

  lemma FolderSafeIff(dest: Path, entries: seq<Entry>, folder: Path)
    ensures NoneUnder(dest, entries, folder) <==>
      forall files: map<Path, Bytes> :: SameUnder(folder, files, Overlay(files, dest, entries))
  {
    if NoneUnder(dest, entries, folder) {
      forall files: map<Path, Bytes> ensures SameUnder(folder, files, Overlay(files, dest, entries)) {
        OverlayOutside(files, dest, entries, folder);
      }
    } else {
      var i :| 0 <= i < |entries| && entries[i].FileEntry? && Under(folder, Target(dest, entries[i]));
      NamedIsPresent(map[], dest, entries, i);
      assert !SameUnder(folder, map[], Overlay(map[], dest, entries));
    }
  }

  lemma OverlayOutside(files: map<Path, Bytes>, dest: Path, entries: seq<Entry>, folder: Path)
    requires NoneUnder(dest, entries, folder)
    ensures SameUnder(folder, files, Overlay(files, dest, entries))
  {
    forall p | Under(folder, p)
      ensures var after := Overlay(files, dest, entries);
        (p in after <==> p in files) && (p in files ==> after[p] == files[p])
    {
      LastEntryWins(files, dest, entries, p);
    }
  }

  /** Names that stay inside their folder are safe for every folder apart from it; a name with ".." need not be. */
  lemma InsideIsSafe(dest: Path, entries: seq<Entry>, folder: Path)
    requires forall i | 0 <= i < |entries| && entries[i].FileEntry? :: StaysInside(entries[i].name, 0)
    requires !Under(folder, dest) && !Under(dest, folder)
    ensures NoneUnder(dest, entries, folder)
  {
    forall i | 0 <= i < |entries| && entries[i].FileEntry? ensures !Under(folder, Target(dest, entries[i])) {
      StaysUnder(dest, dest, entries[i].name);
      Apart(folder, dest, Target(dest, entries[i]));
    }
  }

  lemma Apart(a: Path, b: Path, p: Path)
    requires !Under(a, b) && !Under(b, a) && Under(b, p)
    ensures !Under(a, p)
  {
  }

  /** A name that climbs out of one folder into the other. */
  const CLIMBING: Entry := FileEntry(["..", "hndr-1", "x"], [])

  lemma DotDotEscapes()
    ensures Target(["tmp", "hndr-2"], CLIMBING) == ["tmp", "hndr-1", "x"]
    ensures !NoneUnder(["tmp", "hndr-2"], [CLIMBING], ["tmp", "hndr-1"])
  {
    var name := CLIMBING.name;
    assert name[1..] == ["hndr-1", "x"] && name[1..][1..] == ["x"] && name[1..][1..][1..] == [];
    assert Descend(["tmp", "hndr-2"], "..") == ["tmp"];
    assert Join(["tmp", "hndr-1", "x"], []) == ["tmp", "hndr-1", "x"];
    assert Descend(["tmp"], "hndr-1") == ["tmp", "hndr-1"] && Descend(["tmp", "hndr-1"], "x") == ["tmp", "hndr-1", "x"];
    assert Join(["tmp", "hndr-1"], ["x"]) == ["tmp", "hndr-1", "x"];
    assert Target(["tmp", "hndr-2"], CLIMBING) == ["tmp", "hndr-1", "x"]
      && ["tmp", "hndr-1", "x"][..2] == ["tmp", "hndr-1"];
    assert [CLIMBING][0] == CLIMBING;
  }

  // ----- Unpacking refines the fold -------------------------------------------------

  /** The files are those of the fold of the first i entries, but that the file of entry i may be there in part. */
  predicate PartlyLaid(before: map<Path, Bytes>, after: map<Path, Bytes>, dest: Path, entries: seq<Entry>, i: nat) {
    && i <= |entries|
    && (|| after == Overlay(before, dest, entries[..i])
        || (i < |entries| && entries[i].FileEntry? && exists n | 0 <= n <= |entries[i].content| ::
              after == Overlay(before, dest, entries[..i])[Target(dest, entries[i]) := entries[i].content[..n]]))
  }

  lemma {:induction false} UnpackRefinesFold(disk: Disk, dest: Path, entries: seq<Entry>, n: nat, fault: Fault)
    requires n <= |entries|
    ensures var (after, ok) := Unpack(disk, dest, entries, n, fault);
      if ok then after.files == Overlay(disk.files, dest, entries[..n])
      else exists i: nat :: i <= n && PartlyLaid(disk.files, after.files, dest, entries, i)
    decreases n
  {
    var (after, ok) := Unpack(disk, dest, entries, n, fault);
    if n == 0 {
      assert entries[..0] == [];
      assert PartlyLaid(disk.files, after.files, dest, entries, 0);
    } else {
      UnpackRefinesFold(disk, dest, entries, n - 1, fault);
      var (before, going) := Unpack(disk, dest, entries, n - 1, fault);
      if going {
        OneEntryRefines(before, dest, entries, n - 1, fault, disk.files);
      }
    }
  }

  lemma OneEntryRefines(before: Disk, dest: Path, entries: seq<Entry>, i: nat, fault: Fault, files: map<Path, Bytes>)
    requires i < |entries| && before.files == Overlay(files, dest, entries[..i])
    ensures var (after, ok) := UnpackEntry(before, dest, entries[i], i, fault);
      if ok then after.files == Overlay(files, dest, entries[..i + 1])
      else PartlyLaid(files, after.files, dest, entries, i)
  {
    var e := entries[i];
    assert entries[..i + 1][..i] == entries[..i];
    assert e.FileEntry? ==> e.content[..|e.content|] == e.content;
  }

  /** Success: the files are the fold of all entries. Failure: the fold of some first entries, and at most one file
      written in part. */
  lemma ExtractRefinesFold(disk: Disk, dest: Path, entries: seq<Entry>, fault: Fault)
    ensures var (after, ok) := Extract(disk, dest, entries, fault);
      if ok then after.files == Overlay(disk.files, dest, entries)
      else exists i: nat :: PartlyLaid(disk.files, after.files, dest, entries, i)
  {
    UnpackRefinesFold(disk, dest, entries, |entries|, fault);
    assert entries[..|entries|] == entries;
    var (after, ok) := Unpack(disk, dest, entries, |entries|, fault);
    if ok {
      assert PartlyLaid(disk.files, after.files, dest, entries, |entries|);
    }
  }

  /** Success or failure, the files of a folder no entry names are untouched. */
  lemma ExtractLeavesFolder(disk: Disk, dest: Path, entries: seq<Entry>, fault: Fault, folder: Path)
    requires NoneUnder(dest, entries, folder)
    ensures SameUnder(folder, disk.files, Extract(disk, dest, entries, fault).0.files)
  {
    ExtractRefinesFold(disk, dest, entries, fault);
    var (after, ok) := Extract(disk, dest, entries, fault);
    if ok {
      OverlayOutside(disk.files, dest, entries, folder);
    } else {
      var i: nat :| PartlyLaid(disk.files, after.files, dest, entries, i);
      OverlayOutside(disk.files, dest, entries[..i], folder);
    }
  }

  // ----- The program's loop ---------------------------------------------------------

  class Filesystem {
    var disk: Disk

    constructor (disk: Disk)
      ensures this.disk == disk
    {
      this.disk := disk;
    }

    method ExtractTarGz(dest: Path, entries: seq<Entry>, fault: Fault) returns (ok: bool)
      modifies this
      ensures (disk, ok) == Extract(old(disk), dest, entries, fault)
    {
      if fault == CannotOpen {
        UnopenedIsUnchanged(disk, dest, entries, |entries|);
        return false;
      }
      var i := 0;
      while i < |entries|
        invariant i <= |entries|
        invariant (disk, true) == Unpack(old(disk), dest, entries, i, fault)
      {
        var going := HandleEntry(dest, entries[i], i, fault);
        i := i + 1;
        if !going {
          StoppedStays(old(disk), dest, entries, i, |entries|, fault);
          return false;
        }
      }
      return fault != NoHeader(|entries|);
    }

    method HandleEntry(dest: Path, e: Entry, i: nat, fault: Fault) returns (going: bool)
      modifies this
      ensures (disk, going) == UnpackEntry(old(disk), dest, e, i, fault)
    {
      if fault == NoHeader(i) {
        return false;
      }
      var target := Target(dest, e);
      match e {
        case DirEntry(_) =>
          if fault.CannotCreate? && fault.at == i {
            disk := disk.(dirs := disk.dirs + (Prefixes(target) * fault.made));
            return false;
          }
          if !CanMkdir(disk, target) {
            return false;
          }
          disk := Mkdir(disk, target);
        case FileEntry(_, content) =>
          if (fault.CannotCreate? && fault.at == i) || !CanCreate(disk, target) {
            return false;
          }
          if fault.CopyStops? && fault.at == i {
            disk := Write(disk, target, content[..if fault.written < |content| then fault.written else |content|]);
            return false;
          }
          disk := Write(disk, target, content);
          if IsExecutable(target) && fault == CannotChmod(i) {
            return false;
          }
      }
      return true;
    }
  }

  lemma {:induction false} UnopenedIsUnchanged(disk: Disk, dest: Path, entries: seq<Entry>, n: nat)
    requires n <= |entries|
    ensures Unpack(disk, dest, entries, n, CannotOpen) == (disk, false)
    decreases n
  {
    if n > 0 {
      UnopenedIsUnchanged(disk, dest, entries, n - 1);
    }
  }

  lemma {:induction false} StoppedStays(disk: Disk, dest: Path, entries: seq<Entry>, i: nat, n: nat, fault: Fault)
    requires i <= n <= |entries| && !Unpack(disk, dest, entries, i, fault).1
    ensures Unpack(disk, dest, entries, n, fault) == Unpack(disk, dest, entries, i, fault)
    decreases n
  {
    if i < n {
      StoppedStays(disk, dest, entries, i, n - 1, fault);
    }
  }
}
