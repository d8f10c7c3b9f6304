/** Exactly when unpacking an archive into one folder can change a file of another. */
module ArchiveReach {
  import opened Tables
  import opened Archive

  // ----- Disks ----------------------------------------------------------------------

  /** Whatever lies on the disk lies in a folder of it, and nothing is both file and folder. */
  predicate TreeShaped(disk: Disk) {
    && [] in disk.dirs
    && (forall p, i | p in disk.dirs && 0 <= i <= |p| :: p[..i] in disk.dirs)
    && (forall p, i | p in disk.files && 0 <= i < |p| :: p[..i] in disk.dirs)
    && disk.files.Keys !! disk.dirs
  }

  /** What is known of the disk before: folders that are there, and one below which there is none. */
  datatype Known = Known(present: set<Path>, bare: Option<Path>)

  predicate Fits(disk: Disk, known: Known) {
    && TreeShaped(disk) && known.present <= disk.dirs
    && (known.bare.Some? ==> forall p | p in disk.dirs :: !Under(known.bare.value, p))
  }

  // ----- When an entry is reached ---------------------------------------------------

  /** The entry needs a folder at p. */
  predicate Needs(dest: Path, e: Entry, p: Path) {
    Under(p, Target(dest, e)) && (e.FileEntry? ==> p != Target(dest, e))
  }

  /** An entry among the first n makes a folder at p. */
  predicate MadeBefore(dest: Path, entries: seq<Entry>, n: nat, p: Path) {
    exists k | 0 <= k < n <= |entries| :: entries[k].DirEntry? && Under(p, Target(dest, entries[k]))
  }

  function Parent(p: Path): Path {
    if p == [] then [] else p[..|p| - 1]
  }

  /** The j-th entry is no file where one of the first n entries needs a folder, or where one is known to be. */
  predicate NoClash(dest: Path, entries: seq<Entry>, n: nat, known: Known, j: nat)
    requires n <= |entries| && j < n
  {
    entries[j].FileEntry? ==>
      && Target(dest, entries[j]) != []
      && (forall k | 0 <= k < n :: !Needs(dest, entries[k], Target(dest, entries[j])))
      && (forall p | p in known.present :: !Under(Target(dest, entries[j]), p))
  }

  /** A file that is to lie where no folder is known to be has its folder made by an entry before it. */
  predicate Provided(dest: Path, entries: seq<Entry>, known: Known, j: nat)
    requires j < |entries|
  {
    entries[j].FileEntry? && known.bare.Some? && Under(known.bare.value, Parent(Target(dest, entries[j]))) ==>
      MadeBefore(dest, entries, j, Parent(Target(dest, entries[j])))
  }

  /** The first n entries can be laid out one after the other on some such disk. */
  predicate LaysOut(dest: Path, entries: seq<Entry>, n: nat, known: Known)
    requires n <= |entries|
  {
    forall j: nat | j < n :: NoClash(dest, entries, n, known, j) && Provided(dest, entries, known, j)
  }

  /** Some file entry leads into the folder, and everything up to it can be laid out. */
  predicate Reaches(dest: Path, entries: seq<Entry>, folder: Path, known: Known) {
    exists i: nat | i < |entries| ::
      entries[i].FileEntry? && Under(folder, Target(dest, entries[i])) && LaysOut(dest, entries, i + 1, known)
  }

  // ----- What is not reached is safe ------------------------------------------------

  lemma MkdirKeepsTree(disk: Disk, target: Path)
    requires TreeShaped(disk) && CanMkdir(disk, target)
    ensures TreeShaped(Mkdir(disk, target))
  {
    forall p, i | p in Mkdir(disk, target).dirs && 0 <= i <= |p| ensures p[..i] in Mkdir(disk, target).dirs {
      if p in Prefixes(target) {
        assert p[..i] == target[..i];
      }
    }
  }

  lemma WriteKeepsTree(disk: Disk, target: Path, content: Bytes)
    requires TreeShaped(disk) && CanCreate(disk, target)
    ensures TreeShaped(Write(disk, target, content))
  {
    forall i | 0 <= i < |target| ensures target[..i] in disk.dirs {
      assert target[..i] == target[..|target| - 1][..i];
    }
  }

  /** After the first n entries: their files and the folders they need are there, nothing has been removed, and folders
      below the bare place come from entries. */
  ghost predicate Laid(before: Disk, after: Disk, dest: Path, entries: seq<Entry>, n: nat, known: Known)
    requires n <= |entries|
  {
    && TreeShaped(after) && before.dirs <= after.dirs
    && (forall j: nat | j < n && entries[j].FileEntry? ::
      Target(dest, entries[j]) in after.files && Target(dest, entries[j]) != [])
    && (forall j: nat, p | j < n && Needs(dest, entries[j], p) :: p in after.dirs)
    && (known.bare.Some? ==> forall p | p in after.dirs && Under(known.bare.value, p) ::
      MadeBefore(dest, entries, n, p))
    && (forall j: nat | j < n :: Provided(dest, entries, known, j))
  }

  lemma MadeLater(dest: Path, entries: seq<Entry>, n: nat, p: Path)
    requires n < |entries| && MadeBefore(dest, entries, n, p)
    ensures MadeBefore(dest, entries, n + 1, p)
  {
  }

  lemma FolderLaid(before: Disk, disk: Disk, dest: Path, entries: seq<Entry>, n: nat, known: Known)
    requires n < |entries| && entries[n].DirEntry? && Laid(before, disk, dest, entries, n, known)
    requires CanMkdir(disk, Target(dest, entries[n]))
    ensures Laid(before, Mkdir(disk, Target(dest, entries[n])), dest, entries, n + 1, known)
  {
    hide TreeShaped, CanMkdir, Provided;
    var target := Target(dest, entries[n]);
    MkdirKeepsTree(disk, target);
    var after := Mkdir(disk, target);
    forall p | Under(p, target) ensures p in Prefixes(target) {
      assert p == target[..|p|];
    }
    assert Provided(dest, entries, known, n) by { ProvidedFolder(dest, entries, known, n); }
    forall p | p in after.dirs && known.bare.Some? && Under(known.bare.value, p)
      ensures MadeBefore(dest, entries, n + 1, p)
    {
      if p in disk.dirs {
        MadeLater(dest, entries, n, p);
      }
    }
  }

  lemma ProvidedFolder(dest: Path, entries: seq<Entry>, known: Known, j: nat)
    requires j < |entries| && entries[j].DirEntry?
    ensures Provided(dest, entries, known, j)
  {
  }

  lemma FileLaid(before: Disk, disk: Disk, dest: Path, entries: seq<Entry>, n: nat, known: Known, content: Bytes)
    requires n < |entries| && entries[n].FileEntry? && Laid(before, disk, dest, entries, n, known)
    requires CanCreate(disk, Target(dest, entries[n]))
    ensures Laid(before, Write(disk, Target(dest, entries[n]), content), dest, entries, n + 1, known)
  {
    var target := Target(dest, entries[n]);
    WriteKeepsTree(disk, target, content);
    var after := Write(disk, target, content);
    forall p | Under(p, target) && p != target ensures p in after.dirs {
      assert p == target[..|p|];
    }
    forall p | p in after.dirs && known.bare.Some? && Under(known.bare.value, p)
      ensures MadeBefore(dest, entries, n + 1, p)
    {
      MadeLater(dest, entries, n, p);
    }
  }

  lemma NoFolderBelow(disk: Disk, t: Path)
    requires TreeShaped(disk) && t in disk.files
    ensures forall p | p in disk.dirs :: !Under(t, p)
  {
    forall p | p in disk.dirs ensures !Under(t, p) {
      if |t| <= |p| {
        assert p[..|t|] in disk.dirs && p[..|t|] != t;
      }
    }
  }

  /** What is laid out could be laid out. */
  lemma LaidLaysOut(before: Disk, after: Disk, dest: Path, entries: seq<Entry>, n: nat, known: Known)
    requires n <= |entries| && known.present <= before.dirs && Laid(before, after, dest, entries, n, known)
    ensures LaysOut(dest, entries, n, known)
  {
    forall j: nat | j < n ensures NoClash(dest, entries, n, known, j) {
      if entries[j].FileEntry? {
        NoFolderBelow(after, Target(dest, entries[j]));
      }
    }
  }

  lemma {:induction false} UnpackLays(disk: Disk, dest: Path, entries: seq<Entry>, n: nat, fault: Fault, known: Known)
    requires n <= |entries| && Fits(disk, known) && Unpack(disk, dest, entries, n, fault).1
    ensures Laid(disk, Unpack(disk, dest, entries, n, fault).0, dest, entries, n, known)
    decreases n
  {
    hide TreeShaped, Laid, CanMkdir, CanCreate, Write, Mkdir, Fits;
    if n == 0 {
      NothingLaid(disk, dest, entries, known);
    } else {
      UnpackLays(disk, dest, entries, n - 1, fault, known);
      var before := Unpack(disk, dest, entries, n - 1, fault).0;
      if entries[n - 1].DirEntry? {
        FolderLaid(disk, before, dest, entries, n - 1, known);
      } else {
        FileLaid(disk, before, dest, entries, n - 1, known, entries[n - 1].content);
      }
    }
  }

  lemma NothingLaid(disk: Disk, dest: Path, entries: seq<Entry>, known: Known)
    requires Fits(disk, known)
    ensures Laid(disk, disk, dest, entries, 0, known)
  {
  }

  /** Wherever an unpacked entry writes a file into the folder, it is reached. */
  lemma WrittenIsReached(disk: Disk, dest: Path, entries: seq<Entry>, i: nat, fault: Fault, folder: Path, known: Known)
    requires i < |entries| && Fits(disk, known) && Unpack(disk, dest, entries, i, fault).1
    requires entries[i].FileEntry? && Under(folder, Target(dest, entries[i]))
    requires CanCreate(Unpack(disk, dest, entries, i, fault).0, Target(dest, entries[i]))
    ensures Reaches(dest, entries, folder, known)
  {
    hide Unpack, Laid, LaysOut, CanCreate;
    UnpackLays(disk, dest, entries, i, fault, known);
    FileLaid(disk, Unpack(disk, dest, entries, i, fault).0, dest, entries, i, known, []);
    LaidLaysOut(disk, Write(Unpack(disk, dest, entries, i, fault).0, Target(dest, entries[i]), []), dest, entries,
      i + 1, known);
  }

  lemma {:induction false} UnreachedIsSame(disk: Disk, dest: Path, entries: seq<Entry>, n: nat, fault: Fault,
      folder: Path, known: Known)
    requires n <= |entries| && Fits(disk, known) && !Reaches(dest, entries, folder, known)
    ensures SameUnder(folder, disk.files, Unpack(disk, dest, entries, n, fault).0.files)
    decreases n
  {
    hide Reaches, Fits, CanCreate, CanMkdir;
    if n > 0 {
      UnreachedIsSame(disk, dest, entries, n - 1, fault, folder, known);
      var (before, ok) := Unpack(disk, dest, entries, n - 1, fault);
      var target := Target(dest, entries[n - 1]);
      if ok && entries[n - 1].FileEntry? && Under(folder, target) && CanCreate(before, target) {
        WrittenIsReached(disk, dest, entries, n - 1, fault, folder, known);
      }
    }
  }

  // ----- What is reached is written on some disk ------------------------------------

  /** Nothing on the disk is in the way of the first n entries. */
  predicate Ready(disk: Disk, dest: Path, entries: seq<Entry>, n: nat)
    requires n <= |entries|
  {
    && (forall j: nat | j < n && entries[j].FileEntry? ::
          var t := Target(dest, entries[j]);
          t != [] && t !in disk.dirs && !MadeBefore(dest, entries, n, t)
          && (Parent(t) in disk.dirs || MadeBefore(dest, entries, j, Parent(t))))
    && (forall k: nat, p | k < n && entries[k].DirEntry? && p in disk.files :: !Under(p, Target(dest, entries[k])))
  }

  predicate FileOf(dest: Path, entries: seq<Entry>, n: nat, p: Path) {
    exists j: nat :: j < n <= |entries| && entries[j].FileEntry? && Target(dest, entries[j]) == p
  }

  lemma {:induction false} ReadyUnpacks(disk: Disk, dest: Path, entries: seq<Entry>, m: nat, n: nat)
    requires m <= n <= |entries| && Ready(disk, dest, entries, n)
    ensures var (after, ok) := Unpack(disk, dest, entries, m, NoFault);
      && ok
      && (forall p :: p in after.dirs <==> p in disk.dirs || MadeBefore(dest, entries, m, p))
      && (forall p :: p in after.files <==> p in disk.files || FileOf(dest, entries, m, p))
    decreases m
  {
    if m > 0 {
      ReadyUnpacks(disk, dest, entries, m - 1, n);
      var before := Unpack(disk, dest, entries, m - 1, NoFault).0;
      var e, t := entries[m - 1], Target(dest, entries[m - 1]);
      if e.DirEntry? {
        ReadyFolder(disk, before, dest, entries, m, n);
      } else {
        ReadyFile(disk, before, dest, entries, m, n);
      }
    }
  }

  ghost predicate LaidOver(disk: Disk, after: Disk, dest: Path, entries: seq<Entry>, m: nat) {
    && (forall p :: p in after.dirs <==> p in disk.dirs || MadeBefore(dest, entries, m, p))
    && (forall p :: p in after.files <==> p in disk.files || FileOf(dest, entries, m, p))
  }

  lemma ReadyFolder(disk: Disk, before: Disk, dest: Path, entries: seq<Entry>, m: nat, n: nat)
    requires 0 < m <= n <= |entries| && Ready(disk, dest, entries, n) && entries[m - 1].DirEntry?
    requires LaidOver(disk, before, dest, entries, m - 1)
    ensures CanMkdir(before, Target(dest, entries[m - 1]))
    ensures LaidOver(disk, Mkdir(before, Target(dest, entries[m - 1])), dest, entries, m)
  {
    hide Target;
    var t := Target(dest, entries[m - 1]);
    forall i | 0 <= i <= |t| ensures t[..i] !in before.files {
      assert MadeBefore(dest, entries, n, t[..i]);
    }
    forall p ensures p in Mkdir(before, t).dirs <==> p in disk.dirs || MadeBefore(dest, entries, m, p) {
      if Under(p, t) {
        assert p == t[..|p|];
      }
    }
  }

  lemma ReadyFile(disk: Disk, before: Disk, dest: Path, entries: seq<Entry>, m: nat, n: nat)
    requires 0 < m <= n <= |entries| && Ready(disk, dest, entries, n) && entries[m - 1].FileEntry?
    requires LaidOver(disk, before, dest, entries, m - 1)
    ensures CanCreate(before, Target(dest, entries[m - 1]))
    ensures LaidOver(disk, Write(before, Target(dest, entries[m - 1]), entries[m - 1].content), dest, entries, m)
  {
    hide Target;
    var t := Target(dest, entries[m - 1]);
  }

  lemma {:induction false} FilesStay(disk: Disk, dest: Path, entries: seq<Entry>, m: nat, n: nat, fault: Fault, p: Path)
    requires m <= n <= |entries| && p in Unpack(disk, dest, entries, m, fault).0.files
    ensures p in Unpack(disk, dest, entries, n, fault).0.files
    decreases n
  {
    if m < n {
      FilesStay(disk, dest, entries, m, n - 1, fault, p);
    }
  }

  /** On a disk that is ready, unpacking without faults leaves each of the first n files. */
  lemma ReadyIsWritten(disk: Disk, dest: Path, entries: seq<Entry>, n: nat, i: nat)
    requires i < n <= |entries| && Ready(disk, dest, entries, n) && entries[i].FileEntry?
    ensures Target(dest, entries[i]) in Extract(disk, dest, entries, NoFault).0.files
  {
    hide Ready, Unpack;
    ReadyUnpacks(disk, dest, entries, n, n);
    assert FileOf(dest, entries, n, Target(dest, entries[i]));
    FilesStay(disk, dest, entries, n, |entries|, NoFault, Target(dest, entries[i]));
  }

  /** The folders the first n entries need and those known to be there, but none at or below the bare place. */
  function Folders(dest: Path, entries: seq<Entry>, n: nat, known: Known): set<Path>
    requires n <= |entries|
  {
    (set j, l | 0 <= j < n && 0 <= l <= |Target(dest, entries[j])|
      && Needs(dest, entries[j], Target(dest, entries[j])[..l])
       && (known.bare.Some? ==> !Under(known.bare.value, Target(dest, entries[j])[..l])) ::
         Target(dest, entries[j])[..l])
    + (set p, l | p in known.present && 0 <= l <= |p| :: p[..l]) + {[]}
  }

  lemma FoldersAreClosed(dest: Path, entries: seq<Entry>, n: nat, known: Known, p: Path, i: nat)
    requires n <= |entries| && p in Folders(dest, entries, n, known) && i <= |p|
    ensures p[..i] in Folders(dest, entries, n, known)
  {
    if j, l :| (
      && 0 <= j < n && 0 <= l <= |Target(dest, entries[j])| && Needs(dest, entries[j], Target(dest, entries[j])[..l])
      && (known.bare.Some? ==> !Under(known.bare.value, Target(dest, entries[j])[..l]))
        && p == Target(dest, entries[j])[..l])
    {
      var t := Target(dest, entries[j]);
      assert p[..i] == t[..i];
    } else if q, l :| q in known.present && 0 <= l <= |q| && p == q[..l] {
      assert p[..i] == q[..i];
    }
  }

  /** A disk with these folders, whatever further folders lie off the targets, is ready for what can be laid out. */
  lemma FoldersAreReady(disk: Disk, dest: Path, entries: seq<Entry>, n: nat, known: Known)
    requires n <= |entries| && LaysOut(dest, entries, n, known)
    requires Folders(dest, entries, n, known) <= disk.dirs
    requires forall p | p in disk.dirs && FileOf(dest, entries, n, p) :: p in Folders(dest, entries, n, known)
    requires forall k: nat, p | k < n && entries[k].DirEntry? && p in disk.files :: !Under(p, Target(dest, entries[k]))
    ensures Ready(disk, dest, entries, n)
  {
    hide Folders;
    forall j: nat | j < n && entries[j].FileEntry?
      ensures var t := Target(dest, entries[j]);
        t != [] && t !in disk.dirs && !MadeBefore(dest, entries, n, t)
        && (Parent(t) in disk.dirs || MadeBefore(dest, entries, j, Parent(t)))
    {
      assert NoClash(dest, entries, n, known, j) && Provided(dest, entries, known, j);
      FileIsNoFolder(dest, entries, n, known, j);
      assert FileOf(dest, entries, n, Target(dest, entries[j]));
      ParentIsFolder(dest, entries, n, known, j);
    }
  }

  lemma FileIsNoFolder(dest: Path, entries: seq<Entry>, n: nat, known: Known, j: nat)
    requires j < n <= |entries| && entries[j].FileEntry? && NoClash(dest, entries, n, known, j)
    ensures Target(dest, entries[j]) !in Folders(dest, entries, n, known)
    ensures !MadeBefore(dest, entries, n, Target(dest, entries[j]))
  {
    var t := Target(dest, entries[j]);
    assert forall k | 0 <= k < n :: !Needs(dest, entries[k], t);
  }

  lemma ParentIsFolder(dest: Path, entries: seq<Entry>, n: nat, known: Known, j: nat)
    requires j < n <= |entries| && entries[j].FileEntry? && Target(dest, entries[j]) != []
    ensures (known.bare.Some? && Under(known.bare.value, Parent(Target(dest, entries[j]))))
      || Parent(Target(dest, entries[j])) in Folders(dest, entries, n, known)
  {
    var t := Target(dest, entries[j]);
    assert Needs(dest, entries[j], t[..|t| - 1]);
  }

  /** A disk for the archive: its folders and no file at all. */
  lemma WitnessFits(dest: Path, entries: seq<Entry>, n: nat, known: Known)
    requires n <= |entries|
    requires known.bare.Some? ==> known.bare.value != [] && forall p | p in known.present :: !Under(known.bare.value, p)
    ensures Fits(Disk(map[], Folders(dest, entries, n, known)), known)
  {
    var dirs := Folders(dest, entries, n, known);
    forall p, i | p in dirs && 0 <= i <= |p| ensures p[..i] in dirs {
      FoldersAreClosed(dest, entries, n, known, p, i);
    }
    forall p | p in known.present ensures p in dirs {
      assert p == p[..|p|];
    }
  }

  /** The exact condition: on every such disk and under every failure the files of the folder are as they were, if
      and only if no entry is reached that leads there. */
  lemma ExtractSafeIff(dest: Path, entries: seq<Entry>, folder: Path, known: Known)
    requires known.bare.Some? ==> known.bare.value != [] && forall p | p in known.present :: !Under(known.bare.value, p)
    ensures !Reaches(dest, entries, folder, known) <==>
      forall disk, fault | Fits(disk, known) ::
        SameUnder(folder, disk.files, Extract(disk, dest, entries, fault).0.files)
  {
    hide Fits, SameUnder, Unpack, LaysOut, Folders, Needs;
    if !Reaches(dest, entries, folder, known) {
      forall disk, fault | Fits(disk, known)
        ensures SameUnder(folder, disk.files, Extract(disk, dest, entries, fault).0.files)
      {
        UnreachedIsSame(disk, dest, entries, |entries|, fault, folder, known);
      }
    } else {
      var i: nat :| i < |entries| && entries[i].FileEntry? && Under(folder, Target(dest, entries[i]))
        && LaysOut(dest, entries, i + 1, known);
      var disk := Disk(map[], Folders(dest, entries, i + 1, known));
      WitnessFits(dest, entries, i + 1, known);
      FoldersAreReady(disk, dest, entries, i + 1, known);
      ReadyIsWritten(disk, dest, entries, i + 1, i);
      WrittenDiffers(folder, disk.files, Extract(disk, dest, entries, NoFault).0.files, Target(dest, entries[i]));
    }
  }

  lemma WrittenDiffers(folder: Path, a: map<Path, Bytes>, b: map<Path, Bytes>, p: Path)
    requires Under(folder, p) && p !in a && p in b
    ensures !SameUnder(folder, a, b)
  {
  }
}
