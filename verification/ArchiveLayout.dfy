/** What unpacking an archive leaves when nothing fails, and exactly when it can be laid out; how names become paths. */
module ArchiveLayout {
  import opened Tables
  import opened Text
  import opened Archive

  // ----- Names ----------------------------------------------------------------------

  predicate PlainElement(e: string) {
    e != "" && e != "." && e != ".."
  }

  /** A name of plain elements is simply appended to the folder. */
  lemma {:induction false} JoinPlain(dir: Path, name: seq<string>)
    requires forall e | e in name :: PlainElement(e)
    ensures Join(dir, name) == dir + name
    decreases |name|
  {
    if name != [] {
      assert PlainElement(name[0]);
      JoinPlain(Descend(dir, name[0]), name[1..]);
      assert dir + name == dir + [name[0]] + name[1..];
    } else {
      assert dir + name == dir;
    }
  }

  /** Names are followed element by element. */
  lemma {:induction false} JoinTwice(dir: Path, a: seq<string>, b: seq<string>)
    ensures Join(dir, a + b) == Join(Join(dir, a), b)
    decreases |a|
  {
    if a == [] {
      assert a + b == b;
    } else {
      assert (a + b)[1..] == a[1..] + b;
      JoinTwice(Descend(dir, a[0]), a[1..], b);
    }
  }

  /** What ".." takes back, and what changes nothing. */
  lemma JoinBack(dir: Path, name: seq<string>, e: string)
    requires PlainElement(e)
    ensures Join(dir, name + [e, ".."]) == Join(dir, name)
    ensures Join(dir, name + ["."]) == Join(dir, name) == Join(dir, name + [""])
    ensures Join([], [".."] + name) == Join([], name)
  {
    JoinTwice(dir, name, [e, ".."]);
    JoinTwice(dir, name, ["."]);
    JoinTwice(dir, name, [""]);
    JoinTwice([], [".."], name);
    var at := Join(dir, name);
    assert [e, ".."][1..] == [".."] && [".."][1..] == [] && ["."][1..] == [] && [""][1..] == [];
    assert Descend(Descend(at, e), "..") == at;
  }

  // ----- Laying out -----------------------------------------------------------------

  /** The folders once the first n entries are laid out: those there before, and all above and at the folder entries. */
  ghost function Folders(before: set<Path>, dest: Path, entries: seq<Entry>, n: nat): set<Path>
    requires n <= |entries|
  {
    before + set i, p | 0 <= i < n && entries[i].DirEntry? && p in Prefixes(Target(dest, entries[i])) :: p
  }

  /** Entry i finds what it needs: no file where it wants a folder; its folder there and no folder in its place where it
      is a file. */
  ghost predicate FindsPlace(disk: Disk, dest: Path, entries: seq<Entry>, i: nat)
    requires i < |entries|
  {
    var target, files, folders := Target(dest, entries[i]), Overlay(disk.files, dest, entries[..i]),
      Folders(disk.dirs, dest, entries, i);
    if entries[i].DirEntry? then forall p | p in files :: !Under(p, target)
    else target != [] && target[..|target| - 1] in folders && target !in folders
  }

  lemma FoldersNext(before: set<Path>, dest: Path, entries: seq<Entry>, n: nat)
    requires n < |entries|
    ensures Folders(before, dest, entries, n + 1) == Folders(before, dest, entries, n)
      + (if entries[n].DirEntry? then Prefixes(Target(dest, entries[n])) else {})
  {
    hide Target, Prefixes;
  }

  lemma NoFileAbove(files: map<Path, Bytes>, target: Path)
    ensures (forall i | 0 <= i <= |target| :: target[..i] !in files) <==> (forall p | p in files :: !Under(p, target))
  {
    forall p | p in files && Under(p, target) ensures target[..|p|] in files {
      assert target[..|p|] == p;
    }
    if forall p | p in files :: !Under(p, target) {
      forall i | 0 <= i <= |target| ensures target[..i] !in files {
        assert Under(target[..i], target);
      }
    }
  }

  lemma {:induction false} UnpacksIff(disk: Disk, dest: Path, entries: seq<Entry>, n: nat)
    requires n <= |entries|
    ensures var (after, ok) := Unpack(disk, dest, entries, n, NoFault);
      && (ok <==> forall i: nat | i < n :: FindsPlace(disk, dest, entries, i))
      && (ok ==> after == Disk(Overlay(disk.files, dest, entries[..n]), Folders(disk.dirs, dest, entries, n)))
    decreases n
  {
    hide Target, Prefixes, FindsPlace, Folders;
    if n == 0 {
      assert entries[..0] == [];
      NoFolders(disk.dirs, dest, entries);
    } else {
      UnpacksIff(disk, dest, entries, n - 1);
      var (before, ok) := Unpack(disk, dest, entries, n - 1, NoFault);
      if ok {
        EntryFits(disk, dest, entries, n - 1);
      }
    }
  }

  lemma NoFolders(before: set<Path>, dest: Path, entries: seq<Entry>)
    ensures Folders(before, dest, entries, 0) == before
  {
  }

  lemma EntryFits(disk: Disk, dest: Path, entries: seq<Entry>, i: nat)
    requires i < |entries|
    ensures var before := Disk(Overlay(disk.files, dest, entries[..i]), Folders(disk.dirs, dest, entries, i));
      var (after, ok) := UnpackEntry(before, dest, entries[i], i, NoFault);
      && (ok <==> FindsPlace(disk, dest, entries, i))
      && (ok ==>
            after == Disk(Overlay(disk.files, dest, entries[..i + 1]), Folders(disk.dirs, dest, entries, i + 1)))
  {
    hide Target, Prefixes, Folders;
    NoFileAbove(Overlay(disk.files, dest, entries[..i]), Target(dest, entries[i]));
    FoldersNext(disk.dirs, dest, entries, i);
    assert entries[..i + 1][..i] == entries[..i] && entries[..i + 1][i] == entries[i];
  }

  /** With every step working an archive is unpacked exactly when each of its entries finds what it needs among what was
      there and what the entries before it made; and then the disk holds the fold of its files and the folders it names,
      and nothing else is new. */
  lemma ExtractsIff(disk: Disk, dest: Path, entries: seq<Entry>)
    ensures var (after, ok) := Extract(disk, dest, entries, NoFault);
      && (ok <==> forall i: nat | i < |entries| :: FindsPlace(disk, dest, entries, i))
      && (ok ==>
            after == Disk(Overlay(disk.files, dest, entries), Folders(disk.dirs, dest, entries, |entries|)))
  {
    hide FindsPlace, Folders, Unpack;
    UnpacksIff(disk, dest, entries, |entries|);
    assert entries[..|entries|] == entries;
  }

  // ----- The files made executable ---------------------------------------------------

  /** The path as text, each element behind a slash. */
  function Rendered(p: Path): string {
    if p == [] then "" else Rendered(p[..|p| - 1]) + "/" + p[|p| - 1]
  }

  const EXECUTABLE := "bin/suricata"

  /** An occurrence that does not end before the last element has its slash in front of it. */
  lemma OccursAtLast(front: string, last: string, i: int)
    requires '/' !in last && OccursAt(front + "/" + last, EXECUTABLE, i) && i + 12 > |front|
    ensures i + 3 == |front| && front[|front| - 3..] == "bin" && |last| >= 8 && last[..8] == "suricata"
  {
    var s := front + "/" + last;
    SlashInside(s, i);
    assert s[|front|] == '/';
    forall k | |front| < k < |s| ensures s[k] != '/' {
      assert s[k] == last[k - |front| - 1];
    }
    assert s[i + 3] == '/';
    assert i == |front| - 3 && |last| >= 8;
    assert front[|front| - 3..] == s[i..i + 3];
    assert s[|front| + 1..] == last;
    assert s[i + 4..i + 12] == s[|front| + 1..][..8];
  }

  /** The one slash of an occurrence, and what stands before and behind it. */
  lemma SlashInside(s: string, i: int)
    requires OccursAt(s, EXECUTABLE, i)
    ensures s[i..i + 3] == "bin" && s[i + 4..i + 12] == "suricata"
    ensures forall k | i <= k < i + 12 :: s[k] == '/' <==> k == i + 3
  {
    var t := s[i..i + 12];
    assert t == EXECUTABLE;
    forall k | i <= k < i + 12 ensures s[k] == '/' <==> k == i + 3 {
      assert s[k] == t[k - i];
    }
    assert s[i..i + 3] == t[..3] == "bin";
    assert s[i + 4..i + 12] == t[4..12] == "suricata";
  }

  /** "bin" at the end of a rendered path ends its last element. */
  lemma EndsInElement(p: Path)
    requires forall e | e in p :: '/' !in e
    requires |Rendered(p)| >= 3 && Rendered(p)[|Rendered(p)| - 3..] == "bin"
    ensures p != [] && EndsWith(p[|p| - 1], "bin")
  {
    var r, last := Rendered(p), p[|p| - 1];
    var front := Rendered(p[..|p| - 1]);
    assert r == front + "/" + last;
    assert r[|r| - 3..][0] == r[|r| - 3] && r[|r| - 3..][1] == r[|r| - 2] && r[|r| - 3..][2] == r[|r| - 1];
    assert r[|front|] == '/';
    assert |last| >= 3;
    assert last[|last| - 3..] == r[|r| - 3..];
  }

  lemma LastIsExecutable(front: string, e: string, last: string)
    requires EndsWith(e, "bin") && |last| >= 8 && last[..8] == "suricata"
    ensures Contains(front + "/" + e + "/" + last, EXECUTABLE)
  {
    var s := front + "/" + e + "/" + last;
    var i := |front| + 1 + |e| - 3;
    assert s[i..i + 3] == e[|e| - 3..] == "bin";
    assert s[i + 3] == '/';
    assert s[i + 4..i + 12] == last[..8] == "suricata";
    assert s[i..i + 12] == s[i..i + 3] + [s[i + 3]] + s[i + 4..i + 12];
    assert "bin" + ['/'] + "suricata" == EXECUTABLE;
    assert OccursAt(s, EXECUTABLE, i);
  }

  /** Looking for the text in the rendered path finds a folder whose name ends in "bin" right above an element that
      begins with "suricata", and nothing else. */
  lemma {:induction false} IsExecutableIff(p: Path)
    requires forall e | e in p :: '/' !in e
    ensures IsExecutable(p) <==> Contains(Rendered(p), EXECUTABLE)
    decreases |p|
  {
    hide EndsWith, OccursAt;
    if p != [] {
      var front, last := p[..|p| - 1], p[|p| - 1];
      IsExecutableIff(front);
      ExecutableNext(p);
      if i :| OccursAt(Rendered(p), EXECUTABLE, i) {
        OccursInFrontOrLast(Rendered(front), last, i);
        if i + 12 > |Rendered(front)| {
          OccursAtLast(Rendered(front), last, i);
          assert |Rendered(front)| >= 3 by {
            StartsInside(Rendered(front) + "/" + last, i);
          }
          EndsInElement(front);
        }
      }
      if front != [] && EndsWith(front[|front| - 1], "bin") && |last| >= 8 && last[..8] == "suricata" {
        LastIsExecutable(Rendered(front[..|front| - 1]), front[|front| - 1], last);
      }
      if i :| OccursAt(Rendered(front), EXECUTABLE, i) {
        OccursStill(Rendered(front), "/" + last, i);
        assert Rendered(front) + ("/" + last) == Rendered(p);
      }
    } else {
      NoneInEmpty();
    }
  }

  lemma StartsInside(s: string, i: int)
    requires OccursAt(s, EXECUTABLE, i)
    ensures i >= 0
  {
  }

  lemma NoneInEmpty()
    ensures !Contains("", EXECUTABLE)
  {
  }

  lemma OccursInFrontOrLast(front: string, last: string, i: int)
    requires OccursAt(front + "/" + last, EXECUTABLE, i)
    ensures i + 12 > |front| || OccursAt(front, EXECUTABLE, i)
  {
    if i + 12 <= |front| {
      assert front[i..i + 12] == (front + "/" + last)[i..i + 12];
    }
  }

  lemma OccursStill(front: string, rest: string, i: int)
    requires OccursAt(front, EXECUTABLE, i)
    ensures OccursAt(front + rest, EXECUTABLE, i)
  {
    assert (front + rest)[i..i + 12] == front[i..i + 12];
  }

  lemma ExecutableNext(p: Path)
    requires p != []
    ensures var front, last := p[..|p| - 1], p[|p| - 1];
      IsExecutable(p) <==>
        || IsExecutable(front)
        || (front != [] && EndsWith(front[|front| - 1], "bin") && |last| >= 8 && last[..8] == "suricata")
  {
    hide EndsWith;
    var front := p[..|p| - 1];
    forall i | 0 <= i < |front| ensures front[i] == p[i] {
    }
  }

  /** So a failing change of permissions stops the unpacking exactly at such a file. */
  lemma ChmodStopsIff(disk: Disk, dest: Path, e: Entry, i: nat)
    requires e.FileEntry? && CanCreate(disk, Target(dest, e)) && forall x | x in Target(dest, e) :: '/' !in x
    ensures UnpackEntry(disk, dest, e, i, CannotChmod(i)).1 <==> !Contains(Rendered(Target(dest, e)), EXECUTABLE)
  {
    hide IsExecutable, Rendered;
    IsExecutableIff(Target(dest, e));
  }
}
