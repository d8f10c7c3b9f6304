/** Version numbers, and when a device is offered a package. Versions are dotted numbers, compared
    place by place with missing places read as zero; any other text does not parse. */
module Versions {
  import opened Tables
  import opened Schema
  import opened Text

  type Version = seq<nat>

  // ----- Parsing --------------------------------------------------------------------

  /** strings.TrimLeft(s, "vr") */
  function Trim(s: string): string {
    if s != "" && (s[0] == 'v' || s[0] == 'r') then Trim(s[1..]) else s
  }

  function Dotted(s: string): Option<Version>
    decreases |s|
  {
    var (digits, rest) := Span(s);
    if digits == "" then None
    else if rest == "" then Some([Numeral(digits)])
    else if rest[0] != '.' then None
    else
      match Dotted(rest[1..])
      case None => None
      case Some(v) => Some([Numeral(digits)] + v)
  }

  function Parse(text: string): Option<Version> {
    Dotted(Trim(text))
  }

  /** What Trim takes off is the longest beginning of v's and r's. */
  lemma {:induction false} TrimTakesLetters(s: string)
    ensures |Trim(s)| <= |s|
    ensures var n := |s| - |Trim(s)|;
      s[n..] == Trim(s) && (forall i | 0 <= i < n :: s[i] == 'v' || s[i] == 'r')
      && (n < |s| ==> s[n] != 'v' && s[n] != 'r')
  {
    if s != "" && (s[0] == 'v' || s[0] == 'r') {
      TrimTakesLetters(s[1..]);
    }
  }

  /** The numbers between the dots are those of the version. */
  predicate NumbersAre(parts: seq<string>, v: Version) {
    |v| == |parts| && forall i | 0 <= i < |parts| :: Number(parts[i]) && Numeral(parts[i]) == v[i]
  }

  /** A text parses exactly when there is a number in every place between its dots, and to these numbers. */
  lemma {:induction false} DottedIff(s: string, v: Version)
    ensures Dotted(s) == Some(v) <==> NumbersAre(Parts(s, '.'), v)
    decreases |s|
  {
    var (digits, rest) := Span(s);
    assert s == digits + rest && '.' !in digits;
    if rest == "" {
      PartsOfWhole(s, '.');
      assert s == digits;
      assert |v| == 1 ==> v == [v[0]];
    } else if rest[0] == '.' {
      assert s == digits + ['.'] + rest[1..];
      PartsOfTwo(digits, rest[1..], '.');
      var parts := Parts(rest[1..], '.');
      if v != [] {
        DottedIff(rest[1..], v[1..]);
        assert v == [v[0]] + v[1..];
        assert NumbersAre([digits] + parts, v) <==>
          Number(digits) && Numeral(digits) == v[0] && NumbersAre(parts, v[1..]) by {
          NumbersOfMore(digits, parts, v);
        }
      }
    } else {
      var front := digits + [rest[0]];
      assert s == front + rest[1..];
      FirstPart(front, rest[1..], '.');
      assert Parts(s, '.')[0][|digits|] == rest[0];
    }
  }

  lemma NumbersOfMore(first: string, parts: seq<string>, v: Version)
    requires v != []
    ensures NumbersAre([first] + parts, v) <==> Number(first) && Numeral(first) == v[0] && NumbersAre(parts, v[1..])
  {
    var all := [first] + parts;
    assert forall i | 0 <= i < |parts| :: all[i + 1] == parts[i];
    if NumbersAre(all, v) {
      assert all[0] == first;
      forall i | 0 <= i < |parts| ensures Number(parts[i]) && Numeral(parts[i]) == v[1..][i] {
        assert Number(all[i + 1]);
      }
    } else if Number(first) && Numeral(first) == v[0] && NumbersAre(parts, v[1..]) {
      forall i | 0 <= i < |all| ensures Number(all[i]) && Numeral(all[i]) == v[i] {
        if i > 0 {
          assert Number(parts[i - 1]) && Numeral(parts[i - 1]) == v[1..][i - 1];
        }
      }
    }
  }

  /** The text of a version: its numbers with dots between them. */
  function Print(v: Version): string
    requires v != []
  {
    if |v| == 1 then Decimal(v[0]) else Decimal(v[0]) + "." + Print(v[1..])
  }

  lemma {:induction false} DottedOfPrint(v: Version)
    requires v != []
    ensures Dotted(Print(v)) == Some(v)
  {
    NumeralOfDecimal(v[0]);
    if |v| == 1 {
      assert Decimal(v[0]) + "" == Decimal(v[0]) && v == [v[0]];
      SpanOf(Decimal(v[0]), "");
    } else {
      var rest := "." + Print(v[1..]);
      assert Print(v) == Decimal(v[0]) + rest && rest[1..] == Print(v[1..]);
      SpanOf(Decimal(v[0]), rest);
      DottedOfPrint(v[1..]);
      assert [v[0]] + v[1..] == v;
    }
  }

  /** Printed versions, with a leading v or r or neither, parse to what was printed. */
  lemma ParseOfPrint(v: Version, prefix: string)
    requires v != [] && prefix in {"", "v", "r"}
    ensures Parse(prefix + Print(v)) == Some(v)
  {
    DottedOfPrint(v);
    var s := prefix + Print(v);
    assert IsDigit(Print(v)[0]);
    assert Trim(Print(v)) == Print(v);
    if prefix == "" {
      assert s == Print(v);
    } else {
      assert s[0] == prefix[0] && s[1..] == Print(v);
      assert Trim(s) == Trim(s[1..]);
    }
  }

  // ----- Order ----------------------------------------------------------------------

  function Place(v: Version, i: nat): nat {
    if i < |v| then v[i] else 0
  }

  function Tail(v: Version): Version {
    if v == [] then [] else v[1..]
  }

  /** The order of two versions as a number. */
  function Compare(a: Version, b: Version): int
    decreases |a| + |b|
  {
    if a == [] && b == [] then 0
    else if Place(a, 0) < Place(b, 0) then -1
    else if Place(a, 0) > Place(b, 0) then 1
    else Compare(Tail(a), Tail(b))
  }

  lemma PlaceOfTail(v: Version)
    ensures forall i: nat :: Place(Tail(v), i) == Place(v, i + 1)
  {
  }

  lemma {:induction false} EqualIff(a: Version, b: Version)
    ensures Compare(a, b) == 0 <==> forall i: nat :: Place(a, i) == Place(b, i)
    decreases |a| + |b|
  {
    if a == [] && b == [] {
    } else {
      EqualIff(Tail(a), Tail(b));
      PlaceOfTail(a);
      PlaceOfTail(b);
      if forall i: nat :: Place(Tail(a), i) == Place(Tail(b), i) {
        forall i: nat | Place(a, 0) == Place(b, 0) ensures Place(a, i) == Place(b, i) {
          if i > 0 {
            assert Place(Tail(a), i - 1) == Place(Tail(b), i - 1);
          }
        }
      }
      if forall i: nat :: Place(a, i) == Place(b, i) {
        forall i: nat ensures Place(Tail(a), i) == Place(Tail(b), i) {
          assert Place(a, i + 1) == Place(b, i + 1);
        }
      }
    }
  }

  /** In the first place where they differ, a has the smaller number. */
  ghost predicate BelowAt(a: Version, b: Version, i: nat) {
    Place(a, i) < Place(b, i) && forall j: nat | j < i :: Place(a, j) == Place(b, j)
  }

  ghost predicate Below(a: Version, b: Version) {
    exists i: nat :: BelowAt(a, b, i)
  }

  ghost predicate Same(a: Version, b: Version) {
    forall i: nat :: Place(a, i) == Place(b, i)
  }

  lemma BelowInTails(a: Version, b: Version)
    ensures Below(a, b) <==> Place(a, 0) < Place(b, 0) || (Place(a, 0) == Place(b, 0) && Below(Tail(a), Tail(b)))
  {
    PlaceOfTail(a);
    PlaceOfTail(b);
    if Place(a, 0) < Place(b, 0) {
      assert BelowAt(a, b, 0);
    }
    if i: nat :| BelowAt(a, b, i) {
      if i > 0 {
        forall j: nat | j < i - 1 ensures Place(Tail(a), j) == Place(Tail(b), j) {
          assert Place(a, j + 1) == Place(b, j + 1);
        }
        assert Place(a, 0) == Place(b, 0) && BelowAt(Tail(a), Tail(b), i - 1);
      }
    }
    if i: nat :| Place(a, 0) == Place(b, 0) && BelowAt(Tail(a), Tail(b), i) {
      forall j: nat | j < i + 1 ensures Place(a, j) == Place(b, j) {
        if j > 0 {
          assert Place(Tail(a), j - 1) == Place(Tail(b), j - 1);
        }
      }
      assert BelowAt(a, b, i + 1);
    }
  }

  /** Which way the order points: the first place that differs decides, and the smaller number there is the lower
      version. */
  lemma {:induction false} CompareIff(a: Version, b: Version)
    ensures Compare(a, b) < 0 <==> Below(a, b)
    ensures Compare(a, b) > 0 <==> Below(b, a)
    ensures Compare(a, b) == 0 <==> Same(a, b)
    decreases |a| + |b|
  {
    hide Below, Same;
    SameIsEqual(a, b);
    if a == [] && b == [] {
      NothingBelowNothing();
    } else {
      CompareIff(Tail(a), Tail(b));
      BelowInTails(a, b);
      BelowInTails(b, a);
    }
  }

  lemma SameIsEqual(a: Version, b: Version)
    ensures Compare(a, b) == 0 <==> Same(a, b)
  {
    EqualIff(a, b);
  }

  lemma NothingBelowNothing()
    ensures !Below([], [])
  {
  }

  lemma {:induction false} CompareFlips(a: Version, b: Version)
    ensures Compare(b, a) == -Compare(a, b)
    decreases |a| + |b|
  {
    if a != [] || b != [] {
      CompareFlips(Tail(a), Tail(b));
    }
  }

  lemma {:induction false} CompareTransitive(a: Version, b: Version, c: Version)
    requires Compare(a, b) >= 0 && Compare(b, c) >= 0
    ensures Compare(a, c) >= 0
    ensures Compare(a, b) > 0 || Compare(b, c) > 0 ==> Compare(a, c) > 0
    decreases |a| + |b| + |c|
  {
    if a != [] || b != [] || c != [] {
      if Place(a, 0) == Place(b, 0) == Place(c, 0) {
        CompareTransitive(Tail(a), Tail(b), Tail(c));
      }
    }
  }

  // ----- Is an update needed? -------------------------------------------------------

  /** The decision of the update server about one package: `manifest` is on offer, `device` is reported. */
  function IsUpdateNeeded(manifest: string, device: string, manifestDigest: Digest, deviceDigest: Digest): bool {
    if device == "" then true
    else
      match Parse(device)
      case None => false
      case Some(have) =>
        match Parse(manifest)
        case None => false
        case Some(offered) =>
          if Compare(offered, have) > 0 then true
          else if Compare(offered, have) == 0 && deviceDigest != NoDigest then manifestDigest != deviceDigest
          else false
  }

  lemma {:induction false} CompareSelf(v: Version)
    ensures Compare(v, v) == 0
  {
    CompareFlips(v, v);
  }

  /** What a device has just installed is not offered again, whether or not its version parses. */
  lemma InstalledIsNotOffered(version: string, digest: Digest)
    ensures IsUpdateNeeded(version, version, digest, digest) <==> version == ""
  {
    if version != "" && Parse(version).Some? {
      CompareSelf(Parse(version).value);
    }
  }

  /** When a package is offered, place by place: to a device that reports nothing; to one whose version is lower; and
      to one of the same version that reports another digest. */
  lemma NeededIff(manifest: string, device: string, manifestDigest: Digest, deviceDigest: Digest)
    ensures IsUpdateNeeded(manifest, device, manifestDigest, deviceDigest) <==>
      || device == ""
      || (Parse(device).Some? && Parse(manifest).Some?
          && (|| Below(Parse(device).value, Parse(manifest).value)
              || (Same(Parse(device).value, Parse(manifest).value) && deviceDigest != NoDigest
                  && manifestDigest != deviceDigest)))
  {
    hide Parse, Compare, Below, Same;
    if Parse(device).Some? && Parse(manifest).Some? {
      CompareIff(Parse(manifest).value, Parse(device).value);
      CompareIff(Parse(device).value, Parse(manifest).value);
      CompareFlips(Parse(manifest).value, Parse(device).value);
    }
  }

  /** What an offer to a device with a parsed version means: it parses and is no lower; and a device that reports
      text that does not parse is never offered anything. */
  lemma OfferIsNoDowngrade(manifest: string, device: string, manifestDigest: Digest, deviceDigest: Digest)
    requires device != "" && IsUpdateNeeded(manifest, device, manifestDigest, deviceDigest)
    ensures Parse(device).Some? && Parse(manifest).Some?
    ensures !Below(Parse(manifest).value, Parse(device).value)
  {
    CompareIff(Parse(manifest).value, Parse(device).value);
  }

  /** Of two versions the higher is an update of the lower, and the lower is none of the higher. */
  lemma OffersGoOneWay(a: string, b: string, da: Digest, db: Digest)
    requires Parse(a).Some? && Parse(b).Some? && a != "" && b != ""
    requires Below(Parse(a).value, Parse(b).value)
    ensures IsUpdateNeeded(b, a, db, da) && !IsUpdateNeeded(a, b, da, db)
  {
    CompareIff(Parse(a).value, Parse(b).value);
    CompareFlips(Parse(a).value, Parse(b).value);
  }

  lemma BelowTransitive(a: Version, b: Version, c: Version)
    requires !Below(b, a) && !Below(c, b)
    ensures !Below(c, a)
  {
    hide Below, Same;
    CompareIff(b, a);
    CompareIff(c, b);
    CompareIff(c, a);
    CompareTransitive(c, b, a);
  }
}
