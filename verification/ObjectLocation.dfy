/** Where a published package is stored and where the download URL of its version leads. */
module ObjectLocation {
  import opened Tables
  import opened Text

  // ----- File names -----------------------------------------------------------------

  /** c, then three numbers with dots between them: c\d+\.\d+\.\d+ */
  predicate IsDotted(c: char, s: string) {
    s != "" && s[0] == c &&
    var (d1, r1) := Span(s[1..]);
    d1 != "" && r1 != "" && r1[0] == '.' &&
    var (d2, r2) := Span(r1[1..]);
    d2 != "" && r2 != "" && r2[0] == '.' &&
    var (d3, r3) := Span(r2[1..]);
    d3 != "" && r3 == ""
  }

  predicate DottedForm(c: char, s: string, d1: string, d2: string, d3: string) {
    Number(d1) && Number(d2) && Number(d3) && s == [c] + d1 + "." + d2 + "." + d3
  }

  lemma DottedHasForm(c: char, s: string)
    requires IsDotted(c, s)
    ensures exists d1, d2, d3 :: DottedForm(c, s, d1, d2, d3)
  {
    hide Span;
    var (d1, r1) := Span(s[1..]);
    var (d2, r2) := Span(r1[1..]);
    var (d3, r3) := Span(r2[1..]);
    assert s == [c] + (d1 + r1) && r1 == "." + (d2 + r2) && r2 == "." + (d3 + r3);
    assert DottedForm(c, s, d1, d2, d3);
  }

  lemma FormIsDotted(c: char, s: string, d1: string, d2: string, d3: string)
    requires DottedForm(c, s, d1, d2, d3)
    ensures IsDotted(c, s)
  {
    assert s[1..] == d1 + ("." + d2 + "." + d3);
    SpanOf(d1, "." + d2 + "." + d3);
    assert ("." + d2 + "." + d3)[1..] == d2 + ("." + d3);
    SpanOf(d2, "." + d3);
    assert ("." + d3)[1..] == d3 + "";
    SpanOf(d3, "");
  }

  /** The matcher accepts what the pattern describes. */
  lemma DottedIff(c: char, s: string)
    ensures IsDotted(c, s) <==> exists d1, d2, d3 :: DottedForm(c, s, d1, d2, d3)
  {
    hide IsDotted, DottedForm;
    if IsDotted(c, s) {
      DottedHasForm(c, s);
    }
    forall d1, d2, d3 | DottedForm(c, s, d1, d2, d3) ensures IsDotted(c, s) {
      FormIsDotted(c, s, d1, d2, d3);
    }
  }

  /** \d{4}\.\d{2}\.\d{2}\.\d{4} */
  predicate IsDateTime(s: string) {
    && |s| == 15 && s[4] == '.' && s[7] == '.' && s[10] == '.'
    && forall i | 0 <= i < 15 && i != 4 && i != 7 && i != 10 :: IsDigit(s[i])
  }

  predicate DateTimeForm(s: string, year: string, month: string, day: string, time: string) {
    && |year| == 4 && |month| == 2 && |day| == 2 && |time| == 4
    && AllDigits(year) && AllDigits(month) && AllDigits(day) && AllDigits(time)
    && s == year + "." + month + "." + day + "." + time
  }

  lemma DateTimeIff(s: string)
    ensures IsDateTime(s) <==> exists y, m, d, t :: DateTimeForm(s, y, m, d, t)
  {
    if IsDateTime(s) {
      var y, m, d, t := s[..4], s[5..7], s[8..10], s[11..];
      assert s == y + "." + m + "." + d + "." + t;
      assert DateTimeForm(s, y, m, d, t);
    }
    forall y, m, d, t | DateTimeForm(s, y, m, d, t) ensures IsDateTime(s) {
      DateTimeChars(s, y, m, d, t);
    }
  }

  lemma DateTimeChars(s: string, y: string, m: string, d: string, t: string)
    requires DateTimeForm(s, y, m, d, t)
    ensures IsDateTime(s)
  {
    assert s[..4] == y && s[5..7] == m && s[8..10] == d && s[11..] == t;
    forall i | 0 <= i < 15 && i != 4 && i != 7 && i != 10 ensures IsDigit(s[i]) {
      assert i < 4 ==> s[i] == y[i];
      assert 4 < i < 7 ==> s[i] == m[i - 5];
      assert 7 < i < 10 ==> s[i] == d[i - 8];
      assert 10 < i ==> s[i] == t[i - 11];
    }
  }

  /** What stands between a prefix and a suffix. */
  function Between(s: string, prefix: string, suffix: string): Option<string> {
    if |s| >= |prefix| + |suffix| && s[..|prefix|] == prefix && s[|s| - |suffix|..] == suffix
    then Some(s[|prefix|..|s| - |suffix|]) else None
  }

  lemma BetweenIff(s: string, prefix: string, suffix: string, mid: string)
    ensures Between(s, prefix, suffix) == Some(mid) <==> s == prefix + mid + suffix
  {
    if Between(s, prefix, suffix) == Some(mid) {
      assert s == s[..|prefix|] + s[|prefix|..|s| - |suffix|] + s[|s| - |suffix|..];
    }
    if s == prefix + mid + suffix {
      assert s[..|prefix|] == prefix && s[|prefix|..|s| - |suffix|] == mid && s[|s| - |suffix|..] == suffix;
    }
  }

  const TAR_GZ := ".tar.gz"

  function SoftwareVersion(base: string): Option<string> {
    var v := Between(base, "hndr-sw-", TAR_GZ);
    if v.Some? && IsDotted('v', v.value) then v else None
  }

  function ThreatIntelVersion(base: string): Option<string> {
    var v := Between(base, "threatintel-", TAR_GZ);
    if v.Some? && IsDateTime(v.value) then v else None
  }

  /** The digits after "tid_" and the version of a rules file name. */
  function RulesName(base: string): Option<(string, string)> {
    var mid := Between(base, "hndr-rules-tid_", TAR_GZ);
    if mid.None? then None
    else
      var (digits, rest) := Span(mid.value);
      if digits != "" && rest != "" && rest[0] == '-' && IsDotted('r', rest[1..]) then Some((digits, rest[1..]))
        else None
  }

  function RulesFile(digits: string, version: string): string {
    "hndr-rules-tid_" + digits + "-" + version + TAR_GZ
  }

  /** The rules matcher accepts what its pattern describes, with the only possible digits and version. */
  lemma RulesNameIff(base: string, digits: string, version: string)
    ensures RulesName(base) == Some((digits, version)) <==>
      Number(digits) && IsDotted('r', version) && base == RulesFile(digits, version)
  {
    hide Span, IsDotted;
    var mid := digits + "-" + version;
    assert RulesFile(digits, version) == "hndr-rules-tid_" + mid + TAR_GZ;
    BetweenIff(base, "hndr-rules-tid_", TAR_GZ, mid);
    if Number(digits) && IsDotted('r', version) && base == RulesFile(digits, version) {
      assert mid == digits + ("-" + version);
      SpanOf(digits, "-" + version);
      assert ("-" + version)[1..] == version;
    }
    if RulesName(base) == Some((digits, version)) {
      var m := Between(base, "hndr-rules-tid_", TAR_GZ).value;
      var (d, rest) := Span(m);
      assert rest == "-" + rest[1..];
      assert m == mid;
    }
  }

  /** The last element of a slash-separated path. */
  function Base(path: string): string
    decreases |path|
  {
    if path == "" then ""
    else if path[|path| - 1] == '/' then Base(path[..|path| - 1])
    else AfterLastSlash(path)
  }

  /** strings.LastIndex(path, "/") + 1 onwards */
  function AfterLastSlash(path: string): (r: string)
    ensures |r| <= |path| && path[|path| - |r|..] == r && '/' !in r
    ensures |r| < |path| ==> path[|path| - |r| - 1] == '/'
    decreases |path|
  {
    if path == "" || path[|path| - 1] == '/' then "" else AfterLastSlash(path[..|path| - 1]) + [path[|path| - 1]]
  }

  // ----- Publishing and downloading -------------------------------------------------

  datatype ObjectInfo = ObjectInfo(kind: string, version: string, tenant: int, bucket: string, path: string)

  datatype ParseResult =
    | Parsed(info: ObjectInfo)
    | UnknownType
    | TenantRequired
    | TenantNotAllowed
    | BadFileName

  function ParseObjectInfo(kind: string, filename: string, tenant: int): ParseResult {
    if kind !in {"software", "rules", "threatintel"} then UnknownType
    else if kind == "rules" && tenant <= 0 then TenantRequired
    else if kind != "rules" && tenant != 0 then TenantNotAllowed
    else
      var base := Base(filename);
      if kind == "software" then
        match SoftwareVersion(base)
        case Some(v) => Parsed(ObjectInfo(kind, v, 0, "software", "hndr-sw-" + v + TAR_GZ))
        case None => BadFileName
      else if kind == "rules" then
        match RulesName(base)
        case Some((_, v)) => Parsed(ObjectInfo(kind, v, tenant, "rules", Decimal(tenant) + "/" + base))
        case None => BadFileName
      else
        match ThreatIntelVersion(base)
        case Some(v) => Parsed(ObjectInfo(kind, v, 0, "threatintel", "threatintel-" + v + TAR_GZ))
        case None => BadFileName
  }

  /** The request path under which the object store serves an object. */
  function Stored(info: ObjectInfo): string {
    "/" + info.bucket + "/" + info.path
  }

  function DownloadURLFormat(tenant: int, resource: string, prefix: string, version: string): string {
    "/v1/download/" + Printed(tenant) + "/" + resource + "/" + prefix + "-" + version + TAR_GZ
  }

  function DownloadURLFormatRules(tenant: int, resource: string, prefix: string, version: string): string {
    "/v1/download/" + Printed(tenant) + "/" + resource + "/" + Printed(tenant) + "/" + prefix + "-tid_"
      + Printed(tenant)
    + "-" + version + TAR_GZ
  }

  /** rewrite ^/v1/download/(\d+)/(.*)$ /$2 */
  function Rewrite(uri: string): Option<string> {
    var rest := Between(uri, "/v1/download/", "");
    if rest.None? then None
    else
      var (digits, tail) := Span(rest.value);
      if digits != "" && tail != "" && tail[0] == '/' then Some(tail) else None
  }

  lemma RewriteDrops(tenant: nat, tail: string)
    ensures Rewrite("/v1/download/" + Decimal(tenant) + "/" + tail) == Some("/" + tail)
  {
    var uri := "/v1/download/" + Decimal(tenant) + "/" + tail;
    assert uri == "/v1/download/" + (Decimal(tenant) + ("/" + tail)) + "";
    BetweenIff(uri, "/v1/download/", "", Decimal(tenant) + ("/" + tail));
    SpanOf(Decimal(tenant), "/" + tail);
  }

  /** What an accepted file name of each kind is parsed into. */
  lemma ParsedShared(kind: string, filename: string)
    requires kind != "rules" && ParseObjectInfo(kind, filename, 0).Parsed?
    ensures kind == "software" || kind == "threatintel"
    ensures var info := ParseObjectInfo(kind, filename, 0).info;
      info.bucket == kind && info.path == (if kind == "software" then "hndr-sw-" else "threatintel-") + info.version
        + TAR_GZ
  {
    hide SoftwareVersion, ThreatIntelVersion, RulesName, Base, Decimal;
  }

  lemma ParsedRules(filename: string, tenant: int)
    requires ParseObjectInfo("rules", filename, tenant).Parsed?
    ensures tenant > 0 && RulesName(Base(filename)).Some?
    ensures ParseObjectInfo("rules", filename, tenant).info ==
      ObjectInfo("rules", RulesName(Base(filename)).value.1, tenant, "rules", Decimal(tenant) + "/" + Base(filename))
  {
    hide SoftwareVersion, ThreatIntelVersion, RulesName, Base, Decimal;
  }

  /** Software and threat intelligence: whatever tenant downloads the parsed version is led to the object. */
  lemma SharedPackagesAreFound(kind: string, filename: string, tenant: nat)
    requires kind != "rules" && ParseObjectInfo(kind, filename, 0).Parsed?
    ensures var info := ParseObjectInfo(kind, filename, 0).info;
      var prefix := if kind == "software" then "hndr-sw" else "threatintel";
      Rewrite(DownloadURLFormat(tenant, kind, prefix, info.version)) == Some(Stored(info))
  {
    hide ParseObjectInfo, Rewrite, Decimal;
    ParsedShared(kind, filename);
    var info := ParseObjectInfo(kind, filename, 0).info;
    if kind == "software" {
      SameTail(tenant, kind, "hndr-sw", info.version);
      assert "hndr-sw" + "-" == "hndr-sw-";
    } else {
      SameTail(tenant, kind, "threatintel", info.version);
      assert "threatintel" + "-" == "threatintel-";
    }
  }

  lemma SameTail(tenant: nat, kind: string, prefix: string, version: string)
    ensures Rewrite(DownloadURLFormat(tenant, kind, prefix, version)) == Some("/" + kind + "/"
      + ((prefix + "-") + version + TAR_GZ))
  {
    hide Rewrite, Decimal;
    var tail := kind + "/" + prefix + "-" + version + TAR_GZ;
    RewriteDrops(tenant, tail);
    assert DownloadURLFormat(tenant, kind, prefix, version) == "/v1/download/" + Decimal(tenant) + "/" + tail;
    assert "/" + tail == "/" + kind + "/" + ((prefix + "-") + version + TAR_GZ);
  }

  /** Rules: the URL leads to the object exactly when the digits in the file name are the tenant id in decimal,
      without leading zeros. */
  lemma RulesAreFoundIff(filename: string, tenant: int)
    requires ParseObjectInfo("rules", filename, tenant).Parsed?
    ensures var info := ParseObjectInfo("rules", filename, tenant).info;
      Rewrite(DownloadURLFormatRules(tenant, "rules", "hndr-rules", info.version)) == Some(Stored(info))
      <==> RulesName(Base(filename)).value.0 == Decimal(tenant)
  {
    hide ParseObjectInfo, Rewrite, Decimal, RulesName, Base, IsDotted;
    ParsedRules(filename, tenant);
    var base := Base(filename);
    var (digits, v) := RulesName(base).value;
    RulesNameIff(base, digits, v);
    RulesNameIff(base, Decimal(tenant), v);
    RulesTail(tenant, v);
    Appended("/rules/" + Decimal(tenant) + "/", RulesFile(Decimal(tenant), v), base);
    assert Stored(ParseObjectInfo("rules", filename, tenant).info) == "/rules/" + Decimal(tenant) + "/" + base;
  }

  lemma RulesTail(tenant: nat, v: string)
    ensures Rewrite(DownloadURLFormatRules(tenant, "rules", "hndr-rules", v))
      == Some("/rules/" + Decimal(tenant) + "/" + RulesFile(Decimal(tenant), v))
  {
    hide Rewrite, Decimal;
    var d := Decimal(tenant);
    var tail := "rules/" + d + "/" + RulesFile(d, v);
    assert "hndr-rules" + "-tid_" == "hndr-rules-tid_" && "rules" + "/" == "rules/";
    assert DownloadURLFormatRules(tenant, "rules", "hndr-rules", v) == "/v1/download/" + d + "/" + tail;
    RewriteDrops(tenant, tail);
    assert "/" + tail == "/rules/" + d + "/" + RulesFile(d, v);
  }

  lemma Appended(shared: string, a: string, b: string)
    ensures shared + a == shared + b <==> a == b
  {
    assert (shared + a)[|shared|..] == a && (shared + b)[|shared|..] == b;
  }

  /** A file named for another number, or with a leading zero, is accepted and stored where no URL leads. */
  lemma RulesCanBeLost()
    ensures var r := ParseObjectInfo("rules", RulesFile("007", "r1.0.0"), 7);
      r.Parsed? && Rewrite(DownloadURLFormatRules(7, "rules", "hndr-rules", r.info.version)) != Some(Stored(r.info))
  {
    hide Rewrite, Span, Base;
    var f := RulesFile("007", "r1.0.0");
    DottedIff('r', "r1.0.0");
    assert DottedForm('r', "r1.0.0", "1", "0", "0");
    RulesNameIff(f, "007", "r1.0.0");
    NoSlash(f);
    RulesAreFoundIff(f, 7);
    assert Decimal(7) == "7";
  }

  lemma {:induction false} NoSlashTail(s: string)
    requires '/' !in s
    ensures AfterLastSlash(s) == s
  {
    if s != "" {
      NoSlashTail(s[..|s| - 1]);
    }
  }

  lemma NoSlash(s: string)
    requires '/' !in s
    ensures Base(s) == s
  {
    NoSlashTail(s);
  }

  /** The name in a path is what stands behind its last slash, not counting slashes at its end. */
  lemma BaseOfPath(dir: string, name: string)
    requires '/' !in name && name != ""
    ensures Base(dir + "/" + name) == name && Base(dir + "/" + name + "/") == name
  {
    var path := dir + "/" + name;
    assert path[|path| - 1] == name[|name| - 1];
    AfterSlash(dir, name);
    assert (path + "/")[..|path|] == path && (path + "/")[|path|] == '/';
  }

  lemma {:induction false} AfterSlash(dir: string, name: string)
    requires '/' !in name
    ensures AfterLastSlash(dir + "/" + name) == name
    decreases |name|
  {
    var path := dir + "/" + name;
    if name != "" {
      var front := name[..|name| - 1];
      assert path[..|path| - 1] == dir + "/" + front && path[|path| - 1] == name[|name| - 1];
      AfterSlash(dir, front);
      assert name == front + [name[|name| - 1]];
    } else {
      assert path[|path| - 1] == '/';
    }
  }

  /** The file names publishing accepts: hndr-sw-v1.2.3.tar.gz, hndr-rules-tid_7-r1.2.3.tar.gz and
      threatintel-2024.01.31.1200.tar.gz, with any numbers, for the type and tenant given. */
  ghost predicate Accepted(kind: string, base: string, tenant: int, version: string) {
    if kind == "software" then
      tenant == 0 && base == "hndr-sw-" + version + TAR_GZ && exists d1, d2, d3 :: DottedForm('v', version, d1, d2, d3)
    else if kind == "rules" then
      tenant > 0 && (exists digits :: Number(digits) && base == RulesFile(digits, version))
      && exists d1, d2, d3 :: DottedForm('r', version, d1, d2, d3)
    else
      kind == "threatintel" && tenant == 0 && base == "threatintel-" + version + TAR_GZ
      && exists y, m, d, t :: DateTimeForm(version, y, m, d, t)
  }

  /** A file is accepted as a version of its type exactly when it is named so, and is then filed under that type, tenant
      and version. */
  lemma ParsedIff(kind: string, filename: string, tenant: int, version: string)
    ensures var r := ParseObjectInfo(kind, filename, tenant);
      && (r.Parsed? && r.info.version == version <==> Accepted(kind, Base(filename), tenant, version))
      && (r.Parsed? ==> r.info.kind == kind && r.info.tenant == tenant && r.info.bucket == kind)
  {
    hide IsDotted, Base, DottedForm, RulesName, RulesFile, IsDateTime, DateTimeForm, Decimal;
    DateTimeIff(version);
    var base := Base(filename);
    BetweenIff(base, "hndr-sw-", TAR_GZ, version);
    BetweenIff(base, "threatintel-", TAR_GZ, version);
    DottedIff('v', version);
    DottedIff('r', version);
    if exists digits :: Number(digits) && base == RulesFile(digits, version) && IsDotted('r', version) {
      var digits :| Number(digits) && base == RulesFile(digits, version) && IsDotted('r', version);
      RulesNameIff(base, digits, version);
    }
    if RulesName(base).Some? {
      RulesNameIff(base, RulesName(base).value.0, RulesName(base).value.1);
    }
  }
}
