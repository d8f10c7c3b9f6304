/** Every interleaving of publishers, aborted or not, with everything else that happens to the tables: when a row
    is right, and what a sensor can come to install. */
module PublishRuns {
  import opened Tables
  import opened Schema
  import opened Text
  import opened ObjectLocation
  import opened NetworkAgents
  import opened Archive
  import opened Publish
  import opened DbAnswers
  import D = DbUtil
  import M = Migration
  import S = Sensor
  import F = SensorFolders

  // ----- Runs keep the tables consistent --------------------------------------------

  lemma RowKeepsConsistent(db: Db, info: ObjectInfo, content: Bytes)
    requires Consistent(db)
    ensures Consistent(Row(db, info, content).0)
  {
    hide Consistent, D.InsertHndrSw, D.InsertHndrRules, D.InsertThreatIntel;
    var p := Package(info.version, |content|, Sha256(content));
    D.InsertHndrSwKeeps(db, p);
    D.InsertHndrRulesKeeps(db, info.tenant, p);
    D.InsertThreatIntelKeeps(db, p);
  }

  lemma {:induction false} RunKeepsConsistent(w: World, steps: seq<Step>)
    requires Consistent(w.db) && PossibleRun(w, steps)
    ensures Consistent(Run(w, steps).db)
    decreases |steps|
  {
    hide Consistent, Row;
    if steps != [] {
      if steps[0].PutRow? {
        RowKeepsConsistent(w.db, w.active[steps[0].id].info, w.active[steps[0].id].content);
      }
      RunKeepsConsistent(Apply(w, steps[0]), steps[1..]);
    }
  }

  // ----- What was uploaded last, and which row was accepted last --------------------

  function ObjectAt(objects: Objects, path: string): Option<Bytes> {
    if path in objects && objects[path].Tarball? then Some(objects[path].content) else None
  }

  /** Is this step an upload of a package to the path? */
  predicate UploadsTo(w: World, step: Step, path: string) {
    step.PutObject? && step.id in w.active && Stored(w.active[step.id].info) == path
  }

  /** Is this step the row of a publication of the slot, accepted? */
  ghost predicate Accepts(w: World, step: Step, slot: Slot) {
    step.PutRow? && step.id in w.active && w.active[step.id].info.tenant >= 0 && SlotOf(w.active[step.id].info) == slot
    && Row(w.db, w.active[step.id].info, w.active[step.id].content).1
  }

  /** The bytes of the last upload to the path in the run, if there is one. */
  ghost function LastUpload(w: World, steps: seq<Step>, path: string, sofar: Option<Bytes>): Option<Bytes>
    requires PossibleRun(w, steps)
    decreases |steps|
  {
    if steps == [] then sofar
    else
      LastUpload(Apply(w, steps[0]), steps[1..], path,
                 if UploadsTo(w, steps[0], path) then Some(w.active[steps[0].id].content) else sofar)
  }

  ghost function AcceptedAfter(w: World, step: Step, slot: Slot, sofar: Option<Digest>): Option<Digest> {
    if Accepts(w, step, slot) then Some(Sha256(w.active[step.id].content)) else sofar
  }

  /** The hash of the publication of the slot accepted last in the run, if there is one. */
  ghost function LastAccepted(w: World, steps: seq<Step>, slot: Slot, sofar: Option<Digest>): Option<Digest>
    requires PossibleRun(w, steps)
    decreases |steps|
  {
    if steps == [] then sofar
    else
      LastAccepted(Apply(w, steps[0]), steps[1..], slot, AcceptedAfter(w, steps[0], slot, sofar))
  }

  // ----- Objects --------------------------------------------------------------------

  lemma MetadataElsewhere(path: string, slot: Slot)
    ensures MetadataPath(path) != PathOf(slot)
  {
    hide PathOf;
    PathHead(slot);
    assert MetadataPath(path)[|MetadataPath(path)| - 1] == 'n';
  }

  lemma ObjectStep(w: World, step: Step, slot: Slot)
    requires Enabled(w, step)
    ensures ObjectAt(Apply(w, step).objects, PathOf(slot)) ==
      if UploadsTo(w, step, PathOf(slot)) then Some(w.active[step.id].content) else ObjectAt(w.objects, PathOf(slot))
  {
    hide PathOf, Stored, MetadataPath, Row, Consistent, ParseObjectInfo;
    if step.PutMetadata? {
      MetadataElsewhere(Stored(w.active[step.id].info), slot);
    }
  }

  /** The object of a slot is what was uploaded there last. */
  lemma {:induction false} UploadsTell(w: World, steps: seq<Step>, slot: Slot)
    requires PossibleRun(w, steps)
    ensures ObjectAt(Run(w, steps).objects, PathOf(slot)) == LastUpload(w, steps, PathOf(slot),
      ObjectAt(w.objects, PathOf(slot)))
    decreases |steps|
  {
    hide Apply, Enabled, PathOf, UploadsTo, ObjectAt;
    if steps != [] {
      ObjectStep(w, steps[0], slot);
      UploadsTell(Apply(w, steps[0]), steps[1..], slot);
    }
  }

  // ----- Rows -----------------------------------------------------------------------

  ghost predicate HasRow(db: Db, slot: Slot, digest: Digest) {
    match slot
    case SoftwareSlot(v) => exists id ::
      id in db.software && db.software[id].version == v && db.software[id].digest == digest
    case ThreatIntelSlot(v) => exists id ::
      id in db.threatIntel && db.threatIntel[id].version == v && db.threatIntel[id].digest == digest
    case RulesSlot(t, v) =>
      exists id :: id in db.rules && db.rules[id].tenant == t && db.rules[id].row.version == v
        && db.rules[id].row.digest == digest
  }

  /** What a publisher's row does to the rows of a slot: of its own slot it leaves those with its digest, of
      others those that were there. */
  lemma RowsOfSlot(db: Db, info: ObjectInfo, content: Bytes, slot: Slot, digest: Digest)
    requires CatalogOk(db) && info.tenant >= 0 && HasRow(Row(db, info, content).0, slot, digest)
    ensures if Row(db, info, content).1 && SlotOf(info) == slot then digest == Sha256(content)
      else HasRow(db, slot, digest)
  {
    hide D.InsertHndrSw, D.InsertHndrRules, D.InsertThreatIntel, HasRow, CatalogOk;
    var p := Package(info.version, |content|, Sha256(content));
    if info.kind == "software" {
      SoftwareRows(db, p, slot, digest);
    } else if info.kind == "rules" {
      RulesRows(db, info.tenant, p, slot, digest);
    } else {
      ThreatIntelRows(db, p, slot, digest);
    }
  }

  lemma SoftwareRows(db: Db, p: Package, slot: Slot, digest: Digest)
    requires CatalogOk(db) && HasRow(D.InsertHndrSw(db, p).0, slot, digest)
    ensures if D.InsertHndrSw(db, p).1 && SoftwareSlot(p.version) == slot then digest == p.digest
      else HasRow(db, slot, digest)
  {
    hide D.PutPackage, PackagesOk, RulesOk;
    PutPackageRows(db.software, db.nextSoftwareId, p);
  }

  lemma ThreatIntelRows(db: Db, p: Package, slot: Slot, digest: Digest)
    requires CatalogOk(db) && HasRow(D.InsertThreatIntel(db, p).0, slot, digest)
    ensures if D.InsertThreatIntel(db, p).1 && ThreatIntelSlot(p.version) == slot then digest == p.digest
      else HasRow(db, slot, digest)
  {
    hide D.PutPackage, PackagesOk, RulesOk;
    PutPackageRows(db.threatIntel, db.nextThreatIntelId, p);
  }

  lemma RulesRows(db: Db, tenant: nat, p: Package, slot: Slot, digest: Digest)
    requires CatalogOk(db) && HasRow(D.InsertHndrRules(db, tenant, p).0, slot, digest)
    ensures if D.InsertHndrRules(db, tenant, p).1 && RulesSlot(tenant, p.version) == slot then digest == p.digest
      else HasRow(db, slot, digest)
  {
    hide D.PutRulesPackage, PackagesOk, RulesOk;
    PutRulesRows(db.rules, db.nextRulesId, tenant, p);
  }

  /** Every publisher under way has a tenant id that is not negative, as parsing gives it. */
  predicate ActiveOk(w: World) {
    forall id | id in w.active :: w.active[id].info.tenant >= 0
  }

  lemma ParsedTenant(kind: string, filename: string, tenant: int)
    requires ParseObjectInfo(kind, filename, tenant).Parsed?
    ensures ParseObjectInfo(kind, filename, tenant).info.tenant >= 0
  {
    hide SoftwareVersion, ThreatIntelVersion, RulesName, Base, Decimal;
  }

  lemma StepKeepsActiveOk(w: World, step: Step)
    requires ActiveOk(w) && Enabled(w, step)
    ensures ActiveOk(Apply(w, step))
  {
    hide Row, Stored, MetadataPath, ParseObjectInfo, Consistent;
    if step.Begin? {
      ParsedTenant(step.kind, step.filename, step.tenant);
    }
  }

  /** Apart from publishing, nothing in the run adds a row of the slot. */
  ghost predicate AddsNoRow(w: World, steps: seq<Step>, slot: Slot)
    requires PossibleRun(w, steps)
    decreases |steps|
  {
    steps == [] ||
    ((steps[0].Elsewhere? ==> forall d :: HasRow(steps[0].db, slot, d) ==> HasRow(w.db, slot, d))
     && AddsNoRow(Apply(w, steps[0]), steps[1..], slot))
  }

  lemma RowsStep(w: World, step: Step, slot: Slot, digest: Digest)
    requires Consistent(w.db) && ActiveOk(w) && Enabled(w, step) && HasRow(Apply(w, step).db, slot, digest)
    requires step.Elsewhere? ==> (HasRow(step.db, slot, digest) ==> HasRow(w.db, slot, digest))
    ensures if Accepts(w, step, slot) then forall sofar :: AcceptedAfter(w, step, slot, sofar) == Some(digest)
      else HasRow(w.db, slot, digest) && forall sofar :: AcceptedAfter(w, step, slot, sofar) == sofar
  {
    hide HasRow, Row, Stored, MetadataPath, ParseObjectInfo, Consistent, CatalogOk;
    if step.PutRow? {
      ConsistentCatalog(w.db);
      RowsOfSlot(w.db, w.active[step.id].info, w.active[step.id].content, slot, digest);
    }
  }

  /** The digest of a slot's row is that of the publication accepted last. */
  lemma {:induction false} AcceptedTells(w: World, steps: seq<Step>, slot: Slot, sofar: Option<Digest>, digest: Digest)
    requires PossibleRun(w, steps) && Consistent(w.db) && ActiveOk(w) && AddsNoRow(w, steps, slot)
    requires forall d :: HasRow(w.db, slot, d) ==> sofar == Some(d)
    requires HasRow(Run(w, steps).db, slot, digest)
    ensures LastAccepted(w, steps, slot, sofar) == Some(digest)
    decreases |steps|
  {
    hide Apply, Enabled, HasRow, AcceptedAfter, Accepts, Consistent, ActiveOk;
    if steps != [] {
      var next := Apply(w, steps[0]);
      OneStepConsistent(w, steps[0]);
      StepKeepsActiveOk(w, steps[0]);
      var later := AcceptedAfter(w, steps[0], slot, sofar);
      forall d | HasRow(next.db, slot, d) ensures later == Some(d) {
        ElsewhereIs(w, steps[0]);
        RowsStep(w, steps[0], slot, d);
      }
      AcceptedTells(next, steps[1..], slot, later, digest);
    }
  }

  lemma ElsewhereIs(w: World, step: Step)
    requires Enabled(w, step)
    ensures step.Elsewhere? ==> Apply(w, step).db == step.db
  {
  }

  lemma OneStepConsistent(w: World, step: Step)
    requires Consistent(w.db) && Enabled(w, step)
    ensures Consistent(Apply(w, step).db)
  {
    hide Consistent, Row, Stored, MetadataPath, ParseObjectInfo;
    if step.PutRow? {
      RowKeepsConsistent(w.db, w.active[step.id].info, w.active[step.id].content);
    }
  }

  /** When a row is right, over every run of any publishers that overlap and stop as they like: the row of a
      slot matches its object if and only if the bytes last uploaded to the slot's place are those of the
      publication of the slot that was accepted last. What the tables and the store held at the start counts as
      accepted and uploaded then. */
  lemma RowIsRightIff(w: World, steps: seq<Step>, slot: Slot, digest: Digest, start: Option<Digest>)
    requires PossibleRun(w, steps) && Consistent(w.db) && ActiveOk(w) && AddsNoRow(w, steps, slot)
    requires forall d :: HasRow(w.db, slot, d) ==> start == Some(d)
    requires HasRow(Run(w, steps).db, slot, digest)
    ensures var uploaded := LastUpload(w, steps, PathOf(slot), ObjectAt(w.objects, PathOf(slot)));
      && LastAccepted(w, steps, slot, start) == Some(digest)
      && (Holds(Run(w, steps).objects, slot, digest)
          <==> (uploaded.Some? && Some(Sha256(uploaded.value)) == LastAccepted(w, steps, slot, start)))
  {
    hide Run, PossibleRun, AddsNoRow, LastUpload, LastAccepted, HasRow, PathOf, Consistent, ActiveOk;
    UploadsTell(w, steps, slot);
    AcceptedTells(w, steps, slot, start, digest);
  }

  // ----- From the row to the sensors ------------------------------------------------

  /** The row of a parsed file is accepted exactly when there are bytes, and for rules when their tenant exists. */
  lemma RowAcceptedIff(db: Db, kind: string, filename: string, tenant: int, content: Bytes)
    requires ParseObjectInfo(kind, filename, tenant).Parsed?
    ensures Row(db, ParseObjectInfo(kind, filename, tenant).info, content).1 <==>
      content != [] && (kind == "rules" ==> tenant in db.tenants)
  {
    hide ParseObjectInfo, D.InsertHndrSw, D.InsertHndrRules, D.InsertThreatIntel;
    var info := ParseObjectInfo(kind, filename, tenant).info;
    ParsedIff(kind, filename, tenant, info.version);
    AcceptedIsNamed(kind, filename, tenant, info.version);
    StoredPackages(db, info.tenant, Package(info.version, |content|, Sha256(content)));
  }

  lemma AcceptedIsNamed(kind: string, filename: string, tenant: int, version: string)
    requires Accepted(kind, Base(filename), tenant, version)
    ensures version != "" && kind in {"software", "rules", "threatintel"}
  {
    hide Base, RulesFile, IsDateTime;
  }

  function PackageOf(info: ObjectInfo, content: Bytes): Package {
    Package(info.version, |content|, Sha256(content))
  }

  /** A software version published for the first time, with its size and the hash of its bytes, is at once the candidate
      of every sensor without a pin and of those pinned to it. */
  lemma PublishedSoftwareIsCandidate(db: Db, filename: string, content: Bytes, device: string)
    requires Consistent(db) && ParseObjectInfo("software", filename, 0).Parsed? && device in db.devices
    requires Row(db, ParseObjectInfo("software", filename, 0).info, content).1
    requires var version := ParseObjectInfo("software", filename, 0).info.version;
      !D.HasVersion(db.software, version) && db.devices[device].row.swVersion in {"", version}
    ensures var info := ParseObjectInfo("software", filename, 0).info;
      var after := Row(db, info, content).0;
      device in after.devices && SoftwareCandidate(after, device) == Some(PackageOf(info, content))
  {
    hide ParseObjectInfo, D.InsertHndrSw, D.InsertHndrRules, D.InsertThreatIntel, D.HasVersion, SoftwareCandidate,
      Consistent, Accepted;
    var info := ParseObjectInfo("software", filename, 0).info;
    ParsedIff("software", filename, 0, info.version);
    NewVersionIsCandidate(db, PackageOf(info, content), device);
  }

  /** And so are rules for the sensors of their tenant. */
  lemma PublishedRulesAreCandidate(db: Db, filename: string, tenant: int, content: Bytes)
    requires Consistent(db) && ParseObjectInfo("rules", filename, tenant).Parsed?
    requires Row(db, ParseObjectInfo("rules", filename, tenant).info, content).1
    requires !D.HasRules(db.rules, tenant, ParseObjectInfo("rules", filename, tenant).info.version)
    ensures var info := ParseObjectInfo("rules", filename, tenant).info;
      LatestRules(Row(db, info, content).0.rules, tenant) == Some(PackageOf(info, content))
  {
    hide ParseObjectInfo, D.InsertHndrSw, D.InsertHndrRules, D.InsertThreatIntel, D.HasRules, LatestRules,
      Consistent, Accepted;
    var info := ParseObjectInfo("rules", filename, tenant).info;
    ParsedIff("rules", filename, tenant, info.version);
    NewRulesAreCandidate(db, tenant, PackageOf(info, content), tenant);
  }

  /** And threat intelligence for all. */
  lemma PublishedThreatIntelIsCandidate(db: Db, filename: string, content: Bytes)
    requires Consistent(db) && ParseObjectInfo("threatintel", filename, 0).Parsed?
    requires Row(db, ParseObjectInfo("threatintel", filename, 0).info, content).1
    requires !D.HasVersion(db.threatIntel, ParseObjectInfo("threatintel", filename, 0).info.version)
    ensures var info := ParseObjectInfo("threatintel", filename, 0).info;
      Latest(Row(db, info, content).0.threatIntel) == Some(PackageOf(info, content))
  {
    hide ParseObjectInfo, D.InsertHndrSw, D.InsertHndrRules, D.InsertThreatIntel, D.HasVersion, Latest, Consistent,
      Accepted;
    var info := ParseObjectInfo("threatintel", filename, 0).info;
    ParsedIff("threatintel", filename, 0, info.version);
    NewThreatIntelIsCandidate(db, PackageOf(info, content));
  }

  // ----- Uploading and downloading --------------------------------------------------

  /** What a publisher of a well-named file has uploaded is what the URLs of its version serve: to every tenant,
      but rules to their own. */
  lemma UploadedIsServed(kind: string, filename: string, tenant: int, objects: Objects, content: Bytes, meta: Object,
      reader: nat)
    requires WellNamed(kind, filename, tenant)
    ensures var info := ParseObjectInfo(kind, filename, tenant).info;
      var after := objects[Stored(info) := Tarball(content)][MetadataPath(Stored(info)) := meta];
      && (kind == "software" ==> Download(after,
        DownloadURLFormat(reader, "software", "hndr-sw", info.version)) == Some(content))
      && (kind == "threatintel" ==> Download(after,
        DownloadURLFormat(reader, "threatintel", "threatintel", info.version)) == Some(content))
      && (kind == "rules" ==> tenant >= 0 && Download(after,
        DownloadURLFormatRules(tenant, "rules", "hndr-rules", info.version)) == Some(content))
  {
    hide ParseObjectInfo, PathOf, Rewrite, DownloadURLFormat, DownloadURLFormatRules, Stored, MetadataPath;
    var info := ParseObjectInfo(kind, filename, tenant).info;
    ParsedKind(kind, filename, tenant);
    StoredAtSlot(kind, filename, tenant);
    MetadataElsewhere(Stored(info), SlotOf(info));
    UrlsLeadToSlots(reader, info.version);
    if kind == "rules" {
      ParsedRulesTenant(filename, tenant);
      UrlsLeadToSlots(tenant, info.version);
    }
  }

  lemma ParsedRulesTenant(filename: string, tenant: int)
    requires ParseObjectInfo("rules", filename, tenant).Parsed?
    ensures tenant > 0 && ParseObjectInfo("rules", filename, tenant).info.tenant == tenant
  {
    hide SoftwareVersion, ThreatIntelVersion, RulesName, Base, Decimal;
  }

  /** A poll that overlaps no publish: after any orderly run, outside a publish, a manifest is made, and until the
      download nothing is published. Then what is downloaded has the digest that was offered, so that the hash check
      cannot fail. */
  lemma QuietPollVerifies(start: World, before: seq<Step>, between: seq<Step>, key: string, header: string,
      tenant: int, reported: Reported)
    requires Consistent(start.db) && Inv(start) && OrderlyRun(start, before)
    requires (RowsMatchOutsidePublish(start, before); var w := Run(start, before);
      && w.active == map[]
      && PossibleRun(w, between) && (forall s | s in between :: s.Elsewhere?)
      && Updates(w.db, key, header, tenant, reported).1.Manifest?)
    ensures (RowsMatchOutsidePublish(start, before); var w := Run(start, before);
      var m := Updates(w.db, key, header, tenant, reported).1;
      var objects := Run(w, between).objects;
      Served(objects, m.software) && Served(objects, m.rules) && Served(objects, m.threatIntel))
  {
    hide Consistent, Updates, RowsMatch, Served, Inv, Run, PossibleRun;
    RowsMatchOutsidePublish(start, before);
    RunKeepsConsistent(start, before);
    var w := Run(start, before);
    ElsewhereKeepsObjects(w, between);
    IdlePollVerifies(w, key, header, tenant, reported);
  }

  // ----- What a sensor can come to install ------------------------------------------

  /** Two states of one run, with anything in between: the manifest is made in the first and the package
      downloaded in the second. If the software call then succeeds, or changes anything but its scratch file
      and the lock before it fails, the bytes have the digest of a row that was in the catalog when the
      manifest was made, the one offered. */
  lemma InstalledSoftwareWasOffered(start: World, before: seq<Step>, between: seq<Step>, key: string, header: string,
      tenant: int,
                                    reported: Reported, cfg: S.Config, s: S.State, f: S.Faults)
    requires Consistent(start.db) && PossibleRun(start, before) && PossibleRun(Run(start, before), between)
    requires var m := Updates(Run(start, before).db, key, header, tenant, reported).1;
      m.Manifest? && m.software.Some? && Download(Run(Run(start, before), between).objects, m.software.value.url).Some?
    ensures var w := Run(start, before);
      var offer := Updates(w.db, key, header, tenant, reported).1.software.value;
      var content := Download(Run(w, between).objects, offer.url).value;
      var call := S.Call(content, offer.package.version, offer.package.digest, offer.url);
      S.Software(cfg, s, call, f).1 || !F.Untouched(s, S.Software(cfg, s, call, f).0, S.ScratchPath(cfg, call)) ==>
        exists id :: id in w.db.software && w.db.software[id] == offer.package
          && w.db.software[id].digest == Sha256(content)
  {
    hide Consistent, Updates, Run, PossibleRun, Download, S.Software, F.Untouched, DownloadURLFormat,
      DownloadURLFormatRules;
    RunKeepsConsistent(start, before);
    var w := Run(start, before);
    OfferIsRow(w.db, key, header, tenant, reported);
    var offer := Updates(w.db, key, header, tenant, reported).1.software.value;
    var content := Download(Run(w, between).objects, offer.url).value;
    var call := S.Call(content, offer.package.version, offer.package.digest, offer.url);
    if Sha256(call.content) != call.digest {
      F.UnverifiedChangesNothing(cfg, s, call, f);
    }
  }

  /** The same for rules: the row offered is one of the caller's tenant. */
  lemma InstalledRulesWereOffered(start: World, before: seq<Step>, between: seq<Step>, key: string, header: string,
      tenant: int,
                                  reported: Reported, cfg: S.Config, s: S.State, f: S.Faults)
    requires Consistent(start.db) && PossibleRun(start, before) && PossibleRun(Run(start, before), between)
    requires var m := Updates(Run(start, before).db, key, header, tenant, reported).1;
      m.Manifest? && m.rules.Some? && Download(Run(Run(start, before), between).objects, m.rules.value.url).Some?
    ensures var w := Run(start, before);
      var offer := Updates(w.db, key, header, tenant, reported).1.rules.value;
      var content := Download(Run(w, between).objects, offer.url).value;
      var call := S.Call(content, offer.package.version, offer.package.digest, offer.url);
      S.Rules(cfg, s, call, f).1 || !F.Untouched(s, S.Rules(cfg, s, call, f).0, S.ScratchPath(cfg, call)) ==>
        exists id :: id in w.db.rules && w.db.rules[id] == Owned(tenant, offer.package)
          && w.db.rules[id].row.digest == Sha256(content)
  {
    hide Consistent, Updates, Run, PossibleRun, Download, S.Rules, F.Untouched, DownloadURLFormat,
      DownloadURLFormatRules;
    RunKeepsConsistent(start, before);
    var w := Run(start, before);
    OfferIsRow(w.db, key, header, tenant, reported);
    var offer := Updates(w.db, key, header, tenant, reported).1.rules.value;
    var content := Download(Run(w, between).objects, offer.url).value;
    var call := S.Call(content, offer.package.version, offer.package.digest, offer.url);
    if Sha256(call.content) != call.digest {
      F.UnverifiedChangesNothing(cfg, s, call, f);
    }
  }

  // ----- Migrations -----------------------------------------------------------------

  /** A committed move of a tenant keeps rows and objects matching if and only if the store already holds, at the
      places of the new id, what the moved rules rows say. */
  lemma MigrationMatchesIff(db: Db, objects: Objects, a: int, b: int, suffix: string, target: string)
    requires Consistent(db) && a in db.tenants && suffix != "" && b >= 0
    requires M.Transaction(db, a, b, suffix, target).Some?
    ensures NewRowsMatch(db, M.Transaction(db, a, b, suffix, target).value, objects) <==>
      forall id | id in db.rules && db.rules[id].tenant == a ::
        Holds(objects, RulesSlot(b, db.rules[id].row.version), db.rules[id].row.digest)
  {
    hide M.Transaction, Holds, Consistent, Moved, NewRowsMatch, M.CountsConserved;
    M.CommittedMigrationMoves(db, a, b, suffix, target);
    FreshTarget(db, a, b, suffix, target);
    MovedRulesMatch(db, M.Transaction(db, a, b, suffix, target).value, objects, a, b);
  }

  lemma MovedRulesMatch(db: Db, after: Db, objects: Objects, a: int, b: int)
    requires after.software == db.software && after.threatIntel == db.threatIntel
      && Moved(db.rules, after.rules, a, b) && a != b && b >= 0
    ensures NewRowsMatch(db, after, objects) <==>
      forall id | id in db.rules && db.rules[id].tenant == a ::
        Holds(objects, RulesSlot(b, db.rules[id].row.version), db.rules[id].row.digest)
  {
    hide Moved, Holds;
    MovedRows(db.rules, after.rules, a, b);
  }

  lemma MovedRows(before: map<int, Owned<Package>>, after: map<int, Owned<Package>>, a: int, b: int)
    requires Moved(before, after, a, b)
    ensures after.Keys == before.Keys
    ensures forall id | id in before ::
      after[id] == before[id].(tenant := if before[id].tenant == a then b else before[id].tenant)
  {
    forall id | id in before
      ensures after[id] == before[id].(tenant := if before[id].tenant == a then b else before[id].tenant)
    {
      M.MovedRow(before, after, a, b, id);
    }
  }

  lemma FreshTarget(db: Db, a: int, b: int, suffix: string, target: string)
    requires a in db.tenants && suffix != "" && M.Transaction(db, a, b, suffix, target).Some?
    ensures a != b
  {
    M.TransactionColumns(db, a, b, suffix, target);
  }
}
