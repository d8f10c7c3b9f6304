/** Publishing a package (object, metadata, catalog row) against sensors that poll and download meanwhile. */
module Publish {
  import opened Tables
  import opened Schema
  import opened Text
  import opened ObjectLocation
  import opened Store
  import opened NetworkAgents
  import opened Archive
  import V = Versions
  import D = DbUtil

  datatype Object = Tarball(content: Bytes) | Metadata(digest: Digest, size: int)

  /** What a catalog row stands for. */
  datatype Slot = SoftwareSlot(version: string) | ThreatIntelSlot(version: string) | RulesSlot(tenant: nat,
    version: string)

  /** The request path of the slot's package in the object store. */
  function PathOf(slot: Slot): string {
    match slot
    case SoftwareSlot(v) => "/software/" + ("hndr-sw-" + v + TAR_GZ)
    case ThreatIntelSlot(v) => "/threatintel/" + ("threatintel-" + v + TAR_GZ)
    case RulesSlot(t, v) => "/rules/" + Decimal(t) + "/" + RulesFile(Decimal(t), v)
  }

  /** The path of the metadata next to it. */
  function MetadataPath(path: string): string {
    path + ".json"
  }

  // ----- Paths tell slots apart -----------------------------------------------------

  lemma SharedPathTells(slot: Slot, other: Slot)
    requires PathOf(slot) == PathOf(other) && !slot.RulesSlot? && !other.RulesSlot?
    ensures slot == other
  {
    assert PathOf(slot)[1] == (if slot.SoftwareSlot? then 's' else 't');
    assert PathOf(other)[1] == (if other.SoftwareSlot? then 's' else 't');
    if slot.SoftwareSlot? {
      assert PathOf(slot) == "/software/hndr-sw-" + slot.version + TAR_GZ;
      assert PathOf(other) == "/software/hndr-sw-" + other.version + TAR_GZ;
      BetweenIff(PathOf(slot), "/software/hndr-sw-", TAR_GZ, slot.version);
      BetweenIff(PathOf(other), "/software/hndr-sw-", TAR_GZ, other.version);
    } else {
      assert PathOf(slot) == "/threatintel/threatintel-" + slot.version + TAR_GZ;
      assert PathOf(other) == "/threatintel/threatintel-" + other.version + TAR_GZ;
      BetweenIff(PathOf(slot), "/threatintel/threatintel-", TAR_GZ, slot.version);
      BetweenIff(PathOf(other), "/threatintel/threatintel-", TAR_GZ, other.version);
    }
  }

  lemma RulesPathParts(t: nat, v: string)
    ensures Between(PathOf(RulesSlot(t, v)), "/rules/", "").Some?
    ensures Span(Between(PathOf(RulesSlot(t, v)), "/rules/", "").value) == (Decimal(t), "/" + RulesFile(Decimal(t), v))
  {
    hide Decimal, Span;
    var rest := "/" + RulesFile(Decimal(t), v);
    assert PathOf(RulesSlot(t, v)) == "/rules/" + (Decimal(t) + rest) + "";
    BetweenIff(PathOf(RulesSlot(t, v)), "/rules/", "", Decimal(t) + rest);
    SpanOf(Decimal(t), rest);
  }

  lemma RulesPathTells(t: nat, v: string, u: nat, w: string)
    requires PathOf(RulesSlot(t, v)) == PathOf(RulesSlot(u, w))
    ensures t == u && v == w
  {
    hide Decimal, Span, PathOf, Between, RulesFile;
    RulesPathParts(t, v);
    RulesPathParts(u, w);
    NumeralOfDecimal(t);
    NumeralOfDecimal(u);
    FileTells(Decimal(t), v, w);
  }

  lemma FileTells(d: string, v: string, w: string)
    requires "/" + RulesFile(d, v) == "/" + RulesFile(d, w)
    ensures v == w
  {
    var prefix := "/hndr-rules-tid_" + d + "-";
    assert "/" + RulesFile(d, v) == prefix + v + TAR_GZ;
    assert "/" + RulesFile(d, w) == prefix + w + TAR_GZ;
    BetweenIff(prefix + v + TAR_GZ, prefix, TAR_GZ, v);
    BetweenIff(prefix + w + TAR_GZ, prefix, TAR_GZ, w);
  }

  lemma PathHead(slot: Slot)
    ensures |PathOf(slot)| > 1
    ensures PathOf(slot)[1] == if slot.SoftwareSlot? then 's' else if slot.ThreatIntelSlot? then 't' else 'r'
    ensures PathOf(slot)[|PathOf(slot)| - 1] == 'z'
  {
    hide Decimal;
    match slot {
      case SoftwareSlot(v) => PathEnd(PathOf(slot), "/software/", "hndr-sw-" + v);
      case ThreatIntelSlot(v) => PathEnd(PathOf(slot), "/threatintel/", "threatintel-" + v);
      case RulesSlot(t, v) => PathEnd(PathOf(slot), "/rules/",
        Decimal(t) + "/" + ("hndr-rules-tid_" + Decimal(t) + "-" + v));
    }
  }

  lemma PathEnd(path: string, head: string, tail: string)
    requires path == head + (tail + TAR_GZ) && |head| > 1
    ensures |path| > 1 && path[1] == head[1] && path[|path| - 1] == 'z'
  {
    assert path[|path| - 1] == TAR_GZ[6];
  }

  /** Different slots have different paths, and no metadata lies on the path of a package. */
  lemma PathsTellSlots(slot: Slot, other: Slot)
    ensures PathOf(slot) == PathOf(other) ==> slot == other
    ensures MetadataPath(PathOf(slot)) != PathOf(other)
  {
    hide PathOf;
    PathHead(slot);
    PathHead(other);
    assert MetadataPath(PathOf(slot))[|MetadataPath(PathOf(slot))| - 1] == 'n';
    if PathOf(slot) == PathOf(other) {
      if slot.RulesSlot? {
        RulesPathTells(slot.tenant, slot.version, other.tenant, other.version);
      } else {
        SharedPathTells(slot, other);
      }
    }
  }

  // ----- Where publishing stores and polling looks ----------------------------------

  function SlotOf(info: ObjectInfo): Slot
    requires info.tenant >= 0
  {
    if info.kind == "software" then SoftwareSlot(info.version)
    else if info.kind == "rules" then RulesSlot(info.tenant, info.version)
    else ThreatIntelSlot(info.version)
  }

  /** The file name is accepted, and one for rules carries the tenant id in decimal. */
  predicate WellNamed(kind: string, filename: string, tenant: int) {
    && ParseObjectInfo(kind, filename, tenant).Parsed?
    && (kind == "rules" ==>
          RulesName(Base(filename)).Some? && tenant >= 0 && RulesName(Base(filename)).value.0 == Decimal(tenant))
  }

  lemma StoredAtSlot(kind: string, filename: string, tenant: int)
    requires WellNamed(kind, filename, tenant)
    ensures var info := ParseObjectInfo(kind, filename, tenant).info;
      info.tenant >= 0 && Stored(info) == PathOf(SlotOf(info))
  {
    hide ParseObjectInfo, Decimal, RulesName, Base, IsDotted, Span;
    var info := ParseObjectInfo(kind, filename, tenant).info;
    if kind == "rules" {
      ParsedRules(filename, tenant);
      var (digits, v) := RulesName(Base(filename)).value;
      RulesNameIff(Base(filename), digits, v);
      assert "/" + "rules" + "/" + (Decimal(tenant) + "/" + Base(filename)) == "/rules/" + Decimal(tenant) + "/"
        + Base(filename);
    } else {
      SharedInfo(kind, filename, tenant);
      ParsedShared(kind, filename);
      assert "/" + "software" + "/" == "/software/" && "/" + "threatintel" + "/" == "/threatintel/";
    }
  }

  lemma SharedInfo(kind: string, filename: string, tenant: int)
    requires kind != "rules" && ParseObjectInfo(kind, filename, tenant).Parsed?
    ensures tenant == 0
    ensures var info := ParseObjectInfo(kind, filename, tenant).info; info.tenant == 0 && info.kind == kind
  {
    hide SoftwareVersion, ThreatIntelVersion, RulesName, Base, Decimal;
  }

  /** The URLs of the manifest lead to the slots. */
  lemma UrlsLeadToSlots(tenant: nat, version: string)
    ensures Rewrite(DownloadURLFormat(tenant, "software", "hndr-sw", version)) == Some(PathOf(SoftwareSlot(version)))
    ensures Rewrite(DownloadURLFormat(tenant, "threatintel", "threatintel",
      version)) == Some(PathOf(ThreatIntelSlot(version)))
    ensures Rewrite(DownloadURLFormatRules(tenant, "rules", "hndr-rules",
      version)) == Some(PathOf(RulesSlot(tenant, version)))
  {
    hide Rewrite, Decimal, DownloadURLFormat, DownloadURLFormatRules;
    SameTail(tenant, "software", "hndr-sw", version);
    SameTail(tenant, "threatintel", "threatintel", version);
    RulesTail(tenant, version);
    assert "hndr-sw" + "-" == "hndr-sw-" && "threatintel" + "-" == "threatintel-";
    assert "/" + "software" + "/" == "/software/" && "/" + "threatintel" + "/" == "/threatintel/";
  }

  // ----- The catalog against the object store ---------------------------------------

  type Objects = map<string, Object>

  /** The slot's object is a package with this digest. */
  predicate Holds(objects: Objects, slot: Slot, digest: Digest) {
    var path := PathOf(slot);
    path in objects && objects[path].Tarball? && Sha256(objects[path].content) == digest
  }

  /** Every row's digest is the hash of the stored object, but for the slot given. */
  ghost predicate SharedMatch(table: map<int, Package>, objects: Objects, slotFor: string -> Slot, but: Option<Slot>) {
    forall id | id in table :: but == Some(slotFor(table[id].version))
      || Holds(objects, slotFor(table[id].version), table[id].digest)
  }

  ghost predicate RulesMatch(table: map<int, Owned<Package>>, objects: Objects, but: Option<Slot>) {
    forall id | id in table && table[id].tenant >= 0 ::
      but == Some(RulesSlot(table[id].tenant, table[id].row.version))
      || Holds(objects, RulesSlot(table[id].tenant, table[id].row.version), table[id].row.digest)
  }

  ghost predicate RowsMatch(db: Db, objects: Objects, but: Option<Slot>) {
    && SharedMatch(db.software, objects, v => SoftwareSlot(v), but)
    && SharedMatch(db.threatIntel, objects, v => ThreatIntelSlot(v), but)
    && RulesMatch(db.rules, objects, but)
  }

  ghost predicate CatalogOk(db: Db) {
    && PackagesOk(db.software, db.nextSoftwareId)
    && PackagesOk(db.threatIntel, db.nextThreatIntelId)
    && RulesOk(db.rules, db.nextRulesId)
  }

  // ----- Steps ----------------------------------------------------------------------

  /** A running publisher: what it parsed and hashed, and how many of its uploads are done. */
  datatype Publication = Publication(info: ObjectInfo, content: Bytes, uploads: nat)

  datatype World = World(db: Db, objects: Objects, active: map<int, Publication>)

  datatype Step =
    | Begin(id: int, kind: string, filename: string, tenant: int, content: Bytes)
    | PutObject(id: int)
    | PutMetadata(id: int)
    | PutRow(id: int)
    | Abort(id: int)
    | Elsewhere(db: Db)

  /** Every row that is new or changed matches its object. */
  ghost predicate NewRowsMatch(before: Db, after: Db, objects: Objects) {
    && (forall id | id in after.software && !(id in before.software && before.software[id] == after.software[id]) ::
          Holds(objects, SoftwareSlot(after.software[id].version), after.software[id].digest))
    && (forall id | id in after.threatIntel
      && !(id in before.threatIntel && before.threatIntel[id] == after.threatIntel[id]) ::
          Holds(objects, ThreatIntelSlot(after.threatIntel[id].version), after.threatIntel[id].digest))
    && (forall id | id in after.rules && after.rules[id].tenant >= 0
      && !(id in before.rules && before.rules[id] == after.rules[id]) ::
          Holds(objects, RulesSlot(after.rules[id].tenant, after.rules[id].row.version), after.rules[id].row.digest))
  }

  /** `Elsewhere` is whatever else happens to the tables: requests, maintenance, deletions, migrations, and rows
      the operator inserts by hand. */
  ghost predicate Enabled(w: World, step: Step) {
    match step
    case Begin(id, kind, filename, tenant, content) => id !in w.active
      && ParseObjectInfo(kind, filename, tenant).Parsed?
    case PutObject(id) => id in w.active && w.active[id].uploads == 0
    case PutMetadata(id) => id in w.active && w.active[id].uploads == 1
    case PutRow(id) => id in w.active && w.active[id].uploads == 2
    case Abort(id) => id in w.active
    case Elsewhere(db) => Consistent(db)
  }

  /** updateDatabase: the row of the package, and whether it is accepted. */
  ghost function Row(db: Db, info: ObjectInfo, content: Bytes): (Db, bool) {
    var p := Package(info.version, |content|, Sha256(content));
    if info.kind == "software" then D.InsertHndrSw(db, p)
    else if info.kind == "rules" then D.InsertHndrRules(db, info.tenant, p)
    else D.InsertThreatIntel(db, p)
  }

  ghost function Apply(w: World, step: Step): World
    requires Enabled(w, step)
  {
    match step
    case Begin(id, kind, filename, tenant, content) =>
      w.(active := w.active[id := Publication(ParseObjectInfo(kind, filename, tenant).info, content, 0)])
    case PutObject(id) =>
      var p := w.active[id];
      w.(objects := w.objects[Stored(p.info) := Tarball(p.content)], active := w.active[id := p.(uploads := 1)])
    case PutMetadata(id) =>
      var p := w.active[id];
      w.(objects := w.objects[MetadataPath(Stored(p.info)) := Metadata(Sha256(p.content), |p.content|)],
         active := w.active[id := p.(uploads := 2)])
    case PutRow(id) =>
      var p := w.active[id];
      w.(db := Row(w.db, p.info, p.content).0, active := w.active - {id})
    case Abort(id) => w.(active := w.active - {id})
    case Elsewhere(db) => w.(db := db)
  }

  /** One publisher at a time, with well-named files, and none stops before its row is accepted; and no row appears
      elsewhere but with its object in place. */
  ghost predicate Orderly(w: World, step: Step)
    requires Enabled(w, step)
  {
    match step
    case Begin(_, kind, filename, tenant, _) => w.active == map[] && WellNamed(kind, filename, tenant)
    case PutRow(id) => Row(w.db, w.active[id].info, w.active[id].content).1
    case Abort(_) => false
    case Elsewhere(db) => NewRowsMatch(w.db, db, w.objects)
    case _ => true
  }

  // ----- The invariant --------------------------------------------------------------

  ghost predicate Busy(w: World, id: int) {
    && w.active.Keys == {id}
    && var p := w.active[id];
    && p.info.tenant >= 0 && Stored(p.info) == PathOf(SlotOf(p.info))
    && (p.info.kind == "software" || p.info.kind == "rules" || p.info.kind == "threatintel")
    && if p.uploads == 0 then RowsMatch(w.db, w.objects, None)
       else RowsMatch(w.db, w.objects, Some(SlotOf(p.info))) && Holds(w.objects, SlotOf(p.info), Sha256(p.content))
  }

  /** Outside a publish every row matches its object; within one, all but perhaps the published slot do. */
  ghost predicate Inv(w: World) {
    && CatalogOk(w.db)
    && if w.active == map[] then RowsMatch(w.db, w.objects, None) else exists id :: Busy(w, id)
  }

  lemma PutObjectKeepsOthers(db: Db, objects: Objects, slot: Slot, content: Bytes)
    requires RowsMatch(db, objects, None)
    ensures RowsMatch(db, objects[PathOf(slot) := Tarball(content)], Some(slot))
    ensures Holds(objects[PathOf(slot) := Tarball(content)], slot, Sha256(content))
  {
    hide PathOf;
    forall other: Slot ensures PathOf(other) == PathOf(slot) ==> other == slot {
      PathsTellSlots(other, slot);
    }
  }

  lemma PutMetadataKeeps(db: Db, objects: Objects, slot: Slot, meta: Object, but: Option<Slot>)
    requires RowsMatch(db, objects, but)
    ensures RowsMatch(db, objects[MetadataPath(PathOf(slot)) := meta], but)
    ensures forall d :: Holds(objects, slot, d) ==> Holds(objects[MetadataPath(PathOf(slot)) := meta], slot, d)
  {
    hide PathOf, MetadataPath;
    forall other: Slot ensures PathOf(other) != MetadataPath(PathOf(slot)) {
      PathsTellSlots(slot, other);
    }
  }

  /** A change of the tables keeps the match exactly when its new rows match. */
  lemma ElsewhereMatchesIff(before: Db, after: Db, objects: Objects)
    requires RowsMatch(before, objects, None)
    ensures RowsMatch(after, objects, None) <==> NewRowsMatch(before, after, objects)
  {
    hide Holds;
    if RowsMatch(after, objects, None) {
      SlotsHold(after, objects);
    } else {
      ElsewhereMatches(after, before, objects, None);
    }
  }

  lemma SlotsHold(db: Db, objects: Objects)
    requires RowsMatch(db, objects, None)
    ensures forall id | id in db.software ::
      Holds(objects, SoftwareSlot(db.software[id].version), db.software[id].digest)
    ensures forall id | id in db.threatIntel ::
      Holds(objects, ThreatIntelSlot(db.threatIntel[id].version), db.threatIntel[id].digest)
    ensures forall id | id in db.rules && db.rules[id].tenant >= 0 ::
      Holds(objects, RulesSlot(db.rules[id].tenant, db.rules[id].row.version), db.rules[id].row.digest)
  {
    hide Holds;
  }

  lemma ElsewhereMatches(after: Db, before: Db, objects: Objects, but: Option<Slot>)
    requires RowsMatch(before, objects, but)
    ensures NewRowsMatch(before, after, objects) ==> RowsMatch(after, objects, but)
  {
    hide Holds;
  }

  /** After an accepted insert every row of that version has the digest, and all others are as they were. */
  lemma PutPackageRows(table: map<int, Package>, next: int, p: Package)
    requires PackagesOk(table, next)
    ensures var after := D.PutPackage(table, next, p).0;
      forall id | id in after :: if after[id].version == p.version then after[id].digest == p.digest
        else id in table && after[id] == table[id]
  {
  }

  lemma PutRulesRows(table: map<int, Owned<Package>>, next: int, tenant: int, p: Package)
    requires RulesOk(table, next)
    ensures var after := D.PutRulesPackage(table, next, tenant, p).0;
      forall id | id in after :: if after[id].tenant == tenant && after[id].row.version == p.version
        then after[id].row.digest == p.digest
        else id in table && after[id] == table[id]
  {
  }

  lemma SharedRowCloses(table: map<int, Package>, next: int, p: Package, objects: Objects, slotFor: string -> Slot,
      slot: Slot)
    requires PackagesOk(table, next) && slot == slotFor(p.version) && Holds(objects, slot, p.digest)
    requires SharedMatch(table, objects, slotFor, Some(slot))
    requires forall v, w :: slotFor(v) == slotFor(w) ==> v == w
    ensures SharedMatch(D.PutPackage(table, next, p).0, objects, slotFor, None)
  {
    hide Holds, D.PutPackage;
    PutPackageRows(table, next, p);
  }

  lemma RulesRowCloses(table: map<int, Owned<Package>>, next: int, tenant: nat, p: Package, objects: Objects)
    requires RulesOk(table, next) && Holds(objects, RulesSlot(tenant, p.version), p.digest)
    requires RulesMatch(table, objects, Some(RulesSlot(tenant, p.version)))
    ensures RulesMatch(D.PutRulesPackage(table, next, tenant, p).0, objects, None)
  {
    hide Holds, D.PutRulesPackage;
    PutRulesRows(table, next, tenant, p);
  }

  lemma RowKeepsCatalogOk(db: Db, info: ObjectInfo, content: Bytes)
    requires CatalogOk(db)
    ensures CatalogOk(Row(db, info, content).0)
  {
    hide CatalogOk, D.InsertHndrSw, D.InsertHndrRules, D.InsertThreatIntel;
    var p := Package(info.version, |content|, Sha256(content));
    SoftwareRowKeeps(db, p);
    RulesRowKeeps(db, info.tenant, p);
    ThreatIntelRowKeeps(db, p);
  }

  lemma SoftwareRowKeeps(db: Db, p: Package)
    requires CatalogOk(db)
    ensures CatalogOk(D.InsertHndrSw(db, p).0)
  {
    hide PackagesOk, RulesOk, D.PutPackage;
    D.PutPackageKeeps(db.software, db.nextSoftwareId, p);
  }

  lemma ThreatIntelRowKeeps(db: Db, p: Package)
    requires CatalogOk(db)
    ensures CatalogOk(D.InsertThreatIntel(db, p).0)
  {
    hide PackagesOk, RulesOk, D.PutPackage;
    D.PutPackageKeeps(db.threatIntel, db.nextThreatIntelId, p);
  }

  lemma RulesRowKeeps(db: Db, tenant: int, p: Package)
    requires CatalogOk(db)
    ensures CatalogOk(D.InsertHndrRules(db, tenant, p).0)
  {
    hide PackagesOk, RulesOk, D.PutRulesPackage;
    PutRulesKeeps(db.rules, db.nextRulesId, tenant, p);
  }

  lemma PutRulesKeeps(table: map<int, Owned<Package>>, next: int, tenant: int, p: Package)
    requires RulesOk(table, next)
    ensures var (after, newNext) := D.PutRulesPackage(table, next, tenant, p); RulesOk(after, newNext)
  {
  }

  lemma OtherTablesClose(table: map<int, Package>, objects: Objects, slotFor: string -> Slot, slot: Slot)
    requires SharedMatch(table, objects, slotFor, Some(slot)) && forall v :: slotFor(v) != slot
    ensures SharedMatch(table, objects, slotFor, None)
  {
    hide Holds;
  }

  lemma RulesTableCloses(table: map<int, Owned<Package>>, objects: Objects, slot: Slot)
    requires RulesMatch(table, objects, Some(slot)) && !slot.RulesSlot?
    ensures RulesMatch(table, objects, None)
  {
    hide Holds;
  }

  /** The accepted row closes the gap. */
  lemma RowCloses(db: Db, objects: Objects, info: ObjectInfo, content: Bytes)
    requires CatalogOk(db) && info.tenant >= 0
    requires info.kind == "software" || info.kind == "rules" || info.kind == "threatintel"
    requires RowsMatch(db, objects, Some(SlotOf(info))) && Holds(objects, SlotOf(info), Sha256(content))
    requires Row(db, info, content).1
    ensures RowsMatch(Row(db, info, content).0, objects, None)
  {
    hide Holds, PackagesOk, RulesOk, D.PutPackage, D.PutRulesPackage, SharedMatch, RulesMatch;
    var p := Package(info.version, |content|, Sha256(content));
    var slot := SlotOf(info);
    if info.kind == "software" {
      SharedRowCloses(db.software, db.nextSoftwareId, p, objects, v => SoftwareSlot(v), slot);
      OtherTablesClose(db.threatIntel, objects, v => ThreatIntelSlot(v), slot);
      RulesTableCloses(db.rules, objects, slot);
    } else if info.kind == "rules" {
      OtherTablesClose(db.software, objects, v => SoftwareSlot(v), slot);
      OtherTablesClose(db.threatIntel, objects, v => ThreatIntelSlot(v), slot);
      RulesRowCloses(db.rules, db.nextRulesId, info.tenant, p, objects);
    } else {
      OtherTablesClose(db.software, objects, v => SoftwareSlot(v), slot);
      SharedRowCloses(db.threatIntel, db.nextThreatIntelId, p, objects, v => ThreatIntelSlot(v), slot);
      RulesTableCloses(db.rules, objects, slot);
    }
  }

  lemma ParsedKind(kind: string, filename: string, tenant: int)
    requires ParseObjectInfo(kind, filename, tenant).Parsed?
    ensures kind == "software" || kind == "rules" || kind == "threatintel"
    ensures ParseObjectInfo(kind, filename, tenant).info.kind == kind
  {
    hide SoftwareVersion, ThreatIntelVersion, RulesName, Base, Decimal;
  }

  lemma ConsistentCatalog(db: Db)
    requires Consistent(db)
    ensures CatalogOk(db)
  {
  }

  lemma StepKeepsInv(w: World, step: Step)
    requires Inv(w) && Enabled(w, step) && Orderly(w, step)
    ensures Inv(Apply(w, step))
  {
    hide RowsMatch, Holds, CatalogOk, Consistent, NewRowsMatch, ParseObjectInfo, PathOf, Stored, Row, WellNamed,
      MetadataPath;
    var after := Apply(w, step);
    if w.active == map[] {
      match step {
        case Begin(id, kind, filename, tenant, content) =>
          StoredAtSlot(kind, filename, tenant);
          ParsedKind(kind, filename, tenant);
          assert Busy(after, id);
        case Elsewhere(db) =>
          ConsistentCatalog(db);
          ElsewhereMatches(db, w.db, w.objects, None);
        case _ =>
      }
    } else {
      var id :| Busy(w, id);
      BusyStep(w, step, id);
    }
  }

  /** A step while one publisher is under way keeps that state, or ends it with every row matching. */
  lemma BusyStep(w: World, step: Step, id: int)
    requires CatalogOk(w.db) && Busy(w, id) && Enabled(w, step) && Orderly(w, step)
    ensures CatalogOk(Apply(w, step).db)
    ensures if step.PutRow? then Apply(w, step).active == map[] && RowsMatch(Apply(w, step).db, w.objects, None)
      && Apply(w, step).objects == w.objects
      else Busy(Apply(w, step), id)
  {
    hide RowsMatch, Holds, CatalogOk, Consistent, NewRowsMatch, ParseObjectInfo, PathOf, Stored, Row, WellNamed,
      MetadataPath;
    var p := w.active[id];
    match step {
      case Begin(_, _, _, _, _) =>
      case PutObject(i) => PutObjectKeepsOthers(w.db, w.objects, SlotOf(p.info), p.content);
      case PutMetadata(i) =>
        PutMetadataKeeps(w.db, w.objects, SlotOf(p.info), Metadata(Sha256(p.content), |p.content|),
          Some(SlotOf(p.info)));
      case PutRow(i) =>
        RowKeepsCatalogOk(w.db, p.info, p.content);
        RowCloses(w.db, w.objects, p.info, p.content);
        assert w.active - {id} == map[];
      case Elsewhere(db) =>
        ConsistentCatalog(db);
        if p.uploads == 0 {
          ElsewhereMatches(db, w.db, w.objects, None);
        } else {
          ElsewhereMatches(db, w.db, w.objects, Some(SlotOf(p.info)));
        }
      case Abort(_) =>
    }
  }

  // ----- Runs -----------------------------------------------------------------------

  /** All steps are possible, and orderly. */
  ghost predicate OrderlyRun(w: World, steps: seq<Step>)
    decreases |steps|
  {
    steps == [] || (Enabled(w, steps[0]) && Orderly(w, steps[0]) && OrderlyRun(Apply(w, steps[0]), steps[1..]))
  }

  ghost predicate PossibleRun(w: World, steps: seq<Step>)
    decreases |steps|
  {
    steps == [] || (Enabled(w, steps[0]) && PossibleRun(Apply(w, steps[0]), steps[1..]))
  }

  ghost function Run(w: World, steps: seq<Step>): World
    requires PossibleRun(w, steps)
    decreases |steps|
  {
    if steps == [] then w else Run(Apply(w, steps[0]), steps[1..])
  }

  /** Along every orderly run, outside a publish every catalog row's digest is the hash of its stored object. */
  lemma {:induction false} RowsMatchOutsidePublish(w: World, steps: seq<Step>)
    requires Inv(w) && OrderlyRun(w, steps)
    ensures PossibleRun(w, steps) && Inv(Run(w, steps))
    ensures Run(w, steps).active == map[] ==> RowsMatch(Run(w, steps).db, Run(w, steps).objects, None)
    decreases |steps|
  {
    hide Inv, Enabled, Orderly, Apply, RowsMatch;
    if steps == [] {
      InvMatches(w);
    } else {
      StepKeepsInv(w, steps[0]);
      RowsMatchOutsidePublish(Apply(w, steps[0]), steps[1..]);
    }
  }

  lemma InvMatches(w: World)
    requires Inv(w)
    ensures w.active == map[] ==> RowsMatch(w.db, w.objects, None)
  {
  }

  // ----- Polls ----------------------------------------------------------------------

  /** What a sensor downloads from a URL of its manifest. */
  function Download(objects: Objects, url: string): Option<Bytes> {
    var path := Rewrite(url);
    if path.Some? && path.value in objects && objects[path.value].Tarball? then Some(objects[path.value].content)
      else None
  }

  lemma {:induction false} ElsewhereKeepsObjects(w: World, steps: seq<Step>)
    requires PossibleRun(w, steps) && forall s | s in steps :: s.Elsewhere?
    ensures Run(w, steps).objects == w.objects
    decreases |steps|
  {
    if steps != [] {
      assert steps[0] in steps && forall s | s in steps[1..] :: s in steps;
      ElsewhereKeepsObjects(Apply(w, steps[0]), steps[1..]);
    }
  }

  /** A package on offer is a row of the catalog, with the URL of its slot. */
  lemma OfferIsRow(db: Db, key: string, header: string, tenant: int, reported: Reported)
    requires Consistent(db) && Updates(db, key, header, tenant, reported).1.Manifest?
    ensures var m := Updates(db, key, header, tenant, reported).1;
      && (m.software.Some? ==> exists id :: id in db.software && db.software[id] == m.software.value.package)
      && (m.rules.Some? ==> exists id :: id in db.rules && db.rules[id] == Owned(tenant, m.rules.value.package))
      && (m.threatIntel.Some? ==> exists id ::
        id in db.threatIntel && db.threatIntel[id] == m.threatIntel.value.package)
      && tenant >= 0
      && (m.software.Some? ==> m.software.value.url == DownloadURLFormat(tenant, "software", "hndr-sw",
        m.software.value.package.version))
      && (m.rules.Some? ==> m.rules.value.url == DownloadURLFormatRules(tenant, "rules", "hndr-rules",
        m.rules.value.package.version))
      && (m.threatIntel.Some? ==>
            m.threatIntel.value.url == DownloadURLFormat(tenant, "threatintel", "threatintel",
              m.threatIntel.value.package.version))
  {
    hide Consistent, V.IsUpdateNeeded, DownloadURLFormat, DownloadURLFormatRules, D.PutReport;
    ManifestOffersCandidates(db, key, header, tenant, reported);
    ConsistentDeviceExists(db, key, header);
    TenantPositive(db, header);
    PinDecides(db, header);
  }

  /** What is offered can be downloaded, and has the digest offered. */
  predicate Served(objects: Objects, offer: Option<Offer>) {
    offer.Some? ==>
      var content := Download(objects, offer.value.url);
      content.Some? && Sha256(content.value) == offer.value.package.digest
  }

  lemma IdlePollVerifies(w: World, key: string, header: string, tenant: int, reported: Reported)
    requires RowsMatch(w.db, w.objects, None) && Consistent(w.db)
    requires Updates(w.db, key, header, tenant, reported).1.Manifest?
    ensures var m := Updates(w.db, key, header, tenant, reported).1;
      Served(w.objects, m.software) && Served(w.objects, m.rules) && Served(w.objects, m.threatIntel)
  {
    hide Consistent, Updates, PathOf, Rewrite, DownloadURLFormat, DownloadURLFormatRules;
    OfferIsRow(w.db, key, header, tenant, reported);
    var m := Updates(w.db, key, header, tenant, reported).1;
    if m.software.Some? {
      UrlsLeadToSlots(tenant, m.software.value.package.version);
    }
    if m.rules.Some? {
      UrlsLeadToSlots(tenant, m.rules.value.package.version);
    }
    if m.threatIntel.Some? {
      UrlsLeadToSlots(tenant, m.threatIntel.value.package.version);
    }
  }

  // ----- Why the two conditions are needed ------------------------------------------

  lemma FirstStep(w: World, step: Step, rest: seq<Step>)
    requires Enabled(w, step) && PossibleRun(Apply(w, step), rest)
    ensures PossibleRun(w, [step] + rest) && Run(w, [step] + rest) == Run(Apply(w, step), rest)
  {
    assert ([step] + rest)[1..] == rest;
  }

  /** A second publisher of the same file name begins, uploads and writes its row between the first one's uploads and
      its row. */
  function Crossed(a: int, b: int, filename: string, one: Bytes, two: Bytes): seq<Step> {
    [Begin(a, "software", filename, 0, one)] + ([PutObject(a)] + ([PutMetadata(a)]
    + ([Begin(b, "software", filename, 0, two)]
      + ([PutObject(b)] + ([PutMetadata(b)] + ([PutRow(b)] + ([PutRow(a)] + [])))))))
  }

  lemma RunNone(w: World)
    ensures PossibleRun(w, []) && Run(w, []) == w
  {
  }

  /** Both runs of the program end well, and the row is right exactly when they published the same bytes. */
  lemma CrossedPublishers(w: World, a: int, b: int, filename: string, one: Bytes, two: Bytes)
    requires w.active == map[] && CatalogOk(w.db) && a != b && WellNamed("software", filename, 0)
    requires one != [] && two != []
    ensures PossibleRun(w, Crossed(a, b, filename, one, two))
    ensures var after := Run(w, Crossed(a, b, filename, one, two));
      var v := ParseObjectInfo("software", filename, 0).info.version;
      && D.HasVersion(after.db.software, v)
      && forall id | id in after.db.software && after.db.software[id].version == v ::
           Holds(after.objects, SoftwareSlot(v), after.db.software[id].digest) <==> one == two
  {
    hide ParseObjectInfo, PathOf, Stored, Run, PossibleRun, CatalogOk, Row, MetadataPath;
    StoredAtSlot("software", filename, 0);
    ParsedKind("software", filename, 0);
    ParsedVersion(filename);
    var info := ParseObjectInfo("software", filename, 0).info;
    var slot := SoftwareSlot(info.version);
    PathsTellSlots(slot, slot);
    var w1 := Apply(w, Begin(a, "software", filename, 0, one));
    var w2 := Apply(w1, PutObject(a));
    var w3 := Apply(w2, PutMetadata(a));
    var w4 := Apply(w3, Begin(b, "software", filename, 0, two));
    var w5 := Apply(w4, PutObject(b));
    var w6 := Apply(w5, PutMetadata(b));
    var w7 := Apply(w6, PutRow(b));
    var w8 := Apply(w7, PutRow(a));
    assert w6.objects[PathOf(slot)] == Tarball(two);
    assert w8.objects == w6.objects && w6.db == w.db;
    RowKeepsCatalogOk(w.db, info, two);
    SoftwareRow(w7.db, info, one);
    RunNone(w8);
    FirstStep(w7, PutRow(a), []);
    FirstStep(w6, PutRow(b), [PutRow(a)] + []);
    FirstStep(w5, PutMetadata(b), [PutRow(b)] + ([PutRow(a)] + []));
    FirstStep(w4, PutObject(b), [PutMetadata(b)] + ([PutRow(b)] + ([PutRow(a)] + [])));
    FirstStep(w3, Begin(b, "software", filename, 0, two),
      [PutObject(b)] + ([PutMetadata(b)] + ([PutRow(b)] + ([PutRow(a)] + []))));
    FirstStep(w2, PutMetadata(a), [Begin(b, "software", filename, 0, two)]
      + ([PutObject(b)] + ([PutMetadata(b)] + ([PutRow(b)] + ([PutRow(a)] + [])))));
    FirstStep(w1, PutObject(a), [PutMetadata(a)]
      + ([Begin(b, "software", filename, 0, two)]
        + ([PutObject(b)] + ([PutMetadata(b)] + ([PutRow(b)] + ([PutRow(a)] + []))))));
    FirstStep(w, Begin(a, "software", filename, 0, one), [PutObject(a)]
      + ([PutMetadata(a)] + ([Begin(b, "software", filename, 0, two)]
        + ([PutObject(b)] + ([PutMetadata(b)] + ([PutRow(b)] + ([PutRow(a)] + [])))))));
  }

  lemma ParsedVersion(filename: string)
    requires ParseObjectInfo("software", filename, 0).Parsed?
    ensures ParseObjectInfo("software", filename, 0).info.version != ""
  {
    hide ThreatIntelVersion, RulesName, Base, Decimal, Between;
  }

  lemma SoftwareRow(db: Db, info: ObjectInfo, content: Bytes)
    requires CatalogOk(db) && info.kind == "software" && info.version != "" && content != []
    ensures var after := Row(db, info, content).0;
      && D.HasVersion(after.software, info.version)
      && forall id | id in after.software && after.software[id].version == info.version ::
        after.software[id].digest == Sha256(content)
  {
    hide D.PutPackage, PackagesOk, RulesOk;
    PutPackageRows(db.software, db.nextSoftwareId, Package(info.version, |content|, Sha256(content)));
    PutPackageHas(db.software, db.nextSoftwareId, Package(info.version, |content|, Sha256(content)));
  }

  lemma PutPackageHas(table: map<int, Package>, next: int, p: Package)
    ensures D.HasVersion(D.PutPackage(table, next, p).0, p.version)
  {
    var after := D.PutPackage(table, next, p).0;
    if D.HasVersion(table, p.version) {
      var a := D.IdOfVersion(table, p.version);
      assert a in after && after[a].version == p.version;
    } else {
      assert next in after && after[next].version == p.version;
    }
  }

  // ----- The program ----------------------------------------------------------------

  class ObjectStore {
    var objects: Objects

    constructor ()
      ensures objects == map[]
    {
      objects := map[];
    }

    method UploadToMinio(info: ObjectInfo, content: Bytes)
      modifies this
      ensures objects == old(objects)[Stored(info) := Tarball(content)]
    {
      objects := objects[Stored(info) := Tarball(content)];
    }

    method UploadMetadataJSON(info: ObjectInfo, content: Bytes)
      modifies this
      ensures objects == old(objects)[MetadataPath(Stored(info)) := Metadata(Sha256(content), |content|)]
    {
      objects := objects[MetadataPath(Stored(info)) := Metadata(Sha256(content), |content|)];
    }
  }

  method UpdateDatabase(db: Database, info: ObjectInfo, content: Bytes) returns (ok: bool)
    requires CatalogOk(db.Snapshot())
    modifies db`software, db`nextSoftwareId, db`rules, db`nextRulesId, db`threatIntel, db`nextThreatIntelId
    ensures (db.Snapshot(), ok) == Row(old(db.Snapshot()), info, content)
  {
    var p := Package(info.version, |content|, Sha256(content));
    if info.kind == "software" {
      ok := db.InsertHndrSw(p);
    } else if info.kind == "rules" {
      ok := db.InsertHndrRules(info.tenant, p);
    } else {
      ok := db.InsertThreatIntel(p);
    }
  }

  /** The steps a publisher takes alone when its upload number `failsAt` fails (2 or more: none does). */
  function StepsAlone(id: int, kind: string, filename: string, tenant: int, content: Bytes, failsAt: nat): seq<Step> {
    var begin := Begin(id, kind, filename, tenant, content);
    if failsAt == 0 then [begin] + ([Abort(id)] + [])
    else if failsAt == 1 then [begin] + ([PutObject(id)] + ([Abort(id)] + []))
    else [begin] + ([PutObject(id)] + ([PutMetadata(id)] + ([PutRow(id)] + [])))
  }

  lemma StepsAloneRun(w: World, id: int, kind: string, filename: string, tenant: int, content: Bytes, failsAt: nat)
    requires w.active == map[] && ParseObjectInfo(kind, filename, tenant).Parsed?
    ensures PossibleRun(w, StepsAlone(id, kind, filename, tenant, content, failsAt))
    ensures var info := ParseObjectInfo(kind, filename, tenant).info;
      var one := w.objects[Stored(info) := Tarball(content)];
      var two := one[MetadataPath(Stored(info)) := Metadata(Sha256(content), |content|)];
      Run(w, StepsAlone(id, kind, filename, tenant, content, failsAt)) ==
        if failsAt == 0 then w else if failsAt == 1 then w.(objects := one)
          else World(Row(w.db, info, content).0, two, map[])
  {
    hide ParseObjectInfo, Stored, Run, PossibleRun, Row, MetadataPath;
    var begin := Begin(id, kind, filename, tenant, content);
    var w1 := Apply(w, begin);
    var w2 := Apply(w1, PutObject(id));
    var w3 := Apply(w2, PutMetadata(id));
    if failsAt == 0 {
      RunNone(Apply(w1, Abort(id)));
      FirstStep(w1, Abort(id), []);
      FirstStep(w, begin, [Abort(id)] + []);
      assert Apply(w1, Abort(id)).active == map[];
    } else if failsAt == 1 {
      RunNone(Apply(w2, Abort(id)));
      FirstStep(w2, Abort(id), []);
      FirstStep(w1, PutObject(id), [Abort(id)] + []);
      FirstStep(w, begin, [PutObject(id)] + ([Abort(id)] + []));
      assert Apply(w2, Abort(id)).active == map[];
    } else {
      RunNone(Apply(w3, PutRow(id)));
      FirstStep(w3, PutRow(id), []);
      FirstStep(w2, PutMetadata(id), [PutRow(id)] + []);
      FirstStep(w1, PutObject(id), [PutMetadata(id)] + ([PutRow(id)] + []));
      FirstStep(w, begin, [PutObject(id)] + ([PutMetadata(id)] + ([PutRow(id)] + [])));
      assert Apply(w3, PutRow(id)).active == map[];
    }
  }

  /** A publisher stopped between object and row leaves the rows of its version right exactly when it brought the bytes
      they were made for. */
  lemma AbortedPublish(w: World, id: int, filename: string, content: Bytes, row: int)
    requires w.active == map[] && CatalogOk(w.db) && row in w.db.software && WellNamed("software", filename, 0)
    requires ParseObjectInfo("software", filename, 0).info.version == w.db.software[row].version
    ensures var steps := StepsAlone(id, "software", filename, 0, content, 1);
      && PossibleRun(w, steps) && Run(w, steps).db == w.db
      && (Holds(Run(w, steps).objects, SoftwareSlot(w.db.software[row].version), w.db.software[row].digest)
          <==> w.db.software[row].digest == Sha256(content))
  {
    hide ParseObjectInfo, PathOf, Stored, Run, PossibleRun, StepsAlone;
    StoredAtSlot("software", filename, 0);
    ParsedKind("software", filename, 0);
    StepsAloneRun(w, id, "software", filename, 0, content, 1);
  }

  /** The program takes exactly the steps of a publisher: a run of it that nothing overlaps is their run. */
  method PublishPackage(store: ObjectStore, db: Database, ghost id: int, kind: string, filename: string, tenant: int,
      content: Bytes,
                        failsAt: nat) returns (ok: bool)
    requires CatalogOk(db.Snapshot())
    modifies store, db`software, db`nextSoftwareId, db`rules, db`nextRulesId, db`threatIntel, db`nextThreatIntelId
    ensures ok <==>
      (ParseObjectInfo(kind, filename, tenant).Parsed? && failsAt >= 2
       && Row(old(db.Snapshot()), ParseObjectInfo(kind, filename, tenant).info, content).1)
    ensures !ParseObjectInfo(kind, filename, tenant).Parsed? ==>
      db.Snapshot() == old(db.Snapshot()) && store.objects == old(store.objects)
    ensures ParseObjectInfo(kind, filename, tenant).Parsed? ==>
      var start := World(old(db.Snapshot()), old(store.objects), map[]);
      && PossibleRun(start, StepsAlone(id, kind, filename, tenant, content, failsAt))
      && World(db.Snapshot(), store.objects, map[]) == Run(start,
        StepsAlone(id, kind, filename, tenant, content, failsAt))
  {
    hide ParseObjectInfo, Stored, Run, PossibleRun, Row, MetadataPath, StepsAlone, CatalogOk;
    var parsed := ParseObjectInfo(kind, filename, tenant);
    if !parsed.Parsed? {
      return false;
    }
    StepsAloneRun(World(db.Snapshot(), store.objects, map[]), id, kind, filename, tenant, content, failsAt);
    if failsAt == 0 {
      return false;
    }
    store.UploadToMinio(parsed.info, content);
    if failsAt == 1 {
      return false;
    }
    store.UploadMetadataJSON(parsed.info, content);
    ok := UpdateDatabase(db, parsed.info, content);
  }
}
