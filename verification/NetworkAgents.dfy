/** The endpoints the sensors call: authentication by API key and the update manifest. */
module NetworkAgents {
  import opened Tables
  import opened Schema
  import opened Store
  import opened Versions
  import opened Operations
  import L = ObjectLocation
  import D = DbUtil

  /** A version with its digest, as a device reports it or a record holds it. */
  datatype Installed = Installed(version: string, digest: Digest)
  datatype Reported = Reported(software: Installed, rules: Installed, threatIntel: Installed)

  datatype Offer = Offer(package: Package, url: string)

  datatype Answer =
    | Unauthorized
    | VersionsNotStored
    | DeviceNotFound
    | SoftwareNotFound
    | RulesNotFound
    | ThreatIntelNotFound
    | Manifest(software: Option<Offer>, rules: Option<Offer>, threatIntel: Option<Offer>)

  datatype Caller = Caller(tenant: int, device: string)

  // ----- Authentication -------------------------------------------------------------

  function Authenticate(db: Db, key: string, device: string): Option<Caller> {
    if key == "" || device == "" || key !in db.apiKeys then None
    else if !db.apiKeys[key].row.active || db.apiKeys[key].row.device != device then None
    else Some(Caller(db.apiKeys[key].tenant, device))
  }

  /** In every state of every run, whoever authenticates is a device the tables hold under that tenant. */
  lemma AuthenticatedDeviceExists(start: Db, ops: seq<DbOp>, key: string, device: string)
    requires Consistent(start) && AllWellFormed(ops)
    requires Authenticate(Run(start, ops), key, device).Some?
    ensures D.DeviceOf(Run(start, ops), device, Authenticate(Run(start, ops), key, device).value.tenant)
  {
    ConsistentDeviceExists(Run(start, ops), key, device);
  }

  /** In every state of every run, two keys that authenticate for the same device are one key, and a key
      authenticates for one tenant and device only. */
  lemma KeysTellDevices(start: Db, ops: seq<DbOp>, key: string, other: string, device: string, device2: string)
    requires Consistent(start) && AllWellFormed(ops)
    requires Authenticate(Run(start, ops), key, device).Some? && Authenticate(Run(start, ops), other, device2).Some?
    ensures key == other <==> device == device2
  {
    hide Consistent, Run;
    if device == device2 {
      D.OneKeyOfDevice(Run(start, ops), device, key, other);
    }
  }

  lemma ConsistentDeviceExists(db: Db, key: string, device: string)
    requires Consistent(db) && Authenticate(db, key, device).Some?
    ensures D.DeviceOf(db, device, Authenticate(db, key, device).value.tenant)
  {
    hide TenantsOk, OwnersIn, NamesDistinct, TokensOk, EmailsDistinct, RulesOk, PackagesOk, SequencesOk;
  }

  // ----- The manifest ---------------------------------------------------------------

  ghost predicate IsLatest(table: map<int, Package>, id: int) {
    id in table && forall a :: a in table ==> a <= id
  }

  ghost predicate IsLatestRules(table: map<int, Owned<Package>>, tenant: int, id: int) {
    id in table && table[id].tenant == tenant && forall a :: a in table && table[a].tenant == tenant ==> a <= id
  }

  ghost predicate IsMax(s: set<int>, m: int) {
    m in s && forall a :: a in s ==> a <= m
  }

  lemma {:induction false} MaxExists(s: set<int>, x: int)
    requires x in s
    ensures exists m :: IsMax(s, m)
    decreases s
  {
    var rest := s - {x};
    if exists y :: y in rest {
      var y :| y in rest;
      MaxExists(rest, y);
      var m :| IsMax(rest, m);
      assert forall a :: a in s ==> a == x || a in rest;
      assert IsMax(s, if x > m then x else m);
    } else {
      assert forall a :: a in s ==> a == x || a in rest;
      assert IsMax(s, x);
    }
  }

  lemma LatestExists(table: map<int, Package>)
    requires table != map[]
    ensures exists id :: IsLatest(table, id)
  {
    var k :| k in table.Keys by {
      if forall k :: k !in table {
        assert false;
      }
    }
    MaxExists(table.Keys, k);
    var m :| IsMax(table.Keys, m);
    assert IsLatest(table, m);
  }

  lemma LatestRulesExists(table: map<int, Owned<Package>>, tenant: int)
    requires KeysOf(table, tenant) != {}
    ensures exists id :: IsLatestRules(table, tenant, id)
  {
    var ids := KeysOf(table, tenant);
    var k :| k in ids by {
      if forall k :: k !in ids {
        assert false;
      }
    }
    MaxExists(ids, k);
    var m :| IsMax(ids, m);
    assert forall a :: a in table && table[a].tenant == tenant ==> a in ids;
    assert IsLatestRules(table, tenant, m);
  }

  /** SELECT .. ORDER BY id DESC LIMIT 1 */
  ghost function Latest(table: map<int, Package>): (r: Option<Package>)
    ensures r.Some? <==> table != map[]
    ensures r.Some? ==> exists id :: IsLatest(table, id) && r.value == table[id]
  {
    if table == map[] then None
    else
      LatestExists(table);
      var id :| IsLatest(table, id);
      Some(table[id])
  }

  ghost function LatestRules(table: map<int, Owned<Package>>, tenant: int): (r: Option<Package>)
    ensures r.Some? <==> KeysOf(table, tenant) != {}
    ensures r.Some? ==> exists id :: IsLatestRules(table, tenant, id) && r.value == table[id].row
  {
    if KeysOf(table, tenant) == {} then None
    else
      LatestRulesExists(table, tenant);
      var id :| IsLatestRules(table, tenant, id);
      Some(table[id].row)
  }

  /** The software candidate: the pinned version, or the newest row when there is no pin. */
  ghost function SoftwareCandidate(db: Db, device: string): Option<Package>
    requires device in db.devices
  {
    var pin := db.devices[device].row.swVersion;
    if pin == "" then Latest(db.software)
    else if D.HasVersion(db.software, pin) then Some(db.software[D.IdOfVersion(db.software, pin)])
    else None
  }

  function OfferOf(tenant: int, package: Package, have: Installed, resource: string, prefix: string): Option<Offer> {
    if IsUpdateNeeded(package.version, have.version, package.digest, have.digest)
    then Some(Offer(package, L.DownloadURLFormat(tenant, resource, prefix, package.version)))
    else None
  }

  function OfferOfRules(tenant: int, package: Package, have: Installed): Option<Offer> {
    if IsUpdateNeeded(package.version, have.version, package.digest, have.digest)
    then Some(Offer(package, L.DownloadURLFormatRules(tenant, "rules", "hndr-rules", package.version)))
    else None
  }

  function VersionsOf(reported: Reported): Report {
    Report(reported.software.version, reported.rules.version, reported.threatIntel.version)
  }

  /** POST /v1/updates/{tenant_id}: the tables after, and the answer. */
  ghost function Updates(db: Db, key: string, header: string, tenant: int, reported: Reported): (Db, Answer) {
    var caller := Authenticate(db, key, header);
    if caller.None? || caller.value.tenant != tenant then (db, Unauthorized)
    else
      var (after, stored) := D.InsertVersions(db, header, tenant, VersionsOf(reported));
      if !stored then (db, VersionsNotStored)
      else if !D.DeviceOf(after, header, tenant) then (after, DeviceNotFound)
      else (after, ManifestFor(after, header, tenant, reported))
  }

  ghost function ManifestFor(db: Db, device: string, tenant: int, reported: Reported): (r: Answer)
    requires device in db.devices
    ensures r != Unauthorized && r != VersionsNotStored && r != DeviceNotFound
  {
    var software, rules, threatIntel := SoftwareCandidate(db, device), LatestRules(db.rules, tenant),
      Latest(db.threatIntel);
    if software.None? then SoftwareNotFound
    else if rules.None? then RulesNotFound
    else if threatIntel.None? then ThreatIntelNotFound
    else Manifest(OfferOf(tenant, software.value, reported.software, "software", "hndr-sw"),
                  OfferOfRules(tenant, rules.value, reported.rules),
                  OfferOf(tenant, threatIntel.value, reported.threatIntel, "threatintel", "threatintel"))
  }

  class AgentApi {
    const db: Database

    constructor (db: Database)
      ensures this.db == db
    {
      this.db := db;
    }

    method AuthenticateRequest(key: string, device: string) returns (r: Option<Caller>)
      ensures r == Authenticate(db.Snapshot(), key, device)
    {
      if key == "" || device == "" {
        return None;
      }
      var row := db.ValidateAPIKey(key);
      if row.None? || !row.value.row.active || row.value.row.device != device {
        return None;
      }
      return Some(Caller(row.value.tenant, device));
    }

    method LatestPackage(table: map<int, Package>) returns (r: Option<Package>)
      ensures r == Latest(table)
    {
      if table == map[] {
        return None;
      }
      LatestExists(table);
      var id :| id in table && forall a | a in table :: a <= id;
      assert IsLatest(table, id);
      return Some(table[id]);
    }

    method LatestRulesPackage(tenant: int) returns (r: Option<Package>)
      ensures r == LatestRules(db.rules, tenant)
    {
      if KeysOf(db.rules, tenant) == {} {
        return None;
      }
      LatestRulesExists(db.rules, tenant);
      var id :| id in db.rules && db.rules[id].tenant == tenant
        && forall a | a in db.rules && db.rules[a].tenant == tenant :: a <= id;
      assert IsLatestRules(db.rules, tenant, id);
      return Some(db.rules[id].row);
    }

    method FindSoftware(device: string) returns (r: Option<Package>)
      requires device in db.devices && PackagesOk(db.software, db.nextSoftwareId)
      ensures r == SoftwareCandidate(db.Snapshot(), device)
    {
      var pin := db.devices[device].row.swVersion;
      if pin == "" {
        r := LatestPackage(db.software);
      } else if id :| id in db.software && db.software[id].version == pin {
        assert id == D.IdOfVersion(db.software, pin);
        r := Some(db.software[id]);
      } else {
        r := None;
      }
    }

    method HandleUpdates(key: string, header: string, tenant: int, reported: Reported) returns (r: Answer)
      requires Consistent(db.Snapshot())
      modifies db`versions
      ensures (db.Snapshot(), r) == Updates(old(db.Snapshot()), key, header, tenant, reported)
    {
      var caller := AuthenticateRequest(key, header);
      if caller.None? || caller.value.tenant != tenant {
        return Unauthorized;
      }
      var stored := db.InsertVersions(header, tenant, VersionsOf(reported));
      if !stored {
        return VersionsNotStored;
      }
      if header !in db.devices || db.devices[header].tenant != tenant {
        return DeviceNotFound;
      }
      r := FillManifest(header, tenant, reported);
    }

    method FillManifest(device: string, tenant: int, reported: Reported) returns (r: Answer)
      requires device in db.devices && PackagesOk(db.software, db.nextSoftwareId)
      ensures r == ManifestFor(db.Snapshot(), device, tenant, reported)
    {
      var software := FindSoftware(device);
      if software.None? {
        return SoftwareNotFound;
      }
      var rules := LatestRulesPackage(tenant);
      if rules.None? {
        return RulesNotFound;
      }
      var threatIntel := LatestPackage(db.threatIntel);
      if threatIntel.None? {
        return ThreatIntelNotFound;
      }
      return Manifest(OfferOf(tenant, software.value, reported.software, "software", "hndr-sw"),
                      OfferOfRules(tenant, rules.value, reported.rules),
                      OfferOf(tenant, threatIntel.value, reported.threatIntel, "threatintel", "threatintel"));
    }
  }

  // ----- What it answers ------------------------------------------------------------

  /** In a consistent database the device lookup never misses, and an authenticated report is stored exactly when
      no version row of that device id is left under another tenant. */
  lemma UpdatesAnswer(db: Db, key: string, header: string, tenant: int, reported: Reported)
    requires Consistent(db)
    ensures var r := Updates(db, key, header, tenant, reported).1;
      && r != DeviceNotFound
      && (r == Unauthorized <==> Authenticate(db, key, header) != Some(Caller(tenant, header)))
      && (r == VersionsNotStored <==>
            (Authenticate(db, key, header) == Some(Caller(tenant, header)) && header in db.versions
              && db.versions[header].tenant != tenant))
  {
    hide Consistent, ManifestFor, Authenticate, D.InsertVersions;
    if Authenticate(db, key, header) == Some(Caller(tenant, header)) {
      ConsistentDeviceExists(db, key, header);
      StoredIff(db, header, tenant, VersionsOf(reported));
    } else {
      CallerIsHeader(db, key, header);
    }
  }

  lemma CallerIsHeader(db: Db, key: string, device: string)
    ensures Authenticate(db, key, device).Some? ==> Authenticate(db, key, device).value.device == device
  {
  }

  lemma StoredIff(db: Db, device: string, tenant: int, r: Report)
    requires D.DeviceOf(db, device, tenant)
    ensures D.InsertVersions(db, device, tenant, r).1 <==>
      !(device in db.versions && db.versions[device].tenant != tenant)
    ensures D.DeviceOf(D.InsertVersions(db, device, tenant, r).0, device, tenant)
  {
  }

  /** Such rows come about: version rows outlive their device, so that a device id used again under another tenant
      gets no manifest any more. */
  lemma ReusedDeviceIdIsRefused(db: Db, device: string, tenant: int, other: int, row: Device, r: Report)
    requires Consistent(db) && D.DeviceOf(db, device, tenant) && other in db.tenants && other != tenant
    requires device in db.versions && db.versions[device].tenant == tenant
    requires 1 <= |row.name| <= D.MAX_DEVICE_NAME_LEN && |row.location| <= D.MAX_LOCATION_LEN
      && !D.DeviceNameTaken(db, other, row.name)
    ensures var gone := D.DeleteDevice(db, device, tenant).0;
      var (again, id) := D.GetOrInsertDevice(gone, device, other, row);
      id == Some(device) && D.DeviceOf(again, device, other) && !D.InsertVersions(again, device, other, r).1
  {
    hide Consistent;
    var gone := D.DeleteDevice(db, device, tenant).0;
    assert !D.DeviceNameTaken(gone, other, row.name) by {
      forall d | D.DeviceOf(gone, d, other) ensures gone.devices[d].row.name != row.name {
        assert D.DeviceOf(db, d, other);
      }
    }
  }

  /** What may be offered to a device is settled by the catalog and the pin; what it reports only decides which of
      the candidates are offered. */
  lemma ManifestOffersCandidates(db: Db, key: string, header: string, tenant: int, reported: Reported)
    requires Consistent(db) && Updates(db, key, header, tenant, reported).1.Manifest?
    ensures var m := Updates(db, key, header, tenant, reported).1;
      && header in db.devices
      && SoftwareCandidate(db, header).Some? && LatestRules(db.rules, tenant).Some? && Latest(db.threatIntel).Some?
      && var software := SoftwareCandidate(db, header).value;
      var rules := LatestRules(db.rules, tenant).value;
      && (m.software.Some? <==> IsUpdateNeeded(software.version, reported.software.version, software.digest,
        reported.software.digest))
      && (m.software.Some? ==> m.software.value.package == software)
      && (m.rules.Some? <==> IsUpdateNeeded(rules.version, reported.rules.version, rules.digest, reported.rules.digest))
      && (m.rules.Some? ==> m.rules.value.package == rules)
      && var threatIntel := Latest(db.threatIntel).value;
      && (m.threatIntel.Some? <==> IsUpdateNeeded(threatIntel.version, reported.threatIntel.version,
        threatIntel.digest, reported.threatIntel.digest))
      && (m.threatIntel.Some? ==> m.threatIntel.value.package == threatIntel)
  {
    hide Consistent, IsUpdateNeeded, D.PutReport;
    ConsistentDeviceExists(db, key, header);
    TenantPositive(db, header);
    ManifestColumns(db, D.InsertVersions(db, header, tenant, VersionsOf(reported)).0, header, tenant);
  }

  lemma TenantPositive(db: Db, device: string)
    requires Consistent(db) && device in db.devices
    ensures db.devices[device].tenant > 0
  {
    assert TenantRowOk(db.devices[device].tenant, db.tenants[db.devices[device].tenant]);
  }

  lemma ManifestColumns(a: Db, b: Db, device: string, tenant: int)
    requires device in a.devices && b == a.(versions := b.versions)
    ensures SoftwareCandidate(a, device) == SoftwareCandidate(b, device)
    ensures LatestRules(a.rules, tenant) == LatestRules(b.rules, tenant)
  {
  }

  /** A pinned device is offered its pinned version or nothing; an unpinned one the newest row or nothing. */
  lemma PinDecides(db: Db, device: string)
    requires Consistent(db) && device in db.devices && SoftwareCandidate(db, device).Some?
    ensures var p, pin := SoftwareCandidate(db, device).value, db.devices[device].row.swVersion;
      exists id :: id in db.software && db.software[id] == p &&
        if pin == "" then IsLatest(db.software, id) else p.version == pin
  {
  }
}
