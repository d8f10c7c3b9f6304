/** What the database helpers answer, and what can be seen of their effect elsewhere: which key opens what, which
    package becomes the candidate of which sensor, and what every other row looks like afterwards. */
module DbAnswers {
  import opened Tables
  import opened Schema
  import opened NetworkAgents
  import D = DbUtil

  // ----- Tenants --------------------------------------------------------------------

  /** A chosen id is taken exactly when it is free and in the environment's block, and the name fits and is free; the
      tenant is then the one new row, and nothing changes otherwise. */
  lemma ChosenIdIff(db: Db, environment: string, name: string, id: int)
    ensures var (after, r) := D.InsertTenantWithSpecificID(db, environment, name, id);
      var ok := 1 <= |name| <= 128 && id !in db.tenants
        && BlockOf(environment).Some? && BlockOf(environment).value.startId <= id <= BlockOf(environment).value.endId
        && forall t | t in db.tenants :: db.tenants[t].name != name;
      && r == (if ok then Some(id) else None)
      && after == if ok then db.(tenants := db.tenants[id := Tenant(name, environment)]) else db
  {
    hide BlockOf;
    if D.NameTaken(db, name) {
      assert db.tenants[D.TenantNamed(db, name)].name == name;
    }
  }

  /** The rows of the other tenants are as they were. */
  ghost predicate OthersStay<K, T>(before: map<K, Owned<T>>, after: map<K, Owned<T>>, a: int) {
    forall k | k in before && before[k].tenant != a :: k in after && after[k] == before[k]
  }

  /** Deleting a tenant leaves every row of every other tenant, with its keys and refresh tokens, and everything that
      belongs to no tenant. */
  lemma OtherTenantsStay(db: Db, a: int)
    requires Consistent(db)
    ensures var after := WithoutTenant(db, a);
      && after.tenants == db.tenants - {a}
      && OthersStay(db.devices, after.devices, a) && OthersStay(db.apiKeys, after.apiKeys, a)
      && OthersStay(db.rules, after.rules, a) && OthersStay(db.status, after.status, a)
      && OthersStay(db.versions, after.versions, a) && OthersStay(db.users, after.users, a)
      && (forall h | h in db.tokens && db.users[db.tokens[h].user].tenant != a ::
            h in after.tokens && after.tokens[h] == db.tokens[h])
      && after.software == db.software && after.threatIntel == db.threatIntel && after.sequences == db.sequences
  {
    hide TenantsOk, OwnersIn, NamesDistinct, EmailsDistinct, RulesOk, PackagesOk, SequencesOk, KeysOk;
    KeysStay(db, a);
  }

  lemma KeysStay(db: Db, a: int)
    requires Consistent(db)
    ensures OthersStay(db.apiKeys, WithoutTenant(db, a).apiKeys, a)
  {
    hide TenantsOk, OwnersIn, NamesDistinct, EmailsDistinct, RulesOk, PackagesOk, SequencesOk, TokensOk;
  }

  // ----- Devices --------------------------------------------------------------------

  ghost predicate NamedDevice(db: Db, tenant: int, name: string, d: string) {
    d in db.devices && db.devices[d].tenant == tenant && db.devices[d].row.name == name
  }

  /** A device is answered exactly when the fields fit, the tenant exists, and it has that device or the id is free;
      the tenant's device of that name is found, and else the given row is the one new one. */
  lemma DeviceAnswer(db: Db, id: string, tenant: int, device: Device)
    ensures var (after, r) := D.GetOrInsertDevice(db, id, tenant, device);
      var fits := 1 <= |device.name| <= 128 && |device.location| <= 255
        && tenant in db.tenants;
      && (r.Some? <==> fits && ((exists d :: NamedDevice(db, tenant, device.name, d)) || id !in db.devices))
      && (r.Some? ==> NamedDevice(after, tenant, device.name, r.value))
      && after.devices == if r.Some? && r.value !in db.devices then db.devices[id := Owned(tenant, device)]
        else db.devices
  {
    if D.DeviceNameTaken(db, tenant, device.name) {
      var d :| D.DeviceOf(db, d, tenant) && db.devices[d].row.name == device.name;
      assert NamedDevice(db, tenant, device.name, d);
    }
    if d :| NamedDevice(db, tenant, device.name, d) {
      assert D.DeviceOf(db, d, tenant);
    }
  }

  /** An update sets the pin and the location it is given and leaves every other field and device alone; it is refused
      without a field, for a location that is too long, and for a device the tenant does not have. */
  lemma DeviceFields(db: Db, id: string, tenant: int, swVersion: Option<string>, location: Option<string>)
    ensures var (after, ok) := D.UpdateDeviceFields(db, id, tenant, swVersion, location);
      && (ok <==>
            && (swVersion.Some? || location.Some?) && (location.Some? ==> |location.value| <= 255)
            && id in db.devices && db.devices[id].tenant == tenant)
      && after.devices.Keys == db.devices.Keys
      && (forall d | d in db.devices && (d != id || !ok) :: after.devices[d] == db.devices[d])
      && (ok ==>
            && after.devices[id].tenant == tenant
            && var was, row := db.devices[id].row, after.devices[id].row;
            && row.name == was.name
            && (if swVersion.Some? then row.swVersion == swVersion.value else row.swVersion == was.swVersion)
            && (if location.Some? then row.location == location.value else row.location == was.location))
  {
  }

  // ----- Keys -----------------------------------------------------------------------

  /** A key authenticates for a device exactly when it is stored for it and active, and then for the device's tenant. */
  lemma AuthenticatesIff(db: Db, key: string, device: string)
    requires Consistent(db) && key != "" && device != ""
    ensures var r := Authenticate(db, key, device);
      && (r.Some? <==> key in db.apiKeys && db.apiKeys[key].row == ApiKey(device, true))
      && (r.Some? ==> device in db.devices && r == Some(Caller(db.devices[device].tenant, device)))
  {
    hide TenantsOk, OwnersIn, NamesDistinct, TokensOk, EmailsDistinct, RulesOk, PackagesOk, SequencesOk;
  }

  /** A key is answered exactly for a device of the tenant that has one or when the given one is free. A device
      without a key gets the given one, which authenticates if and only if it was asked to be active; no other key
      opens more or less than before. */
  lemma KeyLifecycle(db: Db, key: string, tenant: int, device: string, active: bool, other: string, header: string)
    requires Consistent(db) && key != ""
    ensures var (after, r) := D.GetOrInsertAPIKey(db, key, tenant, device, active);
      && (r.Some? <==>
            && device != "" && device in db.devices && db.devices[device].tenant == tenant
            && (D.HasKey(db, device) || key !in db.apiKeys))
      && (r.Some? && !D.HasKey(db, device) ==>
            r.value == key && (Authenticate(after, key, device) == if active then Some(Caller(tenant, device))
              else None))
      && (other != key || key in db.apiKeys || r.None? ==>
            Authenticate(after, other, header) == Authenticate(db, other, header))
  {
    hide Consistent;
    if D.HasKey(db, device) {
      var k :| k in db.apiKeys && db.apiKeys[k].row.device == device;
    }
  }

  /** A deleted key authenticates for nobody, and every other key for whom it did. */
  lemma DeletedKeyIsShut(db: Db, key: string, other: string, device: string)
    ensures var after := D.DeleteAPIKey(db, key).0;
      Authenticate(after, other, device) == if other == key then None else Authenticate(db, other, device)
    ensures D.DeleteAPIKey(db, key).1 <==> key in db.apiKeys
  {
  }

  /** With a device its key goes, and nobody authenticates as it any more; other devices notice nothing. */
  lemma DeletedDeviceIsShut(db: Db, device: string, tenant: int, key: string, header: string)
    requires Consistent(db)
    ensures var (after, ok) := D.DeleteDevice(db, device, tenant);
      && (ok <==> device in db.devices && db.devices[device].tenant == tenant)
      && (ok ==> after.devices == db.devices - {device})
      && Authenticate(after, key, header) == if ok && header == device then None else Authenticate(db, key, header)
  {
    hide TenantsOk, OwnersIn, NamesDistinct, TokensOk, EmailsDistinct, RulesOk, PackagesOk, SequencesOk;
  }

  // ----- Reports --------------------------------------------------------------------

  /** One by one the columns of the device's row say what the report says, and where it says nothing what they said
      before; a row of another tenant is left, and so is every other device's. */
  lemma ReportedColumns(table: map<string, Owned<Report>>, device: string, tenant: int, r: Report)
    ensures var after := D.PutReport(table, device, tenant, r);
      var before := if device in table then table[device].row else Report("", "", "");
      && (after.Some? <==> (device in table ==> table[device].tenant == tenant))
      && (after.Some? ==>
            && after.value.Keys == table.Keys + {device}
            && (forall d | d in table && d != device :: after.value[d] == table[d])
            && after.value[device].tenant == tenant
            && var row := after.value[device].row;
            && row.software == (if r.software != "" then r.software else before.software)
            && row.rules == (if r.rules != "" then r.rules else before.rules)
            && row.threatIntel == (if r.threatIntel != "" then r.threatIntel else before.threatIntel))
  {
  }

  /** Both reports of a device of the tenant are stored this way: the versions, and any status that says something. */
  lemma ReportsStored(db: Db, device: string, tenant: int, r: Report)
    requires device in db.devices && db.devices[device].tenant == tenant
    ensures var (after, ok) := D.InsertVersions(db, device, tenant, r);
      var table := D.PutReport(db.versions, device, tenant, r);
      && (ok <==> table.Some?) && after == if ok then db.(versions := table.value) else db
    ensures var (after, ok) := D.InsertStatus(db, device, tenant, r);
      var table := D.PutReport(db.status, device, tenant, r);
      && (ok <==> table.Some? && (r.software != "" || r.rules != "" || r.threatIntel != ""))
      && after == if ok then db.(status := table.value) else db
  {
    hide D.PutReport;
  }

  /** What a sensor reports when it asks for its manifest shows, version by version, in its row: also when it is told
      that a package is missing. */
  lemma ReportedVersionsShow(db: Db, key: string, header: string, tenant: int, reported: Reported)
    requires Consistent(db)
    requires Updates(db, key, header, tenant, reported).1 !in {Unauthorized, VersionsNotStored}
    ensures var after := Updates(db, key, header, tenant, reported).0;
      && after == db.(versions := after.versions)
      && header in after.versions && after.versions[header].tenant == tenant
      && (forall d | d in db.versions && d != header :: d in after.versions && after.versions[d] == db.versions[d])
      && var before := if header in db.versions then db.versions[header].row else Report("", "", "");
      var row, software, rules, threatIntel := after.versions[header].row, reported.software.version,
        reported.rules.version, reported.threatIntel.version;
      && row.software == (if software != "" then software else before.software)
      && row.rules == (if rules != "" then rules else before.rules)
      && row.threatIntel == (if threatIntel != "" then threatIntel else before.threatIntel)
  {
    hide Consistent, D.PutReport, ManifestFor, SameAccounts;
    UpdatesAnswer(db, key, header, tenant, reported);
    ConsistentDeviceExists(db, key, header);
    var r := VersionsOf(reported);
    ReportsStored(db, header, tenant, r);
    ReportedColumns(db.versions, header, tenant, r);
  }

  /** A status is dropped for a device of the tenant whose status row is the tenant's, and no other row with it. */
  lemma StatusDropped(db: Db, device: string, tenant: int)
    ensures var (after, ok) := D.DeleteStatus(db, device, tenant);
      && (ok <==>
            && device in db.devices && db.devices[device].tenant == tenant
            && device in db.status && db.status[device].tenant == tenant)
      && after == if ok then db.(status := db.status - {device}) else db
  {
  }

  // ----- Candidates -----------------------------------------------------------------

  /** No software is found for a device exactly when it is pinned to a version that is not there, or unpinned and there
      is none at all. */
  lemma NoSoftwareIff(db: Db, device: string)
    requires device in db.devices
    ensures var pin := db.devices[device].row.swVersion;
      SoftwareCandidate(db, device).None? <==>
        if pin == "" then db.software == map[] else forall a | a in db.software :: db.software[a].version != pin
  {
  }

  /** The three missing packages a sensor is told of, in this order. */
  lemma MissingPackages(db: Db, key: string, header: string, tenant: int, reported: Reported)
    requires Consistent(db) && Authenticate(db, key, header) == Some(Caller(tenant, header))
    requires header in db.versions ==> db.versions[header].tenant == tenant
    ensures header in db.devices
    ensures var r := Updates(db, key, header, tenant, reported).1;
      var software, rules, threatIntel := SoftwareCandidate(db, header).Some?,
        AnyRules(db.rules, tenant), db.threatIntel != map[];
      && (r.SoftwareNotFound? <==> !software)
      && (r.RulesNotFound? <==> software && !rules)
      && (r.ThreatIntelNotFound? <==> software && rules && !threatIntel)
      && (r.Manifest? <==> software && rules && threatIntel)
  {
    hide Consistent, D.PutReport, Authenticate, OfferOf, OfferOfRules, SoftwareCandidate, AnyRules, KeysOf;
    ConsistentDeviceExists(db, key, header);
    UpdatesAnswer(db, key, header, tenant, reported);
    ManifestColumns(db, D.InsertVersions(db, header, tenant, VersionsOf(reported)).0, header, tenant);
    RulesThere(db.rules, tenant);
  }

  ghost predicate AnyRules(table: map<int, Owned<Package>>, tenant: int) {
    exists a :: a in table && table[a].tenant == tenant
  }

  lemma RulesThere(table: map<int, Owned<Package>>, tenant: int)
    ensures KeysOf(table, tenant) != {} <==> AnyRules(table, tenant)
  {
    if a :| a in table && table[a].tenant == tenant {
      assert a in KeysOf(table, tenant);
    }
    if KeysOf(table, tenant) != {} {
      LatestRulesExists(table, tenant);
      var m :| IsLatestRules(table, tenant, m);
    }
  }

  /** Pinning a device makes the row of that version its candidate, if there is one; clearing the pin makes it the
      newest. */
  lemma PinnedCandidate(db: Db, device: string, tenant: int, version: string, location: Option<string>)
    requires Consistent(db) && D.UpdateDeviceFields(db, device, tenant, Some(version), location).1
    ensures var after := D.UpdateDeviceFields(db, device, tenant, Some(version), location).0;
      && device in after.devices
      && var p := SoftwareCandidate(after, device);
      if version == "" then p == Latest(db.software)
      else forall a | a in db.software && db.software[a].version == version :: p == Some(db.software[a])
  {
    hide TenantsOk, OwnersIn, NamesDistinct, KeysOk, TokensOk, EmailsDistinct, RulesOk, SequencesOk;
  }

  // ----- Catalog --------------------------------------------------------------------

  /** The rows of every other version are as they were. */
  ghost predicate OtherVersionsStay(before: map<int, Package>, after: map<int, Package>, version: string) {
    forall a, q: Package | q.version != version :: (a in before && before[a] == q) <==> (a in after && after[a] == q)
  }

  /** A package put into the table of its type: its version's row is the package, unless a row of that
      version had the same digest already and stays as it is; the row of a version that is new becomes the
      newest; all other rows stay. */
  lemma PackageRows(table: map<int, Package>, next: int, p: Package)
    requires PackagesOk(table, next)
    ensures var (after, n) := D.PutPackage(table, next, p);
      && OtherVersionsStay(table, after, p.version)
      && (forall a | a in table && table[a].version == p.version ::
            a in after && after[a] == if table[a].digest == p.digest then table[a] else p)
      && (forall a | a in after && after[a].version == p.version && a !in table :: !D.HasVersion(table, p.version))
      && (!D.HasVersion(table, p.version) ==> Latest(after) == Some(p))
      && (D.HasVersion(table, p.version) ==> after.Keys == table.Keys)
  {
    var after := D.PutPackage(table, next, p).0;
    if !D.HasVersion(table, p.version) {
      OnlyLatest(after, next);
    }
  }

  lemma OnlyLatest(table: map<int, Package>, id: int)
    requires IsLatest(table, id)
    ensures Latest(table) == Some(table[id])
  {
    assert id in table;
    var other :| IsLatest(table, other) && Latest(table).value == table[other];
    assert IsLatest(table, other) && IsLatest(table, id);
    assert other == id;
  }

  lemma OnlyLatestRules(table: map<int, Owned<Package>>, tenant: int, id: int)
    requires IsLatestRules(table, tenant, id)
    ensures LatestRules(table, tenant) == Some(table[id].row)
  {
    assert id in KeysOf(table, tenant);
    var other :| IsLatestRules(table, tenant, other) && LatestRules(table, tenant).value == table[other].row;
    assert IsLatestRules(table, tenant, other) && IsLatestRules(table, tenant, id);
    assert other == id;
  }

  /** The same for rules, among the rows of the tenant; those of every other tenant stay. */
  lemma RulesRows(table: map<int, Owned<Package>>, next: int, tenant: int, p: Package)
    requires RulesOk(table, next)
    ensures var (after, n) := D.PutRulesPackage(table, next, tenant, p);
      && (forall a, q: Owned<Package> | q.tenant != tenant || q.row.version != p.version ::
            (a in table && table[a] == q) <==> (a in after && after[a] == q))
      && (forall a | a in table && table[a].tenant == tenant && table[a].row.version == p.version ::
            a in after && after[a] == if table[a].row.digest == p.digest then table[a] else Owned(tenant, p))
      && (!D.HasRules(table, tenant, p.version) ==> LatestRules(after, tenant) == Some(p))
      && (D.HasRules(table, tenant, p.version) ==> after.Keys == table.Keys)
  {
    var after := D.PutRulesPackage(table, next, tenant, p).0;
    if !D.HasRules(table, tenant, p.version) {
      OnlyLatestRules(after, tenant, next);
    }
  }

  /** A package is stored exactly when it has a version, a digest and a size, and rules when their tenant exists; only
      the table of its type changes. */
  lemma StoredPackages(db: Db, tenant: int, p: Package)
    ensures var complete := p.version != "" && p.digest != NoDigest && p.size > 0;
      && (D.InsertHndrSw(db, p).1 <==> complete) && (D.InsertThreatIntel(db, p).1 <==> complete)
      && (D.InsertHndrRules(db, tenant, p).1 <==> complete && tenant in db.tenants)
    ensures D.InsertHndrSw(db, p).1 ==>
      D.InsertHndrSw(db, p).0
      == db.(software := D.PutPackage(db.software, db.nextSoftwareId, p).0,
             nextSoftwareId := D.InsertHndrSw(db, p).0.nextSoftwareId)
    ensures D.InsertThreatIntel(db, p).1 ==>
      D.InsertThreatIntel(db, p).0
      == db.(threatIntel := D.PutPackage(db.threatIntel, db.nextThreatIntelId, p).0,
             nextThreatIntelId := D.InsertThreatIntel(db, p).0.nextThreatIntelId)
    ensures D.InsertHndrRules(db, tenant, p).1 ==>
      D.InsertHndrRules(db, tenant, p).0
      == db.(rules := D.PutRulesPackage(db.rules, db.nextRulesId, tenant, p).0,
             nextRulesId := D.InsertHndrRules(db, tenant, p).0.nextRulesId)
    ensures !D.InsertHndrSw(db, p).1 ==> D.InsertHndrSw(db, p).0 == db
    ensures !D.InsertThreatIntel(db, p).1 ==> D.InsertThreatIntel(db, p).0 == db
    ensures !D.InsertHndrRules(db, tenant, p).1 ==> D.InsertHndrRules(db, tenant, p).0 == db
  {
    hide D.PutPackage, D.PutRulesPackage, SameAccounts;
  }

  /** A version published for the first time is at once the candidate of every sensor without a pin and of those pinned
      to it, and of no other. */
  lemma NewVersionIsCandidate(db: Db, p: Package, device: string)
    requires Consistent(db) && D.InsertHndrSw(db, p).1 && !D.HasVersion(db.software, p.version)
    requires device in db.devices
    ensures var after := D.InsertHndrSw(db, p).0;
      && device in after.devices
      && var pin := db.devices[device].row.swVersion;
      if pin == "" || pin == p.version then SoftwareCandidate(after, device) == Some(p)
      else SoftwareCandidate(after, device) == SoftwareCandidate(db, device)
  {
    hide D.PutPackage, Latest, SameAccounts;
    hide TenantsOk, OwnersIn, NamesDistinct, KeysOk, TokensOk, EmailsDistinct, RulesOk, SequencesOk;
    var after := D.InsertHndrSw(db, p).0;
    StoredPackages(db, 0, p);
    PackageRows(db.software, db.nextSoftwareId, p);
    D.PutPackageKeeps(db.software, db.nextSoftwareId, p);
    var pin := db.devices[device].row.swVersion;
    if pin != p.version {
      SameVersionRow(db.software, after.software, p.version, pin);
    } else if pin != "" {
      LatestIsThere(after.software, p);
    }
  }

  lemma LatestIsThere(table: map<int, Package>, p: Package)
    requires Latest(table) == Some(p)
    ensures exists a :: a in table && table[a] == p
  {
  }

  lemma SameVersionRow(before: map<int, Package>, after: map<int, Package>, version: string, pin: string)
    requires OtherVersionsStay(before, after, version) && pin != version
    ensures D.HasVersion(after, pin) <==> D.HasVersion(before, pin)
  {
  }

  /** Rules published for the first time are at once the candidate of every sensor of the tenant; the candidates of the
      other tenants stay. */
  lemma NewRulesAreCandidate(db: Db, tenant: int, p: Package, other: int)
    requires Consistent(db) && D.InsertHndrRules(db, tenant, p).1 && !D.HasRules(db.rules, tenant, p.version)
    ensures var after := D.InsertHndrRules(db, tenant, p).0;
      LatestRules(after.rules, other) == if other == tenant then Some(p) else LatestRules(db.rules, other)
  {
    hide D.PutRulesPackage, SameAccounts;
    hide TenantsOk, OwnersIn, NamesDistinct, KeysOk, TokensOk, EmailsDistinct, SequencesOk;
    var after := D.InsertHndrRules(db, tenant, p).0;
    StoredPackages(db, tenant, p);
    RulesRows(db.rules, db.nextRulesId, tenant, p);
    if other != tenant {
      SameLatestRules(db.rules, after.rules, other);
    }
  }

  lemma SameLatestRules(before: map<int, Owned<Package>>, after: map<int, Owned<Package>>, tenant: int)
    requires forall a, q: Owned<Package> | q.tenant == tenant ::
      (a in before && before[a] == q) <==> (a in after && after[a] == q)
    ensures LatestRules(after, tenant) == LatestRules(before, tenant)
  {
    forall a ensures a in KeysOf(before, tenant) <==> a in KeysOf(after, tenant) {
      if a in before && before[a].tenant == tenant {
        assert a in after && after[a] == before[a];
      }
      if a in after && after[a].tenant == tenant {
        assert a in before && after[a] == before[a];
      }
    }
    assert KeysOf(after, tenant) == KeysOf(before, tenant);
    if KeysOf(before, tenant) != {} {
      LatestRulesExists(before, tenant);
      var id :| IsLatestRules(before, tenant, id);
      OnlyLatestRules(before, tenant, id);
      forall a | a in after && after[a].tenant == tenant ensures a <= id {
        assert a in KeysOf(before, tenant);
      }
      assert id in KeysOf(after, tenant);
      OnlyLatestRules(after, tenant, id);
    }
  }

  lemma NewThreatIntelIsCandidate(db: Db, p: Package)
    requires Consistent(db) && D.InsertThreatIntel(db, p).1 && !D.HasVersion(db.threatIntel, p.version)
    ensures Latest(D.InsertThreatIntel(db, p).0.threatIntel) == Some(p)
  {
    hide D.PutPackage, Latest, SameAccounts;
    hide TenantsOk, OwnersIn, NamesDistinct, KeysOk, TokensOk, EmailsDistinct, RulesOk, SequencesOk;
    StoredPackages(db, 0, p);
    PackageRows(db.threatIntel, db.nextThreatIntelId, p);
  }

  /** A withdrawn version has no row any more, and every other row stays. */
  lemma WithdrawnVersions(db: Db, tenant: int, version: string)
    ensures var after := D.DeleteHndrSw(db, version);
      && after == db.(software := after.software) && !D.HasVersion(after.software, version)
      && OtherVersionsStay(db.software, after.software, version)
    ensures var after := D.DeleteThreatIntel(db, version);
      && after == db.(threatIntel := after.threatIntel) && !D.HasVersion(after.threatIntel, version)
      && OtherVersionsStay(db.threatIntel, after.threatIntel, version)
    ensures var after := D.DeleteHndrRules(db, tenant, version);
      && after == db.(rules := after.rules) && !D.HasRules(after.rules, tenant, version)
      && forall a, q: Owned<Package> | q.tenant != tenant || q.row.version != version ::
        (a in db.rules && db.rules[a] == q) <==> (a in after.rules && after.rules[a] == q)
  {
    hide SameAccounts;
  }
}
