/** What the database helpers do to the tables, as functions from the tables before to the
    tables after, and the proof that each of them keeps the database consistent. */
module DbUtil {
  import opened Tables
  import opened Schema

  const MAX_DEVICE_NAME_LEN := 128
  const MAX_LOCATION_LEN := 255

  // ----- Tenants --------------------------------------------------------------------

  ghost predicate NameTaken(db: Db, name: string) {
    exists id :: id in db.tenants && db.tenants[id].name == name
  }

  /** SELECT tenant_id FROM tenants WHERE tenant_name = $1 */
  ghost function TenantNamed(db: Db, name: string): (id: int)
    requires NameTaken(db, name)
    ensures id in db.tenants && db.tenants[id].name == name
  {
    var id :| id in db.tenants && db.tenants[id].name == name;
    id
  }

  /** nextval on a NO CYCLE sequence: the value handed out, or none once it is used up. */
  function NextValue(db: Db, sequence: string): (r: (Db, Option<int>))
    ensures r.1.Some? && SequencesOk(db.sequences) ==> r.1.value > 0
  {
    if sequence in db.sequences && SequenceRange(sequence).Some?
       && db.sequences[sequence] <= SequenceRange(sequence).value.endId
    then (db.(sequences := db.sequences[sequence := db.sequences[sequence] + 1]), Some(db.sequences[sequence]))
    else (db, None)
  }

  /** Does INSERT INTO tenants satisfy the primary key, the unique name, the trigger and the CHECK? */
  ghost predicate CanInsertTenant(db: Db, id: int, t: Tenant) {
    id !in db.tenants && !NameTaken(db, t.name) && TenantRowOk(id, t)
  }

  ghost function InsertTenant(db: Db, id: int, t: Tenant): (r: (Db, Option<int>))
    ensures r.0 == db.(tenants := r.0.tenants)
  {
    if CanInsertTenant(db, id, t) then (db.(tenants := db.tenants[id := t]), Some(id)) else (db, None)
  }

  ghost function GetOrInsertTenant(db: Db, environment: string, name: string): (r: (Db, Option<int>))
    ensures r.0 == db.(tenants := r.0.tenants, sequences := r.0.sequences)
    ensures r.0.sequences == if 1 <= |name| <= MAX_TENANT_NAME_LEN && !NameTaken(db, name)
      then NextValue(db, SequenceName(environment)).0.sequences else db.sequences
  {
    if !(1 <= |name| <= MAX_TENANT_NAME_LEN) then (db, None)
    else if NameTaken(db, name) then (db, Some(TenantNamed(db, name)))
    else
      var (next, id) := NextValue(db, SequenceName(environment));
      if id.None? then (next, None) else InsertTenant(next, id.value, Tenant(name, environment))
  }

  ghost function InsertTenantWithSpecificID(db: Db, environment: string, name: string, id: int): (r: (Db, Option<int>))
    ensures r.0 == db.(tenants := r.0.tenants)
  {
    if !(1 <= |name| <= MAX_TENANT_NAME_LEN) then (db, None)
    else if BlockOf(environment).None? || !BlockOf(environment).value.Contains(id) then (db, None)
    else InsertTenant(db, id, Tenant(name, environment))
  }

  // ----- Devices and keys -----------------------------------------------------------

  predicate DeviceOf(db: Db, device: string, tenant: int) {
    device in db.devices && db.devices[device].tenant == tenant
  }

  ghost predicate DeviceNameTaken(db: Db, tenant: int, name: string) {
    exists d :: DeviceOf(db, d, tenant) && db.devices[d].row.name == name
  }

  /** `id` is the caller's device id, or the UUID drawn when the caller gave none. */
  ghost function GetOrInsertDevice(db: Db, id: string, tenant: int, device: Device): (r: (Db, Option<string>))
    ensures SameAccounts(db, r.0)
  {
    if !(1 <= |device.name| <= MAX_DEVICE_NAME_LEN) || |device.location| > MAX_LOCATION_LEN then (db, None)
    else if tenant !in db.tenants then (db, None)
    else if DeviceNameTaken(db, tenant, device.name) then
      var d :| DeviceOf(db, d, tenant) && db.devices[d].row.name == device.name;
      (db, Some(d))
    else if id in db.devices then (db, None)
    else (db.(devices := db.devices[id := Owned(tenant, device)]), Some(id))
  }

  /** Only hndr_sw_version and location may change; at least one must be given. */
  function UpdateDeviceFields(db: Db, id: string, tenant: int, swVersion: Option<string>,
      location: Option<string>): (r: (Db, bool))
    ensures SameAccounts(db, r.0)
  {
    if swVersion.None? && location.None? then (db, false)
    else if location.Some? && |location.value| > MAX_LOCATION_LEN then (db, false)
    else if !DeviceOf(db, id, tenant) then (db, false)
    else
      var current := db.devices[id].row;
      var row := current.(swVersion := if swVersion.Some? then swVersion.value else current.swVersion,
                          location := if location.Some? then location.value else current.location);
      (db.(devices := db.devices[id := Owned(tenant, row)]), true)
  }

  /** The cascade takes the keys of the device; its status and version rows have no reference
      to devices and stay. */
  function DeleteDevice(db: Db, id: string, tenant: int): (r: (Db, bool))
    ensures SameAccounts(db, r.0)
  {
    if !DeviceOf(db, id, tenant) then (db, false)
    else (db.(devices := db.devices - {id}, apiKeys := KeysOfDevices(db.apiKeys, db.devices - {id})), true)
  }

  ghost predicate HasKey(db: Db, device: string) {
    exists k :: k in db.apiKeys && db.apiKeys[k].row.device == device
  }

  /** `key` is the caller's key, or the UUID drawn when the caller gave none. */
  ghost function GetOrInsertAPIKey(db: Db, key: string, tenant: int, device: string,
      active: bool): (r: (Db, Option<string>))
    ensures SameAccounts(db, r.0)
  {
    if device == "" || !DeviceOf(db, device, tenant) then (db, None)
    else if HasKey(db, device) then
      var k :| k in db.apiKeys && db.apiKeys[k].row.device == device;
      (db, Some(k))
    else if key in db.apiKeys then (db, None)
    else (db.(apiKeys := db.apiKeys[key := Owned(tenant, ApiKey(device, active))]), Some(key))
  }

  function DeleteAPIKey(db: Db, key: string): (r: (Db, bool))
    ensures SameAccounts(db, r.0)
  {
    (db.(apiKeys := db.apiKeys - {key}), key in db.apiKeys)
  }

  // ----- Catalog --------------------------------------------------------------------

  ghost predicate HasVersion(table: map<int, Package>, version: string) {
    exists a :: a in table && table[a].version == version
  }

  ghost function IdOfVersion(table: map<int, Package>, version: string): (id: int)
    requires HasVersion(table, version)
    ensures id in table && table[id].version == version
  {
    var a :| a in table && table[a].version == version;
    a
  }

  predicate PackageArgumentsOk(p: Package) {
    p.version != "" && p.digest != NoDigest && p.size > 0
  }

  /** Insert a package row, or overwrite the one with that version unless its digest is the same. */
  ghost function PutPackage(table: map<int, Package>, next: int, p: Package): (map<int, Package>, int) {
    if HasVersion(table, p.version) then
      var a := IdOfVersion(table, p.version);
      (if table[a].digest == p.digest then table else table[a := p], next)
    else (table[next := p], next + 1)
  }

  ghost function InsertHndrSw(db: Db, p: Package): (r: (Db, bool))
    ensures SameAccounts(db, r.0)
  {
    if !PackageArgumentsOk(p) then (db, false)
    else
      var (table, next) := PutPackage(db.software, db.nextSoftwareId, p);
      (db.(software := table, nextSoftwareId := next), true)
  }

  ghost function InsertThreatIntel(db: Db, p: Package): (r: (Db, bool))
    ensures SameAccounts(db, r.0)
  {
    if !PackageArgumentsOk(p) then (db, false)
    else
      var (table, next) := PutPackage(db.threatIntel, db.nextThreatIntelId, p);
      (db.(threatIntel := table, nextThreatIntelId := next), true)
  }

  ghost predicate HasRules(table: map<int, Owned<Package>>, tenant: int, version: string) {
    exists a :: a in table && table[a].tenant == tenant && table[a].row.version == version
  }

  ghost function IdOfRules(table: map<int, Owned<Package>>, tenant: int, version: string): (id: int)
    requires HasRules(table, tenant, version)
    ensures id in table && table[id].tenant == tenant && table[id].row.version == version
  {
    var a :| a in table && table[a].tenant == tenant && table[a].row.version == version;
    a
  }

  /** PutPackage among the rules of one tenant. */
  ghost function PutRulesPackage(table: map<int, Owned<Package>>, next: int, tenant: int,
      p: Package): (map<int, Owned<Package>>, int) {
    if HasRules(table, tenant, p.version) then
      var a := IdOfRules(table, tenant, p.version);
      (if table[a].row.digest == p.digest then table else table[a := Owned(tenant, p)], next)
    else (table[next := Owned(tenant, p)], next + 1)
  }

  ghost function InsertHndrRules(db: Db, tenant: int, p: Package): (r: (Db, bool))
    ensures SameAccounts(db, r.0)
  {
    if !PackageArgumentsOk(p) || tenant !in db.tenants then (db, false)
    else
      var (table, next) := PutRulesPackage(db.rules, db.nextRulesId, tenant, p);
      (db.(rules := table, nextRulesId := next), true)
  }

  function WithoutVersion(table: map<int, Package>, version: string): map<int, Package> {
    map a | a in table && table[a].version != version :: table[a]
  }

  function WithoutRules(table: map<int, Owned<Package>>, tenant: int, version: string): map<int, Owned<Package>> {
    map a | a in table && !(table[a].tenant == tenant && table[a].row.version == version) :: table[a]
  }

  function DeleteHndrSw(db: Db, version: string): (r: Db)
    ensures SameAccounts(db, r)
  {
    db.(software := WithoutVersion(db.software, version))
  }

  function DeleteThreatIntel(db: Db, version: string): (r: Db)
    ensures SameAccounts(db, r)
  {
    db.(threatIntel := WithoutVersion(db.threatIntel, version))
  }

  function DeleteHndrRules(db: Db, tenant: int, version: string): (r: Db)
    ensures SameAccounts(db, r)
  {
    db.(rules := WithoutRules(db.rules, tenant, version))
  }

  // ----- Device reports -------------------------------------------------------------

  function OrElse(given: string, current: string): string {
    if given != "" then given else current
  }

  /** The row the device reports into: merged with the row of this device and tenant, inserted
      when there is none, and refused when the device id is held by a row of another tenant. */
  function PutReport(table: map<string, Owned<Report>>, device: string, tenant: int,
      r: Report): Option<map<string, Owned<Report>>> {
    if device !in table then Some(table[device := Owned(tenant, r)])
    else if table[device].tenant != tenant then None
    else
      var current := table[device].row;
      Some(table[device := Owned(tenant, Report(OrElse(r.software, current.software),
                                                OrElse(r.rules, current.rules),
                                                OrElse(r.threatIntel, current.threatIntel)))])
  }

  function InsertVersions(db: Db, device: string, tenant: int, r: Report): (result: (Db, bool))
    ensures SameAccounts(db, result.0)
  {
    if !DeviceOf(db, device, tenant) then (db, false)
    else
      var table := PutReport(db.versions, device, tenant, r);
      if table.None? then (db, false) else (db.(versions := table.value), true)
  }

  function InsertStatus(db: Db, device: string, tenant: int, r: Report): (result: (Db, bool))
    ensures SameAccounts(db, result.0)
  {
    if r == Report("", "", "") || !DeviceOf(db, device, tenant) then (db, false)
    else
      var table := PutReport(db.status, device, tenant, r);
      if table.None? then (db, false) else (db.(status := table.value), true)
  }

  function DeleteStatus(db: Db, device: string, tenant: int): (r: (Db, bool))
    ensures SameAccounts(db, r.0)
  {
    if DeviceOf(db, device, tenant) && device in db.status && db.status[device].tenant == tenant
    then (db.(status := db.status - {device}), true)
    else (db, false)
  }

  // ----- Users ----------------------------------------------------------------------

  ghost predicate EmailTaken(db: Db, email: string) {
    exists u :: u in db.users && Lower(db.users[u].row.email) == Lower(email)
  }

  /** `id` is the UUID the database draws for the new row. */
  ghost function InsertUser(db: Db, id: string, tenant: int, email: string, hash: PasswordHash,
      role: Role): (r: (Db, bool))
    ensures SameTenants(db, r.0)
  {
    if tenant !in db.tenants || EmailTaken(db, email) || id in db.users then (db, false)
    else (db.(users := db.users[id := Owned(tenant, User(Lower(email), hash, role, true, 0, None))]), true)
  }

  predicate UserOf(db: Db, user: string, tenant: int) {
    user in db.users && db.users[user].tenant == tenant
  }

  function DeleteUser(db: Db, user: string, tenant: int): (r: (Db, bool))
    ensures SameTenants(db, r.0)
  {
    if !UserOf(db, user, tenant) then (db, false)
    else (db.(users := db.users - {user}, tokens := TokensOfUsers(db.tokens, db.users - {user})), true)
  }

  /** UPDATE users SET .. WHERE user_id = $1: the row with that id, if any, becomes `row`. */
  function WithUser(db: Db, user: string, row: User): (r: Db)
    ensures SameTenants(db, r)
  {
    if user in db.users then db.(users := db.users[user := db.users[user].(row := row)]) else db
  }

  function DeactivateUser(db: Db, user: string, tenant: int): (r: (Db, bool))
    ensures SameTenants(db, r.0)
  {
    if !UserOf(db, user, tenant) then (db, false)
    else (WithUser(db, user, db.users[user].row.(isActive := false)), true)
  }

  function ResetUserPassword(db: Db, user: string, tenant: int, hash: PasswordHash): (r: (Db, bool))
    ensures SameTenants(db, r.0)
  {
    if !UserOf(db, user, tenant) then (db, false)
    else (WithUser(db, user, db.users[user].row.(passwordHash := hash)), true)
  }

  /** The users a list for the tenant shows: all of them for tenant 0. */
  function ListedUsers(users: map<string, Owned<User>>, tenant: int): set<string> {
    set u | u in users && (tenant == 0 || users[u].tenant == tenant)
  }

  /** The devices a list for the tenant shows: all of them when it is not positive. */
  function ListedDevices(devices: map<string, Owned<Device>>, tenant: int): set<string> {
    set d | d in devices && (tenant <= 0 || devices[d].tenant == tenant)
  }

  // ----- Lockout and refresh tokens -------------------------------------------------

  /** Microseconds. */
  const SECOND: nat := 1_000_000
  const MINUTE: nat := 60 * SECOND
  const LOCKOUT_THRESHOLD: nat := 3
  const LOCKOUT_DURATION: nat := 10 * MINUTE

  /** One more failure; from the threshold on every failure starts a new lock. */
  function AfterFailure(u: User, now: Time): User {
    u.(failedAttempts := u.failedAttempts + 1,
       lockoutUntil := if u.failedAttempts + 1 >= LOCKOUT_THRESHOLD then Some(now + LOCKOUT_DURATION)
         else u.lockoutUntil)
  }

  function RecordFailedAttempt(db: Db, user: string, now: Time): (r: Db)
    ensures SameTenants(db, r)
  {
    if user in db.users then WithUser(db, user, AfterFailure(db.users[user].row, now)) else db
  }

  function ClearLockout(db: Db, user: string): (r: Db)
    ensures SameTenants(db, r)
  {
    if user in db.users then WithUser(db, user, db.users[user].row.(failedAttempts := 0, lockoutUntil := None)) else db
  }

  /** The foreign key refuses a user that is gone, the unique digest one that is stored already. */
  function InsertRefreshToken(db: Db, user: string, raw: string, expiresAt: Time): (r: (Db, bool))
    ensures SameTenants(db, r.0)
  {
    if user !in db.users || HashOf(raw) in db.tokens then (db, false)
    else (db.(tokens := db.tokens[HashOf(raw) := RefreshToken(user, expiresAt, false)]), true)
  }

  /** SET revoked = true WHERE user_id = $1 AND revoked = false AND expires_at > NOW() */
  function RevokeRefreshTokens(db: Db, user: string, now: Time): (r: Db)
    ensures SameTenants(db, r)
  {
    db.(tokens := Revoked(db.tokens, user, now))
  }

  function Revoked(tokens: map<TokenHash, RefreshToken>, user: string, now: Time): map<TokenHash, RefreshToken> {
    map h | h in tokens ::
      if tokens[h].user == user && !tokens[h].revoked && tokens[h].expiresAt > now
      then tokens[h].(revoked := true) else tokens[h]
  }

  // ----- Each of them keeps the database consistent ---------------------------------

  lemma NextSequenceOk(sequences: map<string, int>, n: string)
    requires SequencesOk(sequences) && n in sequences && sequences[n] <= SequenceRange(n).value.endId
    ensures SequencesOk(sequences[n := sequences[n] + 1])
  {
  }

  lemma NextValueKeeps(db: Db, sequence: string)
    requires Consistent(db)
    ensures Consistent(NextValue(db, sequence).0)
  {
    hide OwnersIn, NamesDistinct, KeysOk, TokensOk, EmailsDistinct, RulesOk, PackagesOk, SequencesOk, TenantsOk;
    if NextValue(db, sequence).1.Some? {
      NextSequenceOk(db.sequences, sequence);
    }
  }

  /** A value handed out lies in the range of its sequence. */
  lemma NextValueInRange(db: Db, sequence: string)
    requires Consistent(db) && NextValue(db, sequence).1.Some?
    ensures SequenceRange(sequence).Some? && SequenceRange(sequence).value.Contains(NextValue(db, sequence).1.value)
    ensures NextValue(db, sequence).1.value > 0
  {
  }

  lemma NewTenantKeeps(tenants: map<int, Tenant>, id: int, t: Tenant)
    requires TenantsOk(tenants) && id !in tenants && TenantRowOk(id, t)
    requires forall i :: i in tenants ==> tenants[i].name != t.name
    ensures TenantsOk(tenants[id := t])
  {
    hide TenantRowOk;
  }

  lemma InsertTenantKeeps(db: Db, id: int, t: Tenant)
    requires Consistent(db)
    ensures Consistent(InsertTenant(db, id, t).0)
  {
    hide OwnersIn, NamesDistinct, KeysOk, TokensOk, EmailsDistinct, RulesOk, PackagesOk, SequencesOk, TenantsOk;
    if CanInsertTenant(db, id, t) {
      NewTenantKeeps(db.tenants, id, t);
      var ids, more := db.tenants.Keys, db.tenants[id := t].Keys;
      OwnersInMore(db.devices, ids, more);
      OwnersInMore(db.apiKeys, ids, more);
      OwnersInMore(db.rules, ids, more);
      OwnersInMore(db.status, ids, more);
      OwnersInMore(db.versions, ids, more);
      OwnersInMore(db.users, ids, more);
    }
  }

  lemma GetOrInsertTenantKeeps(db: Db, environment: string, name: string)
    requires Consistent(db)
    ensures Consistent(GetOrInsertTenant(db, environment, name).0)
  {
    hide Consistent, NextValue, InsertTenant, SequenceName;
    var (next, id) := NextValue(db, SequenceName(environment));
    NextValueKeeps(db, SequenceName(environment));
    if id.Some? {
      InsertTenantKeeps(next, id.value, Tenant(name, environment));
    }
  }

  lemma NewNameKeeps(devices: map<string, Owned<Device>>, id: string, d: Owned<Device>)
    requires NamesDistinct(devices) && id !in devices
    requires forall k | k in devices :: devices[k].tenant == d.tenant ==> devices[k].row.name != d.row.name
    ensures NamesDistinct(devices[id := d])
  {
  }

  lemma SameNameKeeps(devices: map<string, Owned<Device>>, id: string, d: Owned<Device>)
    requires NamesDistinct(devices) && id in devices && devices[id].tenant == d.tenant
      && devices[id].row.name == d.row.name
    ensures NamesDistinct(devices[id := d])
  {
  }

  lemma FewerNamesKeep(devices: map<string, Owned<Device>>, id: string)
    requires NamesDistinct(devices)
    ensures NamesDistinct(devices - {id})
  {
  }

  lemma PutDeviceKeeps(keys: map<string, Owned<ApiKey>>, devices: map<string, Owned<Device>>, id: string,
      d: Owned<Device>)
    requires KeysOk(keys, devices) && (id in devices ==> devices[id].tenant == d.tenant)
    ensures KeysOk(keys, devices[id := d])
  {
  }

  lemma GetOrInsertDeviceKeeps(db: Db, id: string, tenant: int, device: Device)
    requires Consistent(db)
    ensures Consistent(GetOrInsertDevice(db, id, tenant, device).0)
  {
    hide OwnersIn, NamesDistinct, KeysOk, TokensOk, EmailsDistinct, RulesOk, PackagesOk, SequencesOk, TenantsOk;
    if tenant in db.tenants && id !in db.devices && !DeviceNameTaken(db, tenant, device.name) {
      forall k | k in db.devices ensures db.devices[k].tenant == tenant ==> db.devices[k].row.name != device.name {
        assert DeviceOf(db, k, tenant) <==> db.devices[k].tenant == tenant;
      }
      NewNameKeeps(db.devices, id, Owned(tenant, device));
      OwnersInWith(db.devices, db.tenants.Keys, id, Owned(tenant, device));
      PutDeviceKeeps(db.apiKeys, db.devices, id, Owned(tenant, device));
    }
  }

  lemma OwnerExists<K, T>(table: map<K, Owned<T>>, ids: set<int>, k: K)
    requires OwnersIn(table, ids) && k in table
    ensures table[k].tenant in ids
  {
  }

  lemma UpdateDeviceFieldsKeeps(db: Db, id: string, tenant: int, swVersion: Option<string>, location: Option<string>)
    requires Consistent(db)
    ensures Consistent(UpdateDeviceFields(db, id, tenant, swVersion, location).0)
  {
    hide OwnersIn, NamesDistinct, KeysOk, TokensOk, EmailsDistinct, RulesOk, PackagesOk, SequencesOk, TenantsOk;
    var (after, ok) := UpdateDeviceFields(db, id, tenant, swVersion, location);
    if ok {
      OwnerExists(db.devices, db.tenants.Keys, id);
      SameNameKeeps(db.devices, id, after.devices[id]);
      OwnersInWith(db.devices, db.tenants.Keys, id, after.devices[id]);
      PutDeviceKeeps(db.apiKeys, db.devices, id, after.devices[id]);
    }
  }

  lemma DropDeviceKeeps(keys: map<string, Owned<ApiKey>>, devices: map<string, Owned<Device>>, ids: set<int>,
      id: string)
    requires KeysOk(keys, devices) && OwnersIn(keys, ids) && OwnersIn(devices, ids)
    ensures OwnersIn(devices - {id}, ids) && OwnersIn(KeysOfDevices(keys, devices - {id}), ids)
    ensures KeysOk(KeysOfDevices(keys, devices - {id}), devices - {id})
  {
  }

  lemma DeleteDeviceKeeps(db: Db, id: string, tenant: int)
    requires Consistent(db)
    ensures Consistent(DeleteDevice(db, id, tenant).0)
  {
    hide OwnersIn, NamesDistinct, KeysOk, TokensOk, EmailsDistinct, RulesOk, PackagesOk, SequencesOk, TenantsOk;
    FewerNamesKeep(db.devices, id);
    DropDeviceKeeps(db.apiKeys, db.devices, db.tenants.Keys, id);
  }

  lemma PutKeyKeeps(keys: map<string, Owned<ApiKey>>, devices: map<string, Owned<Device>>, key: string,
      row: Owned<ApiKey>)
    requires KeysOk(keys, devices) && key !in keys
    requires row.row.device in devices && devices[row.row.device].tenant == row.tenant
    requires forall k :: k in keys ==> keys[k].row.device != row.row.device
    ensures KeysOk(keys[key := row], devices)
  {
  }

  lemma GetOrInsertAPIKeyKeeps(db: Db, key: string, tenant: int, device: string, active: bool)
    requires Consistent(db)
    ensures Consistent(GetOrInsertAPIKey(db, key, tenant, device, active).0)
  {
    hide OwnersIn, NamesDistinct, KeysOk, TokensOk, EmailsDistinct, RulesOk, PackagesOk, SequencesOk, TenantsOk;
    if DeviceOf(db, device, tenant) && !HasKey(db, device) && key !in db.apiKeys {
      OwnerExists(db.devices, db.tenants.Keys, device);
      OwnersInWith(db.apiKeys, db.tenants.Keys, key, Owned(tenant, ApiKey(device, active)));
      PutKeyKeeps(db.apiKeys, db.devices, key, Owned(tenant, ApiKey(device, active)));
    }
  }

  lemma DropKeyKeeps(keys: map<string, Owned<ApiKey>>, devices: map<string, Owned<Device>>, ids: set<int>, key: string)
    requires KeysOk(keys, devices) && OwnersIn(keys, ids)
    ensures KeysOk(keys - {key}, devices) && OwnersIn(keys - {key}, ids)
  {
  }

  lemma DeleteAPIKeyKeeps(db: Db, key: string)
    requires Consistent(db)
    ensures Consistent(DeleteAPIKey(db, key).0)
  {
    hide OwnersIn, NamesDistinct, KeysOk, TokensOk, EmailsDistinct, RulesOk, PackagesOk, SequencesOk, TenantsOk;
    DropKeyKeeps(db.apiKeys, db.devices, db.tenants.Keys, key);
  }

  lemma PutPackageKeeps(table: map<int, Package>, next: int, p: Package)
    requires PackagesOk(table, next)
    ensures PackagesOk(PutPackage(table, next, p).0, PutPackage(table, next, p).1)
  {
  }

  lemma WithoutVersionKeeps(table: map<int, Package>, next: int, version: string)
    requires PackagesOk(table, next)
    ensures PackagesOk(WithoutVersion(table, version), next)
  {
  }

  lemma InsertHndrSwKeeps(db: Db, p: Package)
    requires Consistent(db)
    ensures Consistent(InsertHndrSw(db, p).0)
  {
    hide OwnersIn, NamesDistinct, KeysOk, TokensOk, EmailsDistinct, RulesOk, PackagesOk, SequencesOk, TenantsOk,
      PutPackage, WithoutVersion, PutRulesPackage, WithoutRules;
    PutPackageKeeps(db.software, db.nextSoftwareId, p);
  }

  lemma InsertThreatIntelKeeps(db: Db, p: Package)
    requires Consistent(db)
    ensures Consistent(InsertThreatIntel(db, p).0)
  {
    hide OwnersIn, NamesDistinct, KeysOk, TokensOk, EmailsDistinct, RulesOk, PackagesOk, SequencesOk, TenantsOk,
      PutPackage, WithoutVersion, PutRulesPackage, WithoutRules;
    PutPackageKeeps(db.threatIntel, db.nextThreatIntelId, p);
  }

  lemma DeleteHndrSwKeeps(db: Db, version: string)
    requires Consistent(db)
    ensures Consistent(DeleteHndrSw(db, version))
  {
    hide OwnersIn, NamesDistinct, KeysOk, TokensOk, EmailsDistinct, RulesOk, PackagesOk, SequencesOk, TenantsOk,
      PutPackage, WithoutVersion, PutRulesPackage, WithoutRules;
    WithoutVersionKeeps(db.software, db.nextSoftwareId, version);
  }

  lemma DeleteThreatIntelKeeps(db: Db, version: string)
    requires Consistent(db)
    ensures Consistent(DeleteThreatIntel(db, version))
  {
    hide OwnersIn, NamesDistinct, KeysOk, TokensOk, EmailsDistinct, RulesOk, PackagesOk, SequencesOk, TenantsOk,
      PutPackage, WithoutVersion, PutRulesPackage, WithoutRules;
    WithoutVersionKeeps(db.threatIntel, db.nextThreatIntelId, version);
  }

  lemma PutRulesPackageKeeps(table: map<int, Owned<Package>>, next: int, tenant: int, p: Package, ids: set<int>)
    requires RulesOk(table, next) && OwnersIn(table, ids) && tenant in ids
    ensures var (after, newNext) := PutRulesPackage(table, next, tenant, p);
      RulesOk(after, newNext) && OwnersIn(after, ids)
  {
  }

  lemma WithoutRulesKeeps(table: map<int, Owned<Package>>, next: int, tenant: int, version: string, ids: set<int>)
    requires RulesOk(table, next) && OwnersIn(table, ids)
    ensures RulesOk(WithoutRules(table, tenant, version), next) && OwnersIn(WithoutRules(table, tenant, version), ids)
  {
  }

  lemma InsertHndrRulesKeeps(db: Db, tenant: int, p: Package)
    requires Consistent(db)
    ensures Consistent(InsertHndrRules(db, tenant, p).0)
  {
    hide OwnersIn, NamesDistinct, KeysOk, TokensOk, EmailsDistinct, RulesOk, PackagesOk, SequencesOk, TenantsOk,
      PutPackage, WithoutVersion, PutRulesPackage, WithoutRules;
    if tenant in db.tenants {
      PutRulesPackageKeeps(db.rules, db.nextRulesId, tenant, p, db.tenants.Keys);
    }
  }

  lemma DeleteHndrRulesKeeps(db: Db, tenant: int, version: string)
    requires Consistent(db)
    ensures Consistent(DeleteHndrRules(db, tenant, version))
  {
    hide OwnersIn, NamesDistinct, KeysOk, TokensOk, EmailsDistinct, RulesOk, PackagesOk, SequencesOk, TenantsOk,
      PutPackage, WithoutVersion, PutRulesPackage, WithoutRules;
    WithoutRulesKeeps(db.rules, db.nextRulesId, tenant, version, db.tenants.Keys);
  }

  lemma PutReportKeeps(table: map<string, Owned<Report>>, device: string, tenant: int, r: Report, ids: set<int>)
    requires OwnersIn(table, ids) && tenant in ids
    ensures PutReport(table, device, tenant, r).Some? ==> OwnersIn(PutReport(table, device, tenant, r).value, ids)
  {
  }

  lemma InsertVersionsKeeps(db: Db, device: string, tenant: int, r: Report)
    requires Consistent(db)
    ensures Consistent(InsertVersions(db, device, tenant, r).0)
  {
    hide OwnersIn, NamesDistinct, KeysOk, TokensOk, EmailsDistinct, RulesOk, PackagesOk, SequencesOk, TenantsOk,
      PutReport;
    if DeviceOf(db, device, tenant) {
      OwnerExists(db.devices, db.tenants.Keys, device);
      PutReportKeeps(db.versions, device, tenant, r, db.tenants.Keys);
    }
  }

  lemma InsertStatusKeeps(db: Db, device: string, tenant: int, r: Report)
    requires Consistent(db)
    ensures Consistent(InsertStatus(db, device, tenant, r).0)
  {
    hide OwnersIn, NamesDistinct, KeysOk, TokensOk, EmailsDistinct, RulesOk, PackagesOk, SequencesOk, TenantsOk,
      PutReport;
    if DeviceOf(db, device, tenant) {
      OwnerExists(db.devices, db.tenants.Keys, device);
      PutReportKeeps(db.status, device, tenant, r, db.tenants.Keys);
    }
  }

  lemma DeleteStatusKeeps(db: Db, device: string, tenant: int)
    requires Consistent(db)
    ensures Consistent(DeleteStatus(db, device, tenant).0)
  {
    hide OwnersIn, NamesDistinct, KeysOk, TokensOk, EmailsDistinct, RulesOk, PackagesOk, SequencesOk, TenantsOk;
    OwnersInPart(db.status - {device}, db.status, db.tenants.Keys);
  }

  lemma LowerTwice(s: string)
    ensures Lower(Lower(s)) == Lower(s)
  {
  }

  lemma InsertEmailKeeps(users: map<string, Owned<User>>, id: string, u: Owned<User>, email: string)
    requires EmailsDistinct(users) && id !in users && u.row.email == Lower(email)
    requires forall k :: k in users ==> Lower(users[k].row.email) != Lower(email)
    ensures EmailsDistinct(users[id := u])
  {
    LowerTwice(email);
  }

  lemma TokensOkMore(tokens: map<TokenHash, RefreshToken>, users: set<string>, more: set<string>)
    requires TokensOk(tokens, users) && users <= more
    ensures TokensOk(tokens, more)
  {
  }

  lemma InsertUserKeeps(db: Db, id: string, tenant: int, email: string, hash: PasswordHash, role: Role)
    requires Consistent(db)
    ensures Consistent(InsertUser(db, id, tenant, email, hash, role).0)
  {
    hide OwnersIn, NamesDistinct, KeysOk, TokensOk, EmailsDistinct, RulesOk, PackagesOk, SequencesOk, TenantsOk;
    var (after, ok) := InsertUser(db, id, tenant, email, hash, role);
    if ok {
      OwnersInWith(db.users, db.tenants.Keys, id, after.users[id]);
      TokensOkMore(db.tokens, db.users.Keys, after.users.Keys);
      InsertEmailKeeps(db.users, id, after.users[id], email);
    }
  }

  lemma DeleteUserKeeps(db: Db, user: string, tenant: int)
    requires Consistent(db)
    ensures Consistent(DeleteUser(db, user, tenant).0)
  {
    hide OwnersIn, NamesDistinct, KeysOk, TokensOk, EmailsDistinct, RulesOk, PackagesOk, SequencesOk, TenantsOk;
    var users := db.users - {user};
    OwnersInPart(users, db.users, db.tenants.Keys);
    EmailsDistinctInPart(users, db.users);
    TokensOfUsersOk(db.tokens, users);
  }

  /** Changing columns of a user other than its tenant and email. */
  lemma WithUserKeeps(db: Db, user: string, row: User)
    requires Consistent(db) && (user in db.users ==> row.email == db.users[user].row.email)
    ensures Consistent(WithUser(db, user, row))
  {
    hide OwnersIn, NamesDistinct, KeysOk, TokensOk, EmailsDistinct, RulesOk, PackagesOk, SequencesOk, TenantsOk;
    if user in db.users {
      var users := WithUser(db, user, row).users;
      OwnersInPart(users, db.users, db.tenants.Keys);
      EmailsDistinctInPart(users, db.users);
      TokensOkMore(db.tokens, db.users.Keys, users.Keys);
    }
  }

  lemma PutTokenKeeps(tokens: map<TokenHash, RefreshToken>, users: set<string>, h: TokenHash, t: RefreshToken)
    requires TokensOk(tokens, users) && t.user in users
    ensures TokensOk(tokens[h := t], users)
  {
  }

  lemma RevokedKeeps(tokens: map<TokenHash, RefreshToken>, users: set<string>, user: string, now: Time)
    requires TokensOk(tokens, users)
    ensures TokensOk(Revoked(tokens, user, now), users)
  {
  }

  lemma InsertRefreshTokenKeeps(db: Db, user: string, raw: string, expiresAt: Time)
    requires Consistent(db)
    ensures Consistent(InsertRefreshToken(db, user, raw, expiresAt).0)
  {
    hide OwnersIn, NamesDistinct, KeysOk, TokensOk, EmailsDistinct, RulesOk, PackagesOk, SequencesOk, TenantsOk;
    if user in db.users {
      PutTokenKeeps(db.tokens, db.users.Keys, HashOf(raw), RefreshToken(user, expiresAt, false));
    }
  }

  lemma RevokeRefreshTokensKeeps(db: Db, user: string, now: Time)
    requires Consistent(db)
    ensures Consistent(RevokeRefreshTokens(db, user, now))
  {
    hide OwnersIn, NamesDistinct, KeysOk, TokensOk, EmailsDistinct, RulesOk, PackagesOk, SequencesOk, TenantsOk,
      Revoked;
    RevokedKeeps(db.tokens, db.users.Keys, user, now);
  }

  // ----- Reports --------------------------------------------------------------------

  /** A stored report shows in the row, text by text, where it says something; what it leaves empty stays, and
      reporting the same again changes nothing. */
  lemma ReportShows(db: Db, device: string, tenant: int, r: Report)
    requires InsertVersions(db, device, tenant, r).1
    ensures var after := InsertVersions(db, device, tenant, r).0;
      && device in after.versions && after.versions[device].tenant == tenant
      && var row := after.versions[device].row;
      && (r.software != "" ==> row.software == r.software)
      && (r.rules != "" ==> row.rules == r.rules)
      && (r.threatIntel != "" ==> row.threatIntel == r.threatIntel)
      && (r == Report("", "", "") && device in db.versions ==> row == db.versions[device].row)
      && InsertVersions(after, device, tenant, r) == (after, true)
  {
    hide SameAccounts;
    var after := InsertVersions(db, device, tenant, r).0;
    assert after.versions[device := after.versions[device]] == after.versions;
  }

  // ----- Asking again ---------------------------------------------------------------

  /** Whoever asks again for a device of the same name, a key of the same device or a tenant of the same name gets the
      same answer, and nothing is inserted a second time. */
  lemma DeviceAskedAgain(db: Db, id: string, tenant: int, device: Device, id2: string, device2: Device)
    requires Consistent(db) && GetOrInsertDevice(db, id, tenant, device).1.Some?
    requires device2.name == device.name && |device2.location| <= MAX_LOCATION_LEN
    ensures var (after, r) := GetOrInsertDevice(db, id, tenant, device);
      && DeviceOf(after, r.value, tenant) && after.devices[r.value].row.name == device.name
      && GetOrInsertDevice(after, id2, tenant, device2) == (after, r)
  {
    hide Consistent, GetOrInsertDevice, DeviceOf;
    GetOrInsertDeviceKeeps(db, id, tenant, device);
    DeviceAnswered(db, id, tenant, device);
    var (after, r) := GetOrInsertDevice(db, id, tenant, device);
    NamedDeviceAnswered(after, r.value, tenant, id2, device2);
  }

  lemma DeviceAnswered(db: Db, id: string, tenant: int, device: Device)
    requires GetOrInsertDevice(db, id, tenant, device).1.Some?
    ensures 1 <= |device.name| <= MAX_DEVICE_NAME_LEN
    ensures var (after, r) := GetOrInsertDevice(db, id, tenant, device);
      tenant in after.tenants && DeviceOf(after, r.value, tenant) && after.devices[r.value].row.name == device.name
  {
    hide SameAccounts;
    if !DeviceNameTaken(db, tenant, device.name) {
      assert GetOrInsertDevice(db, id, tenant, device).0.devices == db.devices[id := Owned(tenant, device)];
    }
  }

  lemma NamedDeviceAnswered(db: Db, d: string, tenant: int, id: string, device: Device)
    requires Consistent(db) && tenant in db.tenants && DeviceOf(db, d, tenant) && db.devices[d].row.name == device.name
    requires 1 <= |device.name| <= MAX_DEVICE_NAME_LEN && |device.location| <= MAX_LOCATION_LEN
    ensures GetOrInsertDevice(db, id, tenant, device) == (db, Some(d))
  {
    hide Consistent;
    assert DeviceNameTaken(db, tenant, device.name);
    OneDeviceOfName(db, tenant, d, GetOrInsertDevice(db, id, tenant, device).1.value);
  }

  lemma OneDeviceOfName(db: Db, tenant: int, a: string, b: string)
    requires Consistent(db) && DeviceOf(db, a, tenant) && DeviceOf(db, b, tenant)
      && db.devices[a].row.name == db.devices[b].row.name
    ensures a == b
  {
    hide TenantsOk, OwnersIn, KeysOk, TokensOk, EmailsDistinct, RulesOk, PackagesOk, SequencesOk;
  }

  lemma KeyAskedAgain(db: Db, key: string, tenant: int, device: string, active: bool, key2: string, active2: bool)
    requires Consistent(db) && GetOrInsertAPIKey(db, key, tenant, device, active).1.Some?
    ensures var (after, r) := GetOrInsertAPIKey(db, key, tenant, device, active);
      && r.value in after.apiKeys && after.apiKeys[r.value].row.device == device
        && after.apiKeys[r.value].tenant == tenant
      && GetOrInsertAPIKey(after, key2, tenant, device, active2) == (after, r)
  {
    hide Consistent;
    GetOrInsertAPIKeyKeeps(db, key, tenant, device, active);
    var (after, r) := GetOrInsertAPIKey(db, key, tenant, device, active);
    assert r.value in after.apiKeys && after.apiKeys[r.value].row.device == device;
    var again := GetOrInsertAPIKey(after, key2, tenant, device, active2).1;
    OneKeyOfDevice(after, device, r.value, again.value);
  }

  lemma OneKeyOfDevice(db: Db, device: string, a: string, b: string)
    requires Consistent(db) && a in db.apiKeys && b in db.apiKeys
      && db.apiKeys[a].row.device == device == db.apiKeys[b].row.device
    ensures a == b && device in db.devices && db.apiKeys[a].tenant == db.devices[device].tenant
  {
    hide TenantsOk, OwnersIn, NamesDistinct, TokensOk, EmailsDistinct, RulesOk, PackagesOk, SequencesOk;
  }

  lemma TenantAskedAgain(db: Db, environment: string, name: string, environment2: string)
    requires Consistent(db) && GetOrInsertTenant(db, environment, name).1.Some?
    ensures var (after, r) := GetOrInsertTenant(db, environment, name);
      GetOrInsertTenant(after, environment2, name) == (after, r)
  {
    hide Consistent, NextValue, TenantRowOk;
    GetOrInsertTenantKeeps(db, environment, name);
    var (after, r) := GetOrInsertTenant(db, environment, name);
    assert r.value in after.tenants && after.tenants[r.value].name == name;
    assert NameTaken(after, name);
    OneTenantOfName(after, r.value, TenantNamed(after, name));
  }

  lemma OneTenantOfName(db: Db, a: int, b: int)
    requires Consistent(db) && a in db.tenants && b in db.tenants && db.tenants[a].name == db.tenants[b].name
    ensures a == b
  {
    hide OwnersIn, NamesDistinct, KeysOk, TokensOk, EmailsDistinct, RulesOk, PackagesOk, SequencesOk;
  }
}
