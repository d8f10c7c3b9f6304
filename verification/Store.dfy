/** The database handle: one field per table, and the helpers that query and change them. */
module Store {
  import opened Tables
  import opened Schema
  import D = DbUtil

  class Database {
    var tenants: map<int, Tenant>
    var devices: map<string, Owned<Device>>
    var apiKeys: map<string, Owned<ApiKey>>
    var rules: map<int, Owned<Package>>
    var status: map<string, Owned<Report>>
    var versions: map<string, Owned<Report>>
    var users: map<string, Owned<User>>
    var tokens: map<TokenHash, RefreshToken>
    var software: map<int, Package>
    var threatIntel: map<int, Package>
    var sequences: map<string, int>
    var nextRulesId: int
    var nextSoftwareId: int
    var nextThreatIntelId: int

    /** The tables as one value. */
    function Snapshot(): Db
      reads this
    {
      Db(tenants, devices, apiKeys, rules, status, versions, users, tokens, software, threatIntel,
         sequences, nextRulesId, nextSoftwareId, nextThreatIntelId)
    }

    constructor ()
      ensures Snapshot() == EMPTY_DB
    {
      tenants, devices, apiKeys, rules, status, versions := map[], map[], map[], map[], map[], map[];
      users, tokens, software, threatIntel := map[], map[], map[], map[];
      sequences := EMPTY_SEQUENCES;
      nextRulesId, nextSoftwareId, nextThreatIntelId := 1, 1, 1;
    }

    // ----- Tenants ------------------------------------------------------------------

    method GetNextTenantID(environment: string) returns (id: Option<int>)
      modifies this`sequences
      ensures (Snapshot(), id) == D.NextValue(old(Snapshot()), SequenceName(environment))
    {
      var name := SequenceName(environment);
      if name !in sequences || SequenceRange(name).None? {
        return None;
      }
      var next := sequences[name];
      if next > SequenceRange(name).value.endId {
        return None;
      }
      sequences := sequences[name := next + 1];
      return Some(next);
    }

    method InsertTenantRow(id: int, name: string, environment: string) returns (ok: bool)
      modifies this`tenants
      ensures ok == D.CanInsertTenant(old(Snapshot()), id, Tenant(name, environment))
      ensures Snapshot() == D.InsertTenant(old(Snapshot()), id, Tenant(name, environment)).0
    {
      ok := id !in tenants && TenantRowOk(id, Tenant(name, environment))
            && forall t | t in tenants :: tenants[t].name != name;
      if ok {
        tenants := tenants[id := Tenant(name, environment)];
      }
    }

    method GetOrInsertTenant(environment: string, name: string) returns (r: Option<int>)
      requires Consistent(Snapshot())
      modifies this`sequences, this`tenants
      ensures (Snapshot(), r) == D.GetOrInsertTenant(old(Snapshot()), environment, name)
    {
      if !(1 <= |name| <= MAX_TENANT_NAME_LEN) {
        return None;
      }
      if t :| t in tenants && tenants[t].name == name {
        return Some(t);
      }
      var id := GetNextTenantID(environment);
      if id.None? {
        return None;
      }
      var ok := InsertTenantRow(id.value, name, environment);
      return if ok then id else None;
    }

    method InsertTenantWithSpecificID(environment: string, name: string, id: int) returns (r: Option<int>)
      modifies this`tenants
      ensures (Snapshot(), r) == D.InsertTenantWithSpecificID(old(Snapshot()), environment, name, id)
    {
      if !(1 <= |name| <= MAX_TENANT_NAME_LEN) {
        return None;
      }
      if BlockOf(environment).None? || !BlockOf(environment).value.Contains(id) {
        return None;
      }
      var ok := InsertTenantRow(id, name, environment);
      return if ok then Some(id) else None;
    }

    method DeleteTenant(id: int) returns (ok: bool)
      modifies this`tenants, this`devices, this`apiKeys, this`rules, this`status, this`versions, this`users, this`tokens
      ensures ok == (id in old(tenants))
      ensures ok ==> Snapshot() == WithoutTenant(old(Snapshot()), id)
      ensures !ok ==> Snapshot() == old(Snapshot())
    {
      if id !in tenants {
        return false;
      }
      CascadeFromTenant(id);
      tenants := tenants - {id};
      return true;
    }

    /** ON DELETE CASCADE of every reference to tenants, and of those to devices and users. */
    method CascadeFromTenant(id: int)
      modifies this`devices, this`apiKeys, this`rules, this`status, this`versions, this`users, this`tokens
      ensures devices == Without(old(devices), id)
      ensures apiKeys == KeysOfDevices(Without(old(apiKeys), id), devices)
      ensures rules == Without(old(rules), id)
      ensures status == Without(old(status), id)
      ensures versions == Without(old(versions), id)
      ensures users == Without(old(users), id)
      ensures tokens == TokensOfUsers(old(tokens), users)
    {
      devices := Without(devices, id);
      apiKeys := KeysOfDevices(Without(apiKeys, id), devices);
      rules := Without(rules, id);
      status := Without(status, id);
      versions := Without(versions, id);
      users := Without(users, id);
      tokens := TokensOfUsers(tokens, users);
    }

    // ----- Devices and keys ---------------------------------------------------------

    method GetOrInsertDevice(id: string, tenant: int, device: Device) returns (r: Option<string>)
      requires Consistent(Snapshot())
      modifies this`devices
      ensures (Snapshot(), r) == D.GetOrInsertDevice(old(Snapshot()), id, tenant, device)
    {
      hide Consistent;
      if !(1 <= |device.name| <= D.MAX_DEVICE_NAME_LEN) || |device.location| > D.MAX_LOCATION_LEN {
        return None;
      }
      if tenant !in tenants {
        return None;
      }
      if d :| d in devices && devices[d].tenant == tenant && devices[d].row.name == device.name {
        assert D.DeviceOf(Snapshot(), d, tenant);
        D.OneDeviceOfName(Snapshot(), tenant, d, D.GetOrInsertDevice(Snapshot(), id, tenant, device).1.value);
        return Some(d);
      }
      if id in devices {
        return None;
      }
      devices := devices[id := Owned(tenant, device)];
      return Some(id);
    }

    method UpdateDeviceFields(id: string, tenant: int, swVersion: Option<string>,
        location: Option<string>) returns (ok: bool)
      modifies this`devices
      ensures (Snapshot(), ok) == D.UpdateDeviceFields(old(Snapshot()), id, tenant, swVersion, location)
    {
      if swVersion.None? && location.None? {
        return false;
      }
      if location.Some? && |location.value| > D.MAX_LOCATION_LEN {
        return false;
      }
      if id !in devices || devices[id].tenant != tenant {
        return false;
      }
      var row := devices[id].row;
      if swVersion.Some? {
        row := row.(swVersion := swVersion.value);
      }
      if location.Some? {
        row := row.(location := location.value);
      }
      devices := devices[id := Owned(tenant, row)];
      return true;
    }

    method DeleteDevice(id: string, tenant: int) returns (ok: bool)
      modifies this`devices, this`apiKeys
      ensures (Snapshot(), ok) == D.DeleteDevice(old(Snapshot()), id, tenant)
    {
      if id !in devices || devices[id].tenant != tenant {
        return false;
      }
      devices := devices - {id};
      apiKeys := KeysOfDevices(apiKeys, devices);
      return true;
    }

    method GetOrInsertAPIKey(key: string, tenant: int, device: string, active: bool) returns (r: Option<string>)
      requires Consistent(Snapshot())
      modifies this`apiKeys
      ensures (Snapshot(), r) == D.GetOrInsertAPIKey(old(Snapshot()), key, tenant, device, active)
    {
      hide Consistent;
      if device == "" || device !in devices || devices[device].tenant != tenant {
        return None;
      }
      if k :| k in apiKeys && apiKeys[k].row.device == device {
        D.OneKeyOfDevice(Snapshot(), device, k, D.GetOrInsertAPIKey(Snapshot(), key, tenant, device, active).1.value);
        return Some(k);
      }
      if key in apiKeys {
        return None;
      }
      apiKeys := apiKeys[key := Owned(tenant, ApiKey(device, active))];
      return Some(key);
    }

    /** The row of an API key: (is_active, tenant_id, device_id). */
    method ValidateAPIKey(key: string) returns (r: Option<Owned<ApiKey>>)
      ensures r == if key in apiKeys then Some(apiKeys[key]) else None
    {
      if key in apiKeys {
        return Some(apiKeys[key]);
      }
      return None;
    }

    method DeleteAPIKey(key: string) returns (ok: bool)
      modifies this`apiKeys
      ensures (Snapshot(), ok) == D.DeleteAPIKey(old(Snapshot()), key)
    {
      ok := key in apiKeys;
      apiKeys := apiKeys - {key};
    }

    // ----- Catalog and reports ------------------------------------------------------

    method InsertHndrSw(p: Package) returns (ok: bool)
      requires PackagesOk(software, nextSoftwareId)
      modifies this`software, this`nextSoftwareId
      ensures (Snapshot(), ok) == D.InsertHndrSw(old(Snapshot()), p)
    {
      if p.version == "" || p.digest == NoDigest || p.size <= 0 {
        return false;
      }
      if a :| a in software && software[a].version == p.version {
        assert a == D.IdOfVersion(software, p.version);
        if software[a].digest != p.digest {
          software := software[a := p];
        }
        return true;
      }
      software := software[nextSoftwareId := p];
      nextSoftwareId := nextSoftwareId + 1;
      return true;
    }

    method InsertThreatIntel(p: Package) returns (ok: bool)
      requires PackagesOk(threatIntel, nextThreatIntelId)
      modifies this`threatIntel, this`nextThreatIntelId
      ensures (Snapshot(), ok) == D.InsertThreatIntel(old(Snapshot()), p)
    {
      if p.version == "" || p.digest == NoDigest || p.size <= 0 {
        return false;
      }
      if a :| a in threatIntel && threatIntel[a].version == p.version {
        assert a == D.IdOfVersion(threatIntel, p.version);
        if threatIntel[a].digest != p.digest {
          threatIntel := threatIntel[a := p];
        }
        return true;
      }
      threatIntel := threatIntel[nextThreatIntelId := p];
      nextThreatIntelId := nextThreatIntelId + 1;
      return true;
    }

    method InsertHndrRules(tenant: int, p: Package) returns (ok: bool)
      requires RulesOk(rules, nextRulesId)
      modifies this`rules, this`nextRulesId
      ensures (Snapshot(), ok) == D.InsertHndrRules(old(Snapshot()), tenant, p)
    {
      if p.version == "" || p.digest == NoDigest || p.size <= 0 || tenant !in tenants {
        return false;
      }
      if a :| a in rules && rules[a].tenant == tenant && rules[a].row.version == p.version {
        assert a == D.IdOfRules(rules, tenant, p.version);
        if rules[a].row.digest != p.digest {
          rules := rules[a := Owned(tenant, p)];
        }
        return true;
      }
      rules := rules[nextRulesId := Owned(tenant, p)];
      nextRulesId := nextRulesId + 1;
      return true;
    }

    method DeleteHndrSw(version: string) returns (ok: bool)
      modifies this`software
      ensures Snapshot() == D.DeleteHndrSw(old(Snapshot()), version)
      ensures ok <==> D.HasVersion(old(software), version)
    {
      ok := exists a | a in software :: software[a].version == version;
      software := D.WithoutVersion(software, version);
    }

    method DeleteThreatIntel(version: string) returns (ok: bool)
      modifies this`threatIntel
      ensures Snapshot() == D.DeleteThreatIntel(old(Snapshot()), version)
      ensures ok <==> D.HasVersion(old(threatIntel), version)
    {
      ok := exists a | a in threatIntel :: threatIntel[a].version == version;
      threatIntel := D.WithoutVersion(threatIntel, version);
    }

    method DeleteHndrRules(tenant: int, version: string) returns (ok: bool)
      modifies this`rules
      ensures Snapshot() == D.DeleteHndrRules(old(Snapshot()), tenant, version)
      ensures ok <==> D.HasRules(old(rules), tenant, version)
    {
      ok := exists a | a in rules :: rules[a].tenant == tenant && rules[a].row.version == version;
      rules := D.WithoutRules(rules, tenant, version);
    }

    method InsertStatus(device: string, tenant: int, r: Report) returns (ok: bool)
      modifies this`status
      ensures (Snapshot(), ok) == D.InsertStatus(old(Snapshot()), device, tenant, r)
    {
      if r.software == "" && r.rules == "" && r.threatIntel == "" {
        return false;
      }
      if device !in devices || devices[device].tenant != tenant {
        return false;
      }
      if device !in status {
        status := status[device := Owned(tenant, r)];
        return true;
      }
      if status[device].tenant != tenant {
        return false;
      }
      var row := status[device].row;
      if r.software != "" {
        row := row.(software := r.software);
      }
      if r.rules != "" {
        row := row.(rules := r.rules);
      }
      if r.threatIntel != "" {
        row := row.(threatIntel := r.threatIntel);
      }
      status := status[device := Owned(tenant, row)];
      return true;
    }

    method DeleteStatus(device: string, tenant: int) returns (ok: bool)
      modifies this`status
      ensures (Snapshot(), ok) == D.DeleteStatus(old(Snapshot()), device, tenant)
    {
      if device !in devices || devices[device].tenant != tenant {
        return false;
      }
      if device !in status || status[device].tenant != tenant {
        return false;
      }
      status := status - {device};
      return true;
    }

    method InsertVersions(device: string, tenant: int, r: Report) returns (ok: bool)
      modifies this`versions
      ensures (Snapshot(), ok) == D.InsertVersions(old(Snapshot()), device, tenant, r)
    {
      if device !in devices || devices[device].tenant != tenant {
        return false;
      }
      if device !in versions {
        versions := versions[device := Owned(tenant, r)];
        return true;
      }
      if versions[device].tenant != tenant {
        return false;
      }
      var row := versions[device].row;
      if r.software != "" {
        row := row.(software := r.software);
      }
      if r.rules != "" {
        row := row.(rules := r.rules);
      }
      if r.threatIntel != "" {
        row := row.(threatIntel := r.threatIntel);
      }
      versions := versions[device := Owned(tenant, row)];
      return true;
    }

    // ----- Users, lockout and refresh tokens ----------------------------------------

    method InsertUser(id: string, tenant: int, email: string, hash: PasswordHash, role: Role) returns (ok: bool)
      modifies this`users
      ensures (Snapshot(), ok) == D.InsertUser(old(Snapshot()), id, tenant, email, hash, role)
    {
      var taken := exists u | u in users :: Lower(users[u].row.email) == Lower(email);
      if tenant !in tenants || taken || id in users {
        return false;
      }
      users := users[id := Owned(tenant, User(Lower(email), hash, role, true, 0, None))];
      return true;
    }

    method DeleteUser(user: string, tenant: int) returns (ok: bool)
      modifies this`users, this`tokens
      ensures (Snapshot(), ok) == D.DeleteUser(old(Snapshot()), user, tenant)
    {
      if user !in users || users[user].tenant != tenant {
        return false;
      }
      users := users - {user};
      tokens := TokensOfUsers(tokens, users);
      return true;
    }

    method DeactivateUser(user: string, tenant: int) returns (ok: bool)
      modifies this`users
      ensures (Snapshot(), ok) == D.DeactivateUser(old(Snapshot()), user, tenant)
    {
      if user !in users || users[user].tenant != tenant {
        return false;
      }
      users := users[user := Owned(tenant, users[user].row.(isActive := false))];
      return true;
    }

    method ResetUserPassword(user: string, tenant: int, hash: PasswordHash) returns (ok: bool)
      modifies this`users
      ensures (Snapshot(), ok) == D.ResetUserPassword(old(Snapshot()), user, tenant, hash)
    {
      if user !in users || users[user].tenant != tenant {
        return false;
      }
      users := users[user := Owned(tenant, users[user].row.(passwordHash := hash))];
      return true;
    }

    method RecordFailedAttempt(user: string, now: Time)
      modifies this`users
      ensures Snapshot() == D.RecordFailedAttempt(old(Snapshot()), user, now)
    {
      if user in users {
        var row := users[user].row;
        var failures := row.failedAttempts + 1;
        var until := if failures >= D.LOCKOUT_THRESHOLD then Some(now + D.LOCKOUT_DURATION) else row.lockoutUntil;
        users := users[user := users[user].(row := row.(failedAttempts := failures, lockoutUntil := until))];
      }
    }

    method ClearLockout(user: string)
      modifies this`users
      ensures Snapshot() == D.ClearLockout(old(Snapshot()), user)
    {
      if user in users {
        users := users[user := users[user].(row := users[user].row.(failedAttempts := 0, lockoutUntil := None))];
      }
    }

    method InsertRefreshToken(user: string, raw: string, expiresAt: Time) returns (ok: bool)
      modifies this`tokens
      ensures (Snapshot(), ok) == D.InsertRefreshToken(old(Snapshot()), user, raw, expiresAt)
    {
      if user !in users || HashOf(raw) in tokens {
        return false;
      }
      tokens := tokens[HashOf(raw) := RefreshToken(user, expiresAt, false)];
      return true;
    }

    method RevokeRefreshTokens(user: string, now: Time)
      modifies this`tokens
      ensures Snapshot() == D.RevokeRefreshTokens(old(Snapshot()), user, now)
    {
      tokens := D.Revoked(tokens, user, now);
    }

    // ----- Lists --------------------------------------------------------------------

    /** The ids of the users of a tenant, each once; of all users when the tenant is 0. */
    method ListUsers(tenant: int) returns (rows: seq<string>)
      ensures forall u :: u in rows <==> u in D.ListedUsers(users, tenant)
      ensures forall i, j :: 0 <= i < j < |rows| ==> rows[i] != rows[j]
    {
      rows := [];
      var left := users.Keys;
      while left != {}
        invariant left <= users.Keys
        invariant forall u :: u in rows <==> u in users && u !in left && (tenant == 0 || users[u].tenant == tenant)
        invariant forall i, j :: 0 <= i < j < |rows| ==> rows[i] != rows[j]
        decreases left
      {
        var u :| u in left;
        left := left - {u};
        if tenant == 0 || users[u].tenant == tenant {
          rows := rows + [u];
        }
      }
    }

    /** The ids of the devices of a tenant, each once; of all devices when the tenant is not positive. */
    method ListDevices(tenant: int) returns (rows: seq<string>)
      ensures forall d :: d in rows <==> d in D.ListedDevices(devices, tenant)
      ensures forall i, j :: 0 <= i < j < |rows| ==> rows[i] != rows[j]
    {
      rows := [];
      var left := devices.Keys;
      while left != {}
        invariant left <= devices.Keys
        invariant forall d :: d in rows <==> d in devices && d !in left && (tenant <= 0 || devices[d].tenant == tenant)
        invariant forall i, j :: 0 <= i < j < |rows| ==> rows[i] != rows[j]
        decreases left
      {
        var d :| d in left;
        left := left - {d};
        if tenant <= 0 || devices[d].tenant == tenant {
          rows := rows + [d];
        }
      }
    }
  }
}
