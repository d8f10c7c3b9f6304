/** Every operation that changes the tables, and the invariant all of them keep. */
module Operations {
  import opened Tables
  import opened Schema
  import opened Text
  import D = DbUtil
  import M = Migration

  datatype TenantOp =
    | AddTenant(environment: string, name: string)
    | AddTenantWithId(environment: string, name: string, id: int)
    | DropTenant(id: int)
    | MoveTenant(idText: string, target: string, run: bool, failsAt: nat)

  datatype FleetOp =
    | AddDevice(device: string, tenant: int, deviceRow: Device)
    | ChangeDevice(device: string, tenant: int, swVersion: Option<string>, location: Option<string>)
    | DropDevice(device: string, tenant: int)
    | AddKey(key: string, tenant: int, device: string, active: bool)
    | DropKey(key: string)

  datatype CatalogOp =
    | PutSoftware(package: Package)
    | DropSoftware(version: string)
    | PutRules(tenant: int, package: Package)
    | DropRules(tenant: int, version: string)
    | PutThreatIntel(package: Package)
    | DropThreatIntel(version: string)

  datatype ReportOp =
    | ReportVersions(device: string, tenant: int, report: Report)
    | ReportStatus(device: string, tenant: int, report: Report)
    | DropStatus(device: string, tenant: int)

  datatype UserOp =
    | AddUser(user: string, tenant: int, email: string, hash: PasswordHash, role: Role)
    | DropUser(user: string, tenant: int)
    | Deactivate(user: string, tenant: int)
    | SetPassword(user: string, tenant: int, hash: PasswordHash)

  datatype DbOp =
    | OnTenants(tenantOp: TenantOp)
    | OnFleet(fleetOp: FleetOp)
    | OnCatalog(catalogOp: CatalogOp)
    | OnReports(reportOp: ReportOp)
    | OnUsers(userOp: UserOp)

  /** The tenant id of a move is given in digits. */
  predicate WellFormed(op: DbOp) {
    op.OnTenants? && op.tenantOp.MoveTenant? ==> AllDigits(op.tenantOp.idText) && op.tenantOp.idText != ""
  }

  ghost function PerformOnTenants(db: Db, op: TenantOp): Db
    requires Consistent(db) && WellFormed(OnTenants(op))
  {
    match op
    case AddTenant(environment, name) => D.GetOrInsertTenant(db, environment, name).0
    case AddTenantWithId(environment, name, id) => D.InsertTenantWithSpecificID(db, environment, name, id).0
    case DropTenant(id) => if id in db.tenants then WithoutTenant(db, id) else db
    case MoveTenant(idText, target, run, failsAt) => M.AfterMove(db, idText, target, run, failsAt)
  }

  ghost function PerformOnFleet(db: Db, op: FleetOp): Db {
    match op
    case AddDevice(device, tenant, row) => D.GetOrInsertDevice(db, device, tenant, row).0
    case ChangeDevice(device, tenant, swVersion, location) => D.UpdateDeviceFields(db, device, tenant, swVersion,
      location).0
    case DropDevice(device, tenant) => D.DeleteDevice(db, device, tenant).0
    case AddKey(key, tenant, device, active) => D.GetOrInsertAPIKey(db, key, tenant, device, active).0
    case DropKey(key) => D.DeleteAPIKey(db, key).0
  }

  ghost function PerformOnCatalog(db: Db, op: CatalogOp): Db {
    match op
    case PutSoftware(package) => D.InsertHndrSw(db, package).0
    case DropSoftware(version) => D.DeleteHndrSw(db, version)
    case PutRules(tenant, package) => D.InsertHndrRules(db, tenant, package).0
    case DropRules(tenant, version) => D.DeleteHndrRules(db, tenant, version)
    case PutThreatIntel(package) => D.InsertThreatIntel(db, package).0
    case DropThreatIntel(version) => D.DeleteThreatIntel(db, version)
  }

  function PerformOnReports(db: Db, op: ReportOp): Db {
    match op
    case ReportVersions(device, tenant, report) => D.InsertVersions(db, device, tenant, report).0
    case ReportStatus(device, tenant, report) => D.InsertStatus(db, device, tenant, report).0
    case DropStatus(device, tenant) => D.DeleteStatus(db, device, tenant).0
  }

  ghost function PerformOnUsers(db: Db, op: UserOp): Db {
    match op
    case AddUser(user, tenant, email, hash, role) => D.InsertUser(db, user, tenant, email, hash, role).0
    case DropUser(user, tenant) => D.DeleteUser(db, user, tenant).0
    case Deactivate(user, tenant) => D.DeactivateUser(db, user, tenant).0
    case SetPassword(user, tenant, hash) => D.ResetUserPassword(db, user, tenant, hash).0
  }

  ghost function Perform(db: Db, op: DbOp): Db
    requires Consistent(db) && WellFormed(op)
  {
    match op
    case OnTenants(o) => PerformOnTenants(db, o)
    case OnFleet(o) => PerformOnFleet(db, o)
    case OnCatalog(o) => PerformOnCatalog(db, o)
    case OnReports(o) => PerformOnReports(db, o)
    case OnUsers(o) => PerformOnUsers(db, o)
  }

  /** The invariant: every operation, cascades and migration included, keeps the database consistent. */
  lemma PerformKeepsConsistent(db: Db, op: DbOp)
    requires Consistent(db) && WellFormed(op)
    ensures Consistent(Perform(db, op))
  {
    hide Consistent, PerformOnTenants, PerformOnFleet, PerformOnCatalog, PerformOnReports, PerformOnUsers;
    match op {
      case OnTenants(o) => TenantOpKeeps(db, o);
      case OnFleet(o) => FleetOpKeeps(db, o);
      case OnCatalog(o) => CatalogOpKeeps(db, o);
      case OnReports(o) => ReportOpKeeps(db, o);
      case OnUsers(o) => UserOpKeeps(db, o);
    }
  }

  lemma TenantOpKeeps(db: Db, op: TenantOp)
    requires Consistent(db) && WellFormed(OnTenants(op))
    ensures Consistent(PerformOnTenants(db, op))
  {
    hide Consistent, D.GetOrInsertTenant, M.AfterMove, WithoutTenant;
    match op {
      case AddTenant(environment, name) => D.GetOrInsertTenantKeeps(db, environment, name);
      case AddTenantWithId(environment, name, id) => D.InsertTenantKeeps(db, id, Tenant(name, environment));
      case DropTenant(id) => WithoutTenantConsistent(db, id);
      case MoveTenant(idText, target, run, failsAt) => MoveKeeps(db, idText, target, run, failsAt);
    }
  }

  lemma FleetOpKeeps(db: Db, op: FleetOp)
    requires Consistent(db)
    ensures Consistent(PerformOnFleet(db, op))
  {
    hide Consistent, D.GetOrInsertDevice, D.UpdateDeviceFields, D.DeleteDevice, D.GetOrInsertAPIKey, D.DeleteAPIKey;
    match op {
      case AddDevice(device, tenant, row) => D.GetOrInsertDeviceKeeps(db, device, tenant, row);
      case ChangeDevice(device, tenant, swVersion, location) => D.UpdateDeviceFieldsKeeps(db, device, tenant,
        swVersion, location);
      case DropDevice(device, tenant) => D.DeleteDeviceKeeps(db, device, tenant);
      case AddKey(key, tenant, device, active) => D.GetOrInsertAPIKeyKeeps(db, key, tenant, device, active);
      case DropKey(key) => D.DeleteAPIKeyKeeps(db, key);
    }
  }

  lemma CatalogOpKeeps(db: Db, op: CatalogOp)
    requires Consistent(db)
    ensures Consistent(PerformOnCatalog(db, op))
  {
    hide Consistent, D.InsertHndrSw, D.DeleteHndrSw, D.InsertHndrRules, D.DeleteHndrRules, D.InsertThreatIntel,
      D.DeleteThreatIntel;
    match op {
      case PutSoftware(package) => D.InsertHndrSwKeeps(db, package);
      case DropSoftware(version) => D.DeleteHndrSwKeeps(db, version);
      case PutRules(tenant, package) => D.InsertHndrRulesKeeps(db, tenant, package);
      case DropRules(tenant, version) => D.DeleteHndrRulesKeeps(db, tenant, version);
      case PutThreatIntel(package) => D.InsertThreatIntelKeeps(db, package);
      case DropThreatIntel(version) => D.DeleteThreatIntelKeeps(db, version);
    }
  }

  lemma ReportOpKeeps(db: Db, op: ReportOp)
    requires Consistent(db)
    ensures Consistent(PerformOnReports(db, op))
  {
    hide Consistent, D.InsertVersions, D.InsertStatus, D.DeleteStatus;
    match op {
      case ReportVersions(device, tenant, report) => D.InsertVersionsKeeps(db, device, tenant, report);
      case ReportStatus(device, tenant, report) => D.InsertStatusKeeps(db, device, tenant, report);
      case DropStatus(device, tenant) => D.DeleteStatusKeeps(db, device, tenant);
    }
  }

  lemma UserOpKeeps(db: Db, op: UserOp)
    requires Consistent(db)
    ensures Consistent(PerformOnUsers(db, op))
  {
    hide Consistent, D.InsertUser, D.DeleteUser, D.WithUser;
    match op {
      case AddUser(user, tenant, email, hash, role) => D.InsertUserKeeps(db, user, tenant, email, hash, role);
      case DropUser(user, tenant) => D.DeleteUserKeeps(db, user, tenant);
      case Deactivate(user, tenant) =>
        if D.UserOf(db, user, tenant) {
          D.WithUserKeeps(db, user, db.users[user].row.(isActive := false));
        }
      case SetPassword(user, tenant, hash) =>
        if D.UserOf(db, user, tenant) {
          D.WithUserKeeps(db, user, db.users[user].row.(passwordHash := hash));
        }
    }
  }

  lemma MoveKeeps(db: Db, idText: string, target: string, run: bool, failsAt: nat)
    requires Consistent(db) && AllDigits(idText) && idText != ""
    ensures Consistent(M.AfterMove(db, idText, target, run, failsAt))
  {
    var (start, b) := D.NextValue(db, SequenceName(target));
    D.NextValueKeeps(db, SequenceName(target));
    var a := Numeral(idText);
    if a in db.tenants && b.Some? {
      var suffix := M.Suffix(idText, Decimal(b.value));
      if M.Transaction(start, a, b.value, suffix, target).Some? {
        M.MigrationConsistent(start, a, b.value, suffix, target);
      }
    }
  }

  // ----- Runs -----------------------------------------------------------------------

  ghost predicate AllWellFormed(ops: seq<DbOp>) {
    forall i | 0 <= i < |ops| :: WellFormed(ops[i])
  }

  /** The database after a list of operations. */
  ghost function Run(db: Db, ops: seq<DbOp>): (r: Db)
    requires Consistent(db) && AllWellFormed(ops)
    ensures Consistent(r)
    decreases |ops|
  {
    if ops == [] then db
    else
      PerformKeepsConsistent(db, ops[0]);
      Run(Perform(db, ops[0]), ops[1..])
  }

  lemma Slices<T>(s: seq<T>, i: nat, j: nat)
    requires i <= j <= |s|
    ensures s[..j][..i] == s[..i] && s[i..][..j - i] == s[..j][i..]
  {
  }

  /** A run is the run of its first operations, the next one, and the run of the rest. */
  lemma {:induction false} RunSplit(db: Db, ops: seq<DbOp>, i: nat)
    requires Consistent(db) && AllWellFormed(ops) && i < |ops|
    ensures Consistent(Perform(Run(db, ops[..i]), ops[i]))
    ensures Run(db, ops) == Run(Perform(Run(db, ops[..i]), ops[i]), ops[i + 1..])
    decreases |ops|
  {
    hide Consistent, Perform;
    PerformKeepsConsistent(db, ops[0]);
    if i > 0 {
      assert ops[..i][1..] == ops[1..][..i - 1];
      assert ops[i + 1..] == ops[1..][i..];
      RunSplit(Perform(db, ops[0]), ops[1..], i - 1);
    }
  }

  // ----- What the operations leave alone --------------------------------------------

  /** Only tenant operations touch tenants and sequences; only tenant and user operations touch users and
      refresh tokens. */
  lemma OtherOpsFrame(db: Db, op: DbOp)
    requires Consistent(db) && WellFormed(op) && !op.OnTenants?
    ensures if op.OnUsers? then SameTenants(db, Perform(db, op)) else SameAccounts(db, Perform(db, op))
  {
    hide D.GetOrInsertDevice, D.UpdateDeviceFields, D.DeleteDevice, D.GetOrInsertAPIKey, D.DeleteAPIKey;
    hide D.InsertHndrSw, D.DeleteHndrSw, D.InsertHndrRules, D.DeleteHndrRules, D.InsertThreatIntel, D.DeleteThreatIntel;
    hide D.InsertVersions, D.InsertStatus, D.DeleteStatus, D.InsertUser, D.DeleteUser, D.DeactivateUser,
      D.ResetUserPassword;
    hide Consistent, SameAccounts, SameTenants, PerformOnTenants;
    match op {
      case OnTenants(_) =>
      case OnFleet(_) =>
      case OnCatalog(_) =>
      case OnReports(_) =>
      case OnUsers(_) =>
    }
  }

  // ----- What happens to accounts ---------------------------------------------------

  /** The columns of a user that no database helper here changes, and an activity that never comes back. */
  predicate SameAccount(before: Owned<User>, after: Owned<User>) {
    && after.tenant == before.tenant && after.row.email == before.row.email && after.row.role == before.row.role
    && after.row.failedAttempts == before.row.failedAttempts && after.row.lockoutUntil == before.row.lockoutUntil
    && (after.row.isActive ==> before.row.isActive)
  }

  /** Users are kept, dropped or are the one added, for an existing tenant; refresh tokens are kept or dropped. */
  ghost predicate AccountsKept(before: Db, after: Db, added: Option<string>) {
    && (forall u | u in after.users :: if u in before.users then SameAccount(before.users[u], after.users[u])
          else added == Some(u) && after.users[u].tenant in before.tenants)
    && (forall h | h in after.tokens :: h in before.tokens && after.tokens[h] == before.tokens[h])
  }

  function AddedUser(op: DbOp): Option<string> {
    if op.OnUsers? && op.userOp.AddUser? then Some(op.userOp.user) else None
  }

  lemma PerformKeepsAccounts(db: Db, op: DbOp)
    requires Consistent(db) && WellFormed(op)
    ensures AccountsKept(db, Perform(db, op), AddedUser(op))
  {
    hide Consistent, PerformOnTenants, PerformOnFleet, PerformOnCatalog, PerformOnReports, PerformOnUsers;
    match op {
      case OnTenants(o) => TenantOpKeepsAccounts(db, o);
      case OnFleet(_) => OtherOpsFrame(db, op);
      case OnCatalog(_) => OtherOpsFrame(db, op);
      case OnReports(_) => OtherOpsFrame(db, op);
      case OnUsers(o) => UserOpKeepsAccounts(db, o);
    }
  }

  lemma UserOpKeepsAccounts(db: Db, op: UserOp)
    requires Consistent(db)
    ensures AccountsKept(db, PerformOnUsers(db, op), AddedUser(OnUsers(op)))
  {
    hide Consistent, AccountsKept, D.InsertUser, D.DeleteUser, D.WithUser;
    match op {
      case AddUser(user, tenant, email, hash, role) => InsertKeepsAccounts(db, user, tenant, email, hash, role);
      case DropUser(user, tenant) => DeleteKeepsAccounts(db, user, tenant);
      case Deactivate(user, tenant) =>
        if D.UserOf(db, user, tenant) {
          WithUserKeepsAccounts(db, user, db.users[user].row.(isActive := false));
        }
      case SetPassword(user, tenant, hash) =>
        if D.UserOf(db, user, tenant) {
          WithUserKeepsAccounts(db, user, db.users[user].row.(passwordHash := hash));
        }
    }
    SameAccountsKept(db);
  }

  lemma SameAccountsKept(db: Db)
    ensures AccountsKept(db, db, None)
  {
  }

  lemma InsertKeepsAccounts(db: Db, user: string, tenant: int, email: string, hash: PasswordHash, role: Role)
    ensures AccountsKept(db, D.InsertUser(db, user, tenant, email, hash, role).0, Some(user))
  {
    hide Consistent, D.EmailTaken;
  }

  lemma PartKeepsAccounts(db: Db, after: Db)
    requires forall u | u in after.users :: u in db.users && after.users[u] == db.users[u]
    requires after.tokens == TokensOfUsers(db.tokens, after.users)
    ensures AccountsKept(db, after, None)
  {
  }

  lemma DeleteKeepsAccounts(db: Db, user: string, tenant: int)
    ensures AccountsKept(db, D.DeleteUser(db, user, tenant).0, None)
  {
    hide AccountsKept;
    SameAccountsKept(db);
    if D.UserOf(db, user, tenant) {
      PartKeepsAccounts(db, D.DeleteUser(db, user, tenant).0);
    }
  }

  lemma WithUserKeepsAccounts(db: Db, user: string, row: User)
    requires user in db.users && SameAccount(db.users[user], db.users[user].(row := row))
    ensures AccountsKept(db, D.WithUser(db, user, row), None)
  {
  }

  lemma TenantOpKeepsAccounts(db: Db, op: TenantOp)
    requires Consistent(db) && WellFormed(OnTenants(op))
    ensures AccountsKept(db, PerformOnTenants(db, op), None)
  {
    hide Consistent, M.AfterMove, D.GetOrInsertTenant, D.InsertTenantWithSpecificID, KeysOfDevices;
    match op {
      case AddTenant(_, _) =>
      case AddTenantWithId(_, _, _) =>
      case DropTenant(_) =>
      case MoveTenant(idText, target, run, failsAt) => MoveKeepsAccounts(db, idText, target, run, failsAt);
    }
  }

  /** A move changes the accounts only when it commits, and then as deleting the old tenant does. */
  lemma MoveAccounts(db: Db, idText: string, target: string, run: bool, failsAt: nat)
    requires Consistent(db) && AllDigits(idText) && idText != ""
    ensures var after := M.AfterMove(db, idText, target, run, failsAt);
      || (after.users == db.users && after.tokens == db.tokens)
      || (after.users == Without(db.users, Numeral(idText)) && after.tokens == TokensOfUsers(db.tokens, after.users))
  {
    hide M.Transaction, Consistent;
    var (start, b) := D.NextValue(db, SequenceName(target));
    D.NextValueKeeps(db, SequenceName(target));
    var a := Numeral(idText);
    if a in db.tenants && b.Some? {
      D.NextValueInRange(db, SequenceName(target));
      var suffix := M.Suffix(idText, Decimal(b.value));
      if M.Transaction(start, a, b.value, suffix, target).Some? {
        M.CommittedMigrationMoves(start, a, b.value, suffix, target);
      }
    }
  }

  lemma MoveKeepsAccounts(db: Db, idText: string, target: string, run: bool, failsAt: nat)
    requires Consistent(db) && AllDigits(idText) && idText != ""
    ensures AccountsKept(db, M.AfterMove(db, idText, target, run, failsAt), None)
  {
    hide M.AfterMove, Consistent;
    MoveAccounts(db, idText, target, run, failsAt);
  }
}
