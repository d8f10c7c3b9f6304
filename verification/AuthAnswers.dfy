/** What the authentication requests answer, and what each step of a run does to one account: its row column by column,
    its end, its refresh tokens and the password that opens it. */
module AuthAnswers {
  import opened Tables
  import opened Schema
  import opened Text
  import opened Auth
  import opened Operations
  import opened Sessions
  import D = DbUtil
  import M = Migration

  // ----- Answers --------------------------------------------------------------------

  predicate HasEmail(db: Db, user: string, email: string) {
    user in db.users && Lower(db.users[user].row.email) == Lower(email)
  }

  lemma OneUserOfEmail(db: Db, user: string, email: string)
    requires Consistent(db) && HasEmail(db, user, email)
    ensures D.EmailTaken(db, email) && UserByEmail(db, email) == user
  {
    hide TenantsOk, OwnersIn, NamesDistinct, KeysOk, TokensOk, RulesOk, PackagesOk, SequencesOk;
  }

  lemma EmailTakenIff(db: Db, email: string)
    ensures D.EmailTaken(db, email) <==> exists u :: HasEmail(db, u, email)
  {
    if D.EmailTaken(db, email) {
      assert HasEmail(db, UserByEmail(db, email), email);
    }
  }

  /** Nothing but the password stands between the user and a session. */
  predicate Open(row: User, now: Time) {
    row.isActive && (row.lockoutUntil.Some? ==> row.lockoutUntil.value <= now)
  }

  /** What a login answers is settled by the one row with that email, in whatever case it is spelt. */
  lemma LoginAnswers(cfg: AuthConfig, db: Db, user: string, email: string, password: string, raw: string, now: Time)
    requires Consistent(db) && HasEmail(db, user, email) && email != "" && password != ""
    ensures var r, row := Login(cfg, db, email, password, raw, now).1, db.users[user].row;
      && (r.InactiveUser? <==> !row.isActive)
      && (r.AccountLocked? <==> row.isActive && !Open(row, now))
      && (r.IncorrectPassword? <==> Open(row, now) && row.passwordHash != Bcrypt(password))
      && (r.LoggedIn? <==> Open(row, now) && row.passwordHash == Bcrypt(password) && HashOf(raw) !in db.tokens)
      && (r.InternalError? <==> Open(row, now) && row.passwordHash == Bcrypt(password) && HashOf(raw) in db.tokens)
      && (r.LoggedIn? ==>
            r.refresh == raw && r.access.claims == Claims(user, row.email, row.role, db.users[user].tenant))
  {
    hide Consistent;
    OneUserOfEmail(db, user, email);
  }

  /** Nobody has that email exactly when a complete login request is answered so. */
  lemma UnknownUserIff(cfg: AuthConfig, db: Db, email: string, password: string, raw: string, now: Time)
    requires Consistent(db) && email != "" && password != ""
    ensures Login(cfg, db, email, password, raw, now).1.UnknownUser? <==> forall u :: !HasEmail(db, u, email)
  {
    hide Consistent, D.RecordFailedAttempt, D.ClearLockout, D.InsertRefreshToken;
    EmailTakenIff(db, email);
  }

  /** A stored refresh token is good for an access token while it is unrevoked and not past its expiry, and its user
      there and active. */
  lemma RefreshIff(cfg: AuthConfig, db: Db, raw: string, now: Time)
    requires Consistent(db) && raw != ""
    ensures Refresh(cfg, db, raw, now).Some? <==>
      HashOf(raw) in db.tokens && var token := db.tokens[HashOf(raw)];
      !token.revoked && now <= token.expiresAt && db.users[token.user].row.isActive
  {
  }

  /** Who may create users, and what can be created: the answer says whether it was the caller's role, the request or
      the tables that refused. */
  lemma CreateOkIff(db: Db, claims: Claims, id: string, email: string, password: string, role: Role)
    ensures var r := CreateUser(db, claims, id, email, password, role).1;
      var complete := email != "" && |password| >= 12;
      var possible := claims.tenant in db.tenants && id !in db.users && forall u :: !HasEmail(db, u, email);
      && (r == Ok <==> claims.role == SystemAdmin && complete && possible)
      && (r == Forbidden <==> claims.role != SystemAdmin)
      && (r == Malformed <==> claims.role == SystemAdmin && !complete)
      && (r == Conflict <==> claims.role == SystemAdmin && complete && !possible)
  {
    hide D.EmailTaken;
    EmailTakenIff(db, email);
  }

  /** A user just created logs in with that password, however the email is spelt, and gets the role asked for in the
      creator's tenant; with no other password. */
  lemma CreatedLogsIn(cfg: AuthConfig, db: Db, claims: Claims, id: string, email: string, password: string, role: Role,
      spelt: string, given: string, raw: string, now: Time)
    requires Consistent(db) && CreateUser(db, claims, id, email, password, role).1 == Ok
    requires Lower(spelt) == Lower(email) && given != "" && HashOf(raw) !in db.tokens
    ensures var r := Login(cfg, CreateUser(db, claims, id, email, password, role).0, spelt, given, raw, now).1;
      if given == password then r.LoggedIn? && r.access.claims == Claims(id, Lower(email), role, claims.tenant)
      else r.IncorrectPassword?
  {
    hide Consistent, Login;
    var after := CreateUser(db, claims, id, email, password, role).0;
    CreateOkIff(db, claims, id, email, password, role);
    D.InsertUserKeeps(db, id, claims.tenant, email, Bcrypt(password), role);
    D.LowerTwice(email);
    assert |Lower(spelt)| == |Lower(email)|;
    assert HasEmail(after, id, spelt);
    LoginAnswers(cfg, after, id, spelt, given, raw, now);
  }

  /** Who may delete whom. */
  lemma RemoveOkIff(db: Db, claims: Claims, user: string)
    ensures var r, own := RemoveUser(db, claims, user).1, user in db.users && db.users[user].tenant == claims.tenant;
      && (r == Ok <==> claims.role == SystemAdmin && claims.user != user && own)
      && (r == Forbidden <==> claims.role != SystemAdmin)
      && (r == NotFound <==> claims.role == SystemAdmin && claims.user != user && !own)
  {
  }

  /** Who may reset whose password: administrators of the tenant, and every user its own. */
  lemma ResetOkIff(db: Db, claims: Claims, user: string, password: string)
    ensures var r := ResetPassword(db, claims, user, password).1;
      var may, own := claims.role == SystemAdmin || claims.user == user,
        user in db.users && db.users[user].tenant == claims.tenant;
      && (r == Ok <==> may && |password| >= 12 && own)
      && (r == Forbidden <==> !may)
      && (r == NotFound <==> may && |password| >= 12 && !own)
  {
  }

  /** An accepted reset changes the password and opens a lock, and nothing else of the row or of any other. */
  lemma ResetChanges(db: Db, claims: Claims, user: string, password: string)
    requires ResetPassword(db, claims, user, password).1 == Ok
    ensures var after := ResetPassword(db, claims, user, password).0;
      && after.users.Keys == db.users.Keys && after.tokens == db.tokens
      && (forall u | u in db.users && u != user :: after.users[u] == db.users[u])
      && user in db.users
      && after.users[user].tenant == db.users[user].tenant
      && var was, row := db.users[user].row, after.users[user].row;
      && row == User(was.email, Bcrypt(password), was.role, was.isActive, 0, None)
  {
  }

  /** After it the user logs in with the new password, and with no other, the one before it included. */
  lemma ResetTakesEffect(cfg: AuthConfig, db: Db, claims: Claims, user: string, password: string, given: string,
      raw: string, now: Time)
    requires Consistent(db) && ResetPassword(db, claims, user, password).1 == Ok
    requires user in db.users ==> db.users[user].row.isActive && db.users[user].row.email != ""
    requires given != "" && HashOf(raw) !in db.tokens
    ensures user in db.users
    ensures var r := Login(cfg, ResetPassword(db, claims, user, password).0, db.users[user].row.email, given, raw,
      now).1;
      if given == password then r.LoggedIn? else r.IncorrectPassword?
  {
    hide Consistent, Login, ResetPassword;
    ResetChanges(db, claims, user, password);
    ResetStep(db, claims, user, password);
    LoginAnswers(cfg, ResetPassword(db, claims, user, password).0, user, db.users[user].row.email, given, raw, now);
  }

  // ----- The users table, step by step ----------------------------------------------

  lemma WithUserRows(db: Db, user: string, row: User)
    ensures var after := D.WithUser(db, user, row);
      && after.tokens == db.tokens
      && after.users == if user in db.users then db.users[user := Owned(db.users[user].tenant, row)] else db.users
  {
  }

  lemma InsertUserRows(db: Db, id: string, tenant: int, email: string, hash: PasswordHash, role: Role)
    ensures var (after, ok) := D.InsertUser(db, id, tenant, email, hash, role);
      && after.tokens == db.tokens
      && if ok
        then id !in db.users
          && after.users == db.users[id := Owned(tenant, User(Lower(email), hash, role, true, 0, None))]
         else after.users == db.users
  {
    hide D.EmailTaken;
  }

  lemma DeleteUserRows(db: Db, user: string, tenant: int)
    ensures var (after, ok) := D.DeleteUser(db, user, tenant);
      && (ok <==> D.UserOf(db, user, tenant))
      && (ok ==> after.users == db.users - {user} && after.tokens == TokensOfUsers(db.tokens, after.users))
      && (!ok ==> after == db)
  {
  }

  /** The two columns a login may write. */
  predicate SameButLockout(a: Owned<User>, b: Owned<User>) {
    b == a.(row := a.row.(failedAttempts := b.row.failedAttempts, lockoutUntil := b.row.lockoutUntil))
  }

  /** A login, whatever it answers, changes at most the two lockout columns of the one user with that email, and no
      other row. */
  lemma LoginRows(cfg: AuthConfig, db: Db, email: string, password: string, raw: string, now: Time)
    ensures var after := Login(cfg, db, email, password, raw, now).0;
      && after.users.Keys == db.users.Keys
      && (forall u | u in db.users :: SameButLockout(db.users[u], after.users[u]))
      && (forall u | u in db.users && !HasEmail(db, u, email) :: after.users[u] == db.users[u])
  {
    hide D.WithUser, D.EmailTaken, D.InsertRefreshToken, D.AfterFailure, IsLocked;
    if D.EmailTaken(db, email) {
      var id := UserByEmail(db, email);
      var row := db.users[id].row;
      FailureRow(row, now);
      WithUserRows(db, id, D.AfterFailure(row, now));
      var cleared := row.(failedAttempts := 0, lockoutUntil := None);
      WithUserRows(db, id, cleared);
      TokenKeepsUsers(D.WithUser(db, id, cleared), id, raw, now + cfg.RefreshTtl());
    }
  }

  lemma FailureRow(row: User, now: Time)
    ensures var after := D.AfterFailure(row, now);
      after == row.(failedAttempts := after.failedAttempts, lockoutUntil := after.lockoutUntil)
  {
  }

  lemma TokenKeepsUsers(db: Db, user: string, raw: string, expiresAt: Time)
    ensures D.InsertRefreshToken(db, user, raw, expiresAt).0.users == db.users
  {
  }

  lemma CreateKeepsRows(db: Db, claims: Claims, id: string, email: string, password: string, role: Role)
    ensures var after := CreateUser(db, claims, id, email, password, role).0;
      forall u | u in db.users :: u in after.users && after.users[u] == db.users[u]
  {
    hide D.InsertUser;
    InsertUserRows(db, id, claims.tenant, email, Bcrypt(password), role);
  }

  lemma RemoveKeepsRows(db: Db, claims: Claims, user: string)
    ensures var (after, status) := RemoveUser(db, claims, user);
      after.users == if status == Ok then db.users - {user} else db.users
  {
    hide D.DeleteUser;
    DeleteUserRows(db, user, claims.tenant);
  }

  // ----- The password column --------------------------------------------------------

  /** The password this step gives the user, if any: by an accepted reset or by the operator. */
  ghost function NewPassword(cfg: AuthConfig, s: Sys, e: Event, user: string): Option<PasswordHash> {
    match e.request
    case ResetPasswordRequest(token, u, password) =>
      var claims := Accepts(cfg, s, token, e.at);
      if u == user && claims.Some? && ResetPassword(s.db, claims.value, u, password).1 == Ok
      then Some(Bcrypt(password)) else None
    case Maintenance(OnUsers(SetPassword(u, tenant, hash))) =>
      if u == user && D.UserOf(s.db, u, tenant) then Some(hash) else None
    case _ => None
  }

  /** The user's password in the database, and what it becomes. */
  ghost predicate PasswordBecomes(before: Db, after: Db, user: string, given: Option<PasswordHash>) {
    user in before.users && user in after.users ==>
      after.users[user].row.passwordHash == if given.Some? then given.value else before.users[user].row.passwordHash
  }

  lemma SamePasswords(before: Db, after: Db, user: string)
    requires forall u | u in before.users && u in after.users ::
      after.users[u].row.passwordHash == before.users[u].row.passwordHash
    ensures PasswordBecomes(before, after, user, None)
  {
  }

  lemma ResetGivesPassword(db: Db, claims: Claims, user: string, password: string, other: string)
    ensures var (after, status) := ResetPassword(db, claims, user, password);
      PasswordBecomes(db, after, other, if other == user && status == Ok then Some(Bcrypt(password)) else None)
  {
    hide ResetPassword;
    if ResetPassword(db, claims, user, password).1 == Ok {
      ResetChanges(db, claims, user, password);
    } else {
      ResetRefused(db, claims, user, password);
    }
  }

  lemma ResetRefused(db: Db, claims: Claims, user: string, password: string)
    requires ResetPassword(db, claims, user, password).1 != Ok
    ensures ResetPassword(db, claims, user, password).0 == db
  {
  }

  lemma UserOpRows(db: Db, op: UserOp)
    ensures var after := PerformOnUsers(db, op);
      match op
      case AddUser(user, tenant, email, hash, role) =>
        forall u | u in db.users :: u in after.users && after.users[u] == db.users[u]
      case DropUser(user, tenant) => after.users == if D.UserOf(db, user, tenant) then db.users - {user} else db.users
      case Deactivate(user, tenant) =>
        after.users == if D.UserOf(db, user, tenant)
          then db.users[user := Owned(tenant, db.users[user].row.(isActive := false))] else db.users
      case SetPassword(user, tenant, hash) =>
        after.users == if D.UserOf(db, user, tenant)
          then db.users[user := Owned(tenant, db.users[user].row.(passwordHash := hash))] else db.users
  {
    hide D.InsertUser, D.DeleteUser, D.WithUser;
    match op {
      case AddUser(user, tenant, email, hash, role) => InsertUserRows(db, user, tenant, email, hash, role);
      case DropUser(user, tenant) => DeleteUserRows(db, user, tenant);
      case Deactivate(user, tenant) =>
        if D.UserOf(db, user, tenant) {
          WithUserRows(db, user, db.users[user].row.(isActive := false));
        }
      case SetPassword(user, tenant, hash) =>
        if D.UserOf(db, user, tenant) {
          WithUserRows(db, user, db.users[user].row.(passwordHash := hash));
        }
    }
  }

  lemma UserOpGivesPassword(db: Db, op: UserOp, user: string)
    ensures PasswordBecomes(db, PerformOnUsers(db, op), user,
      if op.SetPassword? && op.user == user && D.UserOf(db, user, op.tenant) then Some(op.hash) else None)
  {
    hide PerformOnUsers;
    UserOpRows(db, op);
  }

  lemma TenantOpKeepsRows(db: Db, op: TenantOp, user: string)
    requires Consistent(db) && WellFormed(OnTenants(op))
    ensures var after := PerformOnTenants(db, op);
      user in db.users && user in after.users ==> after.users[user] == db.users[user]
  {
    hide Consistent, M.AfterMove, D.GetOrInsertTenant, D.InsertTenantWithSpecificID, KeysOfDevices;
    if op.MoveTenant? {
      MoveAccounts(db, op.idText, op.target, op.run, op.failsAt);
    }
  }

  /** A user's stored password is what the step gives it, and else what it was. */
  lemma PasswordStep(cfg: AuthConfig, s: Sys, e: Event, user: string)
    requires Consistent(s.db) && Enabled(s, e)
    ensures PasswordBecomes(s.db, NextDb(cfg, s, e), user, NewPassword(cfg, s, e, user))
  {
    hide Consistent, Accepts, Login, CreateUser, RemoveUser, ResetPassword, WellFormed, PasswordBecomes, PerformOnUsers,
      PerformOnTenants, PerformOnFleet, PerformOnCatalog, PerformOnReports;
    SamePasswords(s.db, s.db, user);
    match e.request {
      case LoginRequest(email, password, raw) =>
        LoginRows(cfg, s.db, email, password, raw, e.at);
        SamePasswords(s.db, Login(cfg, s.db, email, password, raw, e.at).0, user);
      case RefreshRequest(raw) =>
      case LogoutRequest(token) =>
        SamePasswords(s.db, NextDb(cfg, s, e), user);
      case CreateUserRequest(token, newId, email, password, role) =>
        var claims := Accepts(cfg, s, token, e.at);
        if claims.Some? {
          CreateKeepsRows(s.db, claims.value, newId, email, password, role);
          SamePasswords(s.db, NextDb(cfg, s, e), user);
        }
      case DeleteUserRequest(token, u) =>
        var claims := Accepts(cfg, s, token, e.at);
        if claims.Some? {
          RemoveKeepsRows(s.db, claims.value, u);
          SamePasswords(s.db, NextDb(cfg, s, e), user);
        }
      case ResetPasswordRequest(token, u, password) =>
        var claims := Accepts(cfg, s, token, e.at);
        if claims.Some? {
          ResetGivesPassword(s.db, claims.value, u, password, user);
        }
      case Maintenance(op) =>
        match op {
          case OnUsers(o) => UserOpGivesPassword(s.db, o, user);
          case OnTenants(o) =>
            forall u { TenantOpKeepsRows(s.db, o, u); }
            SamePasswords(s.db, NextDb(cfg, s, e), user);
          case _ =>
            OtherOpsFrame(s.db, op);
            SamePasswords(s.db, NextDb(cfg, s, e), user);
        }
    }
  }

  // ----- The password that opens the account ----------------------------------------

  /** The password last given to the user in the run, or the one before it. */
  ghost function LastPassword(cfg: AuthConfig, s: Sys, events: seq<Event>, user: string,
      before: PasswordHash): PasswordHash
    requires Inv(cfg, s) && Possible(cfg, s, events)
    decreases |events|
  {
    if events == [] then before
    else
      ApplyKeepsInv(cfg, s, events[0]);
      var given := NewPassword(cfg, s, events[0], user);
      LastPassword(cfg, Apply(cfg, s, events[0]), events[1..], user, if given.Some? then given.value else before)
  }

  /** A user who is there at the end of a run was there all along. */
  lemma {:induction false} ThereAllAlong(cfg: AuthConfig, s: Sys, events: seq<Event>, user: string)
    requires Inv(cfg, s) && Possible(cfg, s, events) && user in s.usedUsers && user in Exec(cfg, s, events).db.users
    ensures user in s.db.users
    decreases |events|
  {
    hide Consistent, NextDb, Signed, IssuedOk, TokensStep;
    if events != [] {
      ApplyKeepsInv(cfg, s, events[0]);
      NextDbSteps(cfg, s, events[0]);
      ThereAllAlong(cfg, Apply(cfg, s, events[0]), events[1..], user);
    }
  }

  /** The stored password of a user is the one last given to it. */
  lemma {:induction false} StoredIsLast(cfg: AuthConfig, s: Sys, events: seq<Event>, user: string)
    requires Inv(cfg, s) && Possible(cfg, s, events) && user in s.db.users && user in Exec(cfg, s, events).db.users
    ensures Exec(cfg, s, events).db.users[user].row.passwordHash
      == LastPassword(cfg, s, events, user, s.db.users[user].row.passwordHash)
    decreases |events|
  {
    hide Consistent, NextDb, Signed, IssuedOk, NewPassword;
    if events != [] {
      ApplyKeepsInv(cfg, s, events[0]);
      PasswordStep(cfg, s, events[0], user);
      ThereAllAlong(cfg, Apply(cfg, s, events[0]), events[1..], user);
      StoredIsLast(cfg, Apply(cfg, s, events[0]), events[1..], user);
    }
  }

  /** However a run goes, the password last given to a user who is then active and not locked opens the account, and no
      other does. */
  lemma LastPasswordOpens(cfg: AuthConfig, s: Sys, events: seq<Event>, user: string, given: string, raw: string,
      now: Time)
    requires Inv(cfg, s) && Possible(cfg, s, events) && user in s.db.users && given != ""
    requires var db := Exec(cfg, s, events).db;
      && HashOf(raw) !in db.tokens
      && user in db.users && db.users[user].row.email != "" && Open(db.users[user].row, now)
    ensures var db := Exec(cfg, s, events).db;
      var r := Login(cfg, db, db.users[user].row.email, given, raw, now).1;
      if Bcrypt(given) == LastPassword(cfg, s, events, user, s.db.users[user].row.passwordHash)
      then r.LoggedIn? && r.access.claims.user == user else r.IncorrectPassword?
  {
    hide Consistent, Login, Exec, Possible, LastPassword, IssuedOk;
    var db := Exec(cfg, s, events).db;
    StoredIsLast(cfg, s, events, user);
    LoginAnswers(cfg, db, user, db.users[user].row.email, given, raw, now);
  }

  // ----- The end of an account ------------------------------------------------------

  /** Whether an active user is still there and active, when it was there. */
  ghost predicate OpenUnless(before: Db, after: Db, user: string, ended: bool) {
    user in before.users && before.users[user].row.isActive ==>
      (user in after.users && after.users[user].row.isActive <==> !ended)
  }

  lemma ResetEndsNothing(db: Db, claims: Claims, u: string, password: string, user: string)
    ensures OpenUnless(db, ResetPassword(db, claims, u, password).0, user, false)
  {
    hide ResetPassword;
    if ResetPassword(db, claims, u, password).1 == Ok {
      ResetChanges(db, claims, u, password);
    } else {
      ResetRefused(db, claims, u, password);
    }
  }

  lemma UserOpEnds(db: Db, op: UserOp, user: string)
    ensures user in db.users ==>
      OpenUnless(db, PerformOnUsers(db, op), user,
        op == Deactivate(user, db.users[user].tenant) || op == DropUser(user, db.users[user].tenant))
  {
    hide PerformOnUsers;
    UserOpRows(db, op);
  }

  lemma TenantOpEnds(db: Db, op: TenantOp, user: string)
    requires Consistent(db) && WellFormed(OnTenants(op)) && user in db.users
    ensures var tenant := db.users[user].tenant;
      OpenUnless(db, PerformOnTenants(db, op), user,
        op == DropTenant(tenant) || (op.MoveTenant? && Numeral(op.idText) == tenant
          && tenant !in PerformOnTenants(db, op).tenants))
  {
    hide Consistent, M.AfterMove, D.GetOrInsertTenant, D.InsertTenantWithSpecificID, KeysOfDevices;
    UserTenantThere(db, user);
    if op.MoveTenant? {
      MoveAccountsIff(db, op.idText, op.target, op.run, op.failsAt);
    }
  }

  lemma UserTenantThere(db: Db, user: string)
    requires Consistent(db) && user in db.users
    ensures db.users[user].tenant in db.tenants
  {
    hide TenantsOk, NamesDistinct, KeysOk, TokensOk, EmailsDistinct, RulesOk, PackagesOk, SequencesOk;
  }

  /** A move takes the users of the old tenant with it exactly when it commits. */
  lemma MoveAccountsIff(db: Db, idText: string, target: string, run: bool, failsAt: nat)
    requires Consistent(db) && AllDigits(idText) && idText != ""
    ensures var after := M.AfterMove(db, idText, target, run, failsAt);
      if Numeral(idText) in db.tenants && Numeral(idText) !in after.tenants then
        after.users == Without(db.users, Numeral(idText)) && after.tokens == TokensOfUsers(db.tokens, after.users)
      else after.users == db.users && after.tokens == db.tokens
  {
    hide M.Transaction, M.CurrentEnvironment, Consistent, Numeral, BlockOf, SequenceName, D.NextValue;
    var (start, b) := D.NextValue(db, SequenceName(target));
    D.NextValueKeeps(db, SequenceName(target));
    DrawKeepsRest(db, SequenceName(target));
    var a := Numeral(idText);
    if a in db.tenants && b.Some? {
      D.NextValueInRange(db, SequenceName(target));
      CommitAccounts(start, a, b.value, M.Suffix(idText, Decimal(b.value)), target);
    }
  }

  lemma CommitAccounts(db: Db, a: int, b: int, suffix: string, target: string)
    requires Consistent(db) && a in db.tenants && suffix != ""
    ensures var done := M.Transaction(db, a, b, suffix, target);
      done.Some? ==>
        && a !in done.value.tenants && done.value.users == Without(db.users, a)
        && done.value.tokens == TokensOfUsers(db.tokens, done.value.users)
  {
    hide M.Transaction, Consistent;
    if M.Transaction(db, a, b, suffix, target).Some? {
      M.CommittedMigrationMoves(db, a, b, suffix, target);
      M.TransactionColumns(db, a, b, suffix, target);
    }
  }

  lemma DrawKeepsRest(db: Db, sequence: string)
    ensures D.NextValue(db, sequence).0 == db.(sequences := D.NextValue(db, sequence).0.sequences)
  {
  }

  lemma MaintenanceEnds(cfg: AuthConfig, s: Sys, e: Event, user: string)
    requires Inv(cfg, s) && Enabled(s, e) && user in s.db.users && e.request.Maintenance?
    ensures OpenUnless(s.db, NextDb(cfg, s, e), user, EndsAccount(cfg, s, e, user))
  {
    hide Consistent, IssuedOk, Login, CreateUser, RemoveUser, ResetPassword, WellFormed, PerformOnUsers,
      PerformOnTenants, PerformOnFleet, PerformOnCatalog, PerformOnReports, OpenUnless;
    match e.request.op {
      case OnUsers(o) => UserOpEnds(s.db, o, user);
      case OnTenants(o) => TenantOpEnds(s.db, o, user);
      case _ =>
        OtherOpsFrame(s.db, e.request.op);
        SameUsersOpen(s.db, NextDb(cfg, s, e), user);
    }
  }

  lemma SameUsersOpen(before: Db, after: Db, user: string)
    requires after.users == before.users
    ensures OpenUnless(before, after, user, false)
  {
  }

  lemma LoginOpen(cfg: AuthConfig, db: Db, email: string, password: string, raw: string, now: Time, user: string)
    ensures OpenUnless(db, Login(cfg, db, email, password, raw, now).0, user, false)
  {
    hide Login;
    LoginRows(cfg, db, email, password, raw, now);
  }

  lemma CreateOpen(db: Db, claims: Claims, id: string, email: string, password: string, role: Role, user: string)
    ensures OpenUnless(db, CreateUser(db, claims, id, email, password, role).0, user, false)
  {
    hide CreateUser;
    CreateKeepsRows(db, claims, id, email, password, role);
  }

  lemma RemoveOpen(db: Db, claims: Claims, u: string, user: string)
    ensures var (after, status) := RemoveUser(db, claims, u);
      OpenUnless(db, after, user, u == user && status == Ok)
  {
    hide RemoveUser;
    RemoveKeepsRows(db, claims, u);
  }

  lemma RequestEnds(cfg: AuthConfig, s: Sys, e: Event, user: string)
    requires Inv(cfg, s) && Enabled(s, e) && user in s.db.users && !e.request.Maintenance?
    ensures OpenUnless(s.db, NextDb(cfg, s, e), user, EndsAccount(cfg, s, e, user))
  {
    hide Consistent, Accepts, IssuedOk, Login, CreateUser, RemoveUser, ResetPassword, WellFormed, Perform, D.Revoked,
      OpenUnless;
    SameUsersOpen(s.db, s.db, user);
    match e.request {
      case LoginRequest(email, password, raw) => LoginOpen(cfg, s.db, email, password, raw, e.at, user);
      case LogoutRequest(token) => SameUsersOpen(s.db, NextDb(cfg, s, e), user);
      case CreateUserRequest(token, newId, email, password, role) =>
        var claims := Accepts(cfg, s, token, e.at);
        if claims.Some? {
          CreateOpen(s.db, claims.value, newId, email, password, role, user);
        }
      case DeleteUserRequest(token, u) =>
        var claims := Accepts(cfg, s, token, e.at);
        if claims.Some? {
          RemoveOpen(s.db, claims.value, u, user);
        }
      case ResetPasswordRequest(token, u, password) =>
        var claims := Accepts(cfg, s, token, e.at);
        if claims.Some? {
          ResetEndsNothing(s.db, claims.value, u, password, user);
        }
      case RefreshRequest(_) =>
    }
  }

  /** An account that is there and active stays so exactly until a step that ends it: no other step deletes or
      deactivates anybody. */
  lemma OpenUntilEnded(cfg: AuthConfig, s: Sys, e: Event, user: string)
    requires Inv(cfg, s) && Enabled(s, e) && user in s.db.users && s.db.users[user].row.isActive
    ensures var after := NextDb(cfg, s, e);
      user in after.users && after.users[user].row.isActive <==> !EndsAccount(cfg, s, e, user)
  {
    hide Consistent, IssuedOk, Enabled, NextDb, EndsAccount;
    if e.request.Maintenance? {
      MaintenanceEnds(cfg, s, e, user);
    } else {
      RequestEnds(cfg, s, e, user);
    }
  }

  // ----- Refresh tokens -------------------------------------------------------------

  /** The logout that revokes the token: its own user's, and before it expires. */
  ghost predicate Revokes(cfg: AuthConfig, s: Sys, e: Event, token: RefreshToken) {
    && e.request.LogoutRequest? && Accepts(cfg, s, e.request.token, e.at).Some?
    && e.request.token.claims.user == token.user && e.at < token.expiresAt
  }

  /** Refresh tokens are kept as they are, or gone with their user. */
  ghost predicate GoneWithUsers(before: Db, after: Db) {
    forall h :: if h in before.tokens && before.tokens[h].user in after.users
      then h in after.tokens && after.tokens[h] == before.tokens[h] else h !in after.tokens
  }

  lemma SameTokens(before: Db, after: Db)
    requires Consistent(before) && after.tokens == before.tokens && before.users.Keys <= after.users.Keys
    ensures GoneWithUsers(before, after)
  {
    hide TenantsOk, OwnersIn, NamesDistinct, KeysOk, EmailsDistinct, RulesOk, PackagesOk, SequencesOk;
  }

  lemma CascadedTokens(before: Db, after: Db)
    requires after.tokens == TokensOfUsers(before.tokens, after.users)
    ensures GoneWithUsers(before, after)
  {
  }

  lemma RemoveTokens(db: Db, claims: Claims, user: string)
    requires Consistent(db)
    ensures GoneWithUsers(db, RemoveUser(db, claims, user).0)
  {
    hide D.DeleteUser, GoneWithUsers, Consistent;
    SameTokens(db, db);
    DeleteUserRows(db, user, claims.tenant);
    if D.UserOf(db, user, claims.tenant) {
      CascadedTokens(db, D.DeleteUser(db, user, claims.tenant).0);
    }
  }

  lemma CreateTokens(db: Db, claims: Claims, id: string, email: string, password: string, role: Role)
    requires Consistent(db)
    ensures GoneWithUsers(db, CreateUser(db, claims, id, email, password, role).0)
  {
    hide D.InsertUser, GoneWithUsers, Consistent;
    SameTokens(db, db);
    InsertUserRows(db, id, claims.tenant, email, Bcrypt(password), role);
    SameTokens(db, D.InsertUser(db, id, claims.tenant, email, Bcrypt(password), role).0);
  }

  lemma ResetTokens(db: Db, claims: Claims, user: string, password: string)
    requires Consistent(db)
    ensures GoneWithUsers(db, ResetPassword(db, claims, user, password).0)
  {
    hide ResetPassword, GoneWithUsers, Consistent;
    if ResetPassword(db, claims, user, password).1 == Ok {
      ResetChanges(db, claims, user, password);
    } else {
      ResetRefused(db, claims, user, password);
    }
    SameTokens(db, ResetPassword(db, claims, user, password).0);
  }

  lemma UserOpTokens(db: Db, op: UserOp)
    requires Consistent(db)
    ensures GoneWithUsers(db, PerformOnUsers(db, op))
  {
    hide D.InsertUser, D.DeleteUser, D.WithUser, GoneWithUsers, Consistent;
    SameTokens(db, db);
    match op {
      case AddUser(user, tenant, email, hash, role) =>
        InsertUserRows(db, user, tenant, email, hash, role);
        SameTokens(db, PerformOnUsers(db, op));
      case DropUser(user, tenant) =>
        DeleteUserRows(db, user, tenant);
        if D.UserOf(db, user, tenant) {
          CascadedTokens(db, PerformOnUsers(db, op));
        }
      case Deactivate(user, tenant) =>
        if D.UserOf(db, user, tenant) {
          WithUserRows(db, user, db.users[user].row.(isActive := false));
          SameTokens(db, PerformOnUsers(db, op));
        }
      case SetPassword(user, tenant, hash) =>
        if D.UserOf(db, user, tenant) {
          WithUserRows(db, user, db.users[user].row.(passwordHash := hash));
          SameTokens(db, PerformOnUsers(db, op));
        }
    }
  }

  lemma TenantOpTokens(db: Db, op: TenantOp)
    requires Consistent(db) && WellFormed(OnTenants(op))
    ensures GoneWithUsers(db, PerformOnTenants(db, op))
  {
    hide Consistent, M.AfterMove, D.GetOrInsertTenant, D.InsertTenantWithSpecificID, KeysOfDevices, GoneWithUsers,
      TokensOfUsers;
    SameTokens(db, db);
    match op {
      case DropTenant(id) =>
        if id in db.tenants {
          CascadedTokens(db, PerformOnTenants(db, op));
        }
      case MoveTenant(idText, target, run, failsAt) =>
        MoveAccountsIff(db, idText, target, run, failsAt);
        var after := PerformOnTenants(db, op);
        if Numeral(idText) in db.tenants && Numeral(idText) !in after.tenants {
          CascadedTokens(db, after);
        } else {
          SameTokens(db, after);
        }
      case _ => SameTokens(db, PerformOnTenants(db, op));
    }
  }

  lemma MaintenanceTokens(db: Db, op: DbOp)
    requires Consistent(db) && WellFormed(op)
    ensures GoneWithUsers(db, Perform(db, op))
  {
    hide Consistent, GoneWithUsers, PerformOnUsers, PerformOnTenants, PerformOnFleet, PerformOnCatalog,
      PerformOnReports;
    match op {
      case OnUsers(o) => UserOpTokens(db, o);
      case OnTenants(o) => TenantOpTokens(db, o);
      case _ =>
        OtherOpsFrame(db, op);
        SameTokens(db, Perform(db, op));
    }
  }

  lemma LoginTokens(cfg: AuthConfig, db: Db, email: string, password: string, raw: string, now: Time)
    ensures var (after, r) := Login(cfg, db, email, password, raw, now);
      if r.LoggedIn? then
        && HashOf(raw) !in db.tokens
        && after.tokens == db.tokens[HashOf(raw) := RefreshToken(r.access.claims.user, now + cfg.RefreshTtl(), false)]
      else after.tokens == db.tokens
  {
    hide D.EmailTaken, D.WithUser, D.AfterFailure, IsLocked, SignJwt;
    if D.EmailTaken(db, email) {
      var id := UserByEmail(db, email);
      var row := db.users[id].row;
      WithUserRows(db, id, D.AfterFailure(row, now));
      WithUserRows(db, id, row.(failedAttempts := 0, lockoutUntil := None));
      SignedForUser(cfg, id, db.users[id], now);
    }
  }

  lemma SignedForUser(cfg: AuthConfig, user: string, row: Owned<User>, now: Time)
    ensures SignJwt(cfg, user, row, now).claims.user == user
  {
  }

  lemma LogoutTokens(cfg: AuthConfig, s: Sys, e: Event)
    requires e.request.LogoutRequest? && Accepts(cfg, s, e.request.token, e.at).Some?
    ensures Accepts(cfg, s, e.request.token, e.at).value == e.request.token.claims
    ensures var after := D.RevokeRefreshTokens(s.db, e.request.token.claims.user, e.at);
      && after.users == s.db.users && after.tokens.Keys == s.db.tokens.Keys
      && forall h | h in s.db.tokens ::
        after.tokens[h] == s.db.tokens[h].(revoked := s.db.tokens[h].revoked || Revokes(cfg, s, e, s.db.tokens[h]))
  {
  }

  /** The refresh tokens after any step, one by one: a token goes exactly when its user does; one that stays is
      revoked by its own user's logout before it expires and is otherwise as it was; and the only new one is that of a
      completed login, unrevoked and good for its full time. */
  lemma TokensAfterStep(cfg: AuthConfig, s: Sys, e: Event)
    requires Consistent(s.db) && Enabled(s, e)
    ensures var after, was := NextDb(cfg, s, e), s.db.tokens;
      && (forall h | h in was :: h in after.tokens <==> was[h].user in after.users)
      && (forall h | h in was && h in after.tokens ::
            after.tokens[h] == was[h].(revoked := was[h].revoked || Revokes(cfg, s, e, was[h])))
      && (forall h | h !in was && h in after.tokens :: LogsIn(cfg, s.db, e).Some? && h == HashOf(e.request.raw))
      && (LogsIn(cfg, s.db, e).Some? ==>
            && HashOf(e.request.raw) !in was && HashOf(e.request.raw) in after.tokens
            && after.tokens[HashOf(e.request.raw)]
               == RefreshToken(LogsIn(cfg, s.db, e).value, e.at + cfg.refreshTtlDays * 86_400_000_000, false))
  {
    hide Accepts, Login, CreateUser, RemoveUser, ResetPassword, Perform, WellFormed, D.Revoked;
    hide TenantsOk, OwnersIn, NamesDistinct, KeysOk, EmailsDistinct, RulesOk, PackagesOk, SequencesOk;
    if e.request.LoginRequest? {
      LoginTokens(cfg, s.db, e.request.email, e.request.password, e.request.raw, e.at);
      LoginRows(cfg, s.db, e.request.email, e.request.password, e.request.raw, e.at);
    } else if e.request.LogoutRequest? && Accepts(cfg, s, e.request.token, e.at).Some? {
      LogoutTokens(cfg, s, e);
    } else {
      OtherTokens(cfg, s, e);
    }
  }

  lemma OtherTokens(cfg: AuthConfig, s: Sys, e: Event)
    requires Consistent(s.db) && Enabled(s, e) && !e.request.LoginRequest?
    requires e.request.LogoutRequest? ==> Accepts(cfg, s, e.request.token, e.at).None?
    ensures GoneWithUsers(s.db, NextDb(cfg, s, e))
  {
    hide Accepts, CreateUser, RemoveUser, ResetPassword, Perform, WellFormed, GoneWithUsers, Consistent;
    SameTokens(s.db, s.db);
    match e.request {
      case CreateUserRequest(token, newId, email, password, role) =>
        var claims := Accepts(cfg, s, token, e.at);
        if claims.Some? {
          CreateTokens(s.db, claims.value, newId, email, password, role);
        }
      case DeleteUserRequest(token, u) =>
        var claims := Accepts(cfg, s, token, e.at);
        if claims.Some? {
          RemoveTokens(s.db, claims.value, u);
        }
      case ResetPasswordRequest(token, u, password) =>
        var claims := Accepts(cfg, s, token, e.at);
        if claims.Some? {
          ResetTokens(s.db, claims.value, u, password);
        }
      case Maintenance(op) => MaintenanceTokens(s.db, op);
      case _ =>
    }
  }

  /** The user logs out in the run, before the refresh token expires. */
  ghost predicate LoggedOut(cfg: AuthConfig, s: Sys, events: seq<Event>, token: RefreshToken)
    requires Inv(cfg, s) && Possible(cfg, s, events)
    decreases |events|
  {
    events != [] &&
    (Revokes(cfg, s, events[0], token) ||
     (ApplyKeepsInv(cfg, s, events[0]); LoggedOut(cfg, Apply(cfg, s, events[0]), events[1..], token)))
  }

  /** A refresh token through a run: there as long as its user is, with its owner and expiry, and revoked exactly by a
      logout. */
  lemma {:induction false} TokenThroughRun(cfg: AuthConfig, s: Sys, events: seq<Event>, h: TokenHash)
    requires Inv(cfg, s) && Possible(cfg, s, events) && h in s.db.tokens && !s.db.tokens[h].revoked
    requires s.db.tokens[h].user in Exec(cfg, s, events).db.users
    ensures var after := Exec(cfg, s, events).db.tokens;
      h in after && after[h] == s.db.tokens[h].(revoked := LoggedOut(cfg, s, events, s.db.tokens[h]))
    decreases |events|
  {
    hide Consistent, NextDb, Signed, IssuedOk, Revokes, LogsIn;
    if events != [] {
      var next := Apply(cfg, s, events[0]);
      ApplyKeepsInv(cfg, s, events[0]);
      TokenOwnerUsed(cfg, s, h);
      ThereAllAlong(cfg, next, events[1..], s.db.tokens[h].user);
      TokensAfterStep(cfg, s, events[0]);
      if Revokes(cfg, s, events[0], s.db.tokens[h]) {
        RevokedForGood(cfg, next, events[1..], h);
      } else {
        TokenThroughRun(cfg, next, events[1..], h);
      }
    }
  }

  lemma TokenOwnerUsed(cfg: AuthConfig, s: Sys, h: TokenHash)
    requires Inv(cfg, s) && h in s.db.tokens
    ensures s.db.tokens[h].user in s.db.users && s.db.tokens[h].user in s.usedUsers
  {
    hide TenantsOk, OwnersIn, NamesDistinct, KeysOk, EmailsDistinct, RulesOk, PackagesOk, SequencesOk, IssuedOk;
  }

  lemma {:induction false} RevokedForGood(cfg: AuthConfig, s: Sys, events: seq<Event>, h: TokenHash)
    requires Inv(cfg, s) && Possible(cfg, s, events) && h in s.db.tokens && s.db.tokens[h].revoked
    requires s.db.tokens[h].user in Exec(cfg, s, events).db.users
    ensures var after := Exec(cfg, s, events).db.tokens; h in after && after[h] == s.db.tokens[h]
    decreases |events|
  {
    hide Consistent, NextDb, Signed, IssuedOk, Revokes, LogsIn;
    if events != [] {
      var next := Apply(cfg, s, events[0]);
      ApplyKeepsInv(cfg, s, events[0]);
      TokenOwnerUsed(cfg, s, h);
      ThereAllAlong(cfg, next, events[1..], s.db.tokens[h].user);
      TokensAfterStep(cfg, s, events[0]);
      RevokedForGood(cfg, next, events[1..], h);
    }
  }

  /** The whole life of a session: the refresh token of a login brings its user access tokens, after any run, up to its
      expiry exactly as long as the user is there and active and has not logged out before the expiry. */
  lemma SessionLastsIff(cfg: AuthConfig, s: Sys, e: Event, rest: seq<Event>, now: Time)
    requires Inv(cfg, s) && Enabled(s, e) && LogsIn(cfg, s.db, e).Some? && e.request.raw != ""
    requires (ApplyKeepsInv(cfg, s, e); Possible(cfg, Apply(cfg, s, e), rest))
    ensures (ApplyKeepsInv(cfg, s, e);
      var user, token := LogsIn(cfg, s.db, e).value,
        RefreshToken(LogsIn(cfg, s.db, e).value, e.at + cfg.refreshTtlDays * 86_400_000_000, false);
      var db := Exec(cfg, Apply(cfg, s, e), rest).db;
      var r := Refresh(cfg, db, e.request.raw, now);
      r.Some? && r.value.claims.user == user <==>
        && now <= token.expiresAt && user in db.users && db.users[user].row.isActive
        && !LoggedOut(cfg, Apply(cfg, s, e), rest, token))
  {
    hide Consistent, NextDb, Signed, IssuedOk, Revokes, Possible, Enabled, LoggedOut, Exec;
    ApplyKeepsInv(cfg, s, e);
    var next := Apply(cfg, s, e);
    var user, h := LogsIn(cfg, s.db, e).value, HashOf(e.request.raw);
    TokensAfterStep(cfg, s, e);
    var db := Exec(cfg, next, rest).db;
    RefreshFor(cfg, db, e.request.raw, now);
    if user in db.users {
      TokenThroughRun(cfg, next, rest, h);
    }
  }

  lemma RefreshFor(cfg: AuthConfig, db: Db, raw: string, now: Time)
    requires raw != ""
    ensures var r := Refresh(cfg, db, raw, now);
      r.Some? ==>
        && HashOf(raw) in db.tokens && r.value.claims.user == db.tokens[HashOf(raw)].user
        && r.value.claims.user in db.users
  {
  }

  // ----- Access tokens --------------------------------------------------------------

  lemma SignedVerifies(cfg: AuthConfig, db: Db, e: Event, now: Time)
    requires Signed(cfg, db, e).Some?
    ensures var token := Signed(cfg, db, e).value;
      VerifyJwt(cfg, token, now) == if now < token.expiresAt then Some(token.claims) else None
  {
    hide D.EmailTaken;
  }

  /** In every reachable state an access token is accepted exactly when it was issued and has not expired, and stands
      for the claims it was issued with. */
  lemma AcceptedUntilExpiry(cfg: AuthConfig, s: Sys, events: seq<Event>, token: Jwt, now: Time)
    requires Inv(cfg, s) && Possible(cfg, s, events) && token !in s.issued
    ensures var end := Exec(cfg, s, events);
      Accepts(cfg, end, token, now)
      == if token in end.issued && now < token.expiresAt then Some(token.claims) else None
  {
    hide Signed, Enabled, Possible, NextDb, Consistent;
    if token in Exec(cfg, s, events).issued {
      IssuedWasSigned(cfg, s, events, token);
      var k: nat :| k < |events| && SignedAt(cfg, s, events, k, token);
      ExecSplit(cfg, s, events, k);
      SignedVerifies(cfg, Exec(cfg, s, events[..k]).db, events[k], now);
    }
  }
}
