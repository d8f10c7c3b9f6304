/** The login and session machine over whole runs: requests of any users and maintenance of the
    database, in any order, against one clock. */
module Sessions {
  import opened Tables
  import opened Schema
  import opened Text
  import opened Auth
  import opened Operations
  import D = DbUtil
  import M = Migration

  datatype Request =
    | LoginRequest(email: string, password: string, raw: string)
    | RefreshRequest(raw: string)
    | LogoutRequest(token: Jwt)
    | CreateUserRequest(token: Jwt, newId: string, email: string, password: string, role: Role)
    | DeleteUserRequest(token: Jwt, user: string)
    | ResetPasswordRequest(token: Jwt, user: string, password: string)
    | Maintenance(op: DbOp)

  datatype Event = Event(at: Time, request: Request)

  /** The database, the access tokens signed so far, every user id drawn so far, and the clock. */
  datatype Sys = Sys(db: Db, issued: set<Jwt>, usedUsers: set<string>, clock: Time)

  /** The claims behind a bearer token. A token the server did not sign carries no valid MAC. */
  function Accepts(cfg: AuthConfig, s: Sys, token: Jwt, now: Time): Option<Claims> {
    if token in s.issued then VerifyJwt(cfg, token, now) else None
  }

  // ----- Steps ----------------------------------------------------------------------

  function NewUser(request: Request): Option<string> {
    if request.CreateUserRequest? then Some(request.newId)
    else if request.Maintenance? then AddedUser(request.op)
    else None
  }

  /** Time does not go back, user ids are drawn fresh, and a tenant id to move is a number. */
  predicate Enabled(s: Sys, e: Event) {
    && s.clock <= e.at
    && (NewUser(e.request).Some? ==> NewUser(e.request).value !in s.usedUsers)
    && (e.request.Maintenance? ==> WellFormed(e.request.op))
  }

  ghost function NextDb(cfg: AuthConfig, s: Sys, e: Event): Db
    requires Consistent(s.db) && Enabled(s, e)
  {
    match e.request
    case LoginRequest(email, password, raw) => Login(cfg, s.db, email, password, raw, e.at).0
    case RefreshRequest(raw) => s.db
    case LogoutRequest(token) =>
      var claims := Accepts(cfg, s, token, e.at);
      if claims.None? then s.db else D.RevokeRefreshTokens(s.db, claims.value.user, e.at)
    case CreateUserRequest(token, newId, email, password, role) =>
      var claims := Accepts(cfg, s, token, e.at);
      if claims.None? then s.db else CreateUser(s.db, claims.value, newId, email, password, role).0
    case DeleteUserRequest(token, user) =>
      var claims := Accepts(cfg, s, token, e.at);
      if claims.None? then s.db else RemoveUser(s.db, claims.value, user).0
    case ResetPasswordRequest(token, user, password) =>
      var claims := Accepts(cfg, s, token, e.at);
      if claims.None? then s.db else ResetPassword(s.db, claims.value, user, password).0
    case Maintenance(op) => Perform(s.db, op)
  }

  /** The access token the step hands out, if any. */
  ghost function Signed(cfg: AuthConfig, db: Db, e: Event): Option<Jwt> {
    match e.request
    case LoginRequest(email, password, raw) =>
      var r := Login(cfg, db, email, password, raw, e.at).1;
      if r.LoggedIn? then Some(r.access) else None
    case RefreshRequest(raw) => Refresh(cfg, db, raw, e.at)
    case _ => None
  }

  /** The user who completes a login in this step, if any. */
  ghost function LogsIn(cfg: AuthConfig, db: Db, e: Event): Option<string> {
    if e.request.LoginRequest? && Signed(cfg, db, e).Some? then Some(Signed(cfg, db, e).value.claims.user) else None
  }

  function SetOf<T>(o: Option<T>): set<T> {
    if o.Some? then {o.value} else {}
  }

  ghost function Apply(cfg: AuthConfig, s: Sys, e: Event): Sys
    requires Consistent(s.db) && Enabled(s, e)
  {
    Sys(NextDb(cfg, s, e), s.issued + SetOf(Signed(cfg, s.db, e)), s.usedUsers + SetOf(NewUser(e.request)), e.at)
  }

  // ----- What one step does to accounts and refresh tokens --------------------------

  /** Users keep tenant and email and never come back to activity; a new one is the one drawn. */
  ghost predicate UsersStep(before: Db, after: Db, added: Option<string>) {
    forall u | u in after.users ::
      if u in before.users then
        && after.users[u].tenant == before.users[u].tenant
        && after.users[u].row.email == before.users[u].row.email && after.users[u].row.role == before.users[u].row.role
        && (after.users[u].row.isActive ==> before.users[u].row.isActive)
      else added == Some(u) && after.users[u].tenant in before.tenants
  }

  /** Refresh tokens keep owner and expiry and never come back from revocation; a new one belongs to the
      user who logged in. */
  ghost predicate TokensStep(before: Db, after: Db, loggedIn: Option<string>) {
    forall h | h in after.tokens ::
      if h in before.tokens then
        && after.tokens[h].user == before.tokens[h].user && after.tokens[h].expiresAt == before.tokens[h].expiresAt
        && (before.tokens[h].revoked ==> after.tokens[h].revoked)
      else loggedIn == Some(after.tokens[h].user)
  }

  lemma AccountsStep(before: Db, after: Db, added: Option<string>)
    requires AccountsKept(before, after, added)
    ensures UsersStep(before, after, added) && TokensStep(before, after, None)
  {
  }

  lemma WithUserStep(db: Db, user: string, row: User)
    requires user in db.users && row.email == db.users[user].row.email && row.role == db.users[user].row.role
    requires row.isActive == db.users[user].row.isActive
    ensures UsersStep(db, D.WithUser(db, user, row), None) && TokensStep(db, D.WithUser(db, user, row), None)
  {
  }

  lemma RevokeStep(db: Db, user: string, now: Time)
    ensures UsersStep(db, D.RevokeRefreshTokens(db, user, now), None)
    ensures TokensStep(db, D.RevokeRefreshTokens(db, user, now), None)
  {
  }

  lemma InsertTokenStep(db: Db, user: string, raw: string, expiresAt: Time)
    ensures var (after, ok) := D.InsertRefreshToken(db, user, raw, expiresAt);
      UsersStep(db, after, None) && TokensStep(db, after, if ok then Some(user) else None)
  {
    hide UsersStep;
    NoStep(db);
    SameUsersStep(db, D.InsertRefreshToken(db, user, raw, expiresAt).0);
  }

  lemma SameUsersStep(db: Db, after: Db)
    requires after.users == db.users
    ensures UsersStep(db, after, None)
  {
  }

  lemma LoginSteps(cfg: AuthConfig, db: Db, email: string, password: string, raw: string, now: Time)
    requires Consistent(db)
    ensures var (after, r) := Login(cfg, db, email, password, raw, now);
      && Consistent(after)
      && UsersStep(db, after, None)
      && TokensStep(db, after, if r.LoggedIn? then Some(r.access.claims.user) else None)
  {
    hide Consistent, UsersStep, TokensStep, D.WithUser, D.InsertRefreshToken, D.EmailTaken, D.AfterFailure;
    NoStep(db);
    if D.EmailTaken(db, email) {
      var id := UserByEmail(db, email);
      RecordStep(db, id, now);
      ClearThenInsertStep(db, id, raw, now + cfg.RefreshTtl());
    }
  }

  lemma NoStep(db: Db)
    ensures UsersStep(db, db, None) && TokensStep(db, db, None)
  {
  }

  lemma RecordStep(db: Db, user: string, now: Time)
    requires Consistent(db) && user in db.users
    ensures var after := D.RecordFailedAttempt(db, user, now);
      Consistent(after) && UsersStep(db, after, None) && TokensStep(db, after, None)
  {
    hide Consistent, UsersStep, TokensStep, D.WithUser;
    var row := D.AfterFailure(db.users[user].row, now);
    D.WithUserKeeps(db, user, row);
    WithUserStep(db, user, row);
  }

  lemma ClearStep(db: Db, user: string)
    requires Consistent(db) && user in db.users
    ensures var after := D.ClearLockout(db, user);
      Consistent(after) && user in after.users && UsersStep(db, after, None) && TokensStep(db, after, None)
  {
    hide Consistent, UsersStep, TokensStep;
    var row := db.users[user].row.(failedAttempts := 0, lockoutUntil := None);
    D.WithUserKeeps(db, user, row);
    WithUserStep(db, user, row);
  }

  lemma ClearThenInsertStep(db: Db, user: string, raw: string, expiresAt: Time)
    requires Consistent(db) && user in db.users
    ensures var (after, ok) := D.InsertRefreshToken(D.ClearLockout(db, user), user, raw, expiresAt);
      Consistent(after) && UsersStep(db, after, None) && TokensStep(db, after, if ok then Some(user) else None)
  {
    hide Consistent;
    var cleared := D.ClearLockout(db, user);
    ClearStep(db, user);
    D.InsertRefreshTokenKeeps(cleared, user, raw, expiresAt);
    InsertTokenStep(cleared, user, raw, expiresAt);
  }

  lemma TwoSteps(a: Db, b: Db, c: Db)
    requires UsersStep(a, b, None) && UsersStep(b, c, None) && TokensStep(a, b, None) && TokensStep(b, c, None)
    ensures UsersStep(a, c, None) && TokensStep(a, c, None)
  {
  }

  lemma ResetStep(db: Db, claims: Claims, user: string, password: string)
    requires Consistent(db)
    ensures var after := ResetPassword(db, claims, user, password).0;
      Consistent(after) && UsersStep(db, after, None) && TokensStep(db, after, None)
  {
    hide Consistent, UsersStep, TokensStep, D.ClearLockout;
    NoStep(db);
    if D.UserOf(db, user, claims.tenant) {
      var row := db.users[user].row.(passwordHash := Bcrypt(password));
      D.WithUserKeeps(db, user, row);
      WithUserStep(db, user, row);
      var reset := D.WithUser(db, user, row);
      ClearStep(reset, user);
      TwoSteps(db, reset, D.ClearLockout(reset, user));
    }
  }

  lemma CreateStep(db: Db, claims: Claims, id: string, email: string, password: string, role: Role)
    requires Consistent(db)
    ensures var after := CreateUser(db, claims, id, email, password, role).0;
      Consistent(after) && UsersStep(db, after, Some(id)) && TokensStep(db, after, None)
  {
    hide Consistent, UsersStep, TokensStep, D.InsertUser, AccountsKept;
    D.InsertUserKeeps(db, id, claims.tenant, email, Bcrypt(password), role);
    InsertKeepsAccounts(db, id, claims.tenant, email, Bcrypt(password), role);
    AccountsStep(db, D.InsertUser(db, id, claims.tenant, email, Bcrypt(password), role).0, Some(id));
    NoStep(db);
    UsersStepMore(db, db, id);
  }

  lemma UsersStepMore(a: Db, b: Db, id: string)
    requires UsersStep(a, b, None)
    ensures UsersStep(a, b, Some(id))
  {
  }

  lemma RemoveStep(db: Db, claims: Claims, user: string)
    requires Consistent(db)
    ensures var after := RemoveUser(db, claims, user).0;
      Consistent(after) && UsersStep(db, after, None) && TokensStep(db, after, None)
  {
    hide Consistent, UsersStep, TokensStep, D.DeleteUser, AccountsKept;
    D.DeleteUserKeeps(db, user, claims.tenant);
    DeleteKeepsAccounts(db, user, claims.tenant);
    AccountsStep(db, D.DeleteUser(db, user, claims.tenant).0, None);
    NoStep(db);
  }

  /** The two step relations and consistency, for every request. */
  lemma NextDbSteps(cfg: AuthConfig, s: Sys, e: Event)
    requires Consistent(s.db) && Enabled(s, e)
    ensures var after := NextDb(cfg, s, e);
      && Consistent(after)
      && UsersStep(s.db, after, NewUser(e.request))
      && TokensStep(s.db, after, LogsIn(cfg, s.db, e))
  {
    hide Consistent, UsersStep, TokensStep, Perform, AccountsKept, WellFormed, Accepts;
    hide Login, RemoveUser, CreateUser, ResetPassword, D.RevokeRefreshTokens;
    NoStep(s.db);
    match e.request {
      case LoginRequest(email, password, raw) =>
        LoginSteps(cfg, s.db, email, password, raw, e.at);
      case RefreshRequest(raw) =>
      case LogoutRequest(token) =>
        var claims := Accepts(cfg, s, token, e.at);
        if claims.Some? {
          D.RevokeRefreshTokensKeeps(s.db, claims.value.user, e.at);
          RevokeStep(s.db, claims.value.user, e.at);
        }
      case CreateUserRequest(token, newId, email, password, role) =>
        UsersStepMore(s.db, s.db, newId);
        var claims := Accepts(cfg, s, token, e.at);
        if claims.Some? {
          CreateStep(s.db, claims.value, newId, email, password, role);
        }
      case DeleteUserRequest(token, user) =>
        var claims := Accepts(cfg, s, token, e.at);
        if claims.Some? {
          RemoveStep(s.db, claims.value, user);
        }
      case ResetPasswordRequest(token, user, password) =>
        var claims := Accepts(cfg, s, token, e.at);
        if claims.Some? {
          ResetStep(s.db, claims.value, user, password);
        }
      case Maintenance(op) =>
        PerformKeepsConsistent(s.db, op);
        PerformKeepsAccounts(s.db, op);
        AccountsStep(s.db, Perform(s.db, op), AddedUser(op));
    }
  }

  /** A refresh token of the user that is neither revoked nor past its expiry. */
  ghost predicate LiveToken(db: Db, user: string, now: Time) {
    exists h :: h in db.tokens && db.tokens[h].user == user && !db.tokens[h].revoked && now <= db.tokens[h].expiresAt
  }

  /** An access token is signed only for an active user, with the tenant, email and role of the user's row and for the
      time of an access token, and only for a completed login or a live refresh token. */
  lemma SignedFor(cfg: AuthConfig, db: Db, e: Event)
    requires Signed(cfg, db, e).Some?
    ensures var token := Signed(cfg, db, e).value;
      var u := token.claims.user;
      && u in db.users && db.users[u].row.isActive
      && token.claims == Claims(u, db.users[u].row.email, db.users[u].row.role, db.users[u].tenant)
      && token.issuedAt == NumericDate(e.at)
      && token.expiresAt == NumericDate(e.at + cfg.AccessTtl()) == NumericDate(e.at + cfg.accessTtlMinutes * 60_000_000)
      && (LogsIn(cfg, db, e) == Some(u) || LiveToken(db, u, e.at))
  {
    if e.request.RefreshRequest? {
      var rt := db.tokens[HashOf(e.request.raw)];
      assert LiveToken(db, rt.user, e.at);
    }
  }

  // ----- The invariant --------------------------------------------------------------

  /** What an issued access token says agrees with the user it was issued to. */
  ghost predicate IssuedOk(cfg: AuthConfig, s: Sys, token: Jwt) {
    var u := token.claims.user;
    && u in s.usedUsers
    && token.expiresAt <= s.clock + cfg.AccessTtl()
    && token.claims.tenant >= 1
    && (u in s.db.users ==>
          token.claims == Claims(u, s.db.users[u].row.email, s.db.users[u].row.role, s.db.users[u].tenant))
  }

  ghost predicate Inv(cfg: AuthConfig, s: Sys) {
    && Consistent(s.db)
    && s.db.users.Keys <= s.usedUsers
    && forall token :: token in s.issued ==> IssuedOk(cfg, s, token)
  }

  lemma StartsWithInv(cfg: AuthConfig)
    ensures Inv(cfg, Sys(EMPTY_DB, {}, {}, 0))
  {
    hide Consistent;
    EmptyIsConsistent();
  }

  /** Tenant ids are positive, and so are those of users. */
  lemma UserTenantPositive(db: Db, u: string)
    requires Consistent(db) && u in db.users
    ensures db.users[u].tenant >= 1
  {
    var t := db.users[u].tenant;
    assert TenantRowOk(t, db.tenants[t]);
  }

  lemma ApplyKeepsInv(cfg: AuthConfig, s: Sys, e: Event)
    requires Inv(cfg, s) && Enabled(s, e)
    ensures Inv(cfg, Apply(cfg, s, e))
  {
    hide Consistent, NextDb, Signed, LogsIn, LiveToken, NewUser, TokensStep;
    var after := Apply(cfg, s, e);
    NextDbSteps(cfg, s, e);
    forall token | token in after.issued
      ensures IssuedOk(cfg, after, token)
    {
      if token !in s.issued {
        SignedFor(cfg, s.db, e);
        UserTenantPositive(s.db, token.claims.user);
      }
    }
  }

  // ----- Runs -----------------------------------------------------------------------

  /** The events can happen one after the other. */
  ghost predicate Possible(cfg: AuthConfig, s: Sys, events: seq<Event>)
    requires Inv(cfg, s)
    decreases |events|
  {
    events == [] ||
    (Enabled(s, events[0]) && (ApplyKeepsInv(cfg, s, events[0]); Possible(cfg, Apply(cfg, s, events[0]), events[1..])))
  }

  /** The state after the events. */
  ghost function Exec(cfg: AuthConfig, s: Sys, events: seq<Event>): (r: Sys)
    requires Inv(cfg, s) && Possible(cfg, s, events)
    ensures Inv(cfg, r)
    ensures s.clock <= r.clock
    decreases |events|
  {
    if events == [] then s
    else
      ApplyKeepsInv(cfg, s, events[0]);
      Exec(cfg, Apply(cfg, s, events[0]), events[1..])
  }

  /** A possible list of events can be cut anywhere. */
  lemma {:induction false} ExecSplit(cfg: AuthConfig, s: Sys, events: seq<Event>, i: nat)
    requires Inv(cfg, s) && Possible(cfg, s, events) && i <= |events|
    ensures Possible(cfg, s, events[..i])
    ensures Possible(cfg, Exec(cfg, s, events[..i]), events[i..])
    ensures Exec(cfg, s, events) == Exec(cfg, Exec(cfg, s, events[..i]), events[i..])
    decreases |events|
  {
    if i > 0 {
      ApplyKeepsInv(cfg, s, events[0]);
      assert events[..i][1..] == events[1..][..i - 1];
      assert events[1..][i - 1..] == events[i..];
      ExecSplit(cfg, Apply(cfg, s, events[0]), events[1..], i - 1);
    }
  }

  // ----- What a login gives ---------------------------------------------------------

  /** A completed login gives an access token that is accepted until its expiry, rounded down to a second, and a
      refresh token that is honoured up to and including its own. */
  lemma LoginGivesSession(cfg: AuthConfig, s: Sys, e: Event, x: Time)
    requires Inv(cfg, s) && Enabled(s, e) && e.request.LoginRequest? && e.request.raw != ""
    requires LogsIn(cfg, s.db, e).Some?
    ensures var after, token := Apply(cfg, s, e), Signed(cfg, s.db, e).value;
      && (Accepts(cfg, after, token, x).Some? <==> x < NumericDate(e.at + cfg.AccessTtl()))
      && (Refresh(cfg, after.db, e.request.raw, x).Some? <==> x <= e.at + cfg.RefreshTtl())
  {
    hide Consistent, IssuedOk;
  }

  // ----- Requests stay in their tenant ----------------------------------------------

  /** Users of other tenants, and their refresh tokens, are as they were; a new user belongs to this tenant. */
  ghost predicate OthersKept(before: Db, after: Db, tenant: int) {
    && (forall u | u in before.users && before.users[u].tenant != tenant ::
      u in after.users && after.users[u] == before.users[u])
    && (forall u | u in after.users && u !in before.users :: after.users[u].tenant == tenant)
    && (forall h | h in before.tokens && before.tokens[h].user in before.users
      && before.users[before.tokens[h].user].tenant != tenant ::
          h in after.tokens && after.tokens[h] == before.tokens[h])
  }

  lemma WithUserKeepsOthers(db: Db, user: string, row: User, tenant: int)
    requires D.UserOf(db, user, tenant)
    ensures OthersKept(db, D.WithUser(db, user, row), tenant)
  {
  }

  lemma OthersKeptTwice(a: Db, b: Db, c: Db, tenant: int)
    requires OthersKept(a, b, tenant) && OthersKept(b, c, tenant) && UsersStep(a, b, None)
    ensures OthersKept(a, c, tenant)
  {
  }

  lemma ResetKeepsOthers(db: Db, claims: Claims, user: string, password: string)
    ensures OthersKept(db, ResetPassword(db, claims, user, password).0, claims.tenant)
  {
    hide OthersKept, D.WithUser, UsersStep, TokensStep;
    NothingKeepsOthers(db, claims.tenant);
    if D.UserOf(db, user, claims.tenant) {
      var row := db.users[user].row.(passwordHash := Bcrypt(password));
      var reset := D.WithUser(db, user, row);
      StillUserOf(db, user, row, claims.tenant);
      WithUserKeepsOthers(db, user, row, claims.tenant);
      WithUserStep(db, user, row);
      var cleared := reset.users[user].row.(failedAttempts := 0, lockoutUntil := None);
      WithUserKeepsOthers(reset, user, cleared, claims.tenant);
      OthersKeptTwice(db, reset, D.WithUser(reset, user, cleared), claims.tenant);
    }
  }

  lemma StillUserOf(db: Db, user: string, row: User, tenant: int)
    requires D.UserOf(db, user, tenant)
    ensures D.UserOf(D.WithUser(db, user, row), user, tenant)
  {
  }

  lemma NothingKeepsOthers(db: Db, tenant: int)
    ensures OthersKept(db, db, tenant)
  {
  }

  lemma CreateKeepsOthers(db: Db, claims: Claims, id: string, email: string, password: string, role: Role)
    ensures OthersKept(db, CreateUser(db, claims, id, email, password, role).0, claims.tenant)
  {
    hide OthersKept, D.InsertUser;
    NothingKeepsOthers(db, claims.tenant);
    InsertKeepsOthers(db, id, claims.tenant, email, Bcrypt(password), role);
  }

  lemma InsertKeepsOthers(db: Db, id: string, tenant: int, email: string, hash: PasswordHash, role: Role)
    ensures OthersKept(db, D.InsertUser(db, id, tenant, email, hash, role).0, tenant)
  {
    hide D.EmailTaken;
  }

  lemma RemoveKeepsOthers(db: Db, claims: Claims, user: string)
    ensures OthersKept(db, RemoveUser(db, claims, user).0, claims.tenant)
  {
    hide OthersKept;
    NothingKeepsOthers(db, claims.tenant);
    if D.UserOf(db, user, claims.tenant) {
      DropKeepsOthers(db, user, claims.tenant);
    }
  }

  lemma DropKeepsOthers(db: Db, user: string, tenant: int)
    requires D.UserOf(db, user, tenant)
    ensures OthersKept(db, D.DeleteUser(db, user, tenant).0, tenant)
  {
  }

  lemma RevokeKeepsOthers(db: Db, user: string, now: Time, tenant: int)
    requires user in db.users ==> db.users[user].tenant == tenant
    ensures OthersKept(db, D.RevokeRefreshTokens(db, user, now), tenant)
  {
  }

  /** In every reachable state, a request made with an access token touches no user of another tenant than the token's,
      nor their sessions. */
  lemma RequestsStayInTenant(cfg: AuthConfig, s: Sys, e: Event)
    requires Inv(cfg, s) && Enabled(s, e)
    requires e.request.LogoutRequest? || e.request.CreateUserRequest? || e.request.DeleteUserRequest?
      || e.request.ResetPasswordRequest?
    ensures OthersKept(s.db, NextDb(cfg, s, e), e.request.token.claims.tenant)
  {
    hide Consistent, OthersKept, Login, CreateUser, RemoveUser, ResetPassword, D.RevokeRefreshTokens, Perform;
    var token := e.request.token;
    NothingKeepsOthers(s.db, token.claims.tenant);
    if Accepts(cfg, s, token, e.at).Some? {
      assert IssuedOk(cfg, s, token);
      match e.request {
        case LogoutRequest(_) => RevokeKeepsOthers(s.db, token.claims.user, e.at, token.claims.tenant);
        case CreateUserRequest(_, id, email, password, role) => CreateKeepsOthers(s.db, token.claims, id, email,
          password, role);
        case DeleteUserRequest(_, user) => RemoveKeepsOthers(s.db, token.claims, user);
        case ResetPasswordRequest(_, user, password) => ResetKeepsOthers(s.db, token.claims, user, password);
        case _ =>
      }
    }
  }

  // ----- Session confinement --------------------------------------------------------

  /** Nothing of the user outlives t by more than an access token's life: no refresh token is both
      unrevoked and valid after t, and no access token is valid from t + TTL on. */
  ghost predicate Quiet(cfg: AuthConfig, s: Sys, user: string, t: Time) {
    && t <= s.clock
    && (forall h :: h in s.db.tokens && s.db.tokens[h].user == user ==>
      s.db.tokens[h].revoked || s.db.tokens[h].expiresAt <= t)
    && (forall token :: token in s.issued && token.claims.user == user ==> token.expiresAt <= t + cfg.AccessTtl())
  }

  lemma LogoutQuiets(cfg: AuthConfig, s: Sys, e: Event)
    requires Inv(cfg, s) && Enabled(s, e) && e.request.LogoutRequest?
    requires Accepts(cfg, s, e.request.token, e.at).Some?
    ensures Quiet(cfg, Apply(cfg, s, e), e.request.token.claims.user, e.at)
  {
    hide Consistent;
  }

  lemma QuietStays(cfg: AuthConfig, s: Sys, e: Event, user: string, t: Time)
    requires Inv(cfg, s) && Enabled(s, e) && Quiet(cfg, s, user, t)
    requires LogsIn(cfg, s.db, e) != Some(user)
    ensures Quiet(cfg, Apply(cfg, s, e), user, t)
  {
    hide Consistent, NextDb, Signed, LogsIn, UsersStep, NewUser, IssuedOk;
    NextDbSteps(cfg, s, e);
    if Signed(cfg, s.db, e).Some? {
      SignedFor(cfg, s.db, e);
    }
  }

  /** Step i happens in the state after the steps before it. */
  lemma StepAt(cfg: AuthConfig, s: Sys, events: seq<Event>, i: nat)
    requires Inv(cfg, s) && Possible(cfg, s, events) && i < |events|
    ensures Possible(cfg, s, events[..i]) && Possible(cfg, s, events[..i + 1])
    ensures Enabled(Exec(cfg, s, events[..i]), events[i])
    ensures Exec(cfg, s, events[..i + 1]) == Apply(cfg, Exec(cfg, s, events[..i]), events[i])
    ensures Possible(cfg, Exec(cfg, s, events[..i + 1]), events[i + 1..])
    ensures Exec(cfg, s, events) == Exec(cfg, Exec(cfg, s, events[..i + 1]), events[i + 1..])
  {
    hide Inv, Apply, Consistent;
    ExecSplit(cfg, s, events, i);
    ExecSplit(cfg, s, events, i + 1);
    ExecSplit(cfg, s, events[..i + 1], i);
    assert events[..i + 1][..i] == events[..i] && events[..i + 1][i..] == [events[i]];
    var mid := Exec(cfg, s, events[..i]);
    assert Possible(cfg, mid, [events[i]]);
    ApplyKeepsInv(cfg, mid, events[i]);
    assert [events[i]][1..] == [];
  }

  /** The user completes a login in step k of the run. */
  ghost predicate LogsInAt(cfg: AuthConfig, s: Sys, events: seq<Event>, k: nat, user: string)
    requires Inv(cfg, s) && Possible(cfg, s, events) && k < |events|
  {
    ExecSplit(cfg, s, events, k);
    LogsIn(cfg, Exec(cfg, s, events[..k]).db, events[k]) == Some(user)
  }

  lemma LogsInLater(cfg: AuthConfig, s: Sys, events: seq<Event>, i: nat, k: nat, user: string)
    requires Inv(cfg, s) && Possible(cfg, s, events) && i + k < |events|
    ensures (ExecSplit(cfg, s, events, i);
      LogsInAt(cfg, Exec(cfg, s, events[..i]), events[i..], k, user) <==> LogsInAt(cfg, s, events, i + k, user))
  {
    hide Inv, Apply, LogsIn, Enabled, Possible;
    ExecSplit(cfg, s, events, i);
    ExecSplit(cfg, s, events, i + k);
    ExecSplit(cfg, s, events[..i + k], i);
    ExecSplit(cfg, Exec(cfg, s, events[..i]), events[i..], k);
    assert events[..i + k][..i] == events[..i] && events[..i + k][i..] == events[i..][..k];
  }

  lemma {:induction false} QuietRun(cfg: AuthConfig, s: Sys, events: seq<Event>, user: string, t: Time)
    requires Inv(cfg, s) && Possible(cfg, s, events) && Quiet(cfg, s, user, t)
    requires forall k: nat | k < |events| :: !LogsInAt(cfg, s, events, k, user)
    ensures Quiet(cfg, Exec(cfg, s, events), user, t)
    decreases |events|
  {
    hide Quiet, Apply, LogsIn, Consistent, IssuedOk, Enabled;
    if events != [] {
      assert !LogsInAt(cfg, s, events, 0, user);
      assert events[..0] == [];
      StepAt(cfg, s, events, 0);
      QuietStays(cfg, s, events[0], user, t);
      forall k: nat | k < |events[1..]|
        ensures !LogsInAt(cfg, Exec(cfg, s, events[..1]), events[1..], k, user)
      {
        LogsInLater(cfg, s, events, 1, k, user);
        assert !LogsInAt(cfg, s, events, 1 + k, user);
      }
      QuietRun(cfg, Exec(cfg, s, events[..1]), events[1..], user, t);
    }
  }

  /** The user logs out in step i of the run. */
  ghost predicate LogsOutAt(cfg: AuthConfig, s: Sys, events: seq<Event>, i: nat, user: string)
    requires Inv(cfg, s) && Possible(cfg, s, events) && i < |events|
  {
    ExecSplit(cfg, s, events, i);
    && events[i].request.LogoutRequest?
    && events[i].request.token.claims.user == user
    && Accepts(cfg, Exec(cfg, s, events[..i]), events[i].request.token, events[i].at).Some?
  }

  /** Session confinement. A user logs out in step i, at time t; later an access token of that user is
      accepted at some x >= t + TTL. Then the user completed a login after the logout. */
  lemma SessionConfinement(cfg: AuthConfig, s: Sys, events: seq<Event>, i: nat, token: Jwt, x: Time)
    requires Inv(cfg, s) && Possible(cfg, s, events) && i < |events|
    requires LogsOutAt(cfg, s, events, i, token.claims.user)
    requires Accepts(cfg, Exec(cfg, s, events), token, x).Some? && x >= events[i].at + cfg.AccessTtl()
    ensures exists k: nat | i < k < |events| :: LogsInAt(cfg, s, events, k, token.claims.user)
  {
    hide Inv, Apply, LogsIn, Enabled, Possible;
    var user := token.claims.user;
    StepAt(cfg, s, events, i);
    LogoutQuiets(cfg, Exec(cfg, s, events[..i]), events[i]);
    var after, rest := Exec(cfg, s, events[..i + 1]), events[i + 1..];
    if forall k: nat | i < k < |events| :: !LogsInAt(cfg, s, events, k, user) {
      forall k: nat | k < |rest| ensures !LogsInAt(cfg, after, rest, k, user) {
        LogsInLater(cfg, s, events, i + 1, k, user);
        assert !LogsInAt(cfg, s, events, i + 1 + k, user);
      }
      QuietRun(cfg, after, rest, user, events[i].at);
    }
  }

  /** Why the bound is "at or after t": once the user has logged out at t, one of the user's refresh tokens
      is still honoured exactly when it was unrevoked and expires at t itself, and then only at t. */
  lemma RefreshAfterLogoutIff(cfg: AuthConfig, db: Db, user: string, t: Time, raw: string, now: Time)
    requires t <= now && raw != "" && HashOf(raw) in db.tokens && db.tokens[HashOf(raw)].user == user
    requires user in db.users && db.users[user].row.isActive
    ensures Refresh(cfg, D.RevokeRefreshTokens(db, user, t), raw, now).Some?
      <==> !db.tokens[HashOf(raw)].revoked && db.tokens[HashOf(raw)].expiresAt == t && now == t
  {
  }

  // ----- Accounts that have ended ---------------------------------------------------

  /** The user is deleted or inactive, and nothing signed for it lives past t + TTL. */
  ghost predicate Ended(cfg: AuthConfig, s: Sys, user: string, t: Time) {
    && user in s.usedUsers && t <= s.clock
    && (user in s.db.users ==> !s.db.users[user].row.isActive)
    && (forall token :: token in s.issued && token.claims.user == user ==> token.expiresAt <= t + cfg.AccessTtl())
  }

  /** The steps that end an account: an accepted delete request, a deactivation or deletion by the
      operator, the deletion of the user's tenant, and a move of it that commits. */
  ghost predicate EndsAccount(cfg: AuthConfig, s: Sys, e: Event, user: string)
    requires Inv(cfg, s) && Enabled(s, e)
  {
    user in s.db.users &&
    var tenant := s.db.users[user].tenant;
    match e.request
    case DeleteUserRequest(token, u) =>
      u == user && Accepts(cfg, s, token, e.at).Some?
      && RemoveUser(s.db, Accepts(cfg, s, token, e.at).value, u).1 == Ok
    case Maintenance(OnUsers(Deactivate(u, t))) => u == user && t == tenant
    case Maintenance(OnUsers(DropUser(u, t))) => u == user && t == tenant
    case Maintenance(OnTenants(DropTenant(id))) => id == tenant
    case Maintenance(OnTenants(MoveTenant(id, _, _, _))) => Numeral(id) == tenant
      && tenant !in Perform(s.db, e.request.op).tenants
    case _ => false
  }

  /** A user whose tenant is gone is gone. */
  lemma TenantGone(before: Db, after: Db, added: Option<string>, user: string)
    requires user in before.users && Consistent(after) && UsersStep(before, after, added)
    requires before.users[user].tenant !in after.tenants
    ensures user !in after.users
  {
    hide TenantsOk, NamesDistinct, KeysOk, TokensOk, EmailsDistinct, RulesOk, PackagesOk, SequencesOk;
  }

  lemma DroppedOnRequest(db: Db, claims: Claims, user: string)
    requires RemoveUser(db, claims, user).1 == Ok
    ensures user !in RemoveUser(db, claims, user).0.users
  {
  }

  lemma DroppedByOperator(db: Db, op: UserOp, user: string)
    requires user in db.users && (op == Deactivate(user, db.users[user].tenant)
      || op == DropUser(user, db.users[user].tenant))
    ensures var after := PerformOnUsers(db, op); user in after.users ==> !after.users[user].row.isActive
  {
  }

  lemma DroppedUser(cfg: AuthConfig, s: Sys, e: Event, user: string)
    requires Inv(cfg, s) && Enabled(s, e) && EndsAccount(cfg, s, e, user)
      && !(e.request.Maintenance? && e.request.op.OnTenants?)
    ensures user in NextDb(cfg, s, e).users ==> !NextDb(cfg, s, e).users[user].row.isActive
  {
    hide Consistent, IssuedOk, Accepts, RemoveUser, PerformOnTenants, PerformOnUsers;
    if e.request.DeleteUserRequest? {
      DroppedOnRequest(s.db, Accepts(cfg, s, e.request.token, e.at).value, user);
    } else {
      DroppedByOperator(s.db, e.request.op.userOp, user);
    }
  }

  lemma DroppedTenant(cfg: AuthConfig, s: Sys, e: Event, user: string)
    requires Inv(cfg, s) && Enabled(s, e) && EndsAccount(cfg, s, e, user) && e.request.Maintenance?
      && e.request.op.OnTenants?
    ensures user !in NextDb(cfg, s, e).users
  {
    hide Consistent, IssuedOk, UsersStep, TokensStep, M.AfterMove, PerformOnFleet, PerformOnUsers;
    NextDbSteps(cfg, s, e);
    TenantGone(s.db, NextDb(cfg, s, e), NewUser(e.request), user);
  }

  lemma EndsAccountEnds(cfg: AuthConfig, s: Sys, e: Event, user: string)
    requires Inv(cfg, s) && Enabled(s, e) && EndsAccount(cfg, s, e, user)
    ensures Ended(cfg, Apply(cfg, s, e), user, e.at)
  {
    hide Consistent, IssuedOk, NextDb, Signed;
    ApplyKeepsInv(cfg, s, e);
    IssuedBound(cfg, Apply(cfg, s, e), user);
    if e.request.Maintenance? && e.request.op.OnTenants? {
      DroppedTenant(cfg, s, e, user);
    } else {
      DroppedUser(cfg, s, e, user);
    }
  }

  lemma IssuedBound(cfg: AuthConfig, s: Sys, user: string)
    requires Inv(cfg, s)
    ensures forall token :: token in s.issued && token.claims.user == user ==>
      token.expiresAt <= s.clock + cfg.AccessTtl()
  {
    hide Consistent;
  }

  lemma EndedStays(cfg: AuthConfig, s: Sys, e: Event, user: string, t: Time)
    requires Inv(cfg, s) && Enabled(s, e) && Ended(cfg, s, user, t)
    ensures Ended(cfg, Apply(cfg, s, e), user, t)
  {
    hide Consistent, NextDb, Signed, LogsIn, TokensStep, IssuedOk, LiveToken;
    NextDbSteps(cfg, s, e);
    if Signed(cfg, s.db, e).Some? {
      SignedFor(cfg, s.db, e);
    }
  }

  lemma {:induction false} EndedRun(cfg: AuthConfig, s: Sys, events: seq<Event>, user: string, t: Time)
    requires Inv(cfg, s) && Possible(cfg, s, events) && Ended(cfg, s, user, t)
    ensures Ended(cfg, Exec(cfg, s, events), user, t)
    decreases |events|
  {
    hide Ended, Apply, Consistent, IssuedOk, Enabled;
    if events != [] {
      ApplyKeepsInv(cfg, s, events[0]);
      EndedStays(cfg, s, events[0], user, t);
      EndedRun(cfg, Apply(cfg, s, events[0]), events[1..], user, t);
    }
  }

  /** Once a step at time t has ended an account, no access token of that user is accepted at or after
      t + TTL, however the run goes on. */
  lemma NoAccessAfterEnd(cfg: AuthConfig, s: Sys, e: Event, rest: seq<Event>, user: string, token: Jwt, x: Time)
    requires Inv(cfg, s) && Enabled(s, e) && EndsAccount(cfg, s, e, user)
    requires (ApplyKeepsInv(cfg, s, e); Possible(cfg, Apply(cfg, s, e), rest))
    requires token.claims.user == user && x >= e.at + cfg.AccessTtl()
    ensures (ApplyKeepsInv(cfg, s, e); Accepts(cfg, Exec(cfg, Apply(cfg, s, e), rest), token, x).None?)
  {
    hide Consistent, EndsAccount, Apply, IssuedOk, Enabled;
    ApplyKeepsInv(cfg, s, e);
    EndsAccountEnds(cfg, s, e, user);
    EndedRun(cfg, Apply(cfg, s, e), rest, user, e.at);
  }

  // ----- Where a token's claims come from --------------------------------------------

  /** The token is signed in step k of the run. */
  ghost predicate SignedAt(cfg: AuthConfig, s: Sys, events: seq<Event>, k: nat, token: Jwt)
    requires Inv(cfg, s) && Possible(cfg, s, events) && k < |events|
  {
    ExecSplit(cfg, s, events, k);
    Signed(cfg, Exec(cfg, s, events[..k]).db, events[k]) == Some(token)
  }

  /** Every token issued in a run was signed in some step of it. */
  lemma {:induction false} IssuedWasSigned(cfg: AuthConfig, s: Sys, events: seq<Event>, token: Jwt)
    requires Inv(cfg, s) && Possible(cfg, s, events) && token in Exec(cfg, s, events).issued && token !in s.issued
    ensures exists k: nat | k < |events| :: SignedAt(cfg, s, events, k, token)
    decreases |events|
  {
    hide Inv, Signed, Enabled, Possible, NextDb;
    if events != [] {
      var n := |events| - 1;
      var front := events[..n];
      StepAt(cfg, s, events, n);
      assert events[..n + 1] == events;
      if token in Exec(cfg, s, front).issued {
        IssuedWasSigned(cfg, s, front, token);
        var k: nat :| k < n && SignedAt(cfg, s, front, k, token);
        assert front[..k] == events[..k];
        ExecSplit(cfg, s, events, k);
        assert SignedAt(cfg, s, events, k, token);
      } else {
        assert SignedAt(cfg, s, events, n, token);
      }
    }
  }

  /** The user's row in step k of the run, active, says what the claims say. */
  ghost predicate RowSays(cfg: AuthConfig, s: Sys, events: seq<Event>, k: nat, claims: Claims)
    requires Inv(cfg, s) && Possible(cfg, s, events) && k < |events|
  {
    ExecSplit(cfg, s, events, k);
    var db := Exec(cfg, s, events[..k]).db;
    claims.user in db.users && db.users[claims.user].row.isActive
    && claims == Claims(claims.user, db.users[claims.user].row.email, db.users[claims.user].row.role,
                        db.users[claims.user].tenant)
  }

  /** Nobody gets a role by asking: behind the claims of an accepted token stands, in some step of the run, the active
      row of its user with that email, role and tenant; and as long as the user is there, its row says so still. */
  lemma ClaimsComeFromRow(cfg: AuthConfig, s: Sys, events: seq<Event>, token: Jwt, now: Time)
    requires Inv(cfg, s) && Possible(cfg, s, events) && token !in s.issued
    requires Accepts(cfg, Exec(cfg, s, events), token, now).Some?
    ensures exists k: nat | k < |events| :: RowSays(cfg, s, events, k, token.claims)
    ensures var db := Exec(cfg, s, events).db;
      token.claims.user in db.users ==>
        token.claims.role == db.users[token.claims.user].row.role
          && token.claims.tenant == db.users[token.claims.user].tenant
  {
    hide Signed, Enabled, Possible, NextDb, Consistent, LiveToken, LogsIn;
    IssuedWasSigned(cfg, s, events, token);
    var k: nat :| k < |events| && SignedAt(cfg, s, events, k, token);
    ExecSplit(cfg, s, events, k);
    SignedFor(cfg, Exec(cfg, s, events[..k]).db, events[k]);
    assert RowSays(cfg, s, events, k, token.claims);
    assert IssuedOk(cfg, Exec(cfg, s, events), token);
  }

  /** The requests kept to administrators are granted only to a token whose user's row says so: it said so when
      the token was signed, and says so now if it is still there. */
  lemma AdministratorsOnly(cfg: AuthConfig, s: Sys, events: seq<Event>, e: Event)
    requires Inv(cfg, s) && Possible(cfg, s, events) && (e.request.CreateUserRequest? || e.request.DeleteUserRequest?)
    requires e.request.token !in s.issued && Accepts(cfg, Exec(cfg, s, events), e.request.token, e.at).Some?
    requires var db, claims := Exec(cfg, s, events).db, e.request.token.claims;
      match e.request
      case CreateUserRequest(_, id, email, password, role) => CreateUser(db, claims, id, email, password,
        role).1 != Forbidden
      case DeleteUserRequest(_, user) => RemoveUser(db, claims, user).1 != Forbidden
      case _ => false
    ensures e.request.token.claims.role == SystemAdmin
    ensures exists k: nat | k < |events| :: RowSays(cfg, s, events, k, e.request.token.claims)
    ensures var db, user := Exec(cfg, s, events).db, e.request.token.claims.user;
      user in db.users ==> db.users[user].row.role == SystemAdmin
  {
    hide Possible, Inv, Exec, Enabled, RowSays;
    ClaimsComeFromRow(cfg, s, events, e.request.token, e.at);
  }

  // ----- Tenant isolation -----------------------------------------------------------

  /** Behind every accepted access token stands a positive tenant id, the one of its user's row, so that the
      two lists answer exactly the rows of that tenant: their "every tenant" case is never reached. */
  lemma ListsStayInTenant(cfg: AuthConfig, s: Sys, token: Jwt, now: Time)
    requires Inv(cfg, s) && Accepts(cfg, s, token, now).Some?
    ensures var claims := Accepts(cfg, s, token, now).value;
      && claims.tenant >= 1
      && (claims.user in s.db.users ==> s.db.users[claims.user].tenant == claims.tenant)
      && D.ListedUsers(s.db.users, claims.tenant) == KeysOf(s.db.users, claims.tenant)
      && D.ListedDevices(s.db.devices, claims.tenant) == KeysOf(s.db.devices, claims.tenant)
  {
    hide Consistent;
    assert IssuedOk(cfg, s, token);
  }

  /** The same along every run from the empty database. */
  lemma ReachableListsStayInTenant(cfg: AuthConfig, events: seq<Event>, token: Jwt, now: Time)
    requires (StartsWithInv(cfg); Possible(cfg, Sys(EMPTY_DB, {}, {}, 0), events))
    requires (StartsWithInv(cfg); Accepts(cfg, Exec(cfg, Sys(EMPTY_DB, {}, {}, 0), events), token, now).Some?)
    ensures (StartsWithInv(cfg); var s := Exec(cfg, Sys(EMPTY_DB, {}, {}, 0), events);
      && token.claims.tenant != 0
      && D.ListedUsers(s.db.users, token.claims.tenant) == KeysOf(s.db.users, token.claims.tenant)
      && D.ListedDevices(s.db.devices, token.claims.tenant) == KeysOf(s.db.devices, token.claims.tenant))
  {
    hide Consistent, IssuedOk, Possible;
    StartsWithInv(cfg);
    ListsStayInTenant(cfg, Exec(cfg, Sys(EMPTY_DB, {}, {}, 0), events), token, now);
  }
}
