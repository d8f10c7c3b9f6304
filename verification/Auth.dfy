/** The UI authentication handlers: login, token refresh, logout and the user-management requests.
    HMAC, bcrypt and SHA-256 are ideal; `now` is the one clock, read once per request. */
module Auth {
  import opened Tables
  import opened Schema
  import opened Store
  import D = DbUtil

  datatype AuthConfig = AuthConfig(secret: string, accessTtlMinutes: nat, refreshTtlDays: nat) {
    function AccessTtl(): nat {
      accessTtlMinutes * D.MINUTE
    }

    function RefreshTtl(): nat {
      refreshTtlDays * 24 * 60 * D.MINUTE
    }
  }

  // ----- Access tokens --------------------------------------------------------------

  datatype Claims = Claims(user: string, email: string, role: Role, tenant: int)
  datatype Mac = Hmac(secret: string, claims: Claims, issuedAt: Time, expiresAt: Time)
  datatype Jwt = Jwt(claims: Claims, issuedAt: Time, expiresAt: Time, mac: Mac)

  /** Numeric dates carry whole seconds. */
  function NumericDate(t: Time): (r: Time)
    ensures r <= t < r + D.SECOND
  {
    t - t % D.SECOND
  }

  function SignJwt(cfg: AuthConfig, user: string, row: Owned<User>, now: Time): Jwt {
    var claims := Claims(user, row.row.email, row.row.role, row.tenant);
    var iat, exp := NumericDate(now), NumericDate(now + cfg.AccessTtl());
    Jwt(claims, iat, exp, Hmac(cfg.secret, claims, iat, exp))
  }

  /** The claims of a token that carries the server's MAC and is not expired (section 4.1.4 of RFC 7519:
      it must not be accepted on or after its expiration time). */
  function VerifyJwt(cfg: AuthConfig, token: Jwt, now: Time): Option<Claims> {
    if token.mac == Hmac(cfg.secret, token.claims, token.issuedAt, token.expiresAt) && now < token.expiresAt
    then Some(token.claims) else None
  }

  // ----- Login, refresh, logout -----------------------------------------------------

  datatype LoginResult =
    | BadRequest
    | UnknownUser
    | InactiveUser
    | AccountLocked
    | IncorrectPassword
    | InternalError
    | LoggedIn(access: Jwt, refresh: string)

  ghost function UserByEmail(db: Db, email: string): (u: string)
    requires D.EmailTaken(db, email)
    ensures u in db.users && Lower(db.users[u].row.email) == Lower(email)
  {
    var u :| u in db.users && Lower(db.users[u].row.email) == Lower(email);
    u
  }

  predicate IsLocked(u: User, now: Time) {
    u.lockoutUntil.Some? && now < u.lockoutUntil.value
  }

  /** `raw` is the opaque refresh token drawn for this login. */
  ghost function Login(cfg: AuthConfig, db: Db, email: string, password: string, raw: string,
      now: Time): (Db, LoginResult) {
    if email == "" || password == "" then (db, BadRequest)
    else if !D.EmailTaken(db, email) then (db, UnknownUser)
    else
      var id := UserByEmail(db, email);
      var u := db.users[id].row;
      if !u.isActive then (db, InactiveUser)
      else if IsLocked(u, now) then (db, AccountLocked)
      else if u.passwordHash != Bcrypt(password) then (D.RecordFailedAttempt(db, id, now), IncorrectPassword)
      else
        var (after, stored) := D.InsertRefreshToken(D.ClearLockout(db, id), id, raw, now + cfg.RefreshTtl());
        (after, if stored then LoggedIn(SignJwt(cfg, id, db.users[id], now), raw) else InternalError)
  }

  /** The access token a refresh answers, if it is granted. */
  function Refresh(cfg: AuthConfig, db: Db, raw: string, now: Time): Option<Jwt> {
    if raw == "" || HashOf(raw) !in db.tokens then None
    else
      var rt := db.tokens[HashOf(raw)];
      if rt.revoked || now > rt.expiresAt then None
      else if rt.user !in db.users || !db.users[rt.user].row.isActive then None
      else Some(SignJwt(cfg, rt.user, db.users[rt.user], now))
  }

  // ----- User management ------------------------------------------------------------

  datatype Status = Ok | Forbidden | Malformed | NotFound | Conflict

  const MIN_PASSWORD_LEN := 12

  ghost function CreateUser(db: Db, claims: Claims, id: string, email: string, password: string,
      role: Role): (Db, Status) {
    if claims.role != SystemAdmin then (db, Forbidden)
    else if email == "" || |password| < MIN_PASSWORD_LEN then (db, Malformed)
    else
      var (after, ok) := D.InsertUser(db, id, claims.tenant, email, Bcrypt(password), role);
      (after, if ok then Ok else Conflict)
  }

  function RemoveUser(db: Db, claims: Claims, user: string): (Db, Status) {
    if claims.role != SystemAdmin then (db, Forbidden)
    else if claims.user == user then (db, Malformed)
    else
      var (after, ok) := D.DeleteUser(db, user, claims.tenant);
      (after, if ok then Ok else NotFound)
  }

  function ResetPassword(db: Db, claims: Claims, user: string, password: string): (Db, Status) {
    if claims.role == SecurityAnalyst && claims.user != user then (db, Forbidden)
    else if |password| < MIN_PASSWORD_LEN then (db, Malformed)
    else
      var (after, ok) := D.ResetUserPassword(db, user, claims.tenant, Bcrypt(password));
      if ok then (D.ClearLockout(after, user), Ok) else (after, NotFound)
  }

  // ----- The server -----------------------------------------------------------------

  class Server {
    const cfg: AuthConfig
    const db: Database

    constructor (db: Database, cfg: AuthConfig)
      ensures this.db == db && this.cfg == cfg
    {
      this.db := db;
      this.cfg := cfg;
    }

    method HandleUserLogin(email: string, password: string, raw: string, now: Time) returns (r: LoginResult)
      requires EmailsDistinct(db.users)
      modifies db`users, db`tokens
      ensures (db.Snapshot(), r) == Login(cfg, old(db.Snapshot()), email, password, raw, now)
    {
      if email == "" || password == "" {
        return BadRequest;
      }
      if id :| id in db.users && Lower(db.users[id].row.email) == Lower(email) {
        assert id == UserByEmail(db.Snapshot(), email);
        var user := db.users[id];
        if !user.row.isActive {
          return InactiveUser;
        }
        if user.row.lockoutUntil.Some? && now < user.row.lockoutUntil.value {
          return AccountLocked;
        }
        if user.row.passwordHash != Bcrypt(password) {
          db.RecordFailedAttempt(id, now);
          return IncorrectPassword;
        }
        db.ClearLockout(id);
        var access := SignJwt(cfg, id, user, now);
        var stored := db.InsertRefreshToken(id, raw, now + cfg.RefreshTtl());
        return if stored then LoggedIn(access, raw) else InternalError;
      }
      return UnknownUser;
    }

    method HandleAccessTokenRefresh(raw: string, now: Time) returns (r: Option<Jwt>)
      ensures r == Refresh(cfg, db.Snapshot(), raw, now)
    {
      if raw == "" || HashOf(raw) !in db.tokens {
        return None;
      }
      var rt := db.tokens[HashOf(raw)];
      if rt.revoked || now > rt.expiresAt {
        return None;
      }
      if rt.user !in db.users {
        return None;
      }
      var user := db.users[rt.user];
      if !user.row.isActive {
        return None;
      }
      return Some(SignJwt(cfg, rt.user, user, now));
    }

    method HandleUserLogout(claims: Claims, now: Time)
      modifies db`tokens
      ensures db.Snapshot() == D.RevokeRefreshTokens(old(db.Snapshot()), claims.user, now)
    {
      db.RevokeRefreshTokens(claims.user, now);
    }

    method HandleCreateUser(claims: Claims, id: string, email: string, password: string, role: Role) returns (r: Status)
      modifies db`users
      ensures (db.Snapshot(), r) == CreateUser(old(db.Snapshot()), claims, id, email, password, role)
    {
      if claims.role != SystemAdmin {
        return Forbidden;
      }
      if email == "" || |password| < MIN_PASSWORD_LEN {
        return Malformed;
      }
      var ok := db.InsertUser(id, claims.tenant, email, Bcrypt(password), role);
      return if ok then Ok else Conflict;
    }

    method HandleDeleteUser(claims: Claims, user: string) returns (r: Status)
      modifies db`users, db`tokens
      ensures (db.Snapshot(), r) == RemoveUser(old(db.Snapshot()), claims, user)
    {
      if claims.role != SystemAdmin {
        return Forbidden;
      }
      if claims.user == user {
        return Malformed;
      }
      var ok := db.DeleteUser(user, claims.tenant);
      return if ok then Ok else NotFound;
    }

    method HandleResetPassword(claims: Claims, user: string, password: string) returns (r: Status)
      modifies db`users
      ensures (db.Snapshot(), r) == ResetPassword(old(db.Snapshot()), claims, user, password)
    {
      if claims.role == SecurityAnalyst && claims.user != user {
        return Forbidden;
      }
      if |password| < MIN_PASSWORD_LEN {
        return Malformed;
      }
      var ok := db.ResetUserPassword(user, claims.tenant, Bcrypt(password));
      if !ok {
        return NotFound;
      }
      db.ClearLockout(user);
      return Ok;
    }

    /** The users listed for an authenticated caller; none when the role does not allow it. */
    method HandleListUsers(claims: Claims) returns (r: Option<seq<string>>)
      ensures r.Some? <==> claims.role == SystemAdmin
      ensures r.Some? ==> forall u :: u in r.value <==> u in D.ListedUsers(db.users, claims.tenant)
    {
      if claims.role != SystemAdmin {
        return None;
      }
      var rows := db.ListUsers(claims.tenant);
      return Some(rows);
    }

    method HandleListDevices(claims: Claims) returns (rows: seq<string>)
      ensures forall d :: d in rows <==> d in D.ListedDevices(db.devices, claims.tenant)
    {
      rows := db.ListDevices(claims.tenant);
    }
  }
}
