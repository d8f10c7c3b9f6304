/** The lockout policy over whole runs of serialised requests: how fast passwords can be tried. */
module Lockout {
  import opened Tables
  import opened Schema
  import opened Auth
  import opened Operations
  import opened Sessions
  import D = DbUtil

  /** The user whose password is compared and found wrong in this step, if any. */
  ghost function FailsFor(cfg: AuthConfig, db: Db, e: Event): Option<string> {
    if e.request.LoginRequest? && Login(cfg, db, e.request.email, e.request.password, e.request.raw,
      e.at).1 == IncorrectPassword
    then Some(UserByEmail(db, e.request.email)) else None
  }

  /** The user whose counter this step clears: by a correct password, or by a password reset over the API. */
  ghost function ClearsFor(cfg: AuthConfig, s: Sys, e: Event): Option<string> {
    match e.request
    case LoginRequest(email, password, raw) =>
      var r := Login(cfg, s.db, email, password, raw, e.at).1;
      if r.LoggedIn? || r.InternalError? then Some(UserByEmail(s.db, email)) else None
    case ResetPasswordRequest(token, user, password) =>
      var claims := Accepts(cfg, s, token, e.at);
      if claims.Some? && ResetPassword(s.db, claims.value, user, password).1 == Ok then Some(user) else None
    case _ => None
  }

  // ----- One step -------------------------------------------------------------------

  predicate SameCounters(a: User, b: User) {
    a.failedAttempts == b.failedAttempts && a.lockoutUntil == b.lockoutUntil
  }

  /** The counters of the user, if it is still there, are what they were. */
  predicate CountersKept(before: Db, after: Db, user: string) {
    user in after.users && user in before.users ==> SameCounters(before.users[user].row, after.users[user].row)
  }

  lemma OtherRowKeepsCounters(db: Db, id: string, row: User, user: string)
    requires id != user
    ensures CountersKept(db, D.WithUser(db, id, row), user)
  {
  }

  lemma TokenKeepsCounters(before: Db, db: Db, id: string, raw: string, expiresAt: Time, user: string)
    requires CountersKept(before, db, user)
    ensures CountersKept(before, D.InsertRefreshToken(db, id, raw, expiresAt).0, user)
  {
  }

  lemma LoginKeepsCounters(cfg: AuthConfig, s: Sys, e: Event, user: string)
    requires Consistent(s.db) && Enabled(s, e) && e.request.LoginRequest?
    requires FailsFor(cfg, s.db, e) != Some(user) && ClearsFor(cfg, s, e) != Some(user)
    ensures CountersKept(s.db, NextDb(cfg, s, e), user)
  {
    hide Consistent, CountersKept, D.WithUser, D.InsertRefreshToken, D.EmailTaken, D.AfterFailure, Perform;
    var db := s.db;
    NothingTouched(db, user);
    if D.EmailTaken(db, e.request.email) && UserByEmail(db, e.request.email) != user {
      var id := UserByEmail(db, e.request.email);
      OtherRowKeepsCounters(db, id, D.AfterFailure(db.users[id].row, e.at), user);
      OtherRowKeepsCounters(db, id, db.users[id].row.(failedAttempts := 0, lockoutUntil := None), user);
      TokenKeepsCounters(db, D.ClearLockout(db, id), id, e.request.raw, e.at + cfg.RefreshTtl(), user);
    }
  }

  lemma ResetKeepsCounters(db: Db, claims: Claims, user: string, password: string, other: string)
    requires ResetPassword(db, claims, user, password).1 == Ok ==> other != user
    ensures CountersKept(db, ResetPassword(db, claims, user, password).0, other)
  {
  }

  lemma MaintenanceKeepsCounters(before: Db, after: Db, added: Option<string>, user: string)
    requires AccountsKept(before, after, added)
    ensures CountersKept(before, after, user)
  {
  }

  lemma CreateKeepsCounters(db: Db, claims: Claims, id: string, email: string, password: string, role: Role,
      user: string)
    ensures CountersKept(db, CreateUser(db, claims, id, email, password, role).0, user)
  {
    hide D.InsertUser, AccountsKept, CountersKept;
    NothingTouched(db, user);
    var after := D.InsertUser(db, id, claims.tenant, email, Bcrypt(password), role).0;
    InsertKeepsAccounts(db, id, claims.tenant, email, Bcrypt(password), role);
    MaintenanceKeepsCounters(db, after, Some(id), user);
  }

  lemma RemoveKeepsCounters(db: Db, claims: Claims, id: string, user: string)
    ensures CountersKept(db, RemoveUser(db, claims, id).0, user)
  {
    hide D.DeleteUser, AccountsKept, CountersKept;
    NothingTouched(db, user);
    DeleteKeepsAccounts(db, id, claims.tenant);
    MaintenanceKeepsCounters(db, D.DeleteUser(db, id, claims.tenant).0, None, user);
  }

  /** Only a failed or a clearing step touches a user's counters. */
  lemma OtherStepsKeepCounters(cfg: AuthConfig, s: Sys, e: Event, user: string)
    requires Consistent(s.db) && Enabled(s, e)
    requires FailsFor(cfg, s.db, e) != Some(user) && ClearsFor(cfg, s, e) != Some(user)
    ensures CountersKept(s.db, NextDb(cfg, s, e), user)
  {
    hide Consistent, CountersKept, Perform, Login, CreateUser, RemoveUser, ResetPassword, AccountsKept, WellFormed,
      Accepts;
    match e.request {
      case LoginRequest(_, _, _) => LoginKeepsCounters(cfg, s, e, user);
      case ResetPasswordRequest(token, u, password) =>
        var claims := Accepts(cfg, s, token, e.at);
        if claims.Some? {
          ResetKeepsCounters(s.db, claims.value, u, password, user);
        }
      case CreateUserRequest(token, id, email, password, role) =>
        var claims := Accepts(cfg, s, token, e.at);
        if claims.Some? {
          CreateKeepsCounters(s.db, claims.value, id, email, password, role, user);
        }
      case DeleteUserRequest(token, u) =>
        var claims := Accepts(cfg, s, token, e.at);
        if claims.Some? {
          RemoveKeepsCounters(s.db, claims.value, u, user);
        }
      case Maintenance(op) =>
        PerformKeepsAccounts(s.db, op);
        MaintenanceKeepsCounters(s.db, Perform(s.db, op), AddedUser(op), user);
      case LogoutRequest(token) =>
        var claims := Accepts(cfg, s, token, e.at);
        if claims.Some? {
          RevocationKeepsCounters(s.db, claims.value.user, e.at, user);
        }
      case RefreshRequest(_) =>
    }
    NothingTouched(s.db, user);
  }

  lemma NothingTouched(db: Db, user: string)
    ensures CountersKept(db, db, user)
  {
  }

  lemma RevocationKeepsCounters(db: Db, owner: string, now: Time, user: string)
    ensures CountersKept(db, D.RevokeRefreshTokens(db, owner, now), user)
  {
  }

  lemma LoginClears(cfg: AuthConfig, s: Sys, e: Event, user: string)
    requires Consistent(s.db) && Enabled(s, e) && e.request.LoginRequest? && ClearsFor(cfg, s, e) == Some(user)
    ensures user in NextDb(cfg, s, e).users
    ensures NextDb(cfg, s, e).users[user].row.failedAttempts == 0
      && NextDb(cfg, s, e).users[user].row.lockoutUntil == None
  {
    hide Consistent;
  }

  lemma ResetClears(db: Db, claims: Claims, user: string, password: string)
    requires ResetPassword(db, claims, user, password).1 == Ok
    ensures var after := ResetPassword(db, claims, user, password).0;
      user in after.users && after.users[user].row.failedAttempts == 0 && after.users[user].row.lockoutUntil == None
  {
  }

  /** A clearing step leaves no failure and no lock: the next count starts from nothing. */
  lemma ClearingClears(cfg: AuthConfig, s: Sys, e: Event, user: string)
    requires Consistent(s.db) && Enabled(s, e) && ClearsFor(cfg, s, e) == Some(user)
    ensures user in NextDb(cfg, s, e).users
    ensures NextDb(cfg, s, e).users[user].row.failedAttempts == 0
      && NextDb(cfg, s, e).users[user].row.lockoutUntil == None
  {
    hide Consistent, Login, ResetPassword, Perform;
    if e.request.LoginRequest? {
      LoginClears(cfg, s, e, user);
    } else {
      ResetClears(s.db, Accepts(cfg, s, e.request.token, e.at).value, user, e.request.password);
    }
  }

  /** A failed comparison happens only while no lock is in force and adds one; from the third on it locks for ten
      minutes, in microseconds, and before the third it locks nothing. */
  lemma FailureStep(cfg: AuthConfig, s: Sys, e: Event, user: string)
    requires Consistent(s.db) && Enabled(s, e) && FailsFor(cfg, s.db, e) == Some(user)
    ensures user in s.db.users && user in NextDb(cfg, s, e).users
    ensures var (before, after) := (s.db.users[user].row, NextDb(cfg, s, e).users[user].row);
      && (before.lockoutUntil.Some? ==> before.lockoutUntil.value <= e.at)
      && after.failedAttempts == before.failedAttempts + 1
      && (after.failedAttempts >= 3 ==> after.lockoutUntil == Some(e.at + 600_000_000))
      && (after.failedAttempts < 3 ==> after.lockoutUntil == before.lockoutUntil)
  {
    hide Consistent;
  }

  // ----- Whole runs -----------------------------------------------------------------

  ghost predicate NeverCleared(cfg: AuthConfig, s: Sys, events: seq<Event>, user: string)
    requires Inv(cfg, s) && Possible(cfg, s, events)
    decreases |events|
  {
    events == [] ||
    (ApplyKeepsInv(cfg, s, events[0]);
     ClearsFor(cfg, s, events[0]) != Some(user) && NeverCleared(cfg, Apply(cfg, s, events[0]), events[1..], user))
  }

  /** The times of the user's failed comparisons. */
  ghost function Failures(cfg: AuthConfig, s: Sys, events: seq<Event>, user: string): seq<Time>
    requires Inv(cfg, s) && Possible(cfg, s, events)
    decreases |events|
  {
    if events == [] then []
    else
      ApplyKeepsInv(cfg, s, events[0]);
      var rest := Failures(cfg, Apply(cfg, s, events[0]), events[1..], user);
      if FailsFor(cfg, s.db, events[0]) == Some(user) then [events[0].at] + rest else rest
  }

  /** After n failures, the last of them at `last`: the counter is n, and from the third on a lock runs
      for ten minutes after the last. A deleted user has no row to keep. */
  ghost predicate Counted(s: Sys, user: string, n: nat, last: Time) {
    && user in s.usedUsers
    && (user in s.db.users ==>
         && s.db.users[user].row.failedAttempts == n
         && (n >= 3 ==> s.db.users[user].row.lockoutUntil == Some(last + D.LOCKOUT_DURATION)))
  }

  lemma CountedStep(cfg: AuthConfig, s: Sys, e: Event, user: string, n: nat, last: Time)
    requires Inv(cfg, s) && Enabled(s, e) && Counted(s, user, n, last) && ClearsFor(cfg, s, e) != Some(user)
    ensures if FailsFor(cfg, s.db, e) == Some(user)
      then Counted(Apply(cfg, s, e), user, n + 1, e.at) && (n >= 3 ==> last + D.LOCKOUT_DURATION <= e.at)
      else Counted(Apply(cfg, s, e), user, n, last)
  {
    hide Consistent, IssuedOk, FailsFor, ClearsFor, NextDb, Signed, TokensStep;
    if FailsFor(cfg, s.db, e) == Some(user) {
      FailureStep(cfg, s, e, user);
    } else {
      OtherStepsKeepCounters(cfg, s, e, user);
      NextDbSteps(cfg, s, e);
    }
  }

  /** The time before the i-th of the given failures at which the previous one happened. */
  function Previous(times: seq<Time>, last: Time, i: nat): Time
    requires i < |times|
  {
    if i == 0 then last else times[i - 1]
  }

  /** With n failures before, the last of them at `last`: from the fourth on, each comes ten minutes or
      more after the one before it. */
  ghost predicate Spaced(times: seq<Time>, n: nat, last: Time) {
    forall i: nat | i < |times| && n + i >= 3 :: Previous(times, last, i) + D.LOCKOUT_DURATION <= times[i]
  }

  ghost predicate Within(times: seq<Time>, from: Time, to: Time) {
    forall i | 0 <= i < |times| :: from <= times[i] <= to
  }

  lemma OneMore(t: Time, rest: seq<Time>, n: nat, last: Time, from: Time, to: Time)
    requires Spaced(rest, n + 1, t) && (n >= 3 ==> last + D.LOCKOUT_DURATION <= t)
    requires Within(rest, t, to) && from <= t <= to
    ensures Spaced([t] + rest, n, last) && Within([t] + rest, from, to)
  {
    var times := [t] + rest;
    forall i: nat | i < |times| && n + i >= 3
      ensures Previous(times, last, i) + D.LOCKOUT_DURATION <= times[i]
    {
      if i > 0 {
        assert times[i] == rest[i - 1] && Previous(rest, t, i - 1) == Previous(times, last, i);
      }
    }
  }

  lemma {:induction false} FailuresSpaced(cfg: AuthConfig, s: Sys, events: seq<Event>, user: string, n: nat, last: Time)
    requires Inv(cfg, s) && Possible(cfg, s, events) && NeverCleared(cfg, s, events, user) && Counted(s, user, n, last)
    ensures Spaced(Failures(cfg, s, events, user), n, last)
    ensures Within(Failures(cfg, s, events, user), s.clock, Exec(cfg, s, events).clock)
    decreases |events|
  {
    hide Consistent, IssuedOk, FailsFor, ClearsFor, NextDb, Signed, Counted;
    if events != [] {
      var e := events[0];
      ApplyKeepsInv(cfg, s, e);
      CountedStep(cfg, s, e, user, n, last);
      var next, to := Apply(cfg, s, e), Exec(cfg, s, events).clock;
      var rest := Failures(cfg, next, events[1..], user);
      if FailsFor(cfg, s.db, e) == Some(user) {
        FailuresSpaced(cfg, next, events[1..], user, n + 1, e.at);
        OneMore(e.at, rest, n, last, s.clock, to);
      } else {
        FailuresSpaced(cfg, next, events[1..], user, n, last);
      }
    }
  }

  lemma {:induction false} SpacedFromThird(times: seq<Time>, i: nat)
    requires 2 <= i < |times|
    requires forall j: nat | 3 <= j < |times| :: times[j - 1] + D.LOCKOUT_DURATION <= times[j]
    ensures times[2] + (i - 2) * D.LOCKOUT_DURATION <= times[i]
  {
    if i > 2 {
      SpacedFromThird(times, i - 1);
    }
  }

  /** From a cleared counter on, the n-th failed comparison (counting from 1) of a user comes at least
      (n - 3) * 10 minutes after the third, as long as nothing clears the counter. */
  lemma FailuresAfterThird(cfg: AuthConfig, s: Sys, events: seq<Event>, user: string, n: nat)
    requires Inv(cfg, s) && Possible(cfg, s, events) && NeverCleared(cfg, s, events, user)
    requires user in s.db.users && s.db.users[user].row.failedAttempts == 0
    requires 3 <= n <= |Failures(cfg, s, events, user)|
    ensures Failures(cfg, s, events, user)[2] + (n - 3) * (10 * D.MINUTE) <= Failures(cfg, s, events, user)[n - 1]
  {
    hide Consistent, IssuedOk, Possible, NeverCleared;
    FailuresSpaced(cfg, s, events, user, 0, 0);
    var times := Failures(cfg, s, events, user);
    forall j: nat | 3 <= j < |times| ensures times[j - 1] + D.LOCKOUT_DURATION <= times[j] {
      assert Previous(times, 0, j) == times[j - 1];
    }
    SpacedFromThird(times, n - 1);
  }

  /** Hence over a span T at most 3 + T / 10 min wrong passwords are compared. */
  lemma ComparisonsPerSpan(cfg: AuthConfig, s: Sys, events: seq<Event>, user: string)
    requires Inv(cfg, s) && Possible(cfg, s, events) && NeverCleared(cfg, s, events, user)
    requires user in s.db.users && s.db.users[user].row.failedAttempts == 0
    ensures |Failures(cfg, s, events, user)| <= 3 + (Exec(cfg, s, events).clock - s.clock) / (10 * D.MINUTE)
  {
    hide Consistent, IssuedOk, Possible, NeverCleared, Failures;
    var times := Failures(cfg, s, events, user);
    FailuresSpaced(cfg, s, events, user, 0, 0);
    if |times| > 3 {
      FailuresAfterThird(cfg, s, events, user, |times|);
      TenMinutes(|times| - 3, Exec(cfg, s, events).clock - s.clock);
    }
  }

  lemma TenMinutes(q: nat, n: nat)
    requires q * (10 * D.MINUTE) <= n
    ensures q <= n / (10 * D.MINUTE)
  {
    assert 10 * D.MINUTE == 600_000_000;
  }
}
