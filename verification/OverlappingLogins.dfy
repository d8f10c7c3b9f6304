/** Login handlers for one user that overlap: each reads the user's row, checks the lock it read,
    compares the password and records the failure in separate steps, interleaved in any order. */
module OverlappingLogins {
  import opened Tables
  import opened Schema
  import opened Auth
  import D = DbUtil

  /** Where a handler is. What it knows of the lock is what it read. */
  datatype Slot =
    | Idle
    | Read(lock: Option<Time>)
    | Admitted
    | Wrong

  datatype Action = ReadRow | CheckLock | Compare | Record

  /** Handler `slot` takes its next step. Every password compared is wrong. */
  datatype Move = Move(at: Time, slot: nat, action: Action)

  /** The user's row, the handlers, and for the statements below: the passwords compared so far, the failures
      recorded so far, and when the third was recorded. */
  datatype Race = Race(user: User, slots: seq<Slot>, clock: Time, compared: nat, recorded: nat, third: Option<Time>)

  function Cleared(user: User, k: nat, now: Time): Race {
    Race(user.(failedAttempts := 0, lockoutUntil := None), seq(k, _ => Idle), now, 0, 0, None)
  }

  predicate Enabled(r: Race, m: Move) {
    && r.clock <= m.at && m.slot < |r.slots|
    && match m.action
       case ReadRow => r.slots[m.slot].Idle?
       case CheckLock => r.slots[m.slot].Read?
       case Compare => r.slots[m.slot].Admitted?
       case Record => r.slots[m.slot].Wrong?
  }

  function Step(r: Race, m: Move): Race
    requires Enabled(r, m)
  {
    var now := r.(clock := m.at);
    match m.action
    case ReadRow => now.(slots := r.slots[m.slot := Read(r.user.lockoutUntil)])
    case CheckLock =>
      var lock := r.slots[m.slot].lock;
      now.(slots := r.slots[m.slot := if lock.Some? && m.at < lock.value then Idle else Admitted])
    case Compare => now.(slots := r.slots[m.slot := Wrong], compared := r.compared + 1)
    case Record =>
      now.(slots := r.slots[m.slot := Idle], user := D.AfterFailure(r.user, m.at), recorded := r.recorded + 1,
           third := if r.recorded == 2 then Some(m.at) else r.third)
  }

  predicate Possible(r: Race, moves: seq<Move>)
    decreases |moves|
  {
    moves == [] || (Enabled(r, moves[0]) && Possible(Step(r, moves[0]), moves[1..]))
  }

  function Run(r: Race, moves: seq<Move>): Race
    requires Possible(r, moves)
    decreases |moves|
  {
    if moves == [] then r else Run(Step(r, moves[0]), moves[1..])
  }

  // ----- Counting handlers ----------------------------------------------------------

  /** The handler may still come to compare a password, having seen no lock. */
  predicate MayCompare(s: Slot) {
    s == Read(None) || s == Admitted
  }

  predicate HasCompared(s: Slot) {
    s == Wrong
  }

  function Count(slots: seq<Slot>, p: Slot -> bool): nat {
    if slots == [] then 0 else Count(slots[..|slots| - 1], p) + if p(slots[|slots| - 1]) then 1 else 0
  }

  lemma {:induction false} CountUpdate(slots: seq<Slot>, p: Slot -> bool, i: nat, s: Slot)
    requires i < |slots|
    ensures Count(slots[i := s], p) == Count(slots, p) - (if p(slots[i]) then 1 else 0) + (if p(s) then 1 else 0)
  {
    var n := |slots| - 1;
    if i == n {
      assert slots[i := s][..n] == slots[..n];
    } else {
      assert slots[i := s][..n] == slots[..n][i := s];
      CountUpdate(slots[..n], p, i, s);
    }
  }

  lemma {:induction false} CountsApart(slots: seq<Slot>)
    ensures Count(slots, MayCompare) + Count(slots, HasCompared) <= |slots|
  {
    if slots != [] {
      CountsApart(slots[..|slots| - 1]);
    }
  }

  lemma {:induction false} CountNone(slots: seq<Slot>, p: Slot -> bool)
    requires forall s | s in slots :: !p(s)
    ensures Count(slots, p) == 0
  {
    if slots != [] {
      CountNone(slots[..|slots| - 1], p);
    }
  }

  // ----- The invariant --------------------------------------------------------------

  /** The lock of the third recorded failure has not run out. */
  predicate BeforeExpiry(r: Race) {
    r.third.Some? ==> r.clock < r.third.value + D.LOCKOUT_DURATION
  }

  /** A lock that was seen lasts at least as long as that of the third failure. */
  predicate LongLock(lock: Option<Time>, third: Time) {
    lock.Some? && third + D.LOCKOUT_DURATION <= lock.value
  }

  predicate LocksSeen(r: Race) {
    && (r.third.Some? <==> r.recorded >= 3)
    && (r.third.None? ==> r.user.lockoutUntil == None)
    && (r.third.Some? ==> r.third.value <= r.clock && LongLock(r.user.lockoutUntil, r.third.value))
    && (forall i | 0 <= i < |r.slots| && r.slots[i].Read? && r.slots[i].lock.Some? ::
          r.third.Some? && LongLock(r.slots[i].lock, r.third.value))
  }

  predicate Inv(r: Race, k: nat) {
    && |r.slots| == k
    && r.user.failedAttempts == r.recorded
    && r.compared == r.recorded + Count(r.slots, HasCompared)
    && LocksSeen(r)
    && (BeforeExpiry(r) ==> r.compared + Count(r.slots, MayCompare) <= 2 + k)
  }

  lemma ClearedInv(user: User, k: nat, now: Time)
    ensures Inv(Cleared(user, k, now), k)
  {
    CountNone(Cleared(user, k, now).slots, HasCompared);
    CountNone(Cleared(user, k, now).slots, MayCompare);
  }

  lemma StepKeepsLocksSeen(r: Race, m: Move)
    requires LocksSeen(r) && Enabled(r, m) && r.user.failedAttempts == r.recorded
    ensures LocksSeen(Step(r, m))
  {
  }

  lemma StepKeepsInv(r: Race, k: nat, m: Move)
    requires Inv(r, k) && Enabled(r, m)
    ensures Inv(Step(r, m), k)
  {
    hide LocksSeen;
    StepKeepsLocksSeen(r, m);
    var after := Step(r, m);
    CountUpdate(r.slots, HasCompared, m.slot, after.slots[m.slot]);
    CountUpdate(r.slots, MayCompare, m.slot, after.slots[m.slot]);
    CountsApart(after.slots);
    StepBudget(r, m);
  }

  /** Outside the third record, a step before the expiry was preceded by a state before the expiry; and a
      handler that starts anew then, or sees a lock, gets no comparison. */
  lemma StepBudget(r: Race, m: Move)
    requires LocksSeen(r) && Enabled(r, m) && r.user.failedAttempts == r.recorded
    ensures BeforeExpiry(Step(r, m)) ==> BeforeExpiry(r)
    ensures r.third.Some? <==> r.recorded >= 3
    ensures BeforeExpiry(Step(r, m)) && r.third.Some? && m.action.ReadRow? ==> !MayCompare(Step(r, m).slots[m.slot])
    ensures BeforeExpiry(Step(r, m)) && m.action.CheckLock? && MayCompare(Step(r, m).slots[m.slot]) ==>
      MayCompare(r.slots[m.slot])
  {
  }

  lemma {:induction false} RunKeepsInv(r: Race, k: nat, moves: seq<Move>)
    requires Inv(r, k) && Possible(r, moves)
    ensures Inv(Run(r, moves), k)
    decreases |moves|
  {
    if moves != [] {
      StepKeepsInv(r, k, moves[0]);
      RunKeepsInv(Step(r, moves[0]), k, moves[1..]);
    }
  }

  /** No failure is lost or counted twice: the counter in the row is the number of failures recorded, and every
      comparison is recorded or about to be. */
  lemma NoCountLost(user: User, k: nat, now: Time, moves: seq<Move>)
    requires Possible(Cleared(user, k, now), moves)
    ensures var r := Run(Cleared(user, k, now), moves);
      r.user.failedAttempts == r.recorded && r.compared == r.user.failedAttempts + Count(r.slots, HasCompared)
  {
    ClearedInv(user, k, now);
    RunKeepsInv(Cleared(user, k, now), k, moves);
  }

  /** With at most k overlapping handlers, from a cleared counter on, at most 2 + k passwords are compared
      before the lock set by the third recorded failure can run out. */
  lemma AtMostTwoPlusK(user: User, k: nat, now: Time, moves: seq<Move>)
    requires Possible(Cleared(user, k, now), moves)
    requires BeforeExpiry(Run(Cleared(user, k, now), moves))
    ensures Run(Cleared(user, k, now), moves).compared <= 2 + k
  {
    ClearedInv(user, k, now);
    RunKeepsInv(Cleared(user, k, now), k, moves);
  }

  // ----- The bound is reached -------------------------------------------------------

  lemma {:induction false} RunThenRun(r: Race, first: seq<Move>, second: seq<Move>)
    requires Possible(r, first) && Possible(Run(r, first), second)
    ensures Possible(r, first + second) && Run(r, first + second) == Run(Run(r, first), second)
    decreases |first|
  {
    if first == [] {
      assert first + second == second;
    } else {
      RunThenRun(Step(r, first[0]), first[1..], second);
      assert (first + second)[1..] == first[1..] + second;
    }
  }

  /** Handlers 0 to n - 1 take the same action, one after the other. */
  function Each(n: nat, action: Action, now: Time): seq<Move> {
    seq(n, i requires 0 <= i < n => Move(now, i, action))
  }

  predicate Uniform(r: Race, k: nat, recorded: nat, compared: nat, s: Slot) {
    && |r.slots| == k && r.third.None? && r.user.lockoutUntil == None
    && r.user.failedAttempts == r.recorded == recorded && r.compared == compared
    && forall i | 0 <= i < k :: r.slots[i] == s
  }

  predicate Split(r: Race, k: nat, n: nat, recorded: nat, compared: nat, done: Slot, rest: Slot) {
    && |r.slots| == k && n <= k && r.third.None? && r.user.lockoutUntil == None
    && r.user.failedAttempts == r.recorded == recorded && r.compared == compared
    && (forall i | 0 <= i < n :: r.slots[i] == done)
    && (forall i | n <= i < k :: r.slots[i] == rest)
  }

  /** One attempt of handler 0 alone: four steps, one comparison and one failure more. */
  function Attempt(now: Time): seq<Move> {
    [Move(now, 0, ReadRow), Move(now, 0, CheckLock), Move(now, 0, Compare), Move(now, 0, Record)]
  }

  lemma AttemptAlone(r: Race, k: nat, c: nat)
    requires k >= 1 && c < 2 && Uniform(r, k, c, c, Idle)
    ensures Possible(r, Attempt(r.clock)) && Uniform(Run(r, Attempt(r.clock)), k, c + 1, c + 1, Idle)
    ensures Run(r, Attempt(r.clock)).clock == r.clock
  {
    var t := r.clock;
    var r1 := Step(r, Move(t, 0, ReadRow));
    var r2 := Step(r1, Move(t, 0, CheckLock));
    FourMoves(r, Move(t, 0, ReadRow), Move(t, 0, CheckLock), Move(t, 0, Compare), Move(t, 0, Record));
  }

  lemma FirstMove(r: Race, m: Move, rest: seq<Move>)
    requires Enabled(r, m) && Possible(Step(r, m), rest)
    ensures Possible(r, [m] + rest) && Run(r, [m] + rest) == Run(Step(r, m), rest)
  {
    assert ([m] + rest)[1..] == rest;
  }

  lemma OneMove(r: Race, m: Move)
    requires Enabled(r, m)
    ensures Possible(r, [m]) && Run(r, [m]) == Step(r, m)
  {
    assert [m][1..] == [];
  }

  lemma TwoMoves(r: Race, a: Move, b: Move)
    requires Enabled(r, a) && Enabled(Step(r, a), b)
    ensures Possible(r, [a, b]) && Run(r, [a, b]) == Step(Step(r, a), b)
  {
    OneMove(Step(r, a), b);
    FirstMove(r, a, [b]);
    assert [a, b] == [a] + [b];
  }

  lemma FourMoves(r: Race, a: Move, b: Move, c: Move, d: Move)
    requires Enabled(r, a) && Enabled(Step(r, a), b)
    requires Enabled(Step(Step(r, a), b), c) && Enabled(Step(Step(Step(r, a), b), c), d)
    ensures Possible(r, [a, b, c, d]) && Run(r, [a, b, c, d]) == Step(Step(Step(Step(r, a), b), c), d)
  {
    hide Step, Enabled;
    TwoMoves(Step(Step(r, a), b), c, d);
    FirstMove(Step(r, a), b, [c, d]);
    FirstMove(r, a, [b, c, d]);
    assert [b, c, d] == [b] + [c, d] && [a, b, c, d] == [a] + [b, c, d];
  }

  /** What an action makes of a handler, and how much it adds to the comparisons, with no lock in force. */
  function From(a: Action): Slot {
    match a case ReadRow => Idle case CheckLock => Read(None) case Compare => Admitted case Record => Wrong
  }

  function To(a: Action): Slot {
    match a case ReadRow => Read(None) case CheckLock => Admitted case Compare => Wrong case Record => Idle
  }

  lemma {:induction false} EachInTurn(r: Race, k: nat, n: nat, c: nat, a: Action)
    requires a != Record && n <= k && Uniform(r, k, 2, c, From(a))
    ensures Possible(r, Each(n, a, r.clock))
    ensures var after := Run(r, Each(n, a, r.clock));
      && after.clock == r.clock && Split(after, k, n, 2, if a == Compare then c + n else c, To(a), From(a))
  {
    if n > 0 {
      EachInTurn(r, k, n - 1, c, a);
      var before, m := Run(r, Each(n - 1, a, r.clock)), Move(r.clock, n - 1, a);
      assert Each(n, a, r.clock) == Each(n - 1, a, r.clock) + [m];
      assert [m][1..] == [];
      assert Run(before, [m]) == Step(before, m);
      RunThenRun(r, Each(n - 1, a, r.clock), [m]);
    }
  }

  /** Two attempts one after the other, then k at once, and the third failure recorded. */
  function WorstRun(k: nat, now: Time): seq<Move> {
    Attempt(now) + Attempt(now) + Each(k, ReadRow, now) + Each(k, CheckLock, now) + Each(k, Compare, now)
      + [Move(now, 0, Record)]
  }

  /** For every k the bound is reached: the number 2 + k cannot be made smaller. */
  lemma TwoPlusKReached(user: User, k: nat, now: Time)
    requires k >= 1
    ensures var r := Cleared(user, k, now);
      && Possible(r, WorstRun(k, now))
      && Run(r, WorstRun(k, now)).compared == 2 + k
      && Run(r, WorstRun(k, now)).third == Some(now) && BeforeExpiry(Run(r, WorstRun(k, now)))
  {
    hide Run, Possible, Attempt, Each;
    var r := Cleared(user, k, now);
    AttemptAlone(r, k, 0);
    var r1 := Run(r, Attempt(now));
    AttemptAlone(r1, k, 1);
    var r2 := Run(r1, Attempt(now));
    RunThenRun(r, Attempt(now), Attempt(now));
    EachInTurn(r2, k, k, 2, ReadRow);
    var r3 := Run(r2, Each(k, ReadRow, now));
    RunThenRun(r, Attempt(now) + Attempt(now), Each(k, ReadRow, now));
    EachInTurn(r3, k, k, 2, CheckLock);
    var r4 := Run(r3, Each(k, CheckLock, now));
    RunThenRun(r, Attempt(now) + Attempt(now) + Each(k, ReadRow, now), Each(k, CheckLock, now));
    EachInTurn(r4, k, k, 2, Compare);
    var r5 := Run(r4, Each(k, Compare, now));
    RunThenRun(r, Attempt(now) + Attempt(now) + Each(k, ReadRow, now) + Each(k, CheckLock, now), Each(k, Compare, now));
    OneMove(r5, Move(now, 0, Record));
    RunThenRun(r, Attempt(now) + Attempt(now) + Each(k, ReadRow, now) + Each(k, CheckLock, now) + Each(k, Compare, now),
               [Move(now, 0, Record)]);
  }

  // ----- The steps of one handler in a row are the login handler ---------------------

  /** What is left in the row of an active user when one handler's steps are taken at one instant. */
  function SerialAttempt(user: User, now: Time): User {
    if IsLocked(user, now) then user else D.AfterFailure(user, now)
  }

  /** A race with one attempt at one instant does to the row what the login handler does on a wrong password. */
  lemma SerialIsLogin(cfg: AuthConfig, db: Db, email: string, password: string, raw: string, now: Time)
    requires Consistent(db) && email != "" && password != "" && D.EmailTaken(db, email)
    requires var u := db.users[UserByEmail(db, email)].row; u.isActive && u.passwordHash != Bcrypt(password)
    ensures var id := UserByEmail(db, email);
      var row := db.users[id].row;
      var r := Race(row, [Idle], now, 0, row.failedAttempts, None);
      var moves := if IsLocked(row, now) then Attempt(now)[..2] else Attempt(now);
      var (after, result) := Login(cfg, db, email, password, raw, now);
      && Possible(r, moves) && Run(r, moves).slots == [Idle]
      && after == D.WithUser(db, id, Run(r, moves).user)
      && (result == AccountLocked <==> Run(r, moves).compared == 0)
  {
    hide Consistent;
    var id := UserByEmail(db, email);
    var row := db.users[id].row;
    var r := Race(row, [Idle], now, 0, row.failedAttempts, None);
    OneAttempt(r);
    assert db.users[id := db.users[id].(row := row)] == db.users;
  }

  lemma OneAttempt(r: Race)
    requires r.slots == [Idle]
    ensures var moves := if IsLocked(r.user, r.clock) then Attempt(r.clock)[..2] else Attempt(r.clock);
      && Possible(r, moves) && Run(r, moves).slots == [Idle]
      && Run(r, moves).user == SerialAttempt(r.user, r.clock)
      && Run(r, moves).compared == if IsLocked(r.user, r.clock) then r.compared else r.compared + 1
  {
    var t := r.clock;
    var r1 := Step(r, Move(t, 0, ReadRow));
    if IsLocked(r.user, t) {
      TwoMoves(r, Move(t, 0, ReadRow), Move(t, 0, CheckLock));
      assert Attempt(t)[..2] == [Move(t, 0, ReadRow), Move(t, 0, CheckLock)];
    } else {
      var r2 := Step(r1, Move(t, 0, CheckLock));
      FourMoves(r, Move(t, 0, ReadRow), Move(t, 0, CheckLock), Move(t, 0, Compare), Move(t, 0, Record));
    }
  }
}
