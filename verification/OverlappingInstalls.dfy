/** Install calls that overlap, over the one lock file: looking the lock up, creating it and removing it are separate
    steps, interleaved in any order. When does the lock keep installs apart? */
module OverlappingInstalls {
  import opened Tables
  import opened Sensor

  /** Where a call is: not begun or ended, past a look-up that found no lock, installing, or refused. */
  datatype Phase = Idle | Missing | Installing | Refused

  /** A look-up may fail for another reason than a missing file, and the creation and the removal may fail. */
  datatype Action = LookUp(fails: bool) | Create(works: bool) | End(removes: bool)

  datatype Move = Move(call: nat, action: Action)

  datatype Lot = Lot(locked: bool, calls: seq<Phase>)

  predicate Enabled(l: Lot, m: Move) {
    && m.call < |l.calls|
    && match m.action
       case LookUp(_) => l.calls[m.call].Idle?
       case Create(_) => l.calls[m.call].Missing?
       case End(_) => l.calls[m.call].Installing? || l.calls[m.call].Refused?
  }

  /** A look-up that fails lets the call go on without a lock of its own; a refused call, too, removes the lock. */
  function Step(l: Lot, m: Move): Lot
    requires Enabled(l, m)
  {
    match m.action
    case LookUp(fails) =>
      l.(calls := l.calls[m.call := if fails then Installing else if l.locked then Refused else Missing])
    case Create(works) => Lot(l.locked || works, l.calls[m.call := Installing])
    case End(removes) => Lot(l.locked && !removes, l.calls[m.call := Idle])
  }

  predicate Possible(l: Lot, moves: seq<Move>)
    decreases |moves|, 0
  {
    moves == [] || (Possible(l, moves[..|moves| - 1]) && Enabled(Run(l, moves[..|moves| - 1]), moves[|moves| - 1]))
  }

  function Run(l: Lot, moves: seq<Move>): Lot
    requires Possible(l, moves)
    decreases |moves|, 1
  {
    if moves == [] then l else Step(Run(l, moves[..|moves| - 1]), moves[|moves| - 1])
  }

  // ----- The lock is what the history says ------------------------------------------

  predicate Sets(m: Move) {
    m.action == Create(true)
  }

  predicate Clears(m: Move) {
    m.action == End(true)
  }

  /** The last of the moves that set or clear the lock sets it, or none clears it and it was there before. */
  predicate Held(before: bool, moves: seq<Move>) {
    || (before && forall k | 0 <= k < |moves| :: !Clears(moves[k]))
    || exists k | 0 <= k < |moves| :: Sets(moves[k]) && forall j | k < j < |moves| :: !Clears(moves[j])
  }

  lemma {:induction false} LockIsHistory(l: Lot, moves: seq<Move>)
    requires Possible(l, moves)
    ensures Run(l, moves).locked <==> Held(l.locked, moves)
    decreases |moves|
  {
    if moves != [] {
      var n := |moves| - 1;
      LockIsHistory(l, moves[..n]);
      HeldStep(l.locked, moves);
    }
  }

  lemma HeldStep(before: bool, moves: seq<Move>)
    requires moves != []
    ensures var n := |moves| - 1;
      Held(before, moves) <==> Sets(moves[n]) || (Held(before, moves[..n]) && !Clears(moves[n]))
  {
    var n := |moves| - 1;
    var was := moves[..n];
    if k :| 0 <= k < n && Sets(was[k]) && forall j | k < j < n :: !Clears(was[j]) {
      if !Clears(moves[n]) {
        assert Sets(moves[k]) && forall j | k < j < |moves| :: !Clears(moves[j]);
      }
    }
    if k :| 0 <= k < |moves| && Sets(moves[k]) && forall j | k < j < |moves| :: !Clears(moves[j]) {
      if k < n {
        assert Sets(was[k]) && forall j | k < j < n :: !Clears(was[j]);
      }
    }
  }

  // ----- When installs are kept apart -----------------------------------------------

  /** The call has got past the lock and has not ended. */
  predicate Busy(l: Lot, i: nat) {
    i < |l.calls| && (l.calls[i].Missing? || l.calls[i].Installing?)
  }

  predicate Exclusive(l: Lot) {
    forall i: nat, j: nat | i < |l.calls| && j < |l.calls| && Busy(l, i) && Busy(l, j) :: i == j
  }

  predicate SomeBusy(l: Lot) {
    exists i: nat | i < |l.calls| :: Busy(l, i)
  }

  /** The move is a look-up while an install is under way, and it does not find the lock. */
  predicate SlipsPast(l: Lot, m: Move) {
    m.action.LookUp? && SomeBusy(l) && (m.action.fails || !l.locked)
  }

  /** One more install gets under way beside another exactly by such a look-up. */
  lemma StepExclusiveIff(l: Lot, m: Move)
    requires Exclusive(l) && Enabled(l, m)
    ensures Exclusive(Step(l, m)) <==> !SlipsPast(l, m)
  {
    var after := Step(l, m);
    if SlipsPast(l, m) {
      var i: nat :| i < |l.calls| && Busy(l, i);
      assert Busy(after, i) && Busy(after, m.call) && i != m.call;
    } else {
      forall i: nat, j: nat | i < |after.calls| && j < |after.calls| && Busy(after, i) && Busy(after, j)
        ensures i == j
      {
        assert i != m.call ==> Busy(l, i) && SomeBusy(l);
        assert j != m.call ==> Busy(l, j) && SomeBusy(l);
        assert !m.action.LookUp? && Busy(after, m.call) ==> Busy(l, m.call);
      }
    }
  }

  predicate AllExclusive(l: Lot, moves: seq<Move>)
    requires Possible(l, moves)
    decreases |moves|
  {
    Exclusive(Run(l, moves)) && (moves == [] || AllExclusive(l, moves[..|moves| - 1]))
  }

  /** In each move of the run that is a look-up while an install is under way, the look-up works and the lock is
      there: it was created, and no call that ended since has removed it. */
  predicate AllFindTheLock(l: Lot, moves: seq<Move>)
    requires Possible(l, moves)
    decreases |moves|
  {
    moves == [] ||
    (var before, m := moves[..|moves| - 1], moves[|moves| - 1];
     AllFindTheLock(l, before)
     && (m.action.LookUp? && SomeBusy(Run(l, before)) ==> !m.action.fails && Held(l.locked, before)))
  }

  /** Over every run of any number of calls from a state with none under way: at no time are two installs under way at
      once if and only if each call that begins while one is finds the lock. */
  lemma {:induction false} KeptApartIff(l: Lot, moves: seq<Move>)
    requires Possible(l, moves) && !SomeBusy(l)
    ensures AllExclusive(l, moves) <==> AllFindTheLock(l, moves)
    decreases |moves|
  {
    hide Held, Enabled, Step, SomeBusy;
    if moves == [] {
      NoneIsExclusive(l);
    } else {
      var before := moves[..|moves| - 1];
      KeptApartIff(l, before);
      LockIsHistory(l, before);
      if AllExclusive(l, before) {
        StepExclusiveIff(Run(l, before), moves[|moves| - 1]);
      }
    }
  }

  lemma NoneIsExclusive(l: Lot)
    requires !SomeBusy(l)
    ensures Exclusive(l)
  {
  }

  /** A call that begins finds the lock when a creation has worked and no call has removed the lock since. */
  lemma HeldSinceCreation(before: bool, moves: seq<Move>, k: nat)
    requires k < |moves| && Sets(moves[k]) && forall j | k < j < |moves| :: !Clears(moves[j])
    ensures Held(before, moves)
  {
  }

  // ----- How it fails ---------------------------------------------------------------

  const NONE: Lot := Lot(false, [Idle, Idle, Idle])

  /** The first call takes the lock, the second is refused and takes it away as it ends, the third goes past. */
  const THREE_CALLS: seq<Move> := [
    Move(0, LookUp(false)), Move(0, Create(true)),
    Move(1, LookUp(false)), Move(1, End(true)),
    Move(2, LookUp(false)), Move(2, Create(true))]

  lemma OneMore(l: Lot, moves: seq<Move>, m: Move)
    requires Possible(l, moves) && Enabled(Run(l, moves), m)
    ensures Possible(l, moves + [m]) && Run(l, moves + [m]) == Step(Run(l, moves), m)
  {
    var all := moves + [m];
    assert all[..|all| - 1] == moves;
  }

  /** Every step works, and yet two installs are active at once. */
  lemma RefusedCallOpensTheDoor()
    ensures Possible(NONE, THREE_CALLS)
    ensures var after := Run(NONE, THREE_CALLS);
      after.calls[0].Installing? && after.calls[2].Installing? && !Exclusive(after)
  {
    hide Possible, Run;
    RunNone(NONE);
    var m := THREE_CALLS;
    OneMore(NONE, [], m[0]);
    OneMore(NONE, [] + [m[0]], m[1]);
    OneMore(NONE, [] + [m[0]] + [m[1]], m[2]);
    OneMore(NONE, [] + [m[0]] + [m[1]] + [m[2]], m[3]);
    OneMore(NONE, [] + [m[0]] + [m[1]] + [m[2]] + [m[3]], m[4]);
    OneMore(NONE, [] + [m[0]] + [m[1]] + [m[2]] + [m[3]] + [m[4]], m[5]);
    assert m == [] + [m[0]] + [m[1]] + [m[2]] + [m[3]] + [m[4]] + [m[5]];
    var after := Run(NONE, m);
    assert Busy(after, 0) && Busy(after, 2);
  }

  lemma RunNone(l: Lot)
    ensures Possible(l, []) && Run(l, []) == l
  {
  }

  // ----- A call by itself -----------------------------------------------------------

  /** Look-up and creation of one call in a row are what the installer does to the lock when it begins, and its end is
      what it does when it returns. */
  lemma SerialIsTakeLock(s: State, f: Faults)
    ensures var l := Lot(s.locked, [Idle]);
      var looked := Step(l, Move(0, LookUp(f.lockStat)));
      var begun := if looked.calls[0].Missing? then Step(looked, Move(0, Create(!f.lockCreate))) else looked;
      var (taken, refused) := TakeLock(s, f);
      && begun.locked == taken.locked && (refused <==> begun.calls[0].Refused?)
      && Step(begun, Move(0, End(!f.lockRemove))).locked == DropLock(taken, f).locked
  {
  }
}
