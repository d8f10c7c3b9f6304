/** Tenant id allocation over whole runs: ids stay in their block, are never issued twice, a block
    is never overfull, and retrying past manually taken ids ends. */
module Allocator {
  import opened Tables
  import opened Schema
  import opened Text
  import opened Operations
  import D = DbUtil
  import M = Migration

  /** The environment whose sequence an operation asks for a tenant id, if it gets that far. */
  ghost function AsksFor(db: Db, op: DbOp): Option<string>
    requires WellFormed(op)
  {
    if !op.OnTenants? then None
    else
      match op.tenantOp
      case AddTenant(environment, name) =>
        if 1 <= |name| <= MAX_TENANT_NAME_LEN && !D.NameTaken(db, name) then Some(environment) else None
      case MoveTenant(idText, target, run, failsAt) =>
        var a := Numeral(idText);
        if a in db.tenants && M.CurrentEnvironment(a, db.tenants[a]) != target && BlockOf(target).Some?
          then Some(target)
        else None
      case _ => None
  }

  /** The fresh tenant id the operation draws, if any; it is used up whether or not the rest succeeds. */
  ghost function Drawn(db: Db, op: DbOp): Option<int>
    requires WellFormed(op)
  {
    var environment := AsksFor(db, op);
    if environment.Some? then D.NextValue(db, SequenceName(environment.value)).1 else None
  }

  // ----- Never twice ----------------------------------------------------------------

  predicate NotBehind(before: map<string, int>, after: map<string, int>) {
    forall n :: n in before ==> n in after && before[n] <= after[n]
  }

  /** An operation moves the sequences as its draw does, and in no other way. */
  lemma SequencesMoveByDraws(db: Db, op: DbOp)
    requires Consistent(db) && WellFormed(op)
    ensures Perform(db, op).sequences ==
      if AsksFor(db, op).Some? then D.NextValue(db, SequenceName(AsksFor(db, op).value)).0.sequences else db.sequences
  {
    hide PerformOnTenants, Consistent;
    if !op.OnTenants? {
      OtherOpsFrame(db, op);
    } else {
      TenantOpSequences(db, op.tenantOp);
    }
  }

  lemma TenantOpSequences(db: Db, op: TenantOp)
    requires Consistent(db) && WellFormed(OnTenants(op))
    ensures PerformOnTenants(db, op).sequences ==
      if AsksFor(db, OnTenants(op)).Some?
        then D.NextValue(db, SequenceName(AsksFor(db, OnTenants(op)).value)).0.sequences
      else db.sequences
  {
    hide M.AfterMove, D.GetOrInsertTenant, D.InsertTenantWithSpecificID, D.NextValue;
    match op {
      case AddTenant(environment, name) =>
      case AddTenantWithId(environment, name, id) =>
      case DropTenant(id) =>
      case MoveTenant(idText, target, run, failsAt) => M.AfterMoveSequences(db, idText, target, run, failsAt);
    }
  }

  /** The sequence `n` has handed out `id`. */
  predicate HandedOut(db: Db, n: string, id: int) {
    n in db.sequences && SequenceRange(n).Some? && SequenceRange(n).value.Contains(id) && id < db.sequences[n]
  }

  /** What one operation means for the ids: what was handed out stays so, and a drawn id is handed out by
      one sequence that had not handed it out before. */
  lemma StepOfIds(db: Db, op: DbOp)
    requires Consistent(db) && WellFormed(op)
    ensures NotBehind(db.sequences, Perform(db, op).sequences)
    ensures Drawn(db, op).Some? ==> exists n ::
      HandedOut(Perform(db, op), n, Drawn(db, op).value) && n in db.sequences && db.sequences[n] == Drawn(db, op).value
  {
    hide Perform, AsksFor;
    SequencesMoveByDraws(db, op);
    if Drawn(db, op).Some? {
      var n := SequenceName(AsksFor(db, op).value);
      assert HandedOut(Perform(db, op), n, Drawn(db, op).value);
    }
  }

  /** An id a sequence has handed out is not drawn again, wherever the run goes on. */
  lemma {:induction false} HandedOutNotDrawn(db: Db, n: string, id: int, ops: seq<DbOp>, j: nat)
    requires Consistent(db) && AllWellFormed(ops) && j < |ops|
    requires HandedOut(db, n, id)
    ensures Drawn(Run(db, ops[..j]), ops[j]) != Some(id)
    decreases |ops|
  {
    PerformKeepsConsistent(db, ops[0]);
    StepOfIds(db, ops[0]);
    if j == 0 {
      if Drawn(db, ops[0]) == Some(id) {
        var m :| HandedOut(Perform(db, ops[0]), m, id) && m in db.sequences && db.sequences[m] == id;
        SequencesAreDisjoint(n, m, id);
        assert false;
      }
    } else {
      HandedOutNotDrawn(Perform(db, ops[0]), n, id, ops[1..], j - 1);
      assert ops[..j][1..] == ops[1..][..j - 1];
    }
  }

  lemma DrawnNotDrawnLater(db: Db, op: DbOp, rest: seq<DbOp>, k: nat)
    requires Consistent(db) && WellFormed(op) && Consistent(Perform(db, op)) && AllWellFormed(rest) && k < |rest|
    requires Drawn(db, op).Some?
    ensures Drawn(Run(Perform(db, op), rest[..k]), rest[k]) != Drawn(db, op)
  {
    StepOfIds(db, op);
    var id := Drawn(db, op).value;
    var n :| HandedOut(Perform(db, op), n, id) && n in db.sequences && db.sequences[n] == id;
    HandedOutNotDrawn(Perform(db, op), n, id, rest, k);
  }

  /** In every run, no tenant id is drawn from the sequences twice, across all environments. */
  lemma NeverDrawnTwice(db: Db, ops: seq<DbOp>, i: nat, j: nat)
    requires Consistent(db) && AllWellFormed(ops) && i < j < |ops|
    requires Drawn(Run(db, ops[..i]), ops[i]).Some?
    ensures Drawn(Run(db, ops[..i]), ops[i]) != Drawn(Run(db, ops[..j]), ops[j])
  {
    hide Perform, Consistent, Drawn;
    RunSplit(db, ops[..j], i);
    Slices(ops, i, j);
    Slices(ops, i + 1, j);
    var mid, rest, k := Run(db, ops[..i]), ops[i + 1..], j - (i + 1);
    DrawnNotDrawnLater(mid, ops[i], rest, k);
    assert Run(db, ops[..j]) == Run(Perform(mid, ops[i]), rest[..k]);
  }

  // ----- The allocation view --------------------------------------------------------

  function Allocated(db: Db, environment: string): set<int> {
    set id | id in db.tenants && db.tenants[id].environment == environment
  }

  /** remaining_capacity of the allocation view */
  function RemainingCapacity(db: Db, environment: string): int
    requires BlockOf(environment).Some?
  {
    BlockOf(environment).value.Capacity() - |Allocated(db, environment)|
  }

  /** In every consistent database no block is overfull, and a block with no capacity left has every id taken. */
  lemma CapacityNeverNegative(db: Db, environment: string)
    requires Consistent(db) && BlockOf(environment).Some?
    ensures RemainingCapacity(db, environment) >= 0
    ensures RemainingCapacity(db, environment) == 0 ==>
      forall id :: BlockOf(environment).value.Contains(id) ==>
        id in db.tenants && db.tenants[id].environment == environment
  {
    var block := BlockOf(environment).value;
    var ids := Allocated(db, environment);
    assert forall id :: id in ids ==> TenantRowOk(id, db.tenants[id]);
    IntervalBound(ids, block.startId, block.endId);
    if RemainingCapacity(db, environment) == 0 {
      forall id | block.Contains(id) ensures id in ids {
        if id !in ids {
          assert |ids + {id}| == |ids| + 1;
          IntervalBound(ids + {id}, block.startId, block.endId);
          assert false;
        }
      }
    }
  }

  // ----- Retrying GetOrInsertTenant -------------------------------------------------

  /** Call GetOrInsertTenant until it answers, at most `calls` times. */
  ghost function Retry(db: Db, environment: string, name: string, calls: nat): (Db, Option<int>)
    decreases calls
  {
    if calls == 0 then (db, None)
    else
      var (after, r) := D.GetOrInsertTenant(db, environment, name);
      if r.Some? then (after, r) else Retry(after, environment, name, calls - 1)
  }

  /** A known environment, and a usable name no tenant has. */
  ghost predicate NewName(db: Db, environment: string, name: string) {
    && Consistent(db) && BlockOf(environment).Some? && SequenceName(environment) in db.sequences
    && 1 <= |name| <= MAX_TENANT_NAME_LEN && !D.NameTaken(db, name)
  }

  /** The next id the environment's sequence hands out, and the last. */
  function NextId(db: Db, environment: string): int {
    if SequenceName(environment) in db.sequences then db.sequences[SequenceName(environment)] else 0
  }

  function LastId(environment: string): int {
    if BlockOf(environment).Some? then BlockOf(environment).value.endId else 0
  }

  /** The first id from `next` to `last` no tenant has. */
  function FirstFree(tenants: map<int, Tenant>, next: int, last: int): (r: Option<int>)
    decreases last + 1 - next
  {
    if next > last then None
    else if next !in tenants then Some(next)
    else FirstFree(tenants, next + 1, last)
  }

  /** FirstFree finds an id exactly when one is free, and then the smallest. */
  lemma {:induction false} FirstFreeIsFirst(tenants: map<int, Tenant>, next: int, last: int)
    ensures var r := FirstFree(tenants, next, last);
      && (r.Some? <==> exists id :: next <= id <= last && id !in tenants)
      && (r.Some? ==> next <= r.value <= last && r.value !in tenants)
      && (r.Some? ==> forall id :: next <= id < r.value ==> id in tenants)
    decreases last + 1 - next
  {
    if next <= last && next in tenants {
      FirstFreeIsFirst(tenants, next + 1, last);
    }
  }

  /** One call draws the next id, and creates the tenant with it or finds it taken. */
  lemma OneCall(db: Db, environment: string, name: string)
    requires NewName(db, environment, name)
    ensures NextId(db, environment) <= LastId(environment) + 1
    ensures var (after, r) := D.GetOrInsertTenant(db, environment, name);
      var next := NextId(db, environment);
      if next > LastId(environment) then (after, r) == (db, None)
      else if next in db.tenants then
        r == None && NewName(after, environment, name) && NextId(after, environment) == next + 1
          && after.tenants == db.tenants
      else
        r == Some(next) && after.tenants == db.tenants[next := Tenant(name, environment)]
  {
    SequenceServesBlock(environment);
    D.GetOrInsertTenantKeeps(db, environment, name);
  }

  /** With one call per id left, retrying answers with the first free id ahead of the sequence when there is
      one, having created the tenant with it; otherwise it ends with the sequence used up and no tenant changed. */
  lemma {:induction false} RetryEnds(db: Db, environment: string, name: string)
    requires NewName(db, environment, name)
    ensures NextId(db, environment) <= LastId(environment) + 1
    ensures var (next, last) := (NextId(db, environment), LastId(environment));
      var (after, r) := Retry(db, environment, name, last + 1 - next);
      && r == FirstFree(db.tenants, next, last)
      && after.tenants == (if r.Some? then db.tenants[r.value := Tenant(name, environment)] else db.tenants)
      && (r.None? ==> NewName(after, environment, name) && NextId(after, environment) == last + 1)
    decreases LastId(environment) + 1 - NextId(db, environment)
  {
    hide NewName, NextId, LastId, D.GetOrInsertTenant, SequenceName, BlockOf, SequenceRange, D.NextValue, D.NameTaken;
    OneCall(db, environment, name);
    var (after, r) := D.GetOrInsertTenant(db, environment, name);
    if NextId(db, environment) <= LastId(environment) && r.None? {
      RetryEnds(after, environment, name);
    }
  }

  // ----- The block of the answer ----------------------------------------------------

  /** An answered id lies in the block of the handle's environment exactly when no tenant had the name before the
      call, or the one that had it is recorded under that environment. */
  lemma AnswerInBlockIff(db: Db, environment: string, name: string)
    requires Consistent(db) && BlockOf(environment).Some?
    requires D.GetOrInsertTenant(db, environment, name).1.Some?
    ensures BlockOf(environment).value.Contains(D.GetOrInsertTenant(db, environment, name).1.value) <==>
      (!D.NameTaken(db, name) || db.tenants[D.TenantNamed(db, name)].environment == environment)
  {
    AnsweredTenant(db, environment, name);
    if !D.NameTaken(db, name) {
      assert D.GetOrInsertTenant(db, environment, name).0.tenants[D.GetOrInsertTenant(db, environment, name).1.value]
        == Tenant(name, environment);
    }
  }

  /** After the call the answered id has the name, and lies in the block of the environment it
      is recorded under only. */
  lemma AnsweredTenant(db: Db, environment: string, name: string)
    requires Consistent(db) && BlockOf(environment).Some?
    requires D.GetOrInsertTenant(db, environment, name).1.Some?
    ensures var (after, r) := D.GetOrInsertTenant(db, environment, name);
      && r.value in after.tenants && after.tenants[r.value].name == name
      && (BlockOf(environment).value.Contains(r.value) <==> after.tenants[r.value].environment == environment)
  {
    D.GetOrInsertTenantKeeps(db, environment, name);
    var (after, r) := D.GetOrInsertTenant(db, environment, name);
    assert TenantRowOk(r.value, after.tenants[r.value]);
    if BlockOf(environment).value.Contains(r.value) {
      BlocksAreDisjoint(environment, after.tenants[r.value].environment, r.value);
    }
  }

  /** It can lie outside: a name already used in another environment answers that tenant's id. */
  lemma AnswerOutsideBlock()
    ensures exists db: Db ::
      && Consistent(db)
      && D.GetOrInsertTenant(db, "aws-prod", "acme") == (db, Some(7))
      && !BlockOf("aws-prod").value.Contains(7)
  {
    var t := Tenant("acme", "private-staging");
    var db := EMPTY_DB.(tenants := map[7 := t]);
    EmptyIsConsistent();
    D.InsertTenantKeeps(EMPTY_DB, 7, t);
    assert D.CanInsertTenant(EMPTY_DB, 7, t);
    assert D.InsertTenant(EMPTY_DB, 7, t).0 == db;
    assert db.tenants[7].name == "acme";
    assert D.NameTaken(db, "acme");
    assert D.TenantNamed(db, "acme") == 7;
  }
}
