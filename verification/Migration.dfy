/** Moving a tenant to the id block of another environment: the id allocation, the range check
    and the eight statements of the migration transaction. */
module Migration {
  import opened Tables
  import opened Schema
  import opened Text
  import opened Store
  import D = DbUtil

  /** The text the old tenant's name carries while both tenants exist. */
  function Suffix(from: string, to: string): string {
    "-migrating-" + from + "-to-" + to
  }

  /** In the suffix, only the first '-' is followed by an 'm'. */
  lemma SuffixUnbordered(from: string, to: string)
    requires AllDigits(from) && AllDigits(to) && from != "" && to != ""
    ensures Unbordered(Suffix(from, to))
  {
    var s := Suffix(from, to);
    var f := |from|;
    assert s[0] == '-' && s[1] == 'm';
    assert s[11..11 + f] == from && s[f + 15..] == to;
    forall i | 0 < i < |s|
      ensures s[i] != '-' || (i + 1 < |s| && s[i + 1] != 'm')
    {
      if i < 11 {
        assert s[i] == "-migrating-"[i];
        assert i == 10 ==> s[11] == from[0];
      } else if i < 11 + f {
        assert s[i] == s[11..11 + f][i - 11] == from[i - 11];
      } else if i < f + 15 {
        assert s[i] == "-to-"[i - 11 - f];
        assert i == f + 14 ==> s[i + 1] == s[f + 15..][0] == to[0];
      } else {
        assert s[i] == s[f + 15..][i - f - 15] == to[i - f - 15];
      }
    }
    forall l | 0 < l < |s|
      ensures s[..l] != s[|s| - l..]
    {
      var i := |s| - l;
      assert s[..l][0] == '-' && s[i..][0] == s[i];
      if s[i] == '-' {
        assert s[..l][1] == 'm' && s[i..][1] == s[i + 1];
      }
    }
  }

  // ----- The transaction ------------------------------------------------------------

  /** Step 0: UPDATE tenants SET tenant_name = tenant_name || suffix */
  ghost function Rename(db: Db, a: int, suffix: string): Option<Db>
    requires a in db.tenants
  {
    var row := db.tenants[a].(name := db.tenants[a].name + suffix);
    if TenantRowOk(a, row) && !D.NameTaken(db, row.name) then Some(db.(tenants := db.tenants[a := row])) else None
  }

  /** Step 1: INSERT INTO tenants .. SELECT b, REPLACE(tenant_name, suffix, ''), target */
  ghost function CreateTarget(db: Db, a: int, b: int, suffix: string, target: string): Option<Db>
    requires a in db.tenants && suffix != ""
  {
    var row := Tenant(Remove(db.tenants[a].name, suffix), target);
    if D.CanInsertTenant(db, b, row) then Some(D.InsertTenant(db, b, row).0) else None
  }

  /** Steps 2 to 6: the five UPDATE .. SET tenant_id = b WHERE tenant_id = a */
  function RetagChildren(db: Db, a: int, b: int): Db {
    db.(devices := Retag(db.devices, a, b), apiKeys := Retag(db.apiKeys, a, b), rules := Retag(db.rules, a, b),
        status := Retag(db.status, a, b), versions := Retag(db.versions, a, b))
  }

  /** BEGIN .. COMMIT: the tables after step 7, or none when a constraint rolls it back. */
  ghost function Transaction(db: Db, a: int, b: int, suffix: string, target: string): Option<Db>
    requires a in db.tenants && suffix != ""
  {
    var renamed := Rename(db, a, suffix);
    if renamed.None? then None
    else
      var created := CreateTarget(renamed.value, a, b, suffix, target);
      if created.None? then None else Some(WithoutTenant(RetagChildren(created.value, a, b), a))
  }

  /** What a committed migration has done, stated on the tables before and after. */
  ghost predicate MovedTenant(db: Db, after: Db, a: int, b: int, name: string, target: string) {
    && after.tenants == (db.tenants - {a})[b := Tenant(name, target)]
    && Moved(db.devices, after.devices, a, b)
    && Moved(db.apiKeys, after.apiKeys, a, b)
    && Moved(db.rules, after.rules, a, b)
    && Moved(db.status, after.status, a, b)
    && Moved(db.versions, after.versions, a, b)
    && after.users == Without(db.users, a)
    && after.tokens == TokensOfUsers(db.tokens, after.users)
    && after.software == db.software && after.threatIntel == db.threatIntel && after.sequences == db.sequences
  }

  ghost predicate CountsConserved(db: Db, after: Db, a: int, b: int) {
    && CountOf(after.devices, b) == CountOf(db.devices, a)
    && CountOf(after.apiKeys, b) == CountOf(db.apiKeys, a)
    && CountOf(after.rules, b) == CountOf(db.rules, a)
    && CountOf(after.status, b) == CountOf(db.status, a)
    && CountOf(after.versions, b) == CountOf(db.versions, a)
  }

  /** After the retag the final cascade finds no child of the old tenant. */
  lemma RetagThenCascade<K, T>(table: map<K, Owned<T>>, tenants: set<int>, a: int, b: int)
    requires OwnersIn(table, tenants) && a in tenants && b !in tenants
    ensures Without(Retag(table, a, b), a) == Retag(table, a, b)
    ensures Moved(table, Retag(table, a, b), a, b)
    ensures CountOf(Retag(table, a, b), b) == CountOf(table, a)
    ensures OwnersIn(Retag(table, a, b), tenants - {a} + {b})
  {
    FreshOwnsNothing(table, tenants, b);
    RetagMoves(table, a, b);
    assert Without(Retag(table, a, b), a) == Retag(table, a, b);
  }

  /** A committed migration moved the five child tables of a to b and nothing else, lost the users
      of a with their refresh tokens, and kept the five counts. */
  lemma CommittedMigrationMoves(db: Db, a: int, b: int, suffix: string, target: string)
    requires Consistent(db) && a in db.tenants && suffix != ""
    requires Transaction(db, a, b, suffix, target).Some?
    ensures var after := Transaction(db, a, b, suffix, target).value;
      && MovedTenant(db, after, a, b, Remove(db.tenants[a].name + suffix, suffix), target)
      && CountsConserved(db, after, a, b)
  {
    var ids := db.tenants.Keys;
    var after := Transaction(db, a, b, suffix, target).value;
    TransactionColumns(db, a, b, suffix, target);
    assert b !in ids;
    RetagThenCascade(db.devices, ids, a, b);
    RetagThenCascade(db.apiKeys, ids, a, b);
    RetagThenCascade(db.rules, ids, a, b);
    RetagThenCascade(db.status, ids, a, b);
    RetagThenCascade(db.versions, ids, a, b);
    KeysKeepDevices(db, a, b);
  }

  lemma TransactionColumns(db: Db, a: int, b: int, suffix: string, target: string)
    requires a in db.tenants && suffix != ""
    requires Transaction(db, a, b, suffix, target).Some?
    ensures var after := Transaction(db, a, b, suffix, target).value;
      && b !in db.tenants
      && after == WithoutTenant(RetagChildren(db, a, b), a).(tenants := after.tenants)
      && after.tenants == (db.tenants - {a})[b := Tenant(Remove(db.tenants[a].name + suffix, suffix), target)]
  {
  }

  lemma KeysKeepDevices(db: Db, a: int, b: int)
    requires KeysOk(db.apiKeys, db.devices)
    ensures KeysOfDevices(Retag(db.apiKeys, a, b), Retag(db.devices, a, b)) == Retag(db.apiKeys, a, b)
  {
  }

  /** The database a committed migration leaves is consistent. */
  lemma MigrationConsistent(db: Db, a: int, b: int, suffix: string, target: string)
    requires Consistent(db) && a in db.tenants && suffix != ""
    requires Transaction(db, a, b, suffix, target).Some?
    ensures Consistent(Transaction(db, a, b, suffix, target).value)
  {
    var after := Transaction(db, a, b, suffix, target).value;
    CommittedMigrationMoves(db, a, b, suffix, target);
    TransactionColumns(db, a, b, suffix, target);
    MigrationKeepsTenants(db, a, b, suffix, target);
    var ids, newIds := db.tenants.Keys, after.tenants.Keys;
    FreshOwnsNothing(db.rules, ids, b);
    MigrationKeepsRules(db.rules, after.rules, db.nextRulesId, a, b);
    MigrationKeepsKeys(db, after, a, b);
    FreshOwnsNothing(db.devices, ids, b);
    MigrationKeepsNames(db.devices, after.devices, a, b);
    MovedOwners(db.devices, after.devices, ids, newIds, a, b);
    MovedOwners(db.apiKeys, after.apiKeys, ids, newIds, a, b);
    MovedOwners(db.rules, after.rules, ids, newIds, a, b);
    MovedOwners(db.status, after.status, ids, newIds, a, b);
    MovedOwners(db.versions, after.versions, ids, newIds, a, b);
    WithoutOwners(db.users, ids, a);
    OwnersInMore(after.users, ids - {a}, newIds);
    TokensOfUsersOk(db.tokens, after.users);
    EmailsDistinctInPart(after.users, db.users);
  }

  lemma MovedOwners<K, T>(before: map<K, Owned<T>>, after: map<K, Owned<T>>, ids: set<int>, newIds: set<int>, a: int,
      b: int)
    requires OwnersIn(before, ids) && newIds == ids - {a} + {b}
    requires Moved(before, after, a, b)
    ensures OwnersIn(after, newIds)
  {
    forall k | k in after ensures after[k].tenant in newIds {
      if before[k].tenant == a { assert k in KeysOf(before, a); }
    }
  }

  lemma MovedRow<K, T>(before: map<K, Owned<T>>, after: map<K, Owned<T>>, a: int, b: int, k: K)
    requires Moved(before, after, a, b) && k in before
    ensures after[k] == before[k].(tenant := if before[k].tenant == a then b else before[k].tenant)
  {
    if before[k].tenant == a { assert k in KeysOf(before, a); }
  }

  lemma MigrationKeepsTenants(db: Db, a: int, b: int, suffix: string, target: string)
    requires TenantsOk(db.tenants) && a in db.tenants && suffix != ""
    requires Transaction(db, a, b, suffix, target).Some?
    ensures TenantsOk(Transaction(db, a, b, suffix, target).value.tenants)
  {
  }

  lemma MigrationKeepsRules(before: map<int, Owned<Package>>, after: map<int, Owned<Package>>, next: int, a: int,
      b: int)
    requires RulesOk(before, next) && Moved(before, after, a, b)
    requires KeysOf(before, b) == {}
    ensures RulesOk(after, next)
  {
    forall x, y | x in after && y in after && after[x].tenant == after[y].tenant
      && after[x].row.version == after[y].row.version
      ensures x == y
    {
      MovedRow(before, after, a, b, x);
      MovedRow(before, after, a, b, y);
      assert x !in KeysOf(before, b) && y !in KeysOf(before, b);
    }
  }

  lemma MigrationKeepsNames(before: map<string, Owned<Device>>, after: map<string, Owned<Device>>, a: int, b: int)
    requires NamesDistinct(before) && Moved(before, after, a, b) && KeysOf(before, b) == {}
    ensures NamesDistinct(after)
  {
    forall x, y | x in after && y in after && after[x].tenant == after[y].tenant
      && after[x].row.name == after[y].row.name
      ensures x == y
    {
      MovedRow(before, after, a, b, x);
      MovedRow(before, after, a, b, y);
      assert x !in KeysOf(before, b) && y !in KeysOf(before, b);
    }
  }

  lemma MigrationKeepsKeys(db: Db, after: Db, a: int, b: int)
    requires KeysOk(db.apiKeys, db.devices)
    requires Moved(db.devices, after.devices, a, b) && Moved(db.apiKeys, after.apiKeys, a, b)
    ensures KeysOk(after.apiKeys, after.devices)
  {
    forall k | k in after.apiKeys
      ensures after.apiKeys[k].tenant == after.devices[after.apiKeys[k].row.device].tenant
    {
      MovedRow(db.apiKeys, after.apiKeys, a, b, k);
      MovedRow(db.devices, after.devices, a, b, db.apiKeys[k].row.device);
    }
  }

  // ----- When it commits, and under which name --------------------------------------

  /** The name the target row gets: the longer name with every occurrence of the suffix taken out. */
  function NewName(name: string, suffix: string): string
    requires suffix != ""
  {
    Remove(name + suffix, suffix)
  }

  /** Another tenant than a has the name. */
  ghost predicate NameOfOther(db: Db, a: int, name: string) {
    exists t :: t in db.tenants && t != a && db.tenants[t].name == name
  }

  /** Apart from outside failures, the transaction commits exactly when the longer name fits and is not taken, the
      new id is free, and the new name is not empty and is no other tenant's. */
  lemma CommitsIff(db: Db, a: int, b: int, suffix: string, target: string)
    requires Consistent(db) && a in db.tenants && suffix != ""
    requires BlockOf(target).Some? && BlockOf(target).value.Contains(b)
    ensures Transaction(db, a, b, suffix, target).Some? <==>
      && |db.tenants[a].name| + |suffix| <= MAX_TENANT_NAME_LEN && !D.NameTaken(db, db.tenants[a].name + suffix)
      && b !in db.tenants
      && NewName(db.tenants[a].name, suffix) != "" && !NameOfOther(db, a, NewName(db.tenants[a].name, suffix))
  {
    hide Remove;
    var name := db.tenants[a].name;
    RemoveShortens(name, suffix);
    AcceptsRename(db, a, suffix);
    var renamed := Rename(db, a, suffix);
    if renamed.Some? {
      assert D.NameTaken(renamed.value, NewName(name, suffix)) <==> NameOfOther(db, a, NewName(name, suffix)) by {
        RenamedNames(db, renamed.value, a, name + suffix, NewName(name, suffix));
      }
    }
  }

  lemma AcceptsRename(db: Db, a: int, suffix: string)
    requires Consistent(db) && a in db.tenants && suffix != ""
    ensures Rename(db, a, suffix).Some? <==>
      |db.tenants[a].name| + |suffix| <= MAX_TENANT_NAME_LEN && !D.NameTaken(db, db.tenants[a].name + suffix)
  {
    assert TenantRowOk(a, db.tenants[a]);
  }

  lemma RenamedNames(db: Db, renamed: Db, a: int, longer: string, name: string)
    requires a in db.tenants && renamed.tenants == db.tenants[a := db.tenants[a].(name := longer)] && name != longer
    ensures D.NameTaken(renamed, name) <==> NameOfOther(db, a, name)
  {
    if t :| t in db.tenants && t != a && db.tenants[t].name == name {
      assert renamed.tenants[t].name == name;
    }
  }

  /** The name is kept exactly when it did not contain the suffix. */
  lemma NameKeptIff(db: Db, a: int, b: int, suffix: string, target: string)
    requires Consistent(db) && a in db.tenants && suffix != "" && Unbordered(suffix)
    requires Transaction(db, a, b, suffix, target).Some?
    ensures Transaction(db, a, b, suffix, target).value.tenants[b].name == db.tenants[a].name
      <==> !Contains(db.tenants[a].name, suffix)
  {
    CommittedMigrationMoves(db, a, b, suffix, target);
    RemoveUndoesAppendIff(db.tenants[a].name, suffix);
  }

  // ----- The script -----------------------------------------------------------------

  /** Runs the transaction on the tables. Statement `failsAt` (0 to 7) fails for a reason outside the
      schema; 8 or more when none does. */
  method RunTransaction(store: Database, a: int, b: int, suffix: string, target: string,
      failsAt: nat) returns (committed: bool)
    requires a in store.tenants && suffix != ""
    modifies store
    ensures committed <==> failsAt >= 8 && Transaction(old(store.Snapshot()), a, b, suffix, target).Some?
    ensures committed ==> store.Snapshot() == Transaction(old(store.Snapshot()), a, b, suffix, target).value
    ensures !committed ==> store.Snapshot() == old(store.Snapshot())
  {
    var saved := store.Snapshot();
    committed := RunStatements(store, a, b, suffix, target, failsAt);
    if !committed {
      Rollback(store, saved);
    }
  }

  method Rollback(store: Database, saved: Db)
    modifies store
    ensures store.Snapshot() == saved
  {
    RollbackFleet(store, saved);
    RollbackCatalog(store, saved);
    store.tenants := saved.tenants;
    store.users := saved.users;
    store.tokens := saved.tokens;
    store.sequences := saved.sequences;
  }

  method RollbackFleet(store: Database, saved: Db)
    modifies store`devices, store`apiKeys, store`rules, store`status, store`versions
    ensures store.devices == saved.devices && store.apiKeys == saved.apiKeys && store.rules == saved.rules
    ensures store.status == saved.status && store.versions == saved.versions
  {
    store.devices := saved.devices;
    store.apiKeys := saved.apiKeys;
    store.rules := saved.rules;
    store.status := saved.status;
    store.versions := saved.versions;
  }

  method RollbackCatalog(store: Database, saved: Db)
    modifies store`software, store`threatIntel, store`nextRulesId, store`nextSoftwareId, store`nextThreatIntelId
    ensures store.software == saved.software && store.threatIntel == saved.threatIntel
    ensures store.nextRulesId == saved.nextRulesId && store.nextSoftwareId == saved.nextSoftwareId
    ensures store.nextThreatIntelId == saved.nextThreatIntelId
  {
    store.software := saved.software;
    store.threatIntel := saved.threatIntel;
    store.nextRulesId := saved.nextRulesId;
    store.nextSoftwareId := saved.nextSoftwareId;
    store.nextThreatIntelId := saved.nextThreatIntelId;
  }

  /** The eight statements in order, stopping at the first that fails. */
  method RunStatements(store: Database, a: int, b: int, suffix: string, target: string, failsAt: nat) returns (ok: bool)
    requires a in store.tenants && suffix != ""
    modifies store
    ensures ok <==> failsAt >= 8 && Transaction(old(store.Snapshot()), a, b, suffix, target).Some?
    ensures ok ==> store.Snapshot() == Transaction(old(store.Snapshot()), a, b, suffix, target).value
  {
    var row := store.tenants[a].(name := store.tenants[a].name + suffix);
    if failsAt == 0 || !TenantRowOk(a, row) || exists t | t in store.tenants :: store.tenants[t].name == row.name {
      return false;
    }
    store.tenants := store.tenants[a := row];
    var inserted := store.InsertTenantRow(b, Remove(store.tenants[a].name, suffix), target);
    if failsAt == 1 || !inserted {
      return false;
    }
    var retagged := RetagStatements(store, a, b, failsAt);
    if !retagged || failsAt == 7 {
      return false;
    }
    ok := store.DeleteTenant(a);
  }

  method RetagStatements(store: Database, a: int, b: int, failsAt: nat) returns (ok: bool)
    requires failsAt >= 2
    modifies store
    ensures ok <==> failsAt >= 7
    ensures ok ==> store.Snapshot() == RetagChildren(old(store.Snapshot()), a, b)
    ensures store.tenants == old(store.tenants)
  {
    if failsAt == 2 { return false; }
    store.devices := Retag(store.devices, a, b);
    if failsAt == 3 { return false; }
    store.apiKeys := Retag(store.apiKeys, a, b);
    if failsAt == 4 { return false; }
    store.rules := Retag(store.rules, a, b);
    if failsAt == 5 { return false; }
    store.status := Retag(store.status, a, b);
    if failsAt == 6 { return false; }
    store.versions := Retag(store.versions, a, b);
    return true;
  }

  // ----- The environment the script reads -------------------------------------------

  /** The environment of a tenant as the script has it: the third field of the row it printed with bars in between. */
  function CurrentEnvironment(a: int, row: Tenant): string {
    Cut(Printed(a) + "|" + row.name + "|" + row.environment, '|', 2)
  }

  lemma {:induction false} PartsStayIn(s: string, sep: char, c: char)
    requires c !in s
    ensures forall p | p in Parts(s, sep) :: c !in p
  {
    if s != "" {
      PartsStayIn(s[1..], sep, c);
      var rest := Parts(s[1..], sep);
      assert forall p | p in rest[1..] :: p in rest;
    }
  }

  lemma PrintedPlain(a: int)
    ensures '|' !in Printed(a) && '\n' !in Printed(a)
  {
  }

  lemma KnownPlain(environment: string)
    requires BlockOf(environment).Some?
    ensures '|' !in environment && '\n' !in environment
  {
  }

  /** For a name of one line the script reads the row's environment when the name has no bar, and else what stands in
      the name between its first bar and the next. */
  lemma ReadsEnvironment(a: int, row: Tenant)
    requires BlockOf(row.environment).Some? && '\n' !in row.name
    ensures CurrentEnvironment(a, row) == if '|' in row.name then Parts(row.name, '|')[1] else row.environment
  {
    hide BlockOf, Printed, Cut;
    PrintedPlain(a);
    KnownPlain(row.environment);
    var info := Printed(a) + "|" + row.name + "|" + row.environment;
    var tail := row.name + ['|'] + row.environment;
    assert info == Printed(a) + ['|'] + tail;
    PartsOfTwo(Printed(a), tail, '|');
    PartsOfJoined(row.name, row.environment, '|');
    PartsOfWhole(row.environment, '|');
    if '|' !in row.name {
      PartsOfWhole(row.name, '|');
    } else {
      PartsStayIn(row.name, '|', '\n');
    }
    CutOneLine(info, '|', 2);
  }

  /** So it reads the row's environment exactly when the name has no bar, or has that very environment behind its
      first one. */
  lemma ReadsRightIff(a: int, row: Tenant)
    requires BlockOf(row.environment).Some? && '\n' !in row.name
    ensures CurrentEnvironment(a, row) == row.environment
      <==> ('|' !in row.name || Parts(row.name, '|')[1] == row.environment)
  {
    ReadsEnvironment(a, row);
  }

  /** From a name with a line break and no bar it reads nothing. */
  lemma BreakReadsNothing(a: int, row: Tenant, x: string, y: string)
    requires BlockOf(row.environment).Some? && row.name == x + "\n" + y
    requires '|' !in x && '|' !in y && '\n' !in x && '\n' !in y
    ensures CurrentEnvironment(a, row) == ""
  {
    hide BlockOf, Printed, Parts, CutLine;
    PrintedPlain(a);
    KnownPlain(row.environment);
    var first, last := Printed(a) + ['|'] + x, y + ['|'] + row.environment;
    TwoPartLine(Printed(a), x);
    TwoPartLine(y, row.environment);
    TwoShortLines(first, last);
    RowInTwoLines(Printed(a), x, y, row.environment);
  }

  lemma RowInTwoLines(id: string, x: string, y: string, environment: string)
    ensures id + "|" + (x + "\n" + y) + "|" + environment == (id + ['|'] + x) + ['\n'] + (y + ['|'] + environment)
  {
  }

  lemma TwoPartLine(a: string, b: string)
    requires '|' !in a && '|' !in b
    ensures CutLine(a + ['|'] + b, '|', 2) == ""
  {
    BarBetween(a, b);
  }

  lemma TwoShortLines(first: string, last: string)
    requires '\n' !in first && '\n' !in last && CutLine(first, '|', 2) == "" && CutLine(last, '|', 2) == ""
    ensures Cut(first + ['\n'] + last, '|', 2) == ""
  {
    hide CutLine;
    PartsOfTwo(first, last, '\n');
    PartsOfWhole(last, '\n');
    assert [first, last][1..] == [last] && [last][1..] == [];
    assert CutLines([last], '|', 2) == "\n";
    assert CutLines([first, last], '|', 2) == "\n\n";
    assert "\n\n"[..1] == "\n" && "\n"[..0] == "";
    assert WithoutLastBreaks("\n") == "";
  }

  // ----- The whole script -----------------------------------------------------------

  datatype MoveResult =
    | UnknownTenant
    | AlreadyThere
    | UnknownEnvironment
    | NoIdLeft
    | IdOutOfRange
    | Planned
    | RolledBack
    | Committed(newId: int)

  /** The tables after the whole script. */
  ghost function AfterMove(db: Db, id: string, target: string, run: bool, failsAt: nat): Db
    requires SequencesOk(db.sequences) && AllDigits(id)
  {
    var a := Numeral(id);
    var (start, b) := D.NextValue(db, SequenceName(target));
    if a !in db.tenants || CurrentEnvironment(a, db.tenants[a]) == target || BlockOf(target).None? || b.None? then db
    else if !run || failsAt < 8 then start
    else
      var done := Transaction(start, a, b.value, Suffix(id, Decimal(b.value)), target);
      if done.None? then start else done.value
  }

  /** What the whole script needs to commit, all of it known before it starts: a tenant it reads another
      environment for, a known target with an id left that no tenant has, an operator who says yes, no outside
      failure, room for the suffix, and a new name that is not empty and no other tenant's. */
  ghost predicate Commits(db: Db, id: string, target: string, run: bool, failsAt: nat)
    requires SequencesOk(db.sequences) && AllDigits(id)
  {
    var a, b := Numeral(id), D.NextValue(db, SequenceName(target)).1;
    && a in db.tenants && CurrentEnvironment(a, db.tenants[a]) != target && BlockOf(target).Some? && b.Some? && run
      && failsAt >= 8
    && var name, suffix := db.tenants[a].name, Suffix(id, Decimal(b.value));
    && |name| + |suffix| <= MAX_TENANT_NAME_LEN && !D.NameTaken(db, name + suffix) && b.value !in db.tenants
    && NewName(name, suffix) != "" && !NameOfOther(db, a, NewName(name, suffix))
  }

  /** The script commits exactly then: the old tenant id is gone if and only if the condition holds. The tenant then has
      the drawn id, and it has kept its name if and only if the name did not contain the suffix. */
  lemma ScriptCommitsIff(db: Db, id: string, target: string, run: bool, failsAt: nat)
    requires Consistent(db) && AllDigits(id) && id != "" && Numeral(id) in db.tenants
    ensures Commits(db, id, target, run, failsAt) <==> Numeral(id) !in AfterMove(db, id, target, run, failsAt).tenants
    ensures D.NextValue(db, SequenceName(target)).1.Some? ==> D.NextValue(db, SequenceName(target)).1.value > 0
    ensures Commits(db, id, target, run, failsAt) ==> D.NextValue(db, SequenceName(target)).1.Some?
    ensures Commits(db, id, target, run, failsAt) ==>
      var b, after := D.NextValue(db, SequenceName(target)).1.value, AfterMove(db, id, target, run, failsAt);
      && b in after.tenants && after.tenants[b].environment == target
      && (after.tenants[b].name == db.tenants[Numeral(id)].name <==>
        !Contains(db.tenants[Numeral(id)].name, Suffix(id, Decimal(b))))
  {
    hide Transaction, Consistent, Remove, Suffix, Decimal, NewName, Contains, Commits, D.NameTaken, CurrentEnvironment;
    var a := Numeral(id);
    var (start, b) := D.NextValue(db, SequenceName(target));
    D.NextValueKeeps(db, SequenceName(target));
    CommitsOnlyAfterChecks(db, id, target, run, failsAt);
    if b.Some? {
      D.NextValueInRange(db, SequenceName(target));
    }
    if CurrentEnvironment(a, db.tenants[a]) != target && BlockOf(target).Some? && b.Some? {
      var suffix := Suffix(id, Decimal(b.value));
      SuffixUnbordered(id, Decimal(b.value));
      SuffixNotEmpty(id, Decimal(b.value));
      CommitsIsTransaction(db, id, target, run, failsAt);
      if Transaction(start, a, b.value, suffix, target).Some? {
        NameKeptIff(start, a, b.value, suffix, target);
        TransactionColumns(start, a, b.value, suffix, target);
      }
    }
  }

  lemma CommitsOnlyAfterChecks(db: Db, id: string, target: string, run: bool, failsAt: nat)
    requires Consistent(db) && AllDigits(id)
    ensures Commits(db, id, target, run, failsAt) ==>
      && Numeral(id) in db.tenants && CurrentEnvironment(Numeral(id), db.tenants[Numeral(id)]) != target
        && BlockOf(target).Some?
      && D.NextValue(db, SequenceName(target)).1.Some? && run && failsAt >= 8
  {
  }

  /** Once the checks have passed, what is left of the condition is that the transaction commits. */
  lemma CommitsIsTransaction(db: Db, id: string, target: string, run: bool, failsAt: nat)
    requires Consistent(db) && AllDigits(id) && id != "" && Numeral(id) in db.tenants
      && CurrentEnvironment(Numeral(id), db.tenants[Numeral(id)]) != target
    requires BlockOf(target).Some? && D.NextValue(db, SequenceName(target)).1.Some?
    ensures D.NextValue(db, SequenceName(target)).1.value > 0
    ensures var (start, b) := D.NextValue(db, SequenceName(target));
      Suffix(id, Decimal(b.value)) != "" &&
      (Commits(db, id, target, run, failsAt) <==>
        run && failsAt >= 8 && Transaction(start, Numeral(id), b.value, Suffix(id, Decimal(b.value)), target).Some?)
  {
    hide Transaction, Consistent, Remove, Suffix, Decimal, NewName, CurrentEnvironment;
    var a := Numeral(id);
    var (start, b) := D.NextValue(db, SequenceName(target));
    D.NextValueKeeps(db, SequenceName(target));
    D.NextValueInRange(db, SequenceName(target));
    SequenceServesBlock(target);
    var suffix := Suffix(id, Decimal(b.value));
    SuffixNotEmpty(id, Decimal(b.value));
    CommitsIff(start, a, b.value, suffix, target);
    SameNames(db, start, a, db.tenants[a].name + suffix, NewName(db.tenants[a].name, suffix));
  }

  lemma SuffixNotEmpty(from: string, to: string)
    ensures Suffix(from, to) != ""
  {
  }

  lemma SameNames(db: Db, start: Db, a: int, longer: string, name: string)
    requires start.tenants == db.tenants
    ensures D.NameTaken(start, longer) <==> D.NameTaken(db, longer)
    ensures NameOfOther(start, a, name) <==> NameOfOther(db, a, name)
  {
  }

  /** The script moves the target's sequence by one exactly when it gets as far as asking for an id. */
  lemma AfterMoveSequences(db: Db, id: string, target: string, run: bool, failsAt: nat)
    requires SequencesOk(db.sequences) && AllDigits(id) && id != ""
    ensures AfterMove(db, id, target, run, failsAt).sequences ==
      if Numeral(id) in db.tenants && CurrentEnvironment(Numeral(id), db.tenants[Numeral(id)]) != target
        && BlockOf(target).Some?
      then D.NextValue(db, SequenceName(target)).0.sequences else db.sequences
  {
    var (start, b) := D.NextValue(db, SequenceName(target));
    if Numeral(id) in db.tenants && b.Some?
      && Transaction(start, Numeral(id), b.value, Suffix(id, Decimal(b.value)), target).Some?
    {
      TransactionColumns(start, Numeral(id), b.value, Suffix(id, Decimal(b.value)), target);
    }
  }

  /** The part of the script after the checks: the question, and the transaction. */
  method CarryOut(store: Database, id: string, b: int, target: string, run: bool, failsAt: nat) returns (r: MoveResult)
    requires Consistent(store.Snapshot()) && AllDigits(id) && id != "" && Numeral(id) in store.tenants && b > 0
    modifies store
    ensures r.Planned? || r.RolledBack? || r == Committed(b)
    ensures r.Planned? <==> !run
    ensures r.Committed? <==>
      run && failsAt >= 8 && Transaction(old(store.Snapshot()), Numeral(id), b, Suffix(id, Decimal(b)), target).Some?
    ensures if r.Committed? then Some(store.Snapshot()) == Transaction(old(store.Snapshot()), Numeral(id), b,
      Suffix(id, Decimal(b)), target)
      else store.Snapshot() == old(store.Snapshot())
    ensures Consistent(store.Snapshot())
  {
    hide Consistent, Transaction;
    if !run {
      return Planned;
    }
    var suffix := Suffix(id, Decimal(b));
    var committed := RunTransaction(store, Numeral(id), b, suffix, target, failsAt);
    if !committed {
      return RolledBack;
    }
    MigrationConsistent(old(store.Snapshot()), Numeral(id), b, suffix, target);
    return Committed(b);
  }

  /** The script finds the tenant, and finds it elsewhere. */
  predicate AsksForId(db: Db, id: string, target: string)
    requires AllDigits(id)
  {
    Numeral(id) in db.tenants && CurrentEnvironment(Numeral(id), db.tenants[Numeral(id)]) != target
  }

  /** The whole script. `id` is the tenant id as typed, `run` is false for a dry run or when the operator
      does not answer yes. A fresh id, once drawn, stays drawn. */
  method MoveTenant(store: Database, id: string, target: string, run: bool, failsAt: nat) returns (r: MoveResult)
    requires Consistent(store.Snapshot()) && AllDigits(id) && id != ""
    modifies store
    ensures r.UnknownTenant? <==> Numeral(id) !in old(store.tenants)
    ensures r.AlreadyThere? <==>
      Numeral(id) in old(store.tenants) && CurrentEnvironment(Numeral(id), old(store.tenants)[Numeral(id)]) == target
    ensures r != IdOutOfRange
    ensures r.UnknownEnvironment? <==> old(AsksForId(store.Snapshot(), id, target)) && BlockOf(target).None?
    ensures var noId := D.NextValue(old(store.Snapshot()), SequenceName(target)).1.None?;
      var asks := old(AsksForId(store.Snapshot(), id, target)) && BlockOf(target).Some?;
      && (r.NoIdLeft? <==> asks && noId)
      && (r.Planned? <==> asks && !noId && !run)
      && (r.RolledBack? <==> asks && !noId && run && !Commits(old(store.Snapshot()), id, target, run, failsAt))
    ensures r.Committed? <==> Commits(old(store.Snapshot()), id, target, run, failsAt)
    ensures store.Snapshot() == AfterMove(old(store.Snapshot()), id, target, run, failsAt)
    ensures r.UnknownTenant? || r.AlreadyThere? || r.UnknownEnvironment? || r.NoIdLeft? ==>
      store.Snapshot() == old(store.Snapshot())
    ensures r.Planned? || r.RolledBack? ==>
      store.Snapshot() == D.NextValue(old(store.Snapshot()), SequenceName(target)).0
    ensures r.Committed? ==>
      var (start, b) := D.NextValue(old(store.Snapshot()), SequenceName(target));
      && b == Some(r.newId) && r.newId > 0
      && Some(store.Snapshot()) == Transaction(start, Numeral(id), r.newId, Suffix(id, Decimal(r.newId)), target)
    ensures Consistent(store.Snapshot())
  {
    hide Transaction, Commits, D.NameTaken, Suffix, Decimal, CurrentEnvironment;
    CommitsOnlyAfterChecks(store.Snapshot(), id, target, run, failsAt);
    var a := Numeral(id);
    if a !in store.tenants {
      return UnknownTenant;
    }
    if CurrentEnvironment(a, store.tenants[a]) == target {
      return AlreadyThere;
    }
    var block := BlockOf(target);
    if block.None? {
      return UnknownEnvironment;
    }
    SequenceServesBlock(target);
    var b := store.GetNextTenantID(target);
    if b.None? {
      return NoIdLeft;
    }
    D.NextValueKeeps(old(store.Snapshot()), SequenceName(target));
    D.NextValueInRange(old(store.Snapshot()), SequenceName(target));
    if b.value < block.value.startId || b.value > block.value.endId {
      return IdOutOfRange;
    }
    CommitsIsTransaction(old(store.Snapshot()), id, target, run, failsAt);
    r := CarryOut(store, id, b.value, target, run, failsAt);
  }

  // ----- Names the script misreads --------------------------------------------------

  /** A tenant whose name carries the target's name behind a bar is not moved, whatever its environment is. */
  lemma BarKeepsTenant(db: Db, id: string, target: string, run: bool, failsAt: nat)
    requires Consistent(db) && AllDigits(id) && Numeral(id) in db.tenants
    requires var name := db.tenants[Numeral(id)].name;
      '|' in name && '\n' !in name && Parts(name, '|')[1] == target
    ensures AfterMove(db, id, target, run, failsAt) == db
  {
    hide Parts, CurrentEnvironment, Transaction;
    assert TenantRowOk(Numeral(id), db.tenants[Numeral(id)]);
    ReadsEnvironment(Numeral(id), db.tenants[Numeral(id)]);
  }

  /** So tenant 7, named "x|aws-prod" and at home in private-staging, stays where it is when moved to aws-prod. */
  lemma StaysInStaging(db: Db, run: bool, failsAt: nat)
    requires Consistent(db) && 7 in db.tenants && db.tenants[7] == Tenant("x|aws-prod", "private-staging")
    ensures AfterMove(db, "7", "aws-prod", run, failsAt) == db
  {
    hide AfterMove, Consistent, Parts, Numeral, Contains;
    BarBetween("x", "aws-prod");
    assert "x|aws-prod" == "x" + ['|'] + "aws-prod";
    NumeralOfSeven();
    BarKeepsTenant(db, "7", "aws-prod", run, failsAt);
  }

  lemma NumeralOfSeven()
    ensures AllDigits("7") && Numeral("7") == 7
  {
    assert "7"[..0] == "";
  }

  lemma BarBetween(x: string, y: string)
    requires '|' !in x && '|' !in y
    ensures Parts(x + ['|'] + y, '|') == [x, y]
  {
    PartsOfTwo(x, y, '|');
    PartsOfWhole(y, '|');
  }

  const NEWCOMER := "x|y"

  /** The database after one call that creates the tenant "x|y" in aws-prod. */
  ghost function NewcomerDb(): Db {
    D.GetOrInsertTenant(EMPTY_DB, "aws-prod", NEWCOMER).0
  }

  lemma NewcomerInAws()
    ensures Consistent(NewcomerDb()) && NewcomerDb().tenants == map[11000 := Tenant(NEWCOMER, "aws-prod")]
    ensures D.NextValue(NewcomerDb(), SequenceName("aws-prod")).1 == Some(11001)
  {
    hide Consistent;
    EmptyIsConsistent();
    AwsProdSequence();
    D.GetOrInsertTenantKeeps(EMPTY_DB, "aws-prod", NEWCOMER);
  }

  lemma ReadsBar()
    ensures CurrentEnvironment(11000, Tenant(NEWCOMER, "aws-prod")) == "y"
  {
    hide CurrentEnvironment, Parts;
    assert NEWCOMER == "x" + ['|'] + "y";
    BarBetween("x", "y");
    ReadsEnvironment(11000, Tenant(NEWCOMER, "aws-prod"));
  }

  lemma FiveDigits()
    ensures Decimal(11000) == "11000" && Decimal(11001) == "11001"
    ensures AllDigits("11000") && Numeral("11000") == 11000
  {
    assert Decimal(1100) == "1100";
    NumeralOfDecimal(11000);
  }

  lemma ShortHasNoSuffix(suffix: string)
    requires |suffix| > 3
    ensures !Contains(NEWCOMER, suffix)
  {
  }

  lemma NewcomerCommits()
    ensures Consistent(NewcomerDb()) && AllDigits("11000")
    ensures Commits(NewcomerDb(), "11000", "aws-prod", true, 8)
  {
    hide Consistent, Contains, Remove, CurrentEnvironment, NewcomerDb, D.NextValue, Decimal, Numeral, Unbordered;
    NewcomerInAws();
    FiveDigits();
    ReadsBar();
    var suffix := Suffix("11000", "11001");
    SuffixUnbordered("11000", "11001");
    ShortHasNoSuffix(suffix);
    RemoveAppended(NEWCOMER, suffix);
  }

  /** The other way round: a tenant of the target environment whose name carries another text behind a bar is moved
      inside its own environment, under a new id. */
  lemma MovesWithinEnvironment()
    ensures Consistent(NewcomerDb()) && AllDigits("11000")
    ensures NewcomerDb().tenants == map[11000 := Tenant(NEWCOMER, "aws-prod")]
    ensures var after := AfterMove(NewcomerDb(), "11000", "aws-prod", true, 8);
      11000 !in after.tenants && 11001 in after.tenants && after.tenants[11001] == Tenant(NEWCOMER, "aws-prod")
  {
    hide Consistent, AfterMove, Contains, Commits, NewcomerDb, D.NextValue, Decimal, Numeral;
    NewcomerInAws();
    FiveDigits();
    NewcomerCommits();
    ShortHasNoSuffix(Suffix("11000", "11001"));
    ScriptCommitsIff(NewcomerDb(), "11000", "aws-prod", true, 8);
  }
}
