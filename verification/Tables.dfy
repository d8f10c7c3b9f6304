/** Tables whose rows carry the tenant they belong to, and the three ways the
    system changes such a table by tenant: a retag (UPDATE .. SET tenant_id),
    a cascade (ON DELETE CASCADE) and a count. */
module Tables {

  datatype Option<+T> = None | Some(value: T)

  /** A row of a tenant-owned table: its `tenant_id` column and all the others. */
  datatype Owned<+T> = Owned(tenant: int, row: T)

  /** UPDATE t SET tenant_id = b WHERE tenant_id = a */
  function Retag<K, T>(table: map<K, Owned<T>>, a: int, b: int): map<K, Owned<T>> {
    map k | k in table :: if table[k].tenant == a then table[k].(tenant := b) else table[k]
  }

  /** What remains after the cascade of deleting tenant a. */
  function Without<K, T>(table: map<K, Owned<T>>, a: int): map<K, Owned<T>> {
    map k | k in table && table[k].tenant != a :: table[k]
  }

  function KeysOf<K, T>(table: map<K, Owned<T>>, a: int): set<K> {
    set k | k in table && table[k].tenant == a
  }

  /** SELECT COUNT(*) FROM t WHERE tenant_id = a */
  function CountOf<K, T>(table: map<K, Owned<T>>, a: int): nat {
    |KeysOf(table, a)|
  }

  /** Every row of the table belongs to one of the given tenants. */
  ghost predicate OwnersIn<K, T>(table: map<K, Owned<T>>, tenants: set<int>) {
    forall k :: k in table ==> table[k].tenant in tenants
  }

  /** A table after tenant a became tenant b: the rows of a, with only their tenant changed,
      are the rows of b; every other row is as it was. */
  ghost predicate Moved<K, T>(before: map<K, Owned<T>>, after: map<K, Owned<T>>, a: int, b: int) {
    && after.Keys == before.Keys
    && KeysOf(after, b) == KeysOf(before, a)
    && KeysOf(after, a) == {}
    && (forall k :: k in before ==> after[k].row == before[k].row)
    && (forall k :: k in before && before[k].tenant != a ==> after[k] == before[k])
  }

  /** Retagging to an id that owns nothing moves exactly the rows of a. */
  lemma RetagMoves<K, T>(table: map<K, Owned<T>>, a: int, b: int)
    requires a != b && KeysOf(table, b) == {}
    ensures Moved(table, Retag(table, a, b), a, b)
    ensures CountOf(Retag(table, a, b), b) == CountOf(table, a)
  {
    var after := Retag(table, a, b);
    forall k | k in table ensures table[k].tenant != b {
      assert k !in KeysOf(table, b);
    }
    assert KeysOf(after, b) == KeysOf(table, a);
    assert KeysOf(after, a) == {};
  }

  /** A tenant id that no tenant row carries owns no row of a table that refers to tenants. */
  lemma FreshOwnsNothing<K, T>(table: map<K, Owned<T>>, tenants: set<int>, b: int)
    requires OwnersIn(table, tenants) && b !in tenants
    ensures KeysOf(table, b) == {}
  {
    assert forall k :: k in table ==> table[k].tenant != b;
  }

  lemma OwnersInMore<K, T>(table: map<K, Owned<T>>, tenants: set<int>, more: set<int>)
    requires OwnersIn(table, tenants) && tenants <= more
    ensures OwnersIn(table, more)
  {
  }

  lemma OwnersInPart<K, T>(part: map<K, Owned<T>>, table: map<K, Owned<T>>, tenants: set<int>)
    requires OwnersIn(table, tenants)
    requires forall k :: k in part ==> k in table && part[k].tenant == table[k].tenant
    ensures OwnersIn(part, tenants)
  {
  }

  lemma OwnersInWith<K, T>(table: map<K, Owned<T>>, tenants: set<int>, k: K, row: Owned<T>)
    requires OwnersIn(table, tenants) && row.tenant in tenants
    ensures OwnersIn(table[k := row], tenants)
  {
  }

  /** A finite set of integers between lo and hi has at most hi - lo + 1 members. */
  lemma {:induction false} IntervalBound(s: set<int>, lo: int, hi: int)
    requires lo <= hi + 1
    requires forall x :: x in s ==> lo <= x <= hi
    ensures |s| <= hi - lo + 1
    decreases hi - lo + 1
  {
    if lo > hi {
      assert forall x :: x !in s;
      assert s == {};
    } else {
      var rest := s - {hi};
      IntervalBound(rest, lo, hi - 1);
      assert |s| <= |rest| + 1 by {
        if hi in s { assert s == rest + {hi}; } else { assert s == rest; }
      }
    }
  }
}
