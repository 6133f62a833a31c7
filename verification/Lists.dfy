/** Sorting and collecting, as the cache getters do it
    (ci/runners/garm/cache/util.go). */
module Lists {
  import opened Wrappers
  import opened Params
  import opened EntityIndex

  predicate Sorted<T>(s: seq<T>, key: T -> int) {
    forall i, j :: 0 <= i < j < |s| ==> key(s[i]) <= key(s[j])
  }

  lemma InsertKeepsSorted<T>(r: seq<T>, k: nat, x: T, key: T -> int)
    requires Sorted(r, key) && k <= |r|
    requires forall i :: 0 <= i < k ==> key(r[i]) <= key(x)
    requires k < |r| ==> key(x) <= key(r[k])
    ensures Sorted(r[..k] + [x] + r[k..], key)
  {
  }

  lemma InsertAddsOne<T>(r: seq<T>, k: nat, x: T)
    requires k <= |r|
    ensures multiset(r[..k] + [x] + r[k..]) == multiset(r) + multiset{x}
  {
    assert r == r[..k] + r[k..];
  }

  method Insert<T(==)>(r: seq<T>, x: T, key: T -> int) returns (t: seq<T>)
    requires Sorted(r, key)
    ensures multiset(t) == multiset(r) + multiset{x}
    ensures Sorted(t, key)
  {
    var k := 0;
    while k < |r| && key(r[k]) <= key(x)
      invariant 0 <= k <= |r|
      invariant forall i :: 0 <= i < k ==> key(r[i]) <= key(x)
    {
      k := k + 1;
    }
    InsertKeepsSorted(r, k, x, key);
    InsertAddsOne(r, k, x);
    t := r[..k] + [x] + r[k..];
  }

  /** sort.Slice by one key, which promises no more than this. */
  method SortBy<T(==)>(s: seq<T>, key: T -> int) returns (r: seq<T>)
    ensures multiset(r) == multiset(s)
    ensures Sorted(r, key)
  {
    r := [];
    for n := 0 to |s|
      invariant multiset(r) == multiset(s[..n])
      invariant Sorted(r, key)
    {
      assert s[..n + 1] == s[..n] + [s[n]];
      r := Insert(r, s[n], key);
    }
    assert s == s[..|s|];
  }

  lemma BehindOneMore<K>(ids: set<K>, id: K, table: map<K, Resource<K>>)
    requires id !in ids && forall x :: x in table ==> table[x].id == x
    ensures Behind(ids + {id}, table) == if id in table then Behind(ids, table) + {table[id]} else Behind(ids, table)
    ensures id in table ==> table[id] !in Behind(ids, table)
  {
  }

  /** The collecting loop of GetEntityPools and GetEntityScaleSets. */
  method Collect<K(==)>(ids: set<K>, table: map<K, Resource<K>>) returns (rs: seq<Resource<K>>)
    requires forall id :: id in table ==> table[id].id == id
    ensures multiset(rs) == multiset(Behind(ids, table))
  {
    rs := [];
    ghost var seen := {};
    var todo := ids;
    while todo != {}
      invariant seen == ids - todo && todo <= ids
      invariant multiset(rs) == multiset(Behind(seen, table))
    {
      var id :| id in todo;
      BehindOneMore(seen, id, table);
      if id in table {
        rs := rs + [table[id]];
      }
      seen, todo := seen + {id}, todo - {id};
    }
    assert seen == ids;
  }

  /** The adding loop of ReplaceEntityPools and ReplaceEntityScaleSets: others'
      resources are skipped. */
  method AddEach<K(==)>(table: map<K, Resource<K>>, e: string, rs: seq<Resource<K>>)
    returns (t: map<K, Resource<K>>, ids: set<K>)
    ensures t == AddAll(table, e, rs) && ids == AcceptedIDs(e, rs)
  {
    t, ids := table, {};
    for i := 0 to |rs|
      invariant t == AddAll(table, e, rs[..i]) && ids == AcceptedIDs(e, rs[..i])
    {
      assert rs[..i + 1][..i] == rs[..i];
      assert AcceptedIDs(e, rs[..i + 1])
          == AcceptedIDs(e, rs[..i]) + (if rs[i].Owner() == Some(e) then {rs[i].id} else {});
      if rs[i].Owner() != Some(e) {
        continue;
      }
      t, ids := t[rs[i].id := rs[i]], ids + {rs[i].id};
    }
    assert rs == rs[..|rs|];
  }

  /** The deleting loops of the entity cache. */
  method RemoveEach<K(==), V>(m: map<K, V>, ids: set<K>) returns (r: map<K, V>)
    ensures r == m - ids
  {
    r := m;
    var todo := ids;
    while todo != {}
      invariant todo <= ids && r == m - (ids - todo)
    {
      var id :| id in todo;
      r := r - {id};
      todo := todo - {id};
    }
  }
}
