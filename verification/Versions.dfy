/** Optimistic versioning: why a version check has no ABA problem.

    Nothing here is about a particular table. A table only ever *advances*: rows are never
    deleted, and a row changes only together with a strictly larger version. A snapshot is a row
    that the table held at some earlier moment. */
module Versions {
  import opened Prelude

  /** SELECT ... WHERE id = k. */
  function Get<V>(table: map<Id, V>, k: Id): Result<V> {
    if k in table then Ok(table[k]) else Err(NotFound)
  }

  /** UPDATE ... WHERE id = k AND version = expected, followed by requireUpdated. */
  function Update<K, V>(version: V -> int, table: map<K, V>, k: K, row: V, expected: int): Result<map<K, V>> {
    if k in table && version(table[k]) == expected then Ok(table[k := row]) else Err(Conflict)
  }

  /** INSERT with a primary key. */
  function Insert<K, V>(table: map<K, V>, k: K, row: V): Result<map<K, V>> {
    if k in table then Err(Conflict) else Ok(table[k := row])
  }

  ghost predicate Advances<K, V>(version: V -> int, before: map<K, V>, after: map<K, V>) {
    forall k | k in before ::
      k in after && (after[k] == before[k] || version(after[k]) > version(before[k]))
  }

  /** `seen` was the row at `k` once, and the table has only advanced since. */
  ghost predicate Snapshot<K, V>(version: V -> int, table: map<K, V>, k: K, seen: V) {
    k in table && (table[k] == seen || version(table[k]) > version(seen))
  }

  lemma AdvancesTransitive<K, V>(version: V -> int, a: map<K, V>, b: map<K, V>, c: map<K, V>)
    requires Advances(version, a, b) && Advances(version, b, c)
    ensures Advances(version, a, c)
  {
    forall k | k in a
      ensures k in c && (c[k] == a[k] || version(c[k]) > version(a[k]))
    {
      assert k in b;
    }
  }
}
