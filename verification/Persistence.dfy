/** Persistence by part: the engine reports the rows it noted as changed, and the host's table
    is updated only from those reports. */
module Persistence {
  import opened Prelude

  /** Rows as a persistence hook reports them: `None` for one that went. */
  function Applied<K, V>(table: map<K, V>, rows: map<K, Option<V>>): map<K, V> {
    map k | k in table.Keys + rows.Keys && (k in rows ==> rows[k].Some?) ::
      if k in rows then rows[k].value else table[k]
  }

  /** The rows of `keys` as `memory` has them, in the order of `keys`. */
  function RowsAt<K, V>(keys: seq<K>, memory: map<K, V>): seq<(K, Option<V>)> {
    seq(|keys|, i requires 0 <= i < |keys| =>
      (keys[i], if keys[i] in memory then Some(memory[keys[i]]) else None))
  }

  /** `table` may differ from `memory` only at the keys noted as changed. */
  ghost predicate Mirrors<K(!new), V>(table: map<K, V>, memory: map<K, V>, changed: set<K>) {
    forall k :: k !in changed ==>
      (k in table <==> k in memory) && (k in table && k in memory ==> table[k] == memory[k])
  }

  /** Reporting every noted key as it stands makes the table equal to memory. */
  lemma DrainedMirror<K(!new), V>(table: map<K, V>, memory: map<K, V>, changed: set<K>, rows: map<K, Option<V>>)
    requires Mirrors(table, memory, changed) && rows.Keys == changed
    requires forall k :: k in rows ==> rows[k] == if k in memory then Some(memory[k]) else None
    ensures Applied(table, rows) == memory
  {
    assert Applied(table, rows).Keys == memory.Keys;
  }
}
