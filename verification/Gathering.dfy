/** All rows held by the entries of a map, as a multiset. */
module Gathering {

  ghost function Gather<K, C, V>(m: map<K, C>, rows: C -> seq<V>): multiset<V>
    decreases |m|
  {
    if |m| == 0 then multiset{} else
      var k :| k in m;
      Gather(m - {k}, rows) + multiset(rows(m[k]))
  }

  lemma RemoveTwo<K, C>(m: map<K, C>, j: K, k: K)
    ensures (m - {j}) - {k} == (m - {k}) - {j}
  {
  }

  /** Any entry can be split off. */
  lemma {:induction false} GatherRemove<K, C, V>(m: map<K, C>, rows: C -> seq<V>, k: K)
    requires k in m
    ensures Gather(m, rows) == Gather(m - {k}, rows) + multiset(rows(m[k]))
    decreases |m|
  {
    var j :| j in m && Gather(m, rows) == Gather(m - {j}, rows) + multiset(rows(m[j]));
    if j != k {
      GatherRemove(m - {j}, rows, k);
      GatherRemove(m - {k}, rows, j);
      RemoveTwo(m, j, k);
    }
  }

  lemma GatherPut<K, C, V>(m: map<K, C>, rows: C -> seq<V>, k: K, c: C)
    ensures Gather(m[k := c], rows) == Gather(m - {k}, rows) + multiset(rows(c))
  {
    GatherRemove(m[k := c], rows, k);
    assert m[k := c] - {k} == m - {k};
  }

  lemma GatherAdd<K, C, V>(m: map<K, C>, rows: C -> seq<V>, k: K, c: C)
    requires k !in m
    ensures Gather(m[k := c], rows) == Gather(m, rows) + multiset(rows(c))
  {
    GatherPut(m, rows, k, c);
    assert m - {k} == m;
  }

  function Whole<V>(rows: seq<V>): seq<V> { rows }

  /** All rows in the files of a directory. */
  ghost function Stored<K, V>(files: map<K, seq<V>>): multiset<V> { Gather(files, Whole) }

  lemma StoredRemove<K, V>(files: map<K, seq<V>>, k: K)
    requires k in files
    ensures Stored(files) == Stored(files - {k}) + multiset(files[k])
  {
    GatherRemove(files, Whole, k);
  }

  lemma StoredAdd<K, V>(files: map<K, seq<V>>, k: K, rows: seq<V>)
    requires k !in files
    ensures Stored(files[k := rows]) == Stored(files) + multiset(rows)
  {
    GatherAdd(files, Whole, k, rows);
  }
}
