/** Values that may be missing, operations that may fail, looking up a table, and set sizes. */
module Wrappers {
  datatype Option<+T> = None | Some(value: T)
  datatype Result<+T, +E> = Ok(value: T) | Err(error: E)

  function Lookup<K, V>(table: map<K, V>, k: K): Option<V> {
    if k in table then Some(table[k]) else None
  }

  lemma SubsetSize<T>(a: set<T>, b: set<T>)
    requires a <= b
    ensures |a| <= |b|
  {
    assert b == a + (b - a);
  }
}
