/** An insertion-ordered map with the semantics of near-sdk's `UnorderedMap`: a vector
    of keys in insertion order next to the key-value lookup. Inserting an existing key
    replaces its value in place; inserting a new key appends it. Nothing is removed here. */
module OrderedMap {
  import opened Wrappers

  datatype OMap<K, V> = OMap(keys: seq<K>, entries: map<K, V>)

  function Empty<K, V>(): OMap<K, V> {
    OMap([], map[])
  }

  /** `len()`: the length of the key vector. */
  function Size<K, V>(m: OMap<K, V>): nat {
    |m.keys|
  }

  function Get<K, V>(m: OMap<K, V>, k: K): Option<V> {
    if k in m.entries then Some(m.entries[k]) else None
  }

  function Insert<K, V>(m: OMap<K, V>, k: K, v: V): (r: OMap<K, V>)
    ensures r.entries == m.entries[k := v]
    ensures k in m.entries ==> r.keys == m.keys
    ensures k !in m.entries ==> r.keys == m.keys + [k]
  {
    if k in m.entries then OMap(m.keys, m.entries[k := v])
    else OMap(m.keys + [k], m.entries[k := v])
  }

  /** Every key of the vector has a value: near-sdk keeps a value vector parallel to the
      key vector, so its maps always have this shape. */
  predicate Aligned<K, V>(m: OMap<K, V>) {
    forall i :: 0 <= i < |m.keys| ==> m.keys[i] in m.entries
  }

  /** `values_as_vector()` / `iter()`: the values in key order. */
  function Values<K, V>(m: OMap<K, V>): (vs: seq<V>)
    requires Aligned(m)
    ensures |vs| == |m.keys|
    ensures forall i :: 0 <= i < |vs| ==> vs[i] == m.entries[m.keys[i]]
  {
    seq(|m.keys|, i requires 0 <= i < |m.keys| => m.entries[m.keys[i]])
  }
}
