/** Python dictionaries: a key-to-value mapping that remembers insertion order. */
module PyDict {
  import opened Seqs

  /** A dict as Python iterates it: `keys` in insertion order, `values` the mapping. */
  datatype Dict<K, V> = Dict(keys: seq<K>, values: map<K, V>)

  function Empty<K, V>(): Dict<K, V> { Dict([], map[]) }

  /** Every key listed once, and exactly the mapped keys listed. */
  ghost predicate Valid<K, V>(d: Dict<K, V>) {
    Distinct(d.keys) && Elems(d.keys) == d.values.Keys
  }

  /** `d[k] = v`: a new key is appended, an existing key keeps its position. */
  function Put<K, V>(d: Dict<K, V>, k: K, v: V): (r: Dict<K, V>)
    ensures r.values == d.values[k := v]
  {
    if k in d.values then Dict(d.keys, d.values[k := v])
    else Dict(d.keys + [k], d.values[k := v])
  }

  /** Assignment keeps every key listed once. */
  lemma PutValid<K, V>(d: Dict<K, V>, k: K, v: V)
    requires Valid(d)
    ensures Valid(Put(d, k, v))
  {
    assert k in d.values <==> k in Elems(d.keys);
  }

  /** One assignment appends a new key and leaves an existing key in its place. */
  lemma PutKeys<K, V>(d: Dict<K, V>, k: K, v: V)
    requires Valid(d)
    ensures Put(d, k, v).keys == if k in d.keys then d.keys else d.keys + [k]
  {
    assert k in d.keys <==> k in Elems(d.keys);
  }
}
