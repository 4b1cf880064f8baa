/**
 A string-keyed map that remembers the order in which keys were first
 assigned. This is how the scripts' plain JavaScript objects (`totals`,
 `dataMap` and its buckets) behave for the keys they use.
 */
module OrderedMap {

  import opened Seqs

  datatype OMap<V> = OMap(keys: seq<string>, entries: map<string, V>)

  /** The key list is duplicate-free and names exactly the keys of the map. */
  predicate Valid<V>(o: OMap<V>)
  {
    && NoDups(o.keys)
    && (forall k :: k in o.entries ==> k in o.keys)
    && (forall k :: k in o.keys ==> k in o.entries)
  }

  /** `{}` */
  function Empty<V>(): (o: OMap<V>)
    ensures Valid(o) && o.keys == [] && o.entries == map[]
  {
    OMap([], map[])
  }

  /** `o[k] = v`: a new key is appended to the order, an existing key keeps its place. */
  function Put<V>(o: OMap<V>, k: string, v: V): (r: OMap<V>)
    requires Valid(o)
    ensures Valid(r)
    ensures r.entries == o.entries[k := v]
    ensures k in o.entries ==> r.keys == o.keys
    ensures k !in o.entries ==> r.keys == o.keys + [k]
  {
    if k in o.entries then OMap(o.keys, o.entries[k := v])
    else OMap(o.keys + [k], o.entries[k := v])
  }
}
