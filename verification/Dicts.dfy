/** Python dictionaries: a map together with the insertion order of its keys. */
module Dicts {

  datatype RawDict<K(==), V> = RawDict(keys: seq<K>, items: map<K, V>)
  {
    predicate Valid()
    {
      && (forall i, j :: 0 <= i < j < |keys| ==> keys[i] != keys[j])
      && (forall k :: k in keys ==> k in items) && (forall k :: k in items ==> k in keys)
    }
  }

  type Dict<K(==), V> = d: RawDict<K, V> | d.Valid() witness RawDict([], map[])

  function Empty<K(==), V>(): (d: Dict<K, V>)
    ensures d.items == map[]
  {
    RawDict([], map[])
  }

  /** `d[k] = v`: an existing key keeps its position. */
  function Put<K(==), V>(d: Dict<K, V>, k: K, v: V): (r: Dict<K, V>)
    ensures r.items == d.items[k := v]
    ensures k in d.items ==> r.keys == d.keys
  {
    if k in d.items then RawDict(d.keys, d.items[k := v]) else RawDict(d.keys + [k], d.items[k := v])
  }

  /** `d.get(k, default)` */
  function Get<K(==), V>(d: Dict<K, V>, k: K, default: V): V
  {
    if k in d.items then d.items[k] else default
  }

  lemma PutTwice<K, V>(d: Dict<K, V>, k: K, v: V)
    ensures Put(Put(d, k, v), k, v) == Put(d, k, v)
  {
    assert Put(d, k, v).items[k := v] == Put(d, k, v).items;
  }
}
