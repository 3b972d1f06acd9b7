/**
 * Python's dict: a finite map whose iteration order is the order in which
 * keys were first inserted.
 */
module Dicts {

  /** `keys` lists the keys in insertion order; `items` holds the entries. */
  datatype Dict<K, V> = Dict(keys: seq<K>, items: map<K, V>) {

    /** Every key listed once, and exactly the keys that have entries. */
    ghost predicate Valid() {
      && (forall i, j :: 0 <= i < j < |keys| ==> keys[i] != keys[j])
      && items.Keys == (set k | k in keys)
    }

    /** `d[k] = v`: a new key goes to the end of the order, an existing key keeps its place. */
    function Put(k: K, v: V): (d: Dict<K, V>)
      ensures d.items == items[k := v]
      ensures k in items ==> d.keys == keys
      ensures k !in items ==> d.keys == keys + [k]
      ensures Valid() ==> d.Valid()
    {
      Dict(if k in items then keys else keys + [k], items[k := v])
    }
  }

  /** Assigning a key twice leaves what assigning it once with the second value leaves. */
  lemma PutPut<K, V>(d: Dict<K, V>, k: K, v: V, w: V)
    ensures d.Put(k, v).Put(k, w) == d.Put(k, w)
  {
    assert d.Put(k, v).Put(k, w).items == d.Put(k, w).items;
  }

  /** `{}` */
  function Empty<K, V>(): (d: Dict<K, V>)
    ensures d.Valid() && d.keys == [] && d.items == map[]
  {
    Dict([], map[])
  }
}
