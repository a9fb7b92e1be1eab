/**
 * JavaScript's `Map` with string keys, as far as the core uses it:
 * `has`, `set` and `Array.from(m.values())`. Its entries keep the order in
 * which their keys were first set; setting a key that is already present
 * replaces the value and keeps the position.
 */
module JsMaps {

  /** The keys in insertion order, and the value stored under each. */
  datatype JsMap<V> = JsMap(keys: seq<string>, entries: map<string, V>)
  {
    /** Every key is listed once, and exactly the stored keys are listed. */
    ghost predicate Valid()
    {
      && (forall i, j :: 0 <= i < j < |keys| ==> keys[i] != keys[j])
      && (forall k :: k in entries <==> k in keys)
    }

    /** `m.has(k)` */
    predicate Has(k: string)
    {
      k in entries
    }
  }

  /** `new Map()` */
  function Empty<V>(): (m: JsMap<V>)
    ensures m.Valid() && m.keys == []
  {
    JsMap([], map[])
  }

  /** `m.set(k, v)`: a new key goes to the end, a known key keeps its place. */
  function Set<V>(m: JsMap<V>, k: string, v: V): (r: JsMap<V>)
    requires m.Valid()
    ensures r.Valid()
  {
    if k in m.entries then JsMap(m.keys, m.entries[k := v])
    else JsMap(m.keys + [k], m.entries[k := v])
  }

  /** `Array.from(m.values())`: the values in key order. */
  function Values<V>(m: JsMap<V>): (r: seq<V>)
    requires m.Valid()
    ensures |r| == |m.keys|
    ensures forall i :: 0 <= i < |r| ==> r[i] == m.entries[m.keys[i]]
  {
    seq(|m.keys|, i requires 0 <= i < |m.keys| => m.entries[m.keys[i]])
  }
}
