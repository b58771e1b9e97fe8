/** A plain JavaScript object used as a dictionary with string keys that
    are not array indices: its values, and its keys in insertion order
    (the order `Object.entries`, `for…in` and `JSON.stringify` follow). */
module JsObject {
  import Hub

  datatype Object<V> = Object(keys: seq<string>, values: map<string, V>)

  /** Each key listed once, and the listed keys are the keys with values. */
  ghost predicate Keyed<V>(o: Object<V>) {
    Hub.Distinct(o.keys) && forall k :: k in o.keys <==> k in o.values
  }

  /** `o[key] = value`: an existing key keeps its place, a new one is
      appended. */
  function Put<V>(o: Object<V>, key: string, value: V): (r: Object<V>)
    requires Keyed(o)
    ensures Keyed(r)
    ensures r.values == o.values[key := value]
    ensures key in o.values ==> r.keys == o.keys
    ensures key !in o.values ==> r.keys == o.keys + [key]
  {
    Object(Hub.Added(o.keys, key), o.values[key := value])
  }

  /** `delete o[key]`: the other keys keep their order. */
  function Remove<V>(o: Object<V>, key: string): (r: Object<V>)
    requires Keyed(o)
    ensures Keyed(r)
    ensures r.values == o.values - {key}
    ensures forall k :: k in r.keys <==> k in o.keys && k != key
  {
    Object(Hub.Deleted(o.keys, key), o.values - {key})
  }
}
