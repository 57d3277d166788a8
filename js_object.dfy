/**
 * JavaScript object spread `{ ...base, ...patch }` on records seen as maps from
 * property names to values: the properties of `patch` win, every other property
 * of `base` is kept. The Angular setters of this application (`videoStyle`) and
 * the pointer merge of the controlled stream are written with it.
 */
module JsObject {

  function Spread<K, V>(base: map<K, V>, patch: map<K, V>): (r: map<K, V>)
    ensures r.Keys == base.Keys + patch.Keys
    ensures forall k :: k in patch ==> r[k] == patch[k]
    ensures forall k :: k in base && k !in patch ==> r[k] == base[k]
  {
    base + patch
  }
}
