/**
 * A JavaScript `Map` as a sequence of (key, value) entries in insertion order.
 * `set` on a present key replaces the value where the entry stands, on a new key
 * it appends; `delete` removes the entry; `values()` lists the values in entry
 * order. The controlled stream keeps its pointers in such a map and renders
 * `[...map.values()]`, so the order is part of what it shows.
 */
module JsMap {
  import opened Wrappers

  function Keys<K, V>(m: seq<(K, V)>): (ks: seq<K>)
    ensures |ks| == |m|
  {
    if m == [] then [] else [m[0].0] + Keys(m[1..])
  }

  function Values<K, V>(m: seq<(K, V)>): (vs: seq<V>)
    ensures |vs| == |m|
  {
    if m == [] then [] else [m[0].1] + Values(m[1..])
  }

  /** No key has two entries: what every `Map` built by `Set` and `Delete` satisfies. */
  predicate UniqueKeys<K(==), V>(m: seq<(K, V)>)
  {
    m == [] || (m[0].0 !in Keys(m[1..]) && UniqueKeys(m[1..]))
  }

  /** `map.get(k)`: the value of the entry for `k`, `None` for `undefined`. */
  function Get<K(==), V>(m: seq<(K, V)>, k: K): (r: Option<V>)
    ensures r.None? <==> k !in Keys(m)
    ensures r.Some? ==> (k, r.value) in m
  {
    if m == [] then None
    else if m[0].0 == k then Some(m[0].1)
    else
      var r := Get(m[1..], k);
      assert r.Some? ==> (k, r.value) in m[1..];
      r
  }

  /** `map.set(k, v)`: a present key keeps its place, a new one goes last. */
  function Set<K(==), V>(m: seq<(K, V)>, k: K, v: V): seq<(K, V)>
  {
    if m == [] then [(k, v)]
    else if m[0].0 == k then [(k, v)] + m[1..]
    else [m[0]] + Set(m[1..], k, v)
  }

  /** After `set(k, v)`, `get(k)` is `v` and every other key reads as before. */
  lemma {:induction false} SetGet<K, V>(m: seq<(K, V)>, k: K, v: V, j: K)
    ensures Get(Set(m, k, v), j) == if j == k then Some(v) else Get(m, j)
  {
    if m != [] {
      var r := Set(m, k, v);
      if m[0].0 == k {
        assert r[1..] == m[1..];
      } else {
        SetGet(m[1..], k, v, j);
        assert r[1..] == Set(m[1..], k, v);
      }
    }
  }

  /** `set` keeps the order of the keys and appends a new key last. */
  lemma {:induction false} SetKeys<K, V>(m: seq<(K, V)>, k: K, v: V)
    ensures Keys(Set(m, k, v)) == if k in Keys(m) then Keys(m) else Keys(m) + [k]
  {
    if m != [] {
      var r := Set(m, k, v);
      if m[0].0 == k {
        assert r[1..] == m[1..];
      } else {
        SetKeys(m[1..], k, v);
        assert r[1..] == Set(m[1..], k, v);
        assert k in Keys(m) <==> k in Keys(m[1..]);
        if k !in Keys(m) {
          assert Keys(r) == [m[0].0] + (Keys(m[1..]) + [k]);
        }
      }
    }
  }

  /** `set` never gives a key a second entry. */
  lemma {:induction false} SetUnique<K, V>(m: seq<(K, V)>, k: K, v: V)
    requires UniqueKeys(m)
    ensures UniqueKeys(Set(m, k, v))
  {
    if m != [] {
      var r := Set(m, k, v);
      if m[0].0 == k {
        assert r[1..] == m[1..];
      } else {
        SetUnique(m[1..], k, v);
        SetKeys(m[1..], k, v);
        assert r[1..] == Set(m[1..], k, v);
      }
    }
  }

  /** `map.delete(k)`: removes the entry for `k`, keeping the order of the others. */
  function Delete<K(==,!new), V>(m: seq<(K, V)>, k: K): (r: seq<(K, V)>)
    ensures Get(r, k) == None
    ensures forall j :: j != k ==> Get(r, j) == Get(m, j)
    ensures forall j :: j in Keys(r) <==> j in Keys(m) && j != k
    ensures k !in Keys(m) ==> r == m
    ensures UniqueKeys(m) ==> UniqueKeys(r)
  {
    if m == [] then []
    else if m[0].0 == k then
      Delete(m[1..], k)
    else
      var tail := Delete(m[1..], k);
      var r := [m[0]] + tail;
      assert r[1..] == tail;
      r
  }

  /** Deleting twice is deleting once. */
  lemma DeleteIdempotent<K(!new), V>(m: seq<(K, V)>, k: K)
    ensures Delete(Delete(m, k), k) == Delete(m, k)
  {
  }

  /** With unique keys the values are exactly those reached through `Get`, one per key. */
  lemma {:induction false} ValuesOfKeys<K, V>(m: seq<(K, V)>)
    requires UniqueKeys(m)
    ensures forall i :: 0 <= i < |m| ==> Get(m, Keys(m)[i]) == Some(Values(m)[i])
  {
    if m != [] {
      ValuesOfKeys(m[1..]);
      forall i | 0 <= i < |m| ensures Get(m, Keys(m)[i]) == Some(Values(m)[i]) {
        if i > 0 {
          assert Keys(m)[i] == Keys(m[1..])[i - 1];
          assert Values(m)[i] == Values(m[1..])[i - 1];
          assert Keys(m)[i] != m[0].0;
        }
      }
    }
  }
}
