/**
 * The `filterOut` pipe: a shallow copy of a record without the listed keys.
 * Spreading `undefined` or `null` (`None`) gives the empty record.
 */
module FilterOutPipe {
  import opened Wrappers

  /** The record restricted to the keys outside `drop`. */
  function Without<V>(m: map<string, V>, drop: set<string>): (r: map<string, V>)
    ensures r.Keys == m.Keys - drop
    ensures forall k :: k in r ==> r[k] == m[k]
  {
    map k | k in m && k !in drop :: m[k]
  }

  function ArgSet(args: seq<string>): set<string>
  {
    set a | a in args
  }

  /**
   * `FilterOutPipe.transform`: the copy loses every key named in `args`; the
   * others keep their values. The input is a value, so it is never changed.
   */
  method Transform<V>(value: Option<map<string, V>>, args: seq<string>) returns (out: map<string, V>)
    ensures out.Keys == (if value.Some? then value.value.Keys else {}) - ArgSet(args)
    ensures forall k :: k in out ==> value.Some? && out[k] == value.value[k]
    ensures out == Without(if value.Some? then value.value else map[], ArgSet(args))
  {
    var base: map<string, V> := if value.Some? then value.value else map[];
    out := base;
    for i := 0 to |args|
      invariant out == Without(base, ArgSet(args[..i]))
    {
      assert ArgSet(args[..i + 1]) == ArgSet(args[..i]) + {args[i]};
      out := out - {args[i]};
    }
    assert args[..|args|] == args;
  }

  /** Only which keys are named matters, not their order or repetitions. */
  lemma ArgsAsSet<V>(m: map<string, V>, a: seq<string>, b: seq<string>)
    requires forall x :: x in a <==> x in b
    ensures Without(m, ArgSet(a)) == Without(m, ArgSet(b))
  {
    assert ArgSet(a) == ArgSet(b);
  }

  /** Filtering the result again with the same keys changes nothing. */
  lemma WithoutIdempotent<V>(m: map<string, V>, drop: set<string>)
    ensures Without(Without(m, drop), drop) == Without(m, drop)
  {
  }
}
