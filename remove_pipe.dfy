/**
 * The `remove` pipe: a copy of a set without one item. A missing set or a
 * falsy item (`None`) gives the input back unchanged.
 */
module RemovePipe {
  import opened Wrappers

  /** The set without `item`: what the pipe is meant to return. */
  function Without<T>(items: set<T>, item: T): (r: set<T>)
    ensures r <= items && item !in r
    ensures forall x :: x in items && x != item ==> x in r
  {
    items - {item}
  }

  /**
   * `RemovePipe.transform`: walks a copy of the set and deletes the entries
   * equal to the item. The input is a value, so it is never changed.
   */
  method Transform<T(==)>(items: Option<set<T>>, item: Option<T>) returns (r: Option<set<T>>)
    ensures items.None? || item.None? ==> r == items
    ensures items.Some? && item.Some? ==> r == Some(Without(items.value, item.value))
  {
    if items.None? || item.None? {
      return items;
    }
    var filtered := items.value;
    var rest := items.value;
    while rest != {}
      invariant rest <= items.value
      invariant forall x :: x in filtered <==> x in items.value && (x != item.value || x in rest)
      decreases |rest|
    {
      var x :| x in rest;
      if x == item.value {
        filtered := filtered - {x};
      }
      rest := rest - {x};
    }
    assert filtered == Without(items.value, item.value);
    return Some(filtered);
  }

  /** The result has one element less exactly when the item was there, and the same size otherwise. */
  lemma {:induction false} WithoutSize<T>(items: set<T>, item: T)
    ensures item in items ==> |Without(items, item)| == |items| - 1
    ensures item !in items ==> Without(items, item) == items
  {
    if item in items {
      assert items == Without(items, item) + {item};
    }
  }

  /** Removing the same item twice is removing it once. */
  lemma WithoutIdempotent<T>(items: set<T>, item: T)
    ensures Without(Without(items, item), item) == Without(items, item)
  {
  }
}
