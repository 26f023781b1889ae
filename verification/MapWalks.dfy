/** Walks over the keys of a map.  Go visits them in an arbitrary order, so a
    walk is any sequence that lists them once each. */
module MapWalks {
  import opened Basics

  predicate Iteration<T(==)>(order: seq<T>, keys: set<T>)
  {
    (set k | k in order) == keys && NoRepeats(order)
  }

  /** One more key at the end of a walk through distinct keys. */
  lemma WalkOn<T>(order: seq<T>, todo: set<T>, keys: set<T>, k: T)
    requires Iteration(order, keys - todo) && k in todo && todo <= keys
    ensures Iteration(order + [k], keys - (todo - {k}))
  {
    var o := order + [k];
    assert k !in keys - todo && k !in order;
    assert (set i | i in o) == (set i | i in order) + {k};
  }

  lemma Inhabited<T>(keys: set<T>)
    ensures keys == {} || exists k :: k in keys
  {
  }

  lemma {:induction false} SomeWalk<T>(keys: set<T>) returns (order: seq<T>)
    ensures Iteration(order, keys)
  {
    if keys == {} {
      order := [];
    } else {
      Inhabited(keys);
      var k :| k in keys;
      var rest := SomeWalk(keys - {k});
      WalkOn(rest, {k}, keys, k);
      assert keys - ({k} - {k}) == keys;
      order := rest + [k];
    }
  }

  /** The next key of a walk. */
  method Pick<T(==)>(keys: set<T>) returns (k: T)
    requires keys != {}
    ensures k in keys
  {
    Inhabited(keys);
    k :| k in keys;
  }
}
