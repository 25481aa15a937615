/**
 * A JavaScript `Map` keyed by numbers, as the in-memory store uses it.
 * Besides its entries, a `Map` has an iteration order: a key is appended
 * when it is first set, keeps its place when it is set again, and leaves
 * the order when it is deleted. `Array.from(map.values())` walks that order.
 */
module JsMap {
  import opened Seqs
  import opened Wrappers

  datatype OrderedMap<V(==)> = OrderedMap(entries: map<int, V>, order: seq<int>)
  {
    /** The order lists every key exactly once. */
    ghost predicate Valid() {
      && NoDups(order)
      && (forall i :: 0 <= i < |order| ==> order[i] in entries)
      && (forall k :: k in entries ==> k in order)
    }

    /** `map.get(k)`. */
    function Get(k: int): Option<V>
    {
      if k in entries then Some(entries[k]) else None
    }

    /** `map.set(k, v)`. */
    function Set(k: int, v: V): (m: OrderedMap<V>)
      ensures m.entries == entries[k := v]
      ensures Valid() ==> m.Valid()
      ensures k in entries ==> m.order == order
      ensures k !in entries ==> m.order == order + [k]
    {
      OrderedMap(entries[k := v], if k in entries then order else order + [k])
    }

    /** `map.delete(k)`; deleting an absent key changes nothing. */
    function Delete(k: int): (m: OrderedMap<V>)
      ensures m.entries == entries - {k}
      ensures Valid() ==> m.Valid()
      ensures IsSubseq(m.order, order)
      ensures k !in entries && Valid() ==> m == this
    {
      var rest := Filter(order, x => x != k);
      assert Valid() ==> NoDups(rest) by {
        if Valid() {
          FilterNoDups(order, x => x != k);
        }
      }
      assert Valid() ==> forall i :: 0 <= i < |rest| ==> rest[i] in entries - {k} by {
        if Valid() {
          forall i | 0 <= i < |rest|
            ensures rest[i] in entries - {k}
          {
            assert rest[i] in rest;
            var j :| 0 <= j < |order| && order[j] == rest[i];
          }
        }
      }
      assert k !in entries && Valid() ==> rest == order by {
        if k !in entries && Valid() {
          FilterKeepsAll(order, x => x != k);
        }
      }
      OrderedMap(entries - {k}, rest)
    }

    /** `Array.from(map.values())`. */
    function Values(): (vs: seq<V>)
      requires Valid()
      ensures |vs| == |order|
      ensures forall i :: 0 <= i < |order| ==> vs[i] == entries[order[i]]
      ensures forall k :: k in entries ==> entries[k] in vs
      ensures forall v :: v in vs ==> exists k :: k in entries && entries[k] == v
    {
      var vs := seq(|order|, i requires 0 <= i < |order| => entries[order[i]]);
      assert forall v :: v in vs ==> exists k :: k in entries && entries[k] == v by {
        forall v | v in vs
          ensures exists k :: k in entries && entries[k] == v
        {
          var i :| 0 <= i < |vs| && vs[i] == v;
          var k := order[i];
          assert k in entries && entries[k] == v;
        }
      }
      assert forall k :: k in entries ==> entries[k] in vs by {
        forall k | k in entries
          ensures entries[k] in vs
        {
          var i :| 0 <= i < |order| && order[i] == k;
          assert vs[i] == entries[k];
        }
      }
      vs
    }
  }

  /** `new Map()`. */
  function Empty<V(==)>(): (m: OrderedMap<V>)
    ensures m.Valid() && m.entries == map[]
  {
    OrderedMap(map[], [])
  }

  /**
   * `get` reads back what `set` stored, `set` and `delete` leave every other
   * key as it was, and a deleted key is gone.
   */
  lemma GetAfterUpdate<V>(m: OrderedMap<V>, k: int, v: V, other: int)
    requires other != k
    ensures m.Set(k, v).Get(k) == Some(v)
    ensures m.Set(k, v).Get(other) == m.Get(other)
    ensures m.Delete(k).Get(k) == None
    ensures m.Delete(k).Get(other) == m.Get(other)
  {
  }

  /** Deleting twice is deleting once: `map.delete` is idempotent. */
  lemma DeleteIdempotent<V>(m: OrderedMap<V>, k: int)
    requires m.Valid()
    ensures m.Delete(k).Delete(k) == m.Delete(k)
  {
  }
}
