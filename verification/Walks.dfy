/** Walking a Go map: in some order, of which nothing is known. */
module Walks {
  import opened Access

  /** Some order in which a map can be walked; callers learn no more. */
  method WalkOrder(keys: set<int>) returns (order: seq<int>)
    ensures IsOrder(order, keys)
    ensures forall i :: 0 <= i < |order| ==> order[i] in keys
  {
    order := [];
    var rest := keys;
    while true
      invariant rest <= keys
      invariant forall k :: k in order <==> k in keys && k !in rest
      invariant forall i :: 0 <= i < |order| ==> order[i] in keys
      invariant forall i, j :: 0 <= i < j < |order| ==> order[i] != order[j]
      decreases |rest|
    {
      if k :| k in rest {
        order, rest := order + [k], rest - {k};
      } else {
        break;
      }
    }
  }

  lemma IndexIn(order: seq<int>, keys: set<int>, c: int) returns (k: nat)
    requires IsOrder(order, keys) && c in keys
    ensures k < |order| && order[k] == c
  {
    assert c in order;
    k :| 0 <= k < |order| && order[k] == c;
  }

  /** The walk has reached every key. */
  lemma AllReached(order: seq<int>, keys: set<int>, done: set<int>)
    requires IsOrder(order, keys) && forall k :: 0 <= k < |order| ==> order[k] in done
    ensures keys <= done
  {
    forall c | c in keys
      ensures c in done
    {
      var k := IndexIn(order, keys, c);
    }
  }
}
