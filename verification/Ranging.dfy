/** Go's `for k := range m`: every key once, in an order nobody may rely on. */
module Ranging {

  ghost predicate Distinct<K>(order: seq<K>) {
    forall i, j :: 0 <= i < j < |order| ==> order[i] != order[j]
  }

  /** The keys in some order. */
  method Range<K(==)>(keys: set<K>) returns (order: seq<K>)
    ensures forall k :: k in order <==> k in keys
    ensures Distinct(order) && |order| == |keys|
  {
    order := [];
    var todo := keys;
    while exists k :: k in todo
      invariant forall k :: k in keys <==> k in order || k in todo
      invariant forall k :: k in order ==> k !in todo
      invariant Distinct(order) && |order| + |todo| == |keys|
      decreases todo
    {
      var k :| k in todo;
      order, todo := order + [k], todo - {k};
    }
    Empty(todo);
  }

  lemma NotYet<K>(order: seq<K>, i: nat)
    requires Distinct(order) && i < |order|
    ensures order[i] !in order[..i]
  {}

  lemma Empty<K>(s: set<K>)
    requires forall k :: k !in s
    ensures |s| == 0
  {
    assert s == {};
  }
}
