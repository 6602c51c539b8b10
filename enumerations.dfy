/**
 * Iterating over a Python `set` visits every member exactly once, in an order the
 * program does not control. A sequence `order` that lists the set `s` this way is an
 * enumeration of `s`; the model's loops produce one and promise only that it is one.
 */
module Enumerations {

  /** `order` lists every element of `s`, each exactly once, and nothing else. */
  ghost predicate IsEnumeration<T(!new)>(order: seq<T>, s: set<T>) {
    && (forall i, j :: 0 <= i < j < |order| ==> order[i] != order[j])
    && (forall x :: x in order <==> x in s)
  }

  /** Dropping the last element of an enumeration enumerates the set without it. */
  lemma EnumerationInit<T(!new)>(order: seq<T>, s: set<T>)
    requires IsEnumeration(order, s) && order != []
    ensures IsEnumeration(order[..|order| - 1], s - {order[|order| - 1]})
  {
    var n := |order| - 1;
    forall x
      ensures x in order[..n] <==> x in s - {order[n]}
    {
      if x in order[..n] {
        var i :| 0 <= i < n && order[..n][i] == x;
        assert order[i] != order[n];
      }
      if x in s - {order[n]} {
        var i :| 0 <= i < |order| && order[i] == x;
        assert i != n;
        assert order[..n][i] == x;
      }
    }
  }

  /** An enumeration has exactly as many elements as the set it lists. */
  lemma {:induction false} EnumerationSize<T(!new)>(order: seq<T>, s: set<T>)
    requires IsEnumeration(order, s)
    ensures |order| == |s|
  {
    if order == [] {
      assert s == {};
    } else {
      var n := |order| - 1;
      EnumerationInit(order, s);
      EnumerationSize(order[..n], s - {order[n]});
      assert order[n] in s;
    }
  }

  /** The only enumeration of the empty set is the empty sequence. */
  lemma EnumerationOfEmpty<T(!new)>(order: seq<T>)
    requires IsEnumeration(order, {})
    ensures order == []
  {
    EnumerationSize(order, {});
  }

  /** Appending an element not yet listed enumerates the set extended by it. */
  lemma EnumerationSnoc<T(!new)>(order: seq<T>, s: set<T>, x: T)
    requires IsEnumeration(order, s) && x !in s
    ensures IsEnumeration(order + [x], s + {x})
  {
  }
}
