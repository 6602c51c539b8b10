/**
 * The state-attribute filter of a location-event entity. The entity offers a fixed list
 * of (key, value) pairs and keeps a pair only when the value is truthy in Python's sense
 * or is a bool, so `False` survives while `None`, `""` and `0` are dropped.
 */
module Attributes {

  /** A publication date; the model carries it as opaque payload. */
  datatype Timestamp = Timestamp(epochSeconds: int)

  /** The Python values an attribute can hold. */
  datatype Value =
    | NoneValue
    | BoolValue(b: bool)
    | IntValue(i: int)
    | TextValue(s: string)
    | DateValue(t: Timestamp)

  /** Python's `bool(value)`: `None`, `False`, `0` and `""` are falsy; a datetime is
      always truthy. */
  predicate Truthy(v: Value)
    ensures Truthy(v) <==> v != NoneValue && v != BoolValue(false) && v != IntValue(0) && v != TextValue("")
  {
    match v
    case NoneValue => false
    case BoolValue(b) => b
    case IntValue(i) => i != 0
    case TextValue(s) => s != ""
    case DateValue(_) => true
  }

  /** `value or isinstance(value, bool)`. */
  predicate Kept(v: Value)
    ensures Kept(v) <==> v != NoneValue && v != IntValue(0) && v != TextValue("")
  {
    Truthy(v) || v.BoolValue?
  }

  /** The dictionary the loop builds: pairs are visited in order and each kept pair is
      written under its key. */
  function Filter(pairs: seq<(string, Value)>): map<string, Value>
    decreases |pairs|
  {
    if pairs == [] then map[]
    else
      var m := Filter(pairs[..|pairs| - 1]);
      var (k, v) := pairs[|pairs| - 1];
      if Kept(v) then m[k := v] else m
  }

  /** Whatever the keys, the dictionary holds only kept values, each under a key of
      the list and equal to the value of the last kept pair with that key. */
  lemma {:induction false} FilterKeepsOnlyKept(pairs: seq<(string, Value)>, k: string)
    requires k in Filter(pairs)
    ensures Kept(Filter(pairs)[k])
    ensures exists i :: 0 <= i < |pairs| && pairs[i] == (k, Filter(pairs)[k])
                        && forall j :: i < j < |pairs| && pairs[j].0 == k ==> !Kept(pairs[j].1)
    decreases |pairs|
  {
    var n := |pairs| - 1;
    var init := pairs[..n];
    if pairs[n].0 != k || !Kept(pairs[n].1) {
      assert Filter(pairs)[k] == Filter(init)[k];
      FilterKeepsOnlyKept(init, k);
      var i :| 0 <= i < |init| && init[i] == (k, Filter(init)[k])
                && forall j :: i < j < |init| && init[j].0 == k ==> !Kept(init[j].1);
      assert pairs[i] == init[i];
      assert forall j :: i < j < n ==> pairs[j] == init[j];
    }
  }

  predicate DistinctKeys(pairs: seq<(string, Value)>) {
    forall i, j :: 0 <= i < j < |pairs| ==> pairs[i].0 != pairs[j].0
  }

  /** With distinct keys the filtered dictionary holds a key exactly when its value is
      kept, holds it with that value, and holds no key outside the list. */
  lemma {:induction false} FilterExact(pairs: seq<(string, Value)>)
    requires DistinctKeys(pairs)
    ensures forall i :: 0 <= i < |pairs| ==> (pairs[i].0 in Filter(pairs) <==> Kept(pairs[i].1))
    ensures forall i :: 0 <= i < |pairs| && Kept(pairs[i].1) ==> Filter(pairs)[pairs[i].0] == pairs[i].1
    ensures forall k :: k in Filter(pairs) ==> exists i :: 0 <= i < |pairs| && pairs[i].0 == k
    decreases |pairs|
  {
    if pairs != [] {
      var n := |pairs| - 1;
      var init := pairs[..n];
      assert DistinctKeys(init) by {
        forall i, j | 0 <= i < j < |init| ensures init[i].0 != init[j].0 {
          assert init[i] == pairs[i] && init[j] == pairs[j];
        }
      }
      FilterExact(init);
      forall k | k in Filter(pairs) ensures exists i :: 0 <= i < |pairs| && pairs[i].0 == k {
        if k != pairs[n].0 {
          var i :| 0 <= i < |init| && init[i].0 == k;
          assert pairs[i] == init[i];
        }
      }
      forall i | 0 <= i < n
        ensures (pairs[i].0 in Filter(pairs) <==> Kept(pairs[i].1))
        ensures Kept(pairs[i].1) ==> Filter(pairs)[pairs[i].0] == pairs[i].1
      {
        assert pairs[i] == init[i];
      }
    }
  }
}
