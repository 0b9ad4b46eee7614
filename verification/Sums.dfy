/** Real sums over finite sets and sequences. */
module Sums {

  ghost function SetSum<T(!new)>(s: set<T>, f: T -> real): real {
    if s == {} then 0.0
    else
      var x :| x in s;
      f(x) + SetSum(s - {x}, f)
  }

  lemma {:induction false} SetSumRemove<T(!new)>(s: set<T>, f: T -> real, x: T)
    requires x in s
    ensures SetSum(s, f) == f(x) + SetSum(s - {x}, f)
  {
    var y :| y in s && SetSum(s, f) == f(y) + SetSum(s - {y}, f);
    if y != x {
      SetSumRemove(s - {y}, f, x);
      SetSumRemove(s - {x}, f, y);
      assert s - {y} - {x} == s - {x} - {y};
    }
  }

  function SeqSum<T>(keys: seq<T>, f: T -> real): real {
    if keys == [] then 0.0 else f(keys[0]) + SeqSum(keys[1..], f)
  }

  predicate Distinct<T(==)>(keys: seq<T>) {
    forall i, j :: 0 <= i < j < |keys| ==> keys[i] != keys[j]
  }

  function Elements<T>(keys: seq<T>): set<T> {
    set k | k in keys
  }

  /** Adding distinct new keys to a set adds their values to its sum. */
  lemma {:induction false} SetSumAdd<T(!new)>(s: set<T>, keys: seq<T>, f: T -> real)
    requires Distinct(keys) && s !! Elements(keys)
    ensures SetSum(s + Elements(keys), f) == SetSum(s, f) + SeqSum(keys, f)
    decreases |keys|
  {
    if keys == [] {
      assert s + Elements(keys) == s;
    } else {
      var x, rest := keys[0], keys[1..];
      assert keys == [x] + rest;
      assert forall i :: 0 <= i < |rest| ==> rest[i] == keys[i + 1];
      assert x !in rest;
      SetSumAdd(s, rest, f);
      var all := s + Elements(keys);
      assert all - {x} == s + Elements(rest);
      SetSumRemove(all, f, x);
    }
  }
}
