/**
 * Reading the primary keys of a table: every key once (the table's `toArray`)
 * and the lowest key (the first row of `toCollection().first()`).
 */
module Keys {

  import opened Entities

  /** A set is empty or holds an element (what a such-that choice of a key needs). */
  lemma EmptyOrInhabited(s: set<int>)
    ensures s == {} || exists x :: x in s
  {
    if forall x :: x !in s {
      assert s == {};
    }
  }

  /** True when no element of `s` occurs twice. */
  predicate Distinct(s: seq<int>)
  {
    forall i, j :: 0 <= i < j < |s| ==> s[i] != s[j]
  }

  /** Lists each key of `keys` exactly once. */
  method ListKeys(keys: set<int>) returns (ks: seq<int>)
    ensures Distinct(ks)
    ensures forall k :: k in ks <==> k in keys
    ensures forall i :: 0 <= i < |ks| ==> ks[i] in keys
    ensures |ks| == |keys|
  {
    ks := [];
    var rest := keys;
    while rest != {}
      invariant rest <= keys
      invariant Distinct(ks)
      invariant forall k :: k in ks <==> k in keys && k !in rest
      invariant |ks| + |rest| == |keys|
      decreases rest
    {
      EmptyOrInhabited(rest);
      var k :| k in rest;
      ks := ks + [k];
      rest := rest - {k};
    }
  }

  /** The lowest key of `keys`, or `None` for an empty table. */
  method LowestKey(keys: set<int>) returns (lowest: Option<int>)
    ensures lowest.None? <==> keys == {}
    ensures lowest.Some? ==> lowest.value in keys
    ensures lowest.Some? ==> forall k :: k in keys ==> lowest.value <= k
  {
    lowest := None;
    var rest := keys;
    while rest != {}
      invariant rest <= keys
      invariant lowest.None? <==> rest == keys
      invariant lowest.Some? ==> lowest.value in keys
      invariant lowest.Some? ==> forall k :: k in keys && k !in rest ==> lowest.value <= k
      decreases rest
    {
      EmptyOrInhabited(rest);
      var k :| k in rest;
      if lowest.None? || k < lowest.value {
        lowest := Some(k);
      }
      rest := rest - {k};
    }
  }

  /** The rows of `m` at the keys `ks`, in that order. */
  function RowsAt<R>(m: map<int, R>, ks: seq<int>): (rs: seq<R>)
    requires forall i :: 0 <= i < |ks| ==> ks[i] in m
    ensures |rs| == |ks|
    ensures forall i :: 0 <= i < |ks| ==> rs[i] == m[ks[i]]
  {
    seq(|ks|, i requires 0 <= i < |ks| => m[ks[i]])
  }
}
