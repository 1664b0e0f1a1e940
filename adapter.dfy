/**
 * The normalized cache of a slice, keyed by the entity's id, with the
 * operations of the entity adapter that the slices call: `addOne`,
 * `updateOne`, `upsertOne`, `upsertMany` and `removeOne`.  `merge` is the
 * shallow merge of an entity with its changes.
 */
module EntityAdapter {

  /** `addOne`: inserts unless the key is already cached. */
  function AddOne<K, E>(m: map<K, E>, k: K, e: E): (r: map<K, E>)
    ensures r.Keys == m.Keys + {k}
    ensures k in m ==> r[k] == m[k]
    ensures k !in m ==> r[k] == e
    ensures forall j :: j in m ==> r[j] == m[j]
  {
    if k in m then m else m[k := e]
  }

  /** `updateOne`: merges the changes into a cached entity; does nothing for an uncached key. */
  function UpdateOne<K, E>(m: map<K, E>, k: K, changes: E, merge: (E, E) -> E): (r: map<K, E>)
    ensures r.Keys == m.Keys
    ensures k in m ==> r[k] == merge(m[k], changes)
    ensures forall j :: j in m && j != k ==> r[j] == m[j]
  {
    if k in m then m[k := merge(m[k], changes)] else m
  }

  /** `upsertOne`: merges into a cached entity, or inserts. */
  function UpsertOne<K, E>(m: map<K, E>, k: K, e: E, merge: (E, E) -> E): (r: map<K, E>)
    ensures r.Keys == m.Keys + {k}
    ensures r[k] == if k in m then merge(m[k], e) else e
    ensures forall j :: j in m && j != k ==> r[j] == m[j]
  {
    if k in m then m[k := merge(m[k], e)] else m[k := e]
  }

  /** `upsertMany`: `upsertOne` for each entity of `es`, in order. */
  function UpsertMany<K, E>(m: map<K, E>, es: seq<E>, key: E -> K, merge: (E, E) -> E): (r: map<K, E>)
    ensures r.Keys == m.Keys + set i | 0 <= i < |es| :: key(es[i])
    ensures forall j :: j in m && (forall i :: 0 <= i < |es| ==> key(es[i]) != j) ==> r[j] == m[j]
    ensures DistinctKeys(es, key) ==>
      forall i :: 0 <= i < |es| ==> r[key(es[i])] == if key(es[i]) in m then merge(m[key(es[i])], es[i]) else es[i]
    decreases |es|
  {
    if es == [] then m
    else
      var m' := UpsertOne(m, key(es[0]), es[0], merge);
      var r := UpsertMany(m', es[1..], key, merge);
      assert forall i :: 0 < i < |es| ==> es[i] == es[1..][i - 1];
      assert (set i | 0 <= i < |es| :: key(es[i]))
          == {key(es[0])} + set i | 0 <= i < |es[1..]| :: key(es[1..][i]);
      if DistinctKeys(es, key) then
        assert DistinctKeys(es[1..], key);
        assert forall i :: 0 <= i < |es[1..]| ==> key(es[1..][i]) != key(es[0]);
        r
      else
        r
  }

  /** No two entities of `es` share a key. */
  predicate DistinctKeys<K(==), E>(es: seq<E>, key: E -> K)
  {
    forall i, l :: 0 <= i < l < |es| ==> key(es[i]) != key(es[l])
  }

  /** `removeOne`: deletes the key. */
  function RemoveOne<K, E>(m: map<K, E>, k: K): (r: map<K, E>)
    ensures r.Keys == m.Keys - {k}
    ensures forall j :: j in r ==> r[j] == m[j]
  {
    m - {k}
  }
}
