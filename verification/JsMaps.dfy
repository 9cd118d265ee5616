/** The part of the JavaScript `Map` that the modelled code relies on: besides the association itself,
    a `Map` remembers the order in which its keys were first inserted. Setting a key that is present
    keeps its place; deleting a key and setting it again moves it to the end. */
module JsMaps {

  datatype Option<+T> = None | Some(value: T)

  datatype JsMap<!K(!new,==), +V> = JsMap(keys: seq<K>, entries: map<K, V>) {

    ghost predicate Valid() {
      && Distinct(keys)
      && (forall k :: k in keys <==> k in entries)
    }

    predicate Has(k: K) {
      k in entries
    }

    function Get(k: K): Option<V> {
      if k in entries then Some(entries[k]) else None
    }

    function Put(k: K, v: V): (m: JsMap<K, V>)
      ensures m.entries == entries[k := v]
      ensures Valid() ==> m.Valid()
    {
      JsMap(if k in entries then keys else keys + [k], entries[k := v])
    }

    function Remove(k: K): (m: JsMap<K, V>)
      ensures m.entries == entries - {k}
      ensures Valid() ==> m.Valid()
    {
      WithoutKeepsDistinct(keys, k);
      JsMap(Without(keys, k), entries - {k})
    }
  }

  /** The sequence with every occurrence of `k` left out. */
  function Without<K(!new,==)>(keys: seq<K>, k: K): (r: seq<K>)
    ensures forall x :: x in r <==> x in keys && x != k
    ensures |r| <= |keys|
  {
    if keys == [] then []
    else if keys[0] == k then Without(keys[1..], k)
    else [keys[0]] + Without(keys[1..], k)
  }

  ghost predicate Distinct<K>(keys: seq<K>) {
    forall i, j :: 0 <= i < j < |keys| ==> keys[i] != keys[j]
  }

  lemma {:induction false} WithoutKeepsDistinct<K(!new)>(keys: seq<K>, k: K)
    ensures Distinct(keys) ==> Distinct(Without(keys, k))
  {
    if keys != [] && Distinct(keys) {
      WithoutKeepsDistinct(keys[1..], k);
      var rest := Without(keys[1..], k);
      assert forall x :: x in rest ==> x in keys[1..];
      assert keys[0] !in keys[1..];
    }
  }
}
