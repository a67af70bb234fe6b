/** A JavaScript Map with string keys: entries in insertion order. Setting an existing key
    keeps its place, setting a new key appends, deleting removes the entry. */
module JsMap {
  import opened Common

  datatype Entry<+V> = Entry(key: string, value: V)

  type Dict<+V> = seq<Entry<V>>

  /** The position of the first entry with this key, or the size of the map. */
  function IndexOf<V>(m: Dict<V>, key: string): (i: nat)
    ensures i <= |m|
    ensures i < |m| ==> m[i].key == key
    ensures forall j | 0 <= j < i :: m[j].key != key
  {
    if m == [] || m[0].key == key then 0 else 1 + IndexOf(m[1..], key)
  }

  predicate Has<V>(m: Dict<V>, key: string) {
    IndexOf(m, key) < |m|
  }

  function Get<V>(m: Dict<V>, key: string): Option<V> {
    var i := IndexOf(m, key);
    if i < |m| then Some(m[i].value) else None
  }

  function Put<V>(m: Dict<V>, key: string, value: V): Dict<V> {
    var i := IndexOf(m, key);
    if i < |m| then m[i := Entry(key, value)] else m + [Entry(key, value)]
  }

  ghost predicate Distinct<V>(m: Dict<V>) {
    forall i, j | 0 <= i < j < |m| :: m[i].key != m[j].key
  }

  lemma PutKeepsDistinct<V>(m: Dict<V>, key: string, value: V)
    requires Distinct(m)
    ensures Distinct(Put(m, key, value))
  {
  }

  lemma IndexOfUnique<V>(m: Dict<V>, i: nat)
    requires Distinct(m) && i < |m|
    ensures IndexOf(m, m[i].key) == i
  {
  }

  lemma GetPut<V>(m: Dict<V>, key: string, value: V, other: string)
    ensures Get(Put(m, key, value), other) == if other == key then Some(value) else Get(m, other)
  {
    var p := Put(m, key, value);
    var i, j := IndexOf(m, other), IndexOf(p, other);
    if other == key {
      assert p[IndexOf(m, key)].key == key;
    } else if i < |m| {
      assert p[i].key == other && p[i] == m[i];
      assert forall k | 0 <= k < i :: p[k].key != other;
    } else {
      assert forall k | 0 <= k < |p| :: p[k].key != other;
    }
  }
}
