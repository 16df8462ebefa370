/** A plain JavaScript object with string keys, as the cart is stored and sent around:
    its own keys in insertion order (the order `for...in` visits them) and the value under
    each key. */
module JsObject {
  import opened Wrappers

  datatype RawObj<V> = RawObj(keys: seq<string>, vals: map<string, V>)

  /** Every key is listed once, and exactly the listed keys carry a value. */
  ghost predicate WellFormed<V>(o: RawObj<V>) {
    && (forall i, j :: 0 <= i < j < |o.keys| ==> o.keys[i] != o.keys[j])
    && (forall k :: k in o.vals <==> k in o.keys)
  }

  type Obj<V> = o: RawObj<V> | WellFormed(o) witness RawObj([], map[])

  /** `{}` */
  function Empty<V>(): (r: Obj<V>)
    ensures r.keys == [] && r.vals == map[]
  {
    RawObj([], map[])
  }

  /** `o[k]`, with `None` for `undefined`. */
  function Get<V>(o: Obj<V>, k: string): (r: Option<V>)
    ensures r.Some? <==> k in o.keys
    ensures r.Some? ==> r.value == o.vals[k]
  {
    if k in o.vals then Some(o.vals[k]) else None
  }

  /** `o[k] = v`: an existing key keeps its place and takes the new value; a new key is
      appended after all others. */
  function Put<V>(o: Obj<V>, k: string, v: V): (r: Obj<V>)
    ensures r.vals == o.vals[k := v]
    ensures k in o.keys ==> r.keys == o.keys
    ensures k !in o.keys ==> r.keys == o.keys + [k]
  {
    if k in o.vals then RawObj(o.keys, o.vals[k := v])
    else
      assert forall i, j :: 0 <= i < j < |o.keys + [k]| ==> (o.keys + [k])[i] != (o.keys + [k])[j] by {
        forall i, j | 0 <= i < j < |o.keys + [k]| ensures (o.keys + [k])[i] != (o.keys + [k])[j] {
          if j == |o.keys| {
            assert (o.keys + [k])[i] == o.keys[i];
          }
        }
      }
      RawObj(o.keys + [k], o.vals[k := v])
  }

  /** The position of a key in the iteration order. */
  function IndexOf(keys: seq<string>, k: string): (r: nat)
    requires k in keys
    ensures r < |keys| && keys[r] == k
    ensures forall j :: 0 <= j < r ==> keys[j] != k
  {
    if keys[0] == k then 0 else 1 + IndexOf(keys[1..], k)
  }

  /** In an object the position of a key is the only place the key occurs. */
  lemma IndexOfUnique<V>(o: Obj<V>, j: nat)
    requires j < |o.keys|
    ensures IndexOf(o.keys, o.keys[j]) == j
  {
  }

  /** A second `o[k] = w` overwrites the first `o[k] = v`: the key keeps the place the first
      write gave it. */
  lemma PutTwice<V>(o: Obj<V>, k: string, v: V, w: V)
    ensures Put(Put(o, k, v), k, w) == Put(o, k, w)
  {
    assert Put(Put(o, k, v), k, w).vals == o.vals[k := w];
  }
}
