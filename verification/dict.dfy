/** Python's insertion-ordered `dict`: the keys in the order they were first
    inserted, and the value currently stored under each. */
module Dict {

  datatype ODict<K, V> = ODict(keys: seq<K>, items: map<K, V>)

  /** The keys are distinct and are exactly the keys that hold a value. */
  ghost predicate Valid<K(!new), V>(d: ODict<K, V>) {
    && (forall i, j :: 0 <= i < j < |d.keys| ==> d.keys[i] != d.keys[j])
    && (forall k :: k in d.items <==> k in d.keys)
  }

  function Empty<K, V>(): ODict<K, V> {
    ODict([], map[])
  }

  /** `d[k] = v`: a new key goes to the end; an existing key keeps its place
      and only its value changes. */
  function Put<K, V>(d: ODict<K, V>, k: K, v: V): ODict<K, V> {
    if k in d.items then ODict(d.keys, d.items[k := v])
    else ODict(d.keys + [k], d.items[k := v])
  }

  lemma EmptyValid<K(!new), V>()
    ensures Valid(Empty<K, V>())
  {
  }

  /** Storing a value keeps the keys distinct and in step with the items. */
  lemma PutValid<K(!new), V>(d: ODict<K, V>, k: K, v: V)
    requires Valid(d)
    ensures Valid(Put(d, k, v))
  {
    if k !in d.items {
      var r := Put(d, k, v);
      forall i, j | 0 <= i < j < |r.keys| ensures r.keys[i] != r.keys[j] {
        if j == |d.keys| {
          assert r.keys[i] == d.keys[i];
        }
      }
    }
  }

  /** `d.values()`, in key order. */
  function ValueList<K(!new), V>(d: ODict<K, V>): (vs: seq<V>)
    requires Valid(d)
    ensures |vs| == |d.keys|
    ensures forall i :: 0 <= i < |vs| ==> vs[i] == d.items[d.keys[i]]
  {
    seq(|d.keys|, i requires 0 <= i < |d.keys| => d.items[d.keys[i]])
  }
}
