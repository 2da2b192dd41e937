/** A JavaScript `Map` with string keys: iteration follows insertion order, and
    `set` on a key already present replaces its value but keeps its place. */
module JsMaps {
  import opened Wrappers

  datatype JsMap<V> = JsMap(keys: seq<string>, entries: map<string, V>) {

    /** The keys are distinct and are exactly the keys of the entries. */
    ghost predicate Valid() {
      && (forall i, j :: 0 <= i < j < |keys| ==> keys[i] != keys[j])
      && (forall k :: k in entries <==> k in keys)
    }

    /** `m.size` */
    function Size(): nat {
      |keys|
    }

    /** `m.get(k)`, with `undefined` as `None`. */
    function Get(k: string): (r: Option<V>)
      ensures r.Some? <==> k in entries
    {
      if k in entries then Some(entries[k]) else None
    }

    /** `m.set(k, v)` */
    function Set(k: string, v: V): JsMap<V> {
      if k in entries then JsMap(keys, entries[k := v]) else JsMap(keys + [k], entries[k := v])
    }

    /** `Array.from(m.values())` */
    function Values(): (vs: seq<V>)
      requires Valid()
      ensures |vs| == |keys|
      ensures forall i :: 0 <= i < |keys| ==> vs[i] == entries[keys[i]]
    {
      seq(|keys|, i requires 0 <= i < |keys| => entries[keys[i]])
    }
  }

  function Empty<V>(): (m: JsMap<V>)
    ensures m.Valid() && m.Size() == 0
  {
    JsMap([], map[])
  }

  /** After `set(k, v)`, `k` maps to `v`, every other key keeps its value, and the
      key order only grows by `k` at the end when `k` was new. */
  lemma SetSpec<V>(m: JsMap<V>, k: string, v: V)
    requires m.Valid()
    ensures m.Set(k, v).Valid()
    ensures m.Set(k, v).Get(k) == Some(v)
    ensures forall k' :: k' != k ==> m.Set(k, v).Get(k') == m.Get(k')
    ensures k in m.entries ==> m.Set(k, v).keys == m.keys
    ensures k !in m.entries ==> m.Set(k, v).keys == m.keys + [k]
    ensures m.Set(k, v).Size() == |m.Set(k, v).entries.Keys|
  {
    var m' := m.Set(k, v);
    SizeIsKeyCount(m');
  }

  /** A valid map has as many keys in its order as it has entries. */
  lemma {:induction false} SizeIsKeyCount<V>(m: JsMap<V>)
    requires m.Valid()
    ensures m.Size() == |m.entries.Keys|
    decreases |m.keys|
  {
    if |m.keys| > 0 {
      var last := m.keys[|m.keys| - 1];
      var rest := JsMap(m.keys[..|m.keys| - 1], m.entries - {last});
      assert last !in m.keys[..|m.keys| - 1];
      forall k ensures k in rest.entries <==> k in rest.keys {
        if k in m.keys && k != last {
          var i :| 0 <= i < |m.keys| && m.keys[i] == k;
          assert i < |m.keys| - 1;
          assert rest.keys[i] == k;
        }
      }
      SizeIsKeyCount(rest);
      assert m.entries.Keys == rest.entries.Keys + {last};
    } else {
      assert m.entries.Keys == {};
    }
  }
}
