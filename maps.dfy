/** Iteration over a Python 2 dictionary. The language leaves the order of
    `d.keys()` / `d.iteritems()` unspecified, so the model never fixes one:
    an order is any sequence that lists every key exactly once. */
module Maps {

  /** `ks` lists every key of `m` exactly once, in some order. */
  ghost predicate Enumerates<K(!new), V>(ks: seq<K>, m: map<K, V>)
  {
    && |ks| == |m|
    && (forall i, j :: 0 <= i < j < |ks| ==> ks[i] != ks[j])
    && (forall k :: k in m <==> k in ks)
  }

  /** `m.keys()`: the keys of `m`, in an order the caller may not rely on. */
  method Keys<K(!new), V>(m: map<K, V>) returns (ks: seq<K>)
    ensures Enumerates(ks, m)
  {
    ks := [];
    var left := m.Keys;
    while left != {}
      invariant left <= m.Keys
      invariant forall k :: k in m <==> k in ks || k in left
      invariant forall k :: k in ks ==> k !in left
      invariant forall i, j :: 0 <= i < j < |ks| ==> ks[i] != ks[j]
      invariant |ks| + |left| == |m.Keys|
      decreases |left|
    {
      var k :| k in left;
      ks := ks + [k];
      left := left - {k};
    }
    assert |m| == |m.Keys|;
  }
}
