/** Channel tables as the program keeps them: a dictionary from a channel's
    code to its name and feed URL (`config.CHANNELS` of config.py and
    `data['channels']` of clnews/commands.py), and the `(code, name)` pairs
    the `.list` commands build from it in the dictionary's iteration order. */
module Channels {
  import Maps

  /** A channel's entry: `{'name': ..., 'url': ...}`. */
  datatype ChannelInfo = ChannelInfo(name: string, url: string)

  /** Channel code to name and URL. */
  type Table = map<string, ChannelInfo>

  /** `ps` lists the channels of `table`: one `(code, name)` pair per code,
      every code exactly once. */
  ghost predicate Lists(ps: seq<(string, string)>, table: Table)
  {
    && |ps| == |table|
    && (forall i, j :: 0 <= i < j < |ps| ==> ps[i].0 != ps[j].0)
    && (forall i :: 0 <= i < |ps| ==> ps[i].0 in table && ps[i].1 == table[ps[i].0].name)
    && (forall c :: c in table ==> exists i :: 0 <= i < |ps| && ps[i].0 == c)
  }

  /** `[(key, table[key]["name"]) for key in keys]`. */
  function PairsOf(keys: seq<string>, table: Table): (ps: seq<(string, string)>)
    requires forall i :: 0 <= i < |keys| ==> keys[i] in table
    ensures |ps| == |keys|
    ensures forall i :: 0 <= i < |keys| ==> ps[i] == (keys[i], table[keys[i]].name)
  {
    seq(|keys|, i requires 0 <= i < |keys| => (keys[i], table[keys[i]].name))
  }

  /** Pairing every key of an enumeration with its name lists the channels,
      whatever order the enumeration has. */
  lemma PairsOfEnumeration(keys: seq<string>, table: Table)
    requires Maps.Enumerates(keys, table)
    ensures forall i :: 0 <= i < |keys| ==> keys[i] in table
    ensures Lists(PairsOf(keys, table), table)
  {
    var ps := PairsOf(keys, table);
    forall c | c in table ensures exists i :: 0 <= i < |ps| && ps[i].0 == c {
      var i :| 0 <= i < |keys| && keys[i] == c;
      assert ps[i].0 == c;
    }
  }

  /** The keys of `order` that `m` holds, in the order of `order`. */
  function Known<V>(order: seq<string>, m: map<string, V>): (ks: seq<string>)
    ensures |ks| <= |order|
    ensures forall i :: 0 <= i < |ks| ==> ks[i] in m
  {
    if order == [] then []
    else if order[0] in m then [order[0]] + Known(order[1..], m)
    else Known(order[1..], m)
  }

  /** The filter keeps exactly the keys of `order` that `m` holds. */
  lemma {:induction false} KnownMembers<V>(order: seq<string>, m: map<string, V>)
    ensures forall k :: k in Known(order, m) <==> k in order && k in m
  {
    if order != [] {
      KnownMembers(order[1..], m);
      assert order == [order[0]] + order[1..];
    }
  }

  /** Filtering a list that starts with `x`. */
  lemma KnownCons<V>(x: string, rest: seq<string>, m: map<string, V>)
    ensures Known([x] + rest, m) == if x in m then [x] + Known(rest, m) else Known(rest, m)
  {
    assert ([x] + rest)[0] == x && ([x] + rest)[1..] == rest;
  }

  /** Filtering keeps the order: what `a` contributes comes before what `b`
      does. */
  lemma {:induction false} KnownAppend<V>(a: seq<string>, b: seq<string>, m: map<string, V>)
    ensures Known(a + b, m) == Known(a, m) + Known(b, m)
  {
    if a == [] {
      assert a + b == b;
    } else {
      var x, tail := a[0], a[1..];
      assert a == [x] + tail && a + b == [x] + (tail + b);
      KnownAppend(tail, b, m);
      KnownCons(x, tail, m);
      KnownCons(x, tail + b, m);
      if x in m {
        assert [x] + (Known(tail, m) + Known(b, m)) == ([x] + Known(tail, m)) + Known(b, m);
      }
    }
  }

  /** An order that enumerates `m` is kept whole. */
  lemma {:induction false} KnownOfEnumeration<V>(order: seq<string>, m: map<string, V>)
    requires forall i :: 0 <= i < |order| ==> order[i] in m
    ensures Known(order, m) == order
  {
    if order != [] {
      KnownOfEnumeration(order[1..], m);
      assert order == [order[0]] + order[1..];
    }
  }
}
