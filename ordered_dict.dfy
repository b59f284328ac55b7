/** Python's `dict` with string keys: a map plus the order in which keys were first
    inserted, which is the order `.items()` iterates in. Assigning to an existing key
    keeps its position. */
module OrderedDict {

  /** The set of the listed keys. */
  function KeySet(ks: seq<string>): set<string> {
    if ks == [] then {} else KeySet(ks[..|ks| - 1]) + {ks[|ks| - 1]}
  }

  lemma {:induction false} KeySetHas(ks: seq<string>)
    ensures forall i :: 0 <= i < |ks| ==> ks[i] in KeySet(ks)
  {
    if ks != [] {
      KeySetHas(ks[..|ks| - 1]);
      assert forall i :: 0 <= i < |ks| - 1 ==> ks[..|ks| - 1][i] == ks[i];
    }
  }

  lemma {:induction false} KeySetOnly(ks: seq<string>, k: string)
    requires k in KeySet(ks)
    ensures exists i :: 0 <= i < |ks| && ks[i] == k
  {
    if k != ks[|ks| - 1] {
      KeySetOnly(ks[..|ks| - 1], k);
    }
  }

  /** No key is listed twice. */
  predicate Distinct(ks: seq<string>) {
    ks == [] || (Distinct(ks[..|ks| - 1]) && ks[|ks| - 1] !in KeySet(ks[..|ks| - 1]))
  }

  lemma {:induction false} DistinctIndices(ks: seq<string>)
    requires Distinct(ks)
    ensures forall i, j :: 0 <= i < j < |ks| ==> ks[i] != ks[j]
  {
    if ks != [] {
      var init := ks[..|ks| - 1];
      DistinctIndices(init);
      KeySetHas(init);
      assert forall i :: 0 <= i < |init| ==> init[i] == ks[i];
    }
  }

  datatype Dict<V> = Dict(keys: seq<string>, m: map<string, V>) {
    /** Each key is listed once, and the listed keys are exactly the map's keys. */
    predicate Wf() {
      Distinct(keys) && KeySet(keys) == m.Keys
    }
  }

  /** `{}` */
  function Empty<V>(): (r: Dict<V>)
    ensures r.Wf() && r.m == map[]
  {
    Dict([], map[])
  }

  /** `d[k] = v` */
  function Put<V>(d: Dict<V>, k: string, v: V): Dict<V> {
    if k in d.m then Dict(d.keys, d.m[k := v]) else Dict(d.keys + [k], d.m[k := v])
  }

  /** `d.setdefault(k, v)` used as a statement. */
  function SetDefault<V>(d: Dict<V>, k: string, v: V): Dict<V> {
    if k in d.m then d else Put(d, k, v)
  }

  /** `d.get(k, default)` */
  function Get<V>(d: Dict<V>, k: string, default: V): V {
    if k in d.m then d.m[k] else default
  }

  /** Assignment keeps the dict well formed: an existing key keeps its place, a new key
      goes to the end, and only `k`'s value changes. */
  lemma PutWf<V>(d: Dict<V>, k: string, v: V)
    requires d.Wf()
    ensures Put(d, k, v).Wf()
    ensures Put(d, k, v).m == d.m[k := v]
    ensures k in d.m ==> Put(d, k, v).keys == d.keys
    ensures k !in d.m ==> Put(d, k, v).keys == d.keys + [k]
  {
    if k in d.m {
      assert d.m[k := v].Keys == d.m.Keys;
    } else {
      assert (d.keys + [k])[..|d.keys|] == d.keys;
      assert KeySet(d.keys + [k]) == KeySet(d.keys) + {k};
      assert d.m[k := v].Keys == d.m.Keys + {k};
    }
  }

  /** After assignment the key holds the assigned value. */
  lemma PutHere<V>(d: Dict<V>, k: string, v: V)
    ensures k in Put(d, k, v).m && Put(d, k, v).m[k] == v
  {
  }

  /** Assignment leaves every other key's value alone. */
  lemma PutOther<V>(d: Dict<V>, k: string, v: V, k': string)
    requires k' != k
    ensures k' in Put(d, k, v).m <==> k' in d.m
    ensures k' in d.m ==> Put(d, k, v).m[k'] == d.m[k']
  {
  }

  /** `setdefault` keeps the dict well formed and never overwrites a present key. */
  lemma SetDefaultWf<V>(d: Dict<V>, k: string, v: V)
    requires d.Wf()
    ensures SetDefault(d, k, v).Wf()
    ensures k in SetDefault(d, k, v).m
    ensures SetDefault(d, k, v).m == if k in d.m then d.m else d.m[k := v]
    ensures SetDefault(d, k, v).keys == if k in d.m then d.keys else d.keys + [k]
  {
    if k !in d.m {
      PutWf(d, k, v);
    }
  }

  /** In a well-formed dict, a key is present exactly when it is listed. */
  lemma Listed<V>(d: Dict<V>, k: string)
    requires d.Wf()
    ensures k in d.m <==> k in d.keys
  {
    KeySetHas(d.keys);
    if k in d.m {
      KeySetOnly(d.keys, k);
    }
  }

  /** Writing back the value a key already holds changes nothing. */
  lemma PutSame<V>(d: Dict<V>, k: string)
    requires k in d.m
    ensures Put(d, k, d.m[k]) == d
  {
    assert d.m[k := d.m[k]] == d.m;
  }

  /** `d.items()`: the key/value pairs in insertion order. Keys that a malformed value
      lists without a mapping are passed over, so the function needs no precondition;
      `ItemsOfWf` shows that on a well-formed dict every listed key appears. */
  function Items<V>(d: Dict<V>): seq<(string, V)> {
    ItemsOf(d.keys, d.m)
  }

  function ItemsOf<V>(ks: seq<string>, m: map<string, V>): seq<(string, V)> {
    if ks == [] then []
    else
      var k := ks[|ks| - 1];
      ItemsOf(ks[..|ks| - 1], m) + (if k in m then [(k, m[k])] else [])
  }

  lemma {:induction false} ItemsOfAll<V>(ks: seq<string>, m: map<string, V>)
    requires forall i :: 0 <= i < |ks| ==> ks[i] in m
    ensures |ItemsOf(ks, m)| == |ks|
    ensures forall i :: 0 <= i < |ks| ==> ItemsOf(ks, m)[i] == (ks[i], m[ks[i]])
  {
    if ks != [] {
      ItemsOfAll(ks[..|ks| - 1], m);
    }
  }

  /** On a well-formed dict, `items()` lists every key once, in key order, with its value. */
  lemma ItemsOfWf<V>(d: Dict<V>)
    requires d.Wf()
    ensures |Items(d)| == |d.keys|
    ensures forall i :: 0 <= i < |d.keys| ==> d.keys[i] in d.m && Items(d)[i] == (d.keys[i], d.m[d.keys[i]])
  {
    KeySetHas(d.keys);
    ItemsOfAll(d.keys, d.m);
  }

}
