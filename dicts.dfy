/**
 * A Python dict seen as what the wrapper's callers observe of it: its entries
 * in insertion order. Assigning to a key already present keeps its position
 * and replaces its value; assigning to a new key appends it.
 */
module Dicts {
  import opened Outcomes

  type Dict<V> = seq<(string, V)>

  function Keys<V>(d: Dict<V>): (ks: seq<string>)
    ensures |ks| == |d|
    ensures forall i :: 0 <= i < |d| ==> ks[i] == d[i].0
  {
    seq(|d|, i requires 0 <= i < |d| => d[i].0)
  }

  predicate Distinct(s: seq<string>) {
    forall i, j :: 0 <= i < j < |s| ==> s[i] != s[j]
  }

  /** `d[k]`, or None when `k` is not a key. */
  function Get<V>(d: Dict<V>, k: string): Option<V> {
    if d == [] then None
    else if d[0].0 == k then Some(d[0].1)
    else Get(d[1..], k)
  }

  /** `d[k] = v`. */
  function Put<V>(d: Dict<V>, k: string, v: V): Dict<V> {
    if d == [] then [(k, v)]
    else if d[0].0 == k then [(k, v)] + d[1..]
    else [d[0]] + Put(d[1..], k, v)
  }

  /** `d[k] = v` keeps the key order; a new key is appended with its value, an existing one stays in place. */
  lemma {:induction false} PutKeys<V>(d: Dict<V>, k: string, v: V)
    ensures Keys(Put(d, k, v)) == if k in Keys(d) then Keys(d) else Keys(d) + [k]
    ensures k !in Keys(d) ==> Put(d, k, v) == d + [(k, v)]
  {
    if d != [] && d[0].0 != k {
      PutKeys(d[1..], k, v);
      KeysCons(d[0], d[1..]);
      KeysCons(d[0], Put(d[1..], k, v));
      if k !in Keys(d) {
        assert [d[0]] + (d[1..] + [(k, v)]) == d + [(k, v)];
      }
    }
  }

  lemma KeysCons<V>(e: (string, V), d: Dict<V>)
    ensures Keys([e] + d) == [e.0] + Keys(d)
  {
  }

  /** After `d[k] = v`, `d[k]` is `v` and every other key reads as before. */
  lemma {:induction false} PutGet<V>(d: Dict<V>, k: string, v: V, k': string)
    ensures Get(Put(d, k, v), k') == if k' == k then Some(v) else Get(d, k')
  {
    if d != [] && d[0].0 != k {
      PutGet(d[1..], k, v, k');
      assert ([d[0]] + Put(d[1..], k, v))[1..] == Put(d[1..], k, v);
    }
  }

  /** `dict(zip(ks, vs))`: the keys assigned one after another. */
  function FromPairs<V>(ks: seq<string>, vs: seq<V>): Dict<V>
    requires |ks| == |vs|
    decreases |ks|
  {
    if ks == [] then []
    else Put(FromPairs(ks[..|ks| - 1], vs[..|vs| - 1]), ks[|ks| - 1], vs[|vs| - 1])
  }

  /** The entries `(ks[i], vs[i])` side by side. */
  function Zip<V>(ks: seq<string>, vs: seq<V>): (r: Dict<V>)
    requires |ks| == |vs|
    ensures Keys(r) == ks
  {
    seq(|ks|, i requires 0 <= i < |ks| => (ks[i], vs[i]))
  }

  /** Every name assigned becomes a key, and no other. */
  lemma {:induction false} FromPairsKeys<V>(ks: seq<string>, vs: seq<V>, k: string)
    requires |ks| == |vs|
    ensures k in Keys(FromPairs(ks, vs)) <==> k in ks
    decreases |ks|
  {
    if ks != [] {
      var n := |ks| - 1;
      FromPairsKeys(ks[..n], vs[..n], k);
      PutKeys(FromPairs(ks[..n], vs[..n]), ks[n], vs[n]);
      assert ks == ks[..n] + [ks[n]];
    }
  }

  /** With distinct names nothing is overwritten: the dict is the names zipped with the values, in order. */
  lemma {:induction false} FromPairsDistinct<V>(ks: seq<string>, vs: seq<V>)
    requires |ks| == |vs| && Distinct(ks)
    ensures FromPairs(ks, vs) == Zip(ks, vs)
    decreases |ks|
  {
    if ks != [] {
      var n := |ks| - 1;
      var prefix := Zip(ks[..n], vs[..n]);
      assert Distinct(ks[..n]);
      FromPairsDistinct(ks[..n], vs[..n]);
      assert ks[n] !in Keys(prefix);
      PutKeys(prefix, ks[n], vs[n]);
      ZipSnoc(ks, vs);
    }
  }

  lemma ZipSnoc<V>(ks: seq<string>, vs: seq<V>)
    requires |ks| == |vs| > 0
    ensures Zip(ks, vs) == Zip(ks[..|ks| - 1], vs[..|vs| - 1]) + [(ks[|ks| - 1], vs[|vs| - 1])]
  {
  }
}
