/**
 * `java.util.LinkedHashMap` as the allocator uses it: a sequence of key/value
 * entries in insertion order. `put` of a new key appends an entry; `put` of a
 * key already present replaces that entry's value and keeps its position.
 */
module LinkedMap {
  import opened Wrappers

  function Keys<K, V>(m: seq<(K, V)>): seq<K>
  {
    seq(|m|, i requires 0 <= i < |m| => m[i].0)
  }

  predicate Distinct<K(==,!new)>(ks: seq<K>)
  {
    forall i, j :: 0 <= i < j < |ks| ==> ks[i] != ks[j]
  }

  /** `m.get(k)`. */
  function Get<K(==,!new), V>(m: seq<(K, V)>, k: K): Option<V>
  {
    if m == [] then None
    else if m[0].0 == k then Some(m[0].1)
    else Get(m[1..], k)
  }

  /** `m.put(k, v)`. */
  function Put<K(==,!new), V>(m: seq<(K, V)>, k: K, v: V): (r: seq<(K, V)>)
    ensures k in Keys(m) ==> Keys(r) == Keys(m)
    ensures k !in Keys(m) ==> r == m + [(k, v)]
    ensures Get(r, k) == Some(v)
    ensures forall k' :: k' != k ==> Get(r, k') == Get(m, k')
    ensures forall i :: 0 <= i < |r| ==> r[i] == (k, v) || r[i] in m
  {
    if m == [] then [(k, v)]
    else if m[0].0 == k then
      assert Keys(m)[0] == k;
      [(k, v)] + m[1..]
    else
      var rest := Put(m[1..], k, v);
      assert Keys(m) == [m[0].0] + Keys(m[1..]);
      assert Keys([m[0]] + rest) == [m[0].0] + Keys(rest);
      [m[0]] + rest
  }

  /** `put` never introduces a second entry for a key. */
  lemma PutKeepsDistinct<K(!new), V>(m: seq<(K, V)>, k: K, v: V)
    requires Distinct(Keys(m))
    ensures Distinct(Keys(Put(m, k, v)))
  {
    if k !in Keys(m) {
      assert Keys(m + [(k, v)]) == Keys(m) + [k];
    }
  }

  /** The map obtained by `put`ting the entries of `es` into an empty map, in order. */
  function Build<K(==,!new), V>(es: seq<(K, V)>): seq<(K, V)>
  {
    if es == [] then [] else Put(Build(es[..|es| - 1]), es[|es| - 1].0, es[|es| - 1].1)
  }

  /** Building one more entry is one more `put`. */
  lemma BuildSnoc<K(!new), V>(es: seq<(K, V)>, k: K, v: V)
    ensures Build(es + [(k, v)]) == Put(Build(es), k, v)
  {
    assert (es + [(k, v)])[..|es|] == es;
  }

  /** The keys of `ks`, each kept at its first occurrence. */
  function Dedup<K(==,!new)>(ks: seq<K>): seq<K>
  {
    if ks == [] then []
    else
      var d := Dedup(ks[..|ks| - 1]);
      if ks[|ks| - 1] in d then d else d + [ks[|ks| - 1]]
  }

  /** The value of the last entry of `es` with key `k`. */
  function LastValue<K(==,!new), V>(es: seq<(K, V)>, k: K): Option<V>
  {
    if es == [] then None
    else if es[|es| - 1].0 == k then Some(es[|es| - 1].1)
    else LastValue(es[..|es| - 1], k)
  }

  lemma {:induction false} DedupSameElements<K(!new)>(ks: seq<K>)
    ensures forall k :: k in Dedup(ks) <==> k in ks
  {
    if ks != [] {
      DedupSameElements(ks[..|ks| - 1]);
      assert ks == ks[..|ks| - 1] + [ks[|ks| - 1]];
    }
  }

  /** Repeated keys keep the position of their first `put`. */
  lemma {:induction false} BuildKeys<K(!new), V>(es: seq<(K, V)>)
    ensures Keys(Build(es)) == Dedup(Keys(es))
  {
    if es != [] {
      var init := es[..|es| - 1];
      BuildKeys(init);
      assert Keys(es)[..|es| - 1] == Keys(init);
      DedupSameElements(Keys(init));
      var k := es[|es| - 1].0;
      var b := Build(init);
      assert k in Keys(b) <==> k in Keys(init);
      if k !in Keys(b) {
        assert Keys(b + [(k, es[|es| - 1].1)]) == Keys(b) + [k];
      }
    }
  }

  /** The value stored under a key is the one given by its last `put`. */
  lemma {:induction false} BuildGet<K(!new), V>(es: seq<(K, V)>, k: K)
    ensures Get(Build(es), k) == LastValue(es, k)
  {
    if es != [] {
      BuildGet(es[..|es| - 1], k);
    }
  }

  /** Every entry of the map is one of the entries that were put. */
  lemma {:induction false} BuildEntries<K(!new), V>(es: seq<(K, V)>)
    ensures forall i :: 0 <= i < |Build(es)| ==> Build(es)[i] in es
  {
    if es != [] {
      var init := es[..|es| - 1];
      BuildEntries(init);
      forall i | 0 <= i < |Build(es)|
        ensures Build(es)[i] in es
      {
        var r := Build(es);
        if r[i] != es[|es| - 1] {
          assert r[i] in Build(init);
          var j :| 0 <= j < |Build(init)| && Build(init)[j] == r[i];
          assert r[i] in init;
        }
      }
    }
  }

  /** With no repeated key, the map holds exactly the entries put, in order. */
  lemma {:induction false} BuildDistinct<K(!new), V>(es: seq<(K, V)>)
    requires Distinct(Keys(es))
    ensures Build(es) == es
  {
    if es != [] {
      var init := es[..|es| - 1];
      assert Keys(init) == Keys(es)[..|es| - 1];
      BuildDistinct(init);
      var k := es[|es| - 1].0;
      forall j | 0 <= j < |init|
        ensures Keys(init)[j] != k
      {
        assert Keys(es)[j] == Keys(init)[j];
        assert Keys(es)[|es| - 1] == k;
        assert Keys(es)[j] != Keys(es)[|es| - 1];
      }
      assert init + [es[|es| - 1]] == es;
    }
  }
}
