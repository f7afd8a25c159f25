/** The JavaScript objects the folds use as dictionaries (`acc[key] = ...`): one entry per
    key, kept in the order the keys were first written, which is the order Object.entries
    and Object.values give back for keys that are not array indices. */
module Dict {
  import opened Records
  import opened Ranking

  function Keys<K, V>(d: seq<(K, V)>): (r: seq<K>)
    ensures |r| == |d|
    ensures forall i :: 0 <= i < |d| ==> r[i] == d[i].0
  {
    if d == [] then [] else [d[0].0] + Keys(d[1..])
  }

  /** `Object.values(d)` */
  function Values<K, V>(d: seq<(K, V)>): (r: seq<V>)
    ensures |r| == |d|
    ensures forall i :: 0 <= i < |d| ==> r[i] == d[i].1
  {
    if d == [] then [] else [d[0].1] + Values(d[1..])
  }

  function Key<K, V>(p: (K, V)): K {
    p.0
  }

  predicate Distinct<K(==)>(s: seq<K>) {
    forall i, j :: 0 <= i < j < |s| ==> s[i] != s[j]
  }

  /** `d[k]`, undefined when the key was never written. */
  function Lookup<K(==), V>(d: seq<(K, V)>, k: K): Option<V> {
    if d == [] then None
    else if d[0].0 == k then Some(d[0].1)
    else Lookup(d[1..], k)
  }

  /** `if (!acc[k]) acc[k] = init; acc[k] = step(acc[k])`: the one dictionary write every
      fold of the dashboard performs. The key keeps its place if it was there, and is
      added last otherwise. */
  function Upsert<K(==,!new), V>(d: seq<(K, V)>, k: K, init: V, step: V -> V): (r: seq<(K, V)>)
    ensures Lookup(r, k) == Some(step(Lookup(d, k).GetOr(init)))
    ensures forall k' :: k' != k ==> Lookup(r, k') == Lookup(d, k')
  {
    if d == [] then [(k, step(init))]
    else if d[0].0 == k then [(k, step(d[0].1))] + d[1..]
    else
      var rest := Upsert(d[1..], k, init, step);
      assert ([d[0]] + rest)[1..] == rest;
      [d[0]] + rest
  }

  /** A write keeps the keys and their order, adding the key last if it is new. */
  lemma {:induction false} UpsertKeys<K(!new), V>(d: seq<(K, V)>, k: K, init: V, step: V -> V)
    ensures Keys(Upsert(d, k, init, step)) == if k in Keys(d) then Keys(d) else Keys(d) + [k]
  {
    if d != [] && d[0].0 != k {
      UpsertKeys(d[1..], k, init, step);
      assert Keys(d) == [d[0].0] + Keys(d[1..]);
      assert Keys(Upsert(d, k, init, step)) == [d[0].0] + Keys(Upsert(d[1..], k, init, step));
    }
  }

  lemma {:induction false} LookupPresent<K, V>(d: seq<(K, V)>, k: K)
    ensures Lookup(d, k).Some? <==> k in Keys(d)
  {
    if d != [] {
      LookupPresent(d[1..], k);
      assert Keys(d) == [d[0].0] + Keys(d[1..]);
    }
  }

  /** With distinct keys, the entry at any position is what a lookup of its key finds. */
  lemma {:induction false} LookupAt<K, V>(d: seq<(K, V)>, i: nat)
    requires Distinct(Keys(d)) && i < |d|
    ensures Lookup(d, d[i].0) == Some(d[i].1)
  {
    if i > 0 {
      assert Keys(d[1..]) == Keys(d)[1..];
      LookupAt(d[1..], i - 1);
    }
  }

  /** A write never creates a duplicate key. */
  lemma UpsertDistinct<K(!new), V>(d: seq<(K, V)>, k: K, init: V, step: V -> V)
    requires Distinct(Keys(d))
    ensures Distinct(Keys(Upsert(d, k, init, step)))
  {
    UpsertKeys(d, k, init, step);
    var ks := Keys(d);
    if k !in ks {
      var r := ks + [k];
      forall i, j | 0 <= i < j < |r| ensures r[i] != r[j] {
        assert r[i] == ks[i];
        if j < |ks| {
          assert r[j] == ks[j];
        }
      }
    }
  }

  /** The total of any measure `h` over the entries changes by what the write adds. */
  lemma {:induction false} UpsertSum<K(!new), V>(d: seq<(K, V)>, k: K, init: V, step: V -> V, h: ((K, V)) -> int)
    ensures SumBy(Upsert(d, k, init, step), h)
         == SumBy(d, h) + h((k, step(Lookup(d, k).GetOr(init))))
            - (if Lookup(d, k).Some? then h((k, Lookup(d, k).value)) else 0)
  {
    var r := Upsert(d, k, init, step);
    if d == [] {
    } else if d[0].0 == k {
      assert r[1..] == d[1..];
    } else {
      UpsertSum(d[1..], k, init, step, h);
      assert r[1..] == Upsert(d[1..], k, init, step);
    }
  }

  /** Distinct keys of a dictionary are distinct keys of its entries as a list of pairs. */
  lemma DistinctKeysBy<K, V>(d: seq<(K, V)>)
    ensures Distinct(Keys(d)) <==> DistinctBy(d, Key)
  {
  }
}
