/** The sequential meaning of `reduceByKey(lambda a, b: a + b)`
    (user_profiles.py:19-20): the value lists of equal keys are concatenated. */
module Grouping {
  import Seqs

  /** Left fold over the pairs in input order: a key seen for the first time
      keeps its value list, a key seen again gets the new list appended. */
  function ReduceByKey<K, V>(ps: seq<(K, seq<V>)>): map<K, seq<V>>
  {
    if ps == [] then map[]
    else
      var m := ReduceByKey(ps[..|ps| - 1]);
      var (k, v) := ps[|ps| - 1];
      m[k := if k in m then m[k] + v else v]
  }

  /** The keys of the pairs, in input order. */
  function KeySeq<K, V>(ps: seq<(K, seq<V>)>): (ks: seq<K>)
    ensures |ks| == |ps| && forall i :: 0 <= i < |ps| ==> ks[i] == ps[i].0
  {
    if ps == [] then [] else KeySeq(ps[..|ps| - 1]) + [ps[|ps| - 1].0]
  }

  /** Each distinct key once, in order of first appearance. */
  function KeyOrder<K(==), V>(ps: seq<(K, seq<V>)>): seq<K>
  {
    Seqs.Dedup(KeySeq(ps))
  }

  /** Reference definition: the concatenation, in input order, of the value
      lists of the pairs whose key is `k`. */
  function ValuesFor<K(==), V>(ps: seq<(K, seq<V>)>, k: K): seq<V>
  {
    if ps == [] then []
    else ValuesFor(ps[..|ps| - 1], k) + (if ps[|ps| - 1].0 == k then ps[|ps| - 1].1 else [])
  }

  /** Total length of all value lists. */
  function TotalLength<K, V>(ps: seq<(K, seq<V>)>): nat
  {
    if ps == [] then 0 else TotalLength(ps[..|ps| - 1]) + |ps[|ps| - 1].1|
  }

  /** Sum of the lengths of the lists of the keys `ks` in a grouping (a key
      absent from the grouping adds nothing). */
  function SumLengths<K, V>(m: map<K, seq<V>>, ks: seq<K>): nat
  {
    if ks == [] then 0
    else SumLengths(m, ks[..|ks| - 1]) + if ks[|ks| - 1] in m then |m[ks[|ks| - 1]]| else 0
  }

  /** The grouping has exactly the keys of the input, and each key's list is
      the concatenation of that key's value lists in input order. */
  lemma {:induction false} GroupContents<K, V>(ps: seq<(K, seq<V>)>)
    ensures forall k :: k in ReduceByKey(ps) <==> k in KeySeq(ps)
    ensures forall k :: k in ReduceByKey(ps) ==> ReduceByKey(ps)[k] == ValuesFor(ps, k)
  {
    if ps != [] {
      var p, k := ps[..|ps| - 1], ps[|ps| - 1].0;
      GroupContents(p);
      if k !in KeySeq(p) {
        KeyNotSeen(p, k);
      }
    }
  }

  /** A value is in a key's list exactly when some pair with that key
      holds it. */
  lemma {:induction false} ValuesForMembers<K, V>(ps: seq<(K, seq<V>)>, k: K)
    ensures forall v :: v in ValuesFor(ps, k) <==> exists i :: 0 <= i < |ps| && ps[i].0 == k && v in ps[i].1
  {
    if ps != [] {
      var p := ps[..|ps| - 1];
      ValuesForMembers(p, k);
      forall v ensures v in ValuesFor(ps, k) <==> exists i :: 0 <= i < |ps| && ps[i].0 == k && v in ps[i].1 {
        if v in ValuesFor(p, k) {
          var i :| 0 <= i < |p| && p[i].0 == k && v in p[i].1;
          assert ps[i] == p[i];
        }
        if exists i :: 0 <= i < |ps| && ps[i].0 == k && v in ps[i].1 {
          var i :| 0 <= i < |ps| && ps[i].0 == k && v in ps[i].1;
          if i < |p| {
            assert p[i] == ps[i];
          }
        }
      }
    }
  }

  /** The keys of the grouping are the keys of the pairs. */
  lemma GroupKeys<K, V>(ps: seq<(K, seq<V>)>)
    ensures forall k :: k in ReduceByKey(ps) <==> exists i :: 0 <= i < |ps| && ps[i].0 == k
  {
    GroupContents(ps);
    var ks := KeySeq(ps);
    forall k ensures k in ks <==> exists i :: 0 <= i < |ps| && ps[i].0 == k {
      if k in ks {
        var i :| 0 <= i < |ks| && ks[i] == k;
      }
    }
  }

  /** A key that occurs in no pair collects nothing. */
  lemma {:induction false} KeyNotSeen<K, V>(ps: seq<(K, seq<V>)>, k: K)
    requires k !in KeySeq(ps)
    ensures ValuesFor(ps, k) == []
  {
    if ps != [] {
      var p := ps[..|ps| - 1];
      assert KeySeq(ps) == KeySeq(p) + [ps[|ps| - 1].0];
      KeyNotSeen(p, k);
    }
  }

  /** Reference sum: the lengths of `ValuesFor` over a list of keys. */
  function SumValues<K(==), V>(ps: seq<(K, seq<V>)>, ks: seq<K>): nat
  {
    if ks == [] then 0 else SumValues(ps, ks[..|ks| - 1]) + |ValuesFor(ps, ks[|ks| - 1])|
  }

  lemma {:induction false} SumValuesStep<K, V>(ps: seq<(K, seq<V>)>, ks: seq<K>, k: K, v: seq<V>)
    requires Seqs.NoDup(ks)
    ensures SumValues(ps + [(k, v)], ks) == SumValues(ps, ks) + (if k in ks then |v| else 0)
  {
    if ks != [] {
      var q := ks[..|ks| - 1];
      var x := ks[|ks| - 1];
      assert Seqs.NoDup(q);
      SumValuesStep(ps, q, k, v);
      ValuesForSnoc(ps, k, v, x);
      assert ks == q + [x];
      assert k in ks <==> k in q || k == x;
      assert x == k ==> k !in q;
    }
  }

  lemma {:induction false} SumValuesKeyOrder<K, V>(ps: seq<(K, seq<V>)>)
    ensures SumValues(ps, KeyOrder(ps)) == TotalLength(ps)
  {
    if ps != [] {
      var p, k, v := ps[..|ps| - 1], ps[|ps| - 1].0, ps[|ps| - 1].1;
      assert ps == p + [(k, v)];
      SumValuesKeyOrder(p);
      KeyOrderSnoc(p, k, v);
      Seqs.DedupNoDup(KeySeq(p));
      SumValuesStep(p, KeyOrder(p), k, v);
      if k !in KeyOrder(p) {
        NewKeySum(p, k, v);
      }
    }
  }

  /** A pair adds its key to the key order when the key is new. */
  lemma KeyOrderSnoc<K, V>(ps: seq<(K, seq<V>)>, k: K, v: seq<V>)
    ensures KeyOrder(ps + [(k, v)]) == if k in KeyOrder(ps) then KeyOrder(ps) else KeyOrder(ps) + [k]
  {
    assert KeySeq(ps + [(k, v)]) == KeySeq(ps) + [k];
    Seqs.DedupSnoc(KeySeq(ps), k);
  }

  /** A new key contributes exactly the length of its first value list. */
  lemma NewKeySum<K, V>(ps: seq<(K, seq<V>)>, k: K, v: seq<V>)
    requires k !in KeyOrder(ps)
    ensures SumValues(ps + [(k, v)], KeyOrder(ps) + [k]) == SumValues(ps + [(k, v)], KeyOrder(ps)) + |v|
  {
    Seqs.DedupMembers(KeySeq(ps));
    KeyNotSeen(ps, k);
    ValuesForSnoc(ps, k, v, k);
    SumValuesSnoc(ps + [(k, v)], KeyOrder(ps), k);
  }

  lemma ValuesForSnoc<K, V>(ps: seq<(K, seq<V>)>, k: K, v: seq<V>, x: K)
    ensures ValuesFor(ps + [(k, v)], x) == ValuesFor(ps, x) + (if k == x then v else [])
  {
    assert (ps + [(k, v)])[..|ps|] == ps;
  }

  lemma SumValuesSnoc<K, V>(ps: seq<(K, seq<V>)>, ks: seq<K>, k: K)
    ensures SumValues(ps, ks + [k]) == SumValues(ps, ks) + |ValuesFor(ps, k)|
  {
    assert (ks + [k])[..|ks|] == ks;
  }

  lemma {:induction false} SumLengthsIsSumValues<K, V>(ps: seq<(K, seq<V>)>, ks: seq<K>)
    requires forall i :: 0 <= i < |ks| ==> ks[i] in ReduceByKey(ps)
    ensures SumLengths(ReduceByKey(ps), ks) == SumValues(ps, ks)
  {
    if ks != [] {
      GroupContents(ps);
      SumLengthsIsSumValues(ps, ks[..|ks| - 1]);
    }
  }

  /** Grouping neither loses nor duplicates a value: the key order lists every
      key of the grouping exactly once, and the lengths of the grouped lists
      add up to the total length of the input lists. */
  lemma GroupPreservesValues<K, V>(ps: seq<(K, seq<V>)>)
    ensures Seqs.NoDup(KeyOrder(ps))
    ensures forall k :: k in KeyOrder(ps) <==> k in ReduceByKey(ps)
    ensures SumLengths(ReduceByKey(ps), KeyOrder(ps)) == TotalLength(ps)
  {
    Seqs.DedupNoDup(KeySeq(ps));
    Seqs.DedupMembers(KeySeq(ps));
    GroupContents(ps);
    var ko := KeyOrder(ps);
    SumLengthsIsSumValues(ps, ko);
    SumValuesKeyOrder(ps);
  }
}
