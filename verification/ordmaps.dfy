/**
 * Insertion-ordered maps as sequences of key/value pairs, and the two
 * operations the normalisers perform on them: `m[k] = v` and a loop of it.
 */
module OrderedMaps {

  datatype Pair<+K, +V> = Pair(key: K, val: V)

  /** The keys of a map, in insertion order. */
  function Keys<K, V>(es: seq<Pair<K, V>>): (ks: seq<K>)
    ensures |ks| == |es|
    ensures forall i :: 0 <= i < |es| ==> ks[i] == es[i].key
  {
    seq(|es|, i requires 0 <= i < |es| => es[i].key)
  }

  predicate DistinctKeys<K(==), V>(es: seq<Pair<K, V>>)
  {
    forall i, j :: 0 <= i < j < |es| ==> es[i].key != es[j].key
  }

  /**
   * `m[k] = v`: an existing key keeps its place and takes the new value, a new
   * key is appended.
   */
  function Assign<K(==), V>(es: seq<Pair<K, V>>, k: K, v: V): (r: seq<Pair<K, V>>)
    ensures |r| == if k in Keys(es) then |es| else |es| + 1
    ensures k !in Keys(es) ==> r == es + [Pair(k, v)]
    ensures forall i :: 0 <= i < |es| ==> r[i].key == es[i].key
    ensures forall i :: 0 <= i < |es| && es[i].key != k ==> r[i] == es[i]
    ensures Pair(k, v) in r
  {
    if |es| == 0 then [Pair(k, v)]
    else if es[0].key == k then [Pair(k, v)] + es[1..]
    else [es[0]] + Assign(es[1..], k, v)
  }

  /** Assigning keeps the keys distinct. */
  lemma AssignDistinct<K, V>(es: seq<Pair<K, V>>, k: K, v: V)
    requires DistinctKeys(es)
    ensures DistinctKeys(Assign(es, k, v))
  {
    var r := Assign(es, k, v);
    if k !in Keys(es) {
      forall i, j | 0 <= i < j < |r|
        ensures r[i].key != r[j].key
      {
        if j == |es| {
          assert Keys(es)[i] == es[i].key;
        }
      }
    }
  }

  /** Every entry after `m[k] = v` is an old entry or the new pair. */
  lemma AssignEntries<K, V>(es: seq<Pair<K, V>>, k: K, v: V, e: Pair<K, V>)
    requires e in Assign(es, k, v)
    ensures e in es || e == Pair(k, v)
  {
    if |es| > 0 && es[0].key != k && e != es[0] {
      AssignEntries(es[1..], k, v, e);
    }
  }

  /** The map a loop of `result[k] = v` over `pairs` builds on top of `acc`. */
  function AssignAll<K(==), V>(acc: seq<Pair<K, V>>, pairs: seq<Pair<K, V>>): (r: seq<Pair<K, V>>)
    ensures DistinctKeys(acc) ==> DistinctKeys(r)
    ensures |r| <= |acc| + |pairs|
    decreases |pairs|
  {
    if |pairs| == 0 then acc
    else
      AssignDistinctImplies(acc, pairs[0].key, pairs[0].val);
      AssignAll(Assign(acc, pairs[0].key, pairs[0].val), pairs[1..])
  }

  lemma AssignDistinctImplies<K, V>(es: seq<Pair<K, V>>, k: K, v: V)
    ensures DistinctKeys(es) ==> DistinctKeys(Assign(es, k, v))
  {
    if DistinctKeys(es) {
      AssignDistinct(es, k, v);
    }
  }

  /** Every entry of the built map is an entry of `acc` or one of the assigned pairs. */
  lemma {:induction false} AssignAllEntries<K, V>(acc: seq<Pair<K, V>>, pairs: seq<Pair<K, V>>, e: Pair<K, V>)
    requires e in AssignAll(acc, pairs)
    ensures e in acc || e in pairs
    decreases |pairs|
  {
    if |pairs| > 0 {
      var acc' := Assign(acc, pairs[0].key, pairs[0].val);
      AssignAllEntries(acc', pairs[1..], e);
      if e in acc' {
        AssignEntries(acc, pairs[0].key, pairs[0].val, e);
      }
    }
  }

  /** Every assigned key is a key of the built map. */
  lemma {:induction false} AssignAllKeys<K, V>(acc: seq<Pair<K, V>>, pairs: seq<Pair<K, V>>, k: K)
    requires k in Keys(acc) || k in Keys(pairs)
    ensures k in Keys(AssignAll(acc, pairs))
    decreases |pairs|
  {
    if |pairs| > 0 {
      var acc' := Assign(acc, pairs[0].key, pairs[0].val);
      if k in Keys(acc) {
        var i :| 0 <= i < |acc| && acc[i].key == k;
        assert Keys(acc')[i] == k;
      } else if k == pairs[0].key {
        var i :| 0 <= i < |acc'| && acc'[i] == Pair(k, pairs[0].val);
        assert Keys(acc')[i] == k;
      } else {
        var i :| 0 <= i < |pairs| && pairs[i].key == k;
        assert Keys(pairs[1..])[i - 1] == k;
      }
      AssignAllKeys(acc', pairs[1..], k);
    }
  }

  /** With no key repeated, assigning pair by pair just appends the pairs in order. */
  lemma {:induction false} AssignAllFresh<K, V>(acc: seq<Pair<K, V>>, pairs: seq<Pair<K, V>>)
    requires DistinctKeys(acc + pairs)
    ensures AssignAll(acc, pairs) == acc + pairs
    decreases |pairs|
  {
    if |pairs| > 0 {
      var k := pairs[0].key;
      assert (acc + pairs)[|acc|].key == k;
      assert k !in Keys(acc) by {
        forall i | 0 <= i < |acc|
          ensures Keys(acc)[i] != k
        {
          assert (acc + pairs)[i].key == acc[i].key;
        }
      }
      var acc' := acc + [pairs[0]];
      assert Assign(acc, k, pairs[0].val) == acc';
      assert acc' + pairs[1..] == acc + pairs;
      AssignAllFresh(acc', pairs[1..]);
    }
  }
}
