/**
 * Python's `convert_bytes_to_str` (main.py): bytes become text through
 * `decode`, dicts and lists are rebuilt with every key, value and item
 * converted, anything else is returned unchanged.
 */
module PyConvert {
  import opened Basics
  import opened OrderedMaps

  /** The Python objects the function distinguishes; a dict keeps insertion order. */
  datatype Value =
    | Bytes(bytes: seq<byte>)
    | Str(s: string)
    | Scalar(n: int)                          // int, bool, None and every other object
    | Dict(entries: seq<Pair<Value, Value>>)
    | List(items: seq<Value>)

  /** No bytes anywhere, and every dict has distinct keys: what the conversion produces. */
  predicate Converted(v: Value)
    decreases v
  {
    match v
    case Bytes(_) => false
    case Str(_) => true
    case Scalar(_) => true
    case Dict(es) =>
      && DistinctKeys(es)
      && forall i :: 0 <= i < |es| ==> Converted(es[i].key) && Converted(es[i].val)
    case List(xs) => forall i :: 0 <= i < |xs| ==> Converted(xs[i])
  }

  /**
   * `decode` stands for `bytes.decode('utf-8')`. The dict comprehension assigns
   * the converted pairs in order, so of two keys that convert to the same text
   * the later value wins, in the place of the earlier key.
   */
  function Convert(decode: seq<byte> -> string, v: Value): (r: Value)
    decreases v
    ensures v.Str? || v.Scalar? ==> r == v
    ensures v.Bytes? ==> r == Str(decode(v.bytes))
    ensures v.List? <==> r.List?
    ensures v.List? ==> |r.items| == |v.items|
    ensures v.Dict? <==> r.Dict?
    ensures v.Dict? ==> |r.entries| <= |v.entries| && DistinctKeys(r.entries)
  {
    match v
    case Bytes(b) => Str(decode(b))
    case Str(_) => v
    case Scalar(_) => v
    case Dict(es) =>
      var pairs := seq(|es|, i requires 0 <= i < |es| =>
                         Pair(Convert(decode, es[i].key), Convert(decode, es[i].val)));
      Dict(AssignAll([], pairs))
    case List(xs) => List(seq(|xs|, i requires 0 <= i < |xs| => Convert(decode, xs[i])))
  }

  /** The converted pairs of a dict, in order, before they are assigned into the new dict. */
  function ConvertedPairs(decode: seq<byte> -> string, es: seq<Pair<Value, Value>>): (ps: seq<Pair<Value, Value>>)
    ensures |ps| == |es|
    ensures forall i :: 0 <= i < |es| ==> ps[i].key == Convert(decode, es[i].key)
    ensures forall i :: 0 <= i < |es| ==> ps[i].val == Convert(decode, es[i].val)
  {
    seq(|es|, i requires 0 <= i < |es| => Pair(Convert(decode, es[i].key), Convert(decode, es[i].val)))
  }

  /** When no two keys convert to the same value, the dict keeps every entry, in order. */
  lemma ConvertDictKeepsCount(decode: seq<byte> -> string, es: seq<Pair<Value, Value>>)
    requires DistinctKeys(ConvertedPairs(decode, es))
    ensures Convert(decode, Dict(es)) == Dict(ConvertedPairs(decode, es))
    ensures |Convert(decode, Dict(es)).entries| == |es|
  {
    var ps := ConvertedPairs(decode, es);
    assert [] + ps == ps;
    AssignAllFresh([], ps);
  }

  /** Every converted key appears in the result, whatever collisions happen. */
  lemma ConvertDictKeys(decode: seq<byte> -> string, es: seq<Pair<Value, Value>>, i: nat)
    requires i < |es|
    ensures Convert(decode, es[i].key) in Keys(Convert(decode, Dict(es)).entries)
  {
    var ps := ConvertedPairs(decode, es);
    assert Keys(ps)[i] == Convert(decode, es[i].key);
    AssignAllKeys([], ps, Convert(decode, es[i].key));
  }

  /** The result never holds bytes, and its dicts have distinct keys. */
  lemma {:induction false} ConvertIsConverted(decode: seq<byte> -> string, v: Value)
    ensures Converted(Convert(decode, v))
    decreases v
  {
    match v
    case Bytes(_) =>
    case Str(_) =>
    case Scalar(_) =>
    case Dict(es) =>
      var ps := ConvertedPairs(decode, es);
      var out := AssignAll([], ps);
      assert Convert(decode, v) == Dict(out);
      forall i | 0 <= i < |out|
        ensures Converted(out[i].key) && Converted(out[i].val)
      {
        AssignAllEntries([], ps, out[i]);
        var j :| 0 <= j < |ps| && ps[j] == out[i];
        ConvertIsConverted(decode, es[j].key);
        ConvertIsConverted(decode, es[j].val);
      }
    case List(xs) =>
      forall i | 0 <= i < |xs|
        ensures Converted(Convert(decode, xs[i]))
      {
        ConvertIsConverted(decode, xs[i]);
      }
  }

  /** On a value that is already converted the function changes nothing. */
  lemma {:induction false} ConvertFixesConverted(decode: seq<byte> -> string, v: Value)
    requires Converted(v)
    ensures Convert(decode, v) == v
    decreases v
  {
    match v
    case Str(_) =>
    case Scalar(_) =>
    case Dict(es) =>
      var ps := ConvertedPairs(decode, es);
      forall i | 0 <= i < |es|
        ensures ps[i] == es[i]
      {
        ConvertFixesConverted(decode, es[i].key);
        ConvertFixesConverted(decode, es[i].val);
      }
      assert ps == es;
      assert [] + es == es;
      AssignAllFresh([], es);
    case List(xs) =>
      forall i | 0 <= i < |xs|
        ensures Convert(decode, xs[i]) == xs[i]
      {
        ConvertFixesConverted(decode, xs[i]);
      }
      assert Convert(decode, v).items == xs;
  }

  /** Converting twice is converting once. */
  lemma ConvertIdempotent(decode: seq<byte> -> string, v: Value)
    ensures Convert(decode, Convert(decode, v)) == Convert(decode, v)
  {
    ConvertIsConverted(decode, v);
    ConvertFixesConverted(decode, Convert(decode, v));
  }
}
