/**
 * Go's `convertBytesToStr` (main.go): a type switch over `interface{}`.
 * `[]byte` becomes `string`, a `map[interface{}]interface{}` is rebuilt as a
 * `map[string]interface{}` whose keys must convert to strings (the type
 * assertion panics otherwise), a `[]interface{}` is rebuilt item by item, and
 * every other value, a `map[string]interface{}` included, is returned as is.
 */
module GoConvert {
  import opened Basics
  import opened OrderedMaps

  /** The Go dynamic values the type switch distinguishes; maps in range order. */
  datatype Value =
    | Bytes(bytes: seq<byte>)                     // []byte
    | Str(s: string)                              // string
    | Scalar(n: int)                              // any other type, passed through
    | AnyMap(entries: seq<Pair<Value, Value>>)    // map[interface{}]interface{}
    | StrMap(fields: seq<Pair<string, Value>>)    // map[string]interface{}
    | List(items: seq<Value>)                     // []interface{}

  /**
   * The run-time panic of the failed `.(string)` assertion, with the map key
   * whose conversion was not a string.
   */
  datatype Panic = KeyNotString(key: Value)

  /** Go's `string(b)`: one character per byte. */
  function BytesToString(b: seq<byte>): (s: string)
    ensures |s| == |b|
    ensures forall i :: 0 <= i < |b| ==> s[i] as int == b[i] as int
  {
    seq(|b|, i requires 0 <= i < |b| => b[i] as char)
  }

  /** The strings whose characters each fit in a byte: the range of `BytesToString`. */
  predicate ByteString(s: string)
  {
    forall i :: 0 <= i < |s| ==> s[i] as int < 256
  }

  /** Go's `[]byte(s)` on such a string: one byte per character. */
  function StringToBytes(s: string): (b: seq<byte>)
    requires ByteString(s)
    ensures |b| == |s|
  {
    seq(|s|, i requires 0 <= i < |s| => s[i] as int as byte)
  }

  /** `string(b)` loses nothing: the bytes come back, and every byte string is reached. */
  lemma BytesToStringRoundTrip(b: seq<byte>, s: string)
    ensures ByteString(BytesToString(b)) && StringToBytes(BytesToString(b)) == b
    ensures ByteString(s) ==> BytesToString(StringToBytes(s)) == s
  {
  }

  /** Whether a converted key passes the `.(string)` assertion. */
  predicate IsStringResult(r: Result<Value, Panic>)
  {
    r.Ok? && r.value.Str?
  }

  function Convert(v: Value): (r: Result<Value, Panic>)
    decreases v
    ensures v.Str? || v.Scalar? || v.StrMap? ==> r == Ok(v)
    ensures v.Bytes? ==> r == Ok(Str(BytesToString(v.bytes)))
    ensures v.List? && r.Ok? ==> r.value.List? && |r.value.items| == |v.items|
    ensures v.AnyMap? && r.Ok? ==> r.value.StrMap? && DistinctKeys(r.value.fields)
    ensures v.AnyMap? && r.Ok? ==> |r.value.fields| <= |v.entries|
  {
    match v
    case Bytes(b) => Ok(Str(BytesToString(b)))
    case Str(_) => Ok(v)
    case Scalar(_) => Ok(v)
    case StrMap(_) => Ok(v)
    case AnyMap(es) =>
      var fields := ConvertEntries([], es);
      if fields.Err? then Err(fields.error) else Ok(StrMap(fields.value))
    case List(xs) =>
      var items := ConvertItems(xs);
      if items.Err? then Err(items.error) else Ok(List(items.value))
  }

  /**
   * The `for key, value := range v` loop: `acc` is the map built so far, each
   * key is converted and asserted to be a string, then its value converted and
   * stored; the first panic ends the walk.
   */
  function ConvertEntries(acc: seq<Pair<string, Value>>, es: seq<Pair<Value, Value>>): (r: Result<seq<Pair<string, Value>>, Panic>)
    decreases es
    ensures r.Ok? && DistinctKeys(acc) ==> DistinctKeys(r.value)
    ensures r.Ok? ==> |r.value| <= |acc| + |es|
  {
    if |es| == 0 then Ok(acc)
    else
      var p := ConvertPair(es[0]);
      if p.Err? then Err(p.error)
      else
        AssignDistinctImplies(acc, p.value.key, p.value.val);
        ConvertEntries(Assign(acc, p.value.key, p.value.val), es[1..])
  }

  /**
   * One loop step: the key is converted (a panic inside that conversion goes
   * through) and asserted to be a string, then the value converted.
   */
  function ConvertPair(e: Pair<Value, Value>): (r: Result<Pair<string, Value>, Panic>)
    decreases e
    ensures r.Ok? <==> IsStringResult(Convert(e.key)) && Convert(e.val).Ok?
    ensures r.Ok? ==> Convert(e.key) == Ok(Str(r.value.key)) && Convert(e.val) == Ok(r.value.val)
    ensures Convert(e.key).Ok? && !Convert(e.key).value.Str? ==> r == Err(KeyNotString(e.key))
  {
    var k := Convert(e.key);
    if k.Err? then Err(k.error)
    else if !k.value.Str? then Err(KeyNotString(e.key))
    else
      var w := Convert(e.val);
      if w.Err? then Err(w.error) else Ok(Pair(k.value.s, w.value))
  }

  /** The `for i, item := range v` loop; the first panic ends the walk. */
  function ConvertItems(xs: seq<Value>): (r: Result<seq<Value>, Panic>)
    decreases xs
    ensures r.Ok? ==> |r.value| == |xs|
  {
    if |xs| == 0 then Ok([])
    else
      var first := Convert(xs[0]);
      if first.Err? then Err(first.error)
      else
        var rest := ConvertItems(xs[1..]);
        if rest.Err? then Err(rest.error) else Ok([first.value] + rest.value)
  }

  /** Item by item, a successful list conversion is the conversion of each item. */
  lemma {:induction false} ConvertItemsPointwise(xs: seq<Value>)
    ensures ConvertItems(xs).Ok? <==> forall i :: 0 <= i < |xs| ==> Convert(xs[i]).Ok?
    ensures ConvertItems(xs).Ok? ==> forall i :: 0 <= i < |xs| ==> Convert(xs[i]) == Ok(ConvertItems(xs).value[i])
    decreases |xs|
  {
    if |xs| > 0 {
      ConvertItemsPointwise(xs[1..]);
      assert forall i :: 1 <= i < |xs| ==> xs[1..][i - 1] == xs[i];
    }
  }

  /** The map loop succeeds iff every key converts to a string and every value converts. */
  lemma {:induction false} ConvertEntriesOk(acc: seq<Pair<string, Value>>, es: seq<Pair<Value, Value>>)
    ensures ConvertEntries(acc, es).Ok? <==>
      forall i :: 0 <= i < |es| ==> IsStringResult(Convert(es[i].key)) && Convert(es[i].val).Ok?
    decreases |es|
  {
    if |es| > 0 && IsStringResult(Convert(es[0].key)) && Convert(es[0].val).Ok? {
      var k := Convert(es[0].key);
      var w := Convert(es[0].val);
      ConvertEntriesOk(Assign(acc, k.value.s, w.value), es[1..]);
      assert forall i :: 1 <= i < |es| ==> es[1..][i - 1] == es[i];
    }
  }

  /** The map loop is the assignment of the converted pairs, in order. */
  lemma {:induction false} ConvertEntriesAssigns(acc: seq<Pair<string, Value>>, es: seq<Pair<Value, Value>>)
    requires forall i :: 0 <= i < |es| ==> IsStringResult(Convert(es[i].key)) && Convert(es[i].val).Ok?
    ensures ConvertEntries(acc, es) == Ok(AssignAll(acc, StringPairs(es)))
    decreases |es|
  {
    if |es| > 0 {
      var k := Convert(es[0].key);
      var w := Convert(es[0].val);
      ConvertEntriesAssigns(Assign(acc, k.value.s, w.value), es[1..]);
      assert StringPairs(es)[1..] == StringPairs(es[1..]);
    }
  }

  /** The converted pairs of a map whose loop succeeds, in range order. */
  function StringPairs(es: seq<Pair<Value, Value>>): (ps: seq<Pair<string, Value>>)
    requires forall i :: 0 <= i < |es| ==> IsStringResult(Convert(es[i].key)) && Convert(es[i].val).Ok?
    ensures |ps| == |es|
    ensures forall i :: 0 <= i < |es| ==> Convert(es[i].key) == Ok(Str(ps[i].key)) && Convert(es[i].val) == Ok(ps[i].val)
  {
    seq(|es|, i requires 0 <= i < |es| && IsStringResult(Convert(es[i].key)) && Convert(es[i].val).Ok? =>
                 Pair(Convert(es[i].key).value.s, Convert(es[i].val).value))
  }

  /**
   * The values the function accepts without panicking: every key of every
   * `map[interface{}]interface{}` reached is a `[]byte` or a `string`.
   */
  predicate Convertible(v: Value)
    decreases v
  {
    match v
    case AnyMap(es) =>
      forall i :: 0 <= i < |es| ==>
        (es[i].key.Bytes? || es[i].key.Str?) && Convertible(es[i].val)
    case List(xs) => forall i :: 0 <= i < |xs| ==> Convertible(xs[i])
    case _ => true
  }

  /**
   * Only a string-typed result passes the assertion: a key converts to a
   * string iff it is `[]byte` or `string`. Go map keys must be comparable and
   * a slice is not, so a `[]byte` key cannot occur in a real map: for the
   * program only the `string` half describes an input.
   */
  lemma KeyConvertsToString(k: Value)
    ensures IsStringResult(Convert(k)) <==> k.Bytes? || k.Str?
  {
  }

  /** The conversion succeeds exactly on the convertible values. */
  lemma {:induction false} ConvertOkIff(v: Value)
    ensures Convert(v).Ok? <==> Convertible(v)
    decreases v
  {
    match v
    case AnyMap(es) =>
      ConvertEntriesOk([], es);
      forall i | 0 <= i < |es|
        ensures Convert(es[i].val).Ok? <==> Convertible(es[i].val)
        ensures IsStringResult(Convert(es[i].key)) <==> es[i].key.Bytes? || es[i].key.Str?
      {
        ConvertOkIff(es[i].val);
        KeyConvertsToString(es[i].key);
      }
    case List(xs) =>
      ConvertItemsPointwise(xs);
      forall i | 0 <= i < |xs|
        ensures Convert(xs[i]).Ok? <==> Convertible(xs[i])
      {
        ConvertOkIff(xs[i]);
      }
    case _ =>
  }

  /**
   * `k` is a key of some `map[interface{}]interface{}` the conversion walks:
   * through map keys and values and list items, not into a
   * `map[string]interface{}`.
   */
  predicate Reaches(v: Value, k: Value)
    decreases v
  {
    match v
    case AnyMap(es) =>
      exists i :: 0 <= i < |es| && (es[i].key == k || Reaches(es[i].key, k) || Reaches(es[i].val, k))
    case List(xs) => exists i :: 0 <= i < |xs| && Reaches(xs[i], k)
    case _ => false
  }

  /** A key of another type, reached after every earlier entry converted, makes the whole conversion panic on that key. */
  lemma NonStringKeyPanics(es: seq<Pair<Value, Value>>, i: nat)
    requires i < |es|
    requires !es[i].key.Bytes? && !es[i].key.Str?
    ensures Convert(AnyMap(es)).Err?
    ensures (forall j :: 0 <= j < i ==> IsStringResult(Convert(es[j].key)) && Convert(es[j].val).Ok?)
            && Convert(es[i].key).Ok?
            ==> Convert(AnyMap(es)) == Err(KeyNotString(es[i].key))
  {
    KeyConvertsToString(es[i].key);
    ConvertEntriesOk([], es);
    if (forall j :: 0 <= j < i ==> IsStringResult(Convert(es[j].key)) && Convert(es[j].val).Ok?)
       && Convert(es[i].key).Ok? {
      FirstPanic([], es, i);
    }
  }

  /** The walk stops at the first entry whose key does not convert to a string, with that key. */
  lemma {:induction false} FirstPanic(acc: seq<Pair<string, Value>>, es: seq<Pair<Value, Value>>, i: nat)
    requires i < |es|
    requires forall j :: 0 <= j < i ==> IsStringResult(Convert(es[j].key)) && Convert(es[j].val).Ok?
    requires Convert(es[i].key).Ok? && !Convert(es[i].key).value.Str?
    ensures ConvertEntries(acc, es) == Err(KeyNotString(es[i].key))
    decreases i
  {
    if i > 0 {
      var k := Convert(es[0].key);
      var w := Convert(es[0].val);
      assert forall j :: 0 <= j < i - 1 ==> es[1..][j] == es[j + 1];
      FirstPanic(Assign(acc, k.value.s, w.value), es[1..], i - 1);
    }
  }

  /** A panic names a key the walk reaches, and that key is neither a `[]byte` nor a `string`. */
  lemma {:induction false} ConvertPanic(v: Value)
    ensures Convert(v).Err? ==>
      && Reaches(v, Convert(v).error.key)
      && !Convert(v).error.key.Bytes? && !Convert(v).error.key.Str?
    decreases v
  {
    match v
    case AnyMap(es) => ConvertEntriesPanic([], es);
    case List(xs) => ConvertItemsPanic(xs);
    case _ =>
  }

  lemma {:induction false} ConvertEntriesPanic(acc: seq<Pair<string, Value>>, es: seq<Pair<Value, Value>>)
    ensures ConvertEntries(acc, es).Err? ==>
      && Reaches(AnyMap(es), ConvertEntries(acc, es).error.key)
      && !ConvertEntries(acc, es).error.key.Bytes? && !ConvertEntries(acc, es).error.key.Str?
    decreases es
  {
    if |es| > 0 {
      var p := ConvertPair(es[0]);
      var err := ConvertEntries(acc, es);
      if p.Err? {
        ConvertPairPanic(es[0]);
        assert err == Err(p.error);
        assert 0 < |es| && (es[0].key == p.error.key || Reaches(es[0].key, p.error.key) || Reaches(es[0].val, p.error.key));
      } else {
        var rest := es[1..];
        ConvertEntriesPanic(Assign(acc, p.value.key, p.value.val), rest);
        if err.Err? {
          var key := err.error.key;
          var j :| 0 <= j < |rest| && (rest[j].key == key || Reaches(rest[j].key, key) || Reaches(rest[j].val, key));
          assert es[j + 1] == rest[j];
        }
      }
    }
  }

  lemma {:induction false} ConvertPairPanic(e: Pair<Value, Value>)
    ensures ConvertPair(e).Err? ==>
      && (e.key == ConvertPair(e).error.key || Reaches(e.key, ConvertPair(e).error.key) || Reaches(e.val, ConvertPair(e).error.key))
      && !ConvertPair(e).error.key.Bytes? && !ConvertPair(e).error.key.Str?
    decreases e
  {
    ConvertPanic(e.key);
    ConvertPanic(e.val);
    KeyConvertsToString(e.key);
  }

  lemma {:induction false} ConvertItemsPanic(xs: seq<Value>)
    ensures ConvertItems(xs).Err? ==>
      && Reaches(List(xs), ConvertItems(xs).error.key)
      && !ConvertItems(xs).error.key.Bytes? && !ConvertItems(xs).error.key.Str?
    decreases xs
  {
    if |xs| > 0 {
      var err := ConvertItems(xs);
      if Convert(xs[0]).Err? {
        ConvertPanic(xs[0]);
        assert err == Err(Convert(xs[0]).error);
        assert 0 < |xs| && Reaches(xs[0], err.error.key);
      } else {
        var rest := xs[1..];
        ConvertItemsPanic(rest);
        if err.Err? {
          var key := err.error.key;
          var j :| 0 <= j < |rest| && Reaches(rest[j], key);
          assert xs[j + 1] == rest[j];
        }
      }
    }
  }

  /** The shape of a successful result: no `[]byte` and no `map[interface{}]interface{}` outside a `map[string]interface{}`. */
  predicate Normal(v: Value)
    decreases v
  {
    match v
    case Bytes(_) => false
    case AnyMap(_) => false
    case List(xs) => forall i :: 0 <= i < |xs| ==> Normal(xs[i])
    case _ => true
  }

  lemma {:induction false} ConvertIsNormal(v: Value)
    requires Convert(v).Ok?
    ensures Normal(Convert(v).value)
    decreases v
  {
    match v
    case List(xs) =>
      ConvertItemsPointwise(xs);
      forall i | 0 <= i < |xs|
        ensures Normal(Convert(v).value.items[i])
      {
        ConvertIsNormal(xs[i]);
      }
    case _ =>
  }

  lemma {:induction false} ConvertFixesNormal(v: Value)
    requires Normal(v)
    ensures Convert(v) == Ok(v)
    decreases v
  {
    match v
    case List(xs) =>
      forall i | 0 <= i < |xs|
        ensures Convert(xs[i]) == Ok(xs[i])
      {
        ConvertFixesNormal(xs[i]);
      }
      ConvertItemsPointwise(xs);
      assert ConvertItems(xs).value == xs;
    case _ =>
  }

  /** Converting a converted value succeeds and changes nothing. */
  lemma ConvertIdempotent(v: Value)
    requires Convert(v).Ok?
    ensures Convert(Convert(v).value) == Convert(v)
  {
    ConvertIsNormal(v);
    ConvertFixesNormal(Convert(v).value);
  }

  /**
   * A `map[string]interface{}` is not walked: `[]byte` values inside it stay
   * bytes.
   */
  lemma StrMapIsShallow(k: string, b: seq<byte>)
    ensures Convert(StrMap([Pair(k, Bytes(b))])) == Ok(StrMap([Pair(k, Bytes(b))]))
    ensures !Normal(Bytes(b))
  {
  }

  /** When no two keys convert to the same string, the rebuilt map has one field per entry, in range order. */
  lemma ConvertAnyMapKeepsCount(es: seq<Pair<Value, Value>>)
    requires Convert(AnyMap(es)).Ok?
    requires forall i, j :: 0 <= i < j < |es| ==> Convert(es[i].key) != Convert(es[j].key)
    ensures |Convert(AnyMap(es)).value.fields| == |es|
    ensures forall i :: 0 <= i < |es| ==>
      && Convert(es[i].key) == Ok(Str(Convert(AnyMap(es)).value.fields[i].key))
      && Convert(es[i].val) == Ok(Convert(AnyMap(es)).value.fields[i].val)
  {
    ConvertEntriesOk([], es);
    ConvertEntriesAssigns([], es);
    var ps := StringPairs(es);
    assert [] + ps == ps;
    AssignAllFresh([], ps);
  }

  /** The entry name as the listing reads it: a Go string passes through unchanged. */
  lemma ConvertName(name: string)
    ensures Convert(Str(name)) == Ok(Str(name))
    ensures Convert(Str(name)).value.s == name
  {
  }
}
