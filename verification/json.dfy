/**
 * The JSON values the views hand to `jsonify`, and Python dictionaries as
 * insertion-ordered key/value sequences.
 */
module Json {
  import opened Wrappers
  import opened Seqs

  datatype Json =
    | JNull
    | JBool(b: bool)
    | JInt(i: int)
    | JStr(s: string)
    | JArray(elems: seq<Json>)
    | JObject(fields: seq<(string, Json)>)

  /** Python truthiness of the value that serialises to `j`. */
  predicate Truthy(j: Json) {
    match j
    case JNull => false
    case JBool(b) => b
    case JInt(i) => i != 0
    case JStr(s) => |s| > 0
    case JArray(es) => |es| > 0
    case JObject(fs) => |fs| > 0
  }

  /** The keys of a dictionary, in insertion order. */
  function Keys(fields: seq<(string, Json)>): (ks: seq<string>)
    ensures |ks| == |fields|
    ensures forall i :: 0 <= i < |fields| ==> ks[i] == fields[i].0
  {
    seq(|fields|, i requires 0 <= i < |fields| => fields[i].0)
  }

  /** No key occurs twice, as in every dictionary Python builds. */
  predicate DistinctKeys(fields: seq<(string, Json)>) {
    Distinct(Keys(fields))
  }

  /** `d.get(key)`: the value stored under `key`, if any. */
  function Get(fields: seq<(string, Json)>, key: string): (r: Option<Json>)
    ensures r.None? <==> key !in Keys(fields)
    ensures r.Some? ==> (key, r.value) in fields
  {
    if fields == [] then None
    else if fields[0].0 == key then Some(fields[0].1)
    else Get(fields[1..], key)
  }

  /** With distinct keys, a lookup finds the value stored at the key's position. */
  lemma {:induction false} GetAt(fields: seq<(string, Json)>, i: int)
    requires DistinctKeys(fields) && 0 <= i < |fields|
    ensures Get(fields, fields[i].0) == Some(fields[i].1)
  {
    if i > 0 {
      assert DistinctKeys(fields[1..]);
      GetAt(fields[1..], i - 1);
    }
  }

  /** Field lookup on a JSON value; anything but an object has no fields. */
  function Field(j: Json, key: string): Option<Json> {
    if j.JObject? then Get(j.fields, key) else None
  }

  /** Looking up a key in a dictionary that starts with `p`. */
  lemma GetCons(p: (string, Json), rest: seq<(string, Json)>, k: string)
    ensures Get([p] + rest, k) == if p.0 == k then Some(p.1) else Get(rest, k)
    ensures Keys([p] + rest) == [p.0] + Keys(rest)
  {
    var fields := [p] + rest;
    assert fields[0] == p;
    assert fields[1..] == rest;
    KeysCons(p, rest);
  }

  lemma KeysCons(p: (string, Json), rest: seq<(string, Json)>)
    ensures Keys([p] + rest) == [p.0] + Keys(rest)
  {
    var a, b := Keys([p] + rest), [p.0] + Keys(rest);
    assert |a| == |b|;
    forall i | 0 <= i < |a| ensures a[i] == b[i] {
      if i > 0 {
        assert ([p] + rest)[i] == rest[i - 1];
      }
    }
  }

  /** What `Set` promises of `r`, as an update of `fields` at `key`. */
  ghost predicate IsUpdate(fields: seq<(string, Json)>, key: string, value: Json, r: seq<(string, Json)>) {
    && Get(r, key) == Some(value)
    && (forall k :: k != key ==> Get(r, k) == Get(fields, k))
    && (key in Keys(fields) ==> Keys(r) == Keys(fields))
    && (key !in Keys(fields) ==> Keys(r) == Keys(fields) + [key] && r == fields + [(key, value)])
  }

  /** Overwriting the first entry is an update at its key. */
  lemma ReplaceFirst(fields: seq<(string, Json)>, key: string, value: Json)
    requires fields != [] && fields[0].0 == key
    ensures IsUpdate(fields, key, value, [(key, value)] + fields[1..])
  {
    var r := [(key, value)] + fields[1..];
    assert fields == [fields[0]] + fields[1..];
    GetCons((key, value), fields[1..], key);
    GetCons(fields[0], fields[1..], key);
    forall k | k != key
      ensures Get(r, k) == Get(fields, k)
    {
      GetCons((key, value), fields[1..], k);
      GetCons(fields[0], fields[1..], k);
    }
  }

  /** Lookups other than `key` see through an entry added in front of both. */
  lemma LookupsBehind(first: (string, Json), tail: seq<(string, Json)>, key: string,
                      rest: seq<(string, Json)>)
    requires forall k :: k != key ==> Get(rest, k) == Get(tail, k)
    ensures forall k :: k != key ==> Get([first] + rest, k) == Get([first] + tail, k)
  {
    forall k | k != key
      ensures Get([first] + rest, k) == Get([first] + tail, k)
    {
      GetCons(first, rest, k);
      GetCons(first, tail, k);
    }
  }

  /** Appending behind an entry with another key. */
  lemma AppendBehind(first: (string, Json), tail: seq<(string, Json)>, key: string, value: Json,
                     rest: seq<(string, Json)>)
    requires first.0 != key && key !in Keys(tail)
    requires Keys(rest) == Keys(tail) + [key] && rest == tail + [(key, value)]
    ensures key !in Keys([first] + tail)
    ensures Keys([first] + rest) == Keys([first] + tail) + [key]
    ensures [first] + rest == [first] + tail + [(key, value)]
  {
    KeysCons(first, rest);
    KeysCons(first, tail);
    var kt := Keys(tail);
    assert key !in [first.0] + kt;
    assert [first.0] + (kt + [key]) == ([first.0] + kt) + [key];
    assert [first] + (tail + [(key, value)]) == ([first] + tail) + [(key, value)];
  }

  /** An update of the tail, behind an entry with another key, is an update of the whole. */
  lemma UpdateBehind(first: (string, Json), tail: seq<(string, Json)>, key: string, value: Json,
                     rest: seq<(string, Json)>)
    requires first.0 != key && IsUpdate(tail, key, value, rest)
    ensures IsUpdate([first] + tail, key, value, [first] + rest)
  {
    GetCons(first, rest, key);
    GetCons(first, tail, key);
    LookupsBehind(first, tail, key, rest);
    if key !in Keys(tail) {
      AppendBehind(first, tail, key, value, rest);
    }
  }

  /**
   * `d[key] = value` on a Python dict: an existing key keeps its position and
   * takes the new value, a new key is appended at the end.
   */
  function Set(fields: seq<(string, Json)>, key: string, value: Json): (r: seq<(string, Json)>)
    ensures Get(r, key) == Some(value)
    ensures forall k :: k != key ==> Get(r, k) == Get(fields, k)
    ensures key in Keys(fields) ==> Keys(r) == Keys(fields)
    ensures key !in Keys(fields) ==> Keys(r) == Keys(fields) + [key]
    ensures key !in Keys(fields) ==> r == fields + [(key, value)]
  {
    if fields == [] then
      GetCons((key, value), [], key);
      [(key, value)]
    else if fields[0].0 == key then
      ReplaceFirst(fields, key, value);
      [(key, value)] + fields[1..]
    else
      var rest := Set(fields[1..], key, value);
      assert fields == [fields[0]] + fields[1..];
      UpdateBehind(fields[0], fields[1..], key, value, rest);
      [fields[0]] + rest
  }

  /** Python's `None` or an integer. */
  function FromOption(o: Option<int>): (j: Json)
    ensures o.None? <==> j == JNull
    ensures o.Some? ==> j == JInt(o.value)
  {
    match o
    case None => JNull
    case Some(n) => JInt(n)
  }
}
