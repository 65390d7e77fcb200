/** JSON values as Python's `json.loads` hands them to the program, and the
    few Python operations the program applies to them: subscripting a dict,
    assigning a key, truthiness, iteration and numeric use. */
module JsonValue {
  import opened Wrappers

  /** A dict is an ordered list of members, because Python dicts keep their
      keys in insertion order. */
  datatype Json =
    | Null
    | Bool(b: bool)
    | Number(n: real)
    | Str(s: string)
    | Array(items: seq<Json>)
    | Object(members: seq<(string, Json)>)

  /** The keys of a dict, in order. */
  function Keys(ms: seq<(string, Json)>): (ks: seq<string>)
    ensures |ks| == |ms|
    ensures forall i :: 0 <= i < |ms| ==> ks[i] == ms[i].0
  {
    if ms == [] then [] else [ms[0].0] + Keys(ms[1..])
  }

  /** `d[k]`: the value of the first member named `k`, or `None` (a
      KeyError). */
  function Lookup(ms: seq<(string, Json)>, k: string): Option<Json>
  {
    if ms == [] then None
    else if ms[0].0 == k then Some(ms[0].1)
    else Lookup(ms[1..], k)
  }

  /** A key is found exactly when it is one of the dict's keys, and what is
      found is the value of a member with that key. */
  lemma {:induction false} LookupKeys(ms: seq<(string, Json)>, k: string)
    ensures Lookup(ms, k).None? <==> k !in Keys(ms)
    ensures Lookup(ms, k).Some? ==> (k, Lookup(ms, k).value) in ms
  {
    if ms != [] && ms[0].0 != k {
      LookupKeys(ms[1..], k);
      assert Keys(ms) == [ms[0].0] + Keys(ms[1..]);
    }
  }

  /** `d[k] = v`: an existing member keeps its place and takes the new value;
      a new key is appended. */
  function Put(ms: seq<(string, Json)>, k: string, v: Json): (r: seq<(string, Json)>)
    ensures Lookup(r, k) == Some(v)
    ensures forall k' :: k' != k ==> Lookup(r, k') == Lookup(ms, k')
  {
    if ms == [] then [(k, v)]
    else if ms[0].0 == k then
      var r := [(k, v)] + ms[1..];
      assert r[1..] == ms[1..];
      r
    else
      var rest := Put(ms[1..], k, v);
      var r := [ms[0]] + rest;
      assert r[1..] == rest;
      r
  }

  /** Assigning a key keeps the order of the keys, appending a new one. */
  lemma {:induction false} PutKeys(ms: seq<(string, Json)>, k: string, v: Json)
    ensures Keys(Put(ms, k, v)) == if k in Keys(ms) then Keys(ms) else Keys(ms) + [k]
  {
    if ms != [] {
      assert Keys(ms) == [ms[0].0] + Keys(ms[1..]);
      if ms[0].0 != k {
        PutKeys(ms[1..], k, v);
        var r := Put(ms, k, v);
        assert r == [ms[0]] + Put(ms[1..], k, v);
        assert Keys(r) == [ms[0].0] + Keys(Put(ms[1..], k, v));
      } else {
        assert Keys(Put(ms, k, v)) == [k] + Keys(ms[1..]);
      }
    }
  }

  /** Assigning a key the value it already has changes nothing. */
  lemma {:induction false} PutSame(ms: seq<(string, Json)>, k: string, v: Json)
    requires Lookup(ms, k) == Some(v)
    ensures Put(ms, k, v) == ms
  {
    if ms[0].0 != k {
      PutSame(ms[1..], k, v);
    }
  }

  /** `item[k]` on any value: `None` when `item` is not a dict (a TypeError)
      or has no key `k` (a KeyError). */
  function Get(item: Json, k: string): (r: Option<Json>)
    ensures r.Some? ==> item.Object?
  {
    if item.Object? then Lookup(item.members, k) else None
  }

  /** `d.get(k, [])` on a dict. */
  function GetOrEmpty(d: Json, k: string): (r: Json)
    requires d.Object?
    ensures Lookup(d.members, k).None? ==> r == Array([])
    ensures Lookup(d.members, k).Some? ==> (k, r) in d.members
  {
    LookupKeys(d.members, k);
    match Lookup(d.members, k)
    case Some(v) => v
    case None => Array([])
  }

  /** `not v` in Python: null, false, zero and empty containers are false. */
  predicate Falsy(v: Json) {
    match v
    case Null => true
    case Bool(b) => !b
    case Number(n) => n == 0.0
    case Str(s) => s == []
    case Array(xs) => xs == []
    case Object(ms) => ms == []
  }

  /** What `for x in v` visits: a list's elements, a string's one-character
      strings, a dict's keys; `None` for a value that is not iterable (a
      TypeError). */
  function Iterate(v: Json): (r: Option<seq<Json>>)
    ensures r.Some? <==> v.Array? || v.Str? || v.Object?
    ensures v.Array? ==> r == Some(v.items)
    ensures r.Some? && !v.Array? ==> forall i :: 0 <= i < |r.value| ==> r.value[i].Str?
    ensures r.Some? ==> (r.value == [] <==> Falsy(v))
  {
    match v
    case Array(xs) => Some(xs)
    case Str(s) => Some(seq(|s|, i requires 0 <= i < |s| => Str([s[i]])))
    case Object(ms) => Some(seq(|ms|, i requires 0 <= i < |ms| => Str(ms[i].0)))
    case _ => None
  }

  /** The value a JSON scalar has in Python arithmetic and `:.2f` formatting:
      numbers as they are, booleans as 0 and 1 (bool is a subclass of int);
      `None` for anything else (a TypeError or ValueError). */
  function AsNumber(v: Json): (r: Option<real>)
    ensures r.Some? <==> v.Number? || v.Bool?
    ensures v.Number? ==> r == Some(v.n)
    ensures v.Bool? ==> r == Some(if v.b then 1.0 else 0.0)
  {
    match v
    case Number(n) => Some(n)
    case Bool(b) => Some(if b then 1.0 else 0.0)
    case _ => None
  }

  /** `item[k]` used as a number. */
  function NumberField(item: Json, k: string): Option<real>
  {
    match Get(item, k)
    case Some(v) => AsNumber(v)
    case None => None
  }

  /** `item[k]` succeeds exactly on a dict that has the key `k`, and yields
      the value of a member named `k`. */
  lemma GetKeys(item: Json, k: string)
    ensures Get(item, k).Some? <==> item.Object? && k in Keys(item.members)
    ensures Get(item, k).Some? ==> (k, Get(item, k).value) in item.members
  {
    if item.Object? {
      LookupKeys(item.members, k);
    }
  }

  /** A value found that Python arithmetic accepts. */
  predicate IsNumeric(o: Option<Json>) {
    o.Some? && (o.value.Number? || o.value.Bool?)
  }

  /** `item[k]` used as a number succeeds exactly on a dict that has the key
      `k` with a number or a boolean under it, and then it is that number, or
      0 or 1. */
  lemma NumberFieldIff(item: Json, k: string)
    ensures NumberField(item, k).Some? <==>
      item.Object? && k in Keys(item.members) && IsNumeric(Lookup(item.members, k))
    ensures NumberField(item, k).Some? ==>
      (k, Number(NumberField(item, k).value)) in item.members ||
      (k, Bool(NumberField(item, k).value == 1.0)) in item.members
  {
    GetKeys(item, k);
  }
}
