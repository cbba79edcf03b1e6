/** Decoded JSON values as the Python program sees them after `json.loads`,
    with Python's truth values and the two dict operations the classifier uses:
    `d.get(k)` and `d[k] = v`. A dict is an ordered list of (key, value) pairs,
    because Python dicts keep insertion order. */
module Json {
  import opened Python

  datatype Value =
    | Null
    | Bool(b: bool)
    | Int(i: int)
    | Float(x: real)
    | Str(s: string)
    | Array(items: seq<Value>)
    | Object(members: seq<(string, Value)>)

  /** Python's truth value (`bool(v)`) of a decoded JSON value: None, False,
      zero, the empty string, the empty list and the empty dict are false. */
  predicate Truthy(v: Value) {
    match v
    case Null => false
    case Bool(b) => b
    case Int(i) => i != 0
    case Float(x) => x != 0.0
    case Str(s) => |s| > 0
    case Array(items) => |items| > 0
    case Object(members) => |members| > 0
  }

  /** The keys of a dict, in insertion order. */
  function Keys(members: seq<(string, Value)>): (ks: seq<string>)
    ensures |ks| == |members|
    ensures forall i :: 0 <= i < |members| ==> ks[i] == members[i].0
  {
    seq(|members|, i requires 0 <= i < |members| => members[i].0)
  }

  /** Every key occurs once, as in any Python dict. */
  ghost predicate UniqueKeys(members: seq<(string, Value)>) {
    forall i, j :: 0 <= i < j < |members| ==> members[i].0 != members[j].0
  }

  /** `d.get(key)`: the value stored under `key`, or None when the key is absent. */
  function Get(members: seq<(string, Value)>, key: string): (r: Option<Value>)
    ensures r.Some? <==> key in Keys(members)
    ensures r.Some? ==> exists i :: 0 <= i < |members| && members[i] == (key, r.value)
    ensures r.Some? && UniqueKeys(members) ==>
      forall i :: 0 <= i < |members| && members[i].0 == key ==> members[i].1 == r.value
  {
    if |members| == 0 then None
    else if members[0].0 == key then Some(members[0].1)
    else
      var rest := Get(members[1..], key);
      assert Keys(members) == [members[0].0] + Keys(members[1..]);
      if rest.Some? then
        ghost var i :| 0 <= i < |members[1..]| && members[1..][i] == (key, rest.value);
        assert members[i + 1] == (key, rest.value);
        rest
      else rest
  }

  /** `d[key] = value`: overwrites the entry for `key` in place when it exists and
      appends a new entry otherwise. */
  function Set(members: seq<(string, Value)>, key: string, value: Value): (r: seq<(string, Value)>)
    ensures key in Keys(members) ==> Keys(r) == Keys(members)
    ensures key !in Keys(members) ==> Keys(r) == Keys(members) + [key]
    ensures forall i :: 0 <= i < |members| && members[i].0 != key ==> r[i] == members[i]
  {
    if |members| == 0 then [(key, value)]
    else if members[0].0 == key then [(key, value)] + members[1..]
    else
      assert Keys(members) == [members[0].0] + Keys(members[1..]);
      [members[0]] + Set(members[1..], key, value)
  }

  /** After `d[key] = value`, `d.get(key)` yields `value`. */
  lemma {:induction false} SetThenGet(members: seq<(string, Value)>, key: string, value: Value)
    ensures Get(Set(members, key, value), key) == Some(value)
  {
    if |members| > 0 && members[0].0 != key {
      SetThenGet(members[1..], key, value);
      assert Set(members, key, value)[1..] == Set(members[1..], key, value);
    }
  }

  /** `d[key] = value` leaves the value under every other key as it was. */
  lemma {:induction false} SetKeepsOtherKeys(members: seq<(string, Value)>, key: string, value: Value, other: string)
    requires other != key
    ensures Get(Set(members, key, value), other) == Get(members, other)
  {
    if |members| > 0 && members[0].0 != key && members[0].0 != other {
      SetKeepsOtherKeys(members[1..], key, value, other);
      assert Set(members, key, value)[1..] == Set(members[1..], key, value);
    }
  }

  /** `d[key] = value` keeps a dict a dict: no key is duplicated. */
  lemma SetKeepsUniqueKeys(members: seq<(string, Value)>, key: string, value: Value)
    requires UniqueKeys(members)
    ensures UniqueKeys(Set(members, key, value))
  {
  }

  /** A Python list of strings as a JSON array. */
  function Strings(xs: seq<string>): (v: Value)
    ensures v.Array? && |v.items| == |xs|
    ensures forall i :: 0 <= i < |xs| ==> v.items[i] == Str(xs[i])
  {
    Array(seq(|xs|, i requires 0 <= i < |xs| => Str(xs[i])))
  }
}
