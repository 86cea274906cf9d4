/** An abstract JSON value, standing for `serde_json::Value` once a document
    has been decoded. Decoding itself is not modelled: collectors receive
    either the decoded value or `None` (file absent, unreadable or not JSON). */
module Json {
  import opened Common

  /** A JSON number. Integers are kept exactly (as `serde_json` does for
      values that fit 64 bits); any other number is an opaque token. */
  datatype Number = UInt(u: nat) | NegInt(i: int) | Float(literal: string)

  /** Object members keep the order in which `serde_json` iterates them; keys
      are distinct, as decoding produces them. */
  datatype Value =
    | Null
    | Bool(b: bool)
    | Num(n: Number)
    | Str(s: string)
    | Array(items: seq<Value>)
    | Object(members: seq<(string, Value)>)

  const U64Limit: nat := 0x1_0000_0000_0000_0000

  function Member(members: seq<(string, Value)>, key: string): (r: Option<Value>)
    ensures r.Some? ==> exists i :: 0 <= i < |members| && members[i] == (key, r.value)
    ensures r.None? ==> forall i :: 0 <= i < |members| ==> members[i].0 != key
  {
    if |members| == 0 then None
    else if members[0].0 == key then Some(members[0].1)
    else
      var r := Member(members[1..], key);
      assert forall i :: 1 <= i < |members| ==> members[i] == members[1..][i - 1];
      r
  }

  /** `Value::get(key)`: a member of an object; `None` for any other value. */
  function Get(v: Value, key: string): Option<Value> {
    if v.Object? then Member(v.members, key) else None
  }

  /** `Option<&Value>::and_then(f)` for the accessors below. */
  function GetIn(v: Option<Value>, key: string): Option<Value> {
    if v.Some? then Get(v.value, key) else None
  }

  function AsBool(v: Option<Value>): Option<bool> {
    if v.Some? && v.value.Bool? then Some(v.value.b) else None
  }

  function AsStr(v: Option<Value>): Option<string> {
    if v.Some? && v.value.Str? then Some(v.value.s) else None
  }

  function AsArray(v: Option<Value>): Option<seq<Value>> {
    if v.Some? && v.value.Array? then Some(v.value.items) else None
  }

  function AsObject(v: Option<Value>): Option<seq<(string, Value)>> {
    if v.Some? && v.value.Object? then Some(v.value.members) else None
  }

  /** `as_f64`: every JSON number has a floating-point reading. */
  function AsF64(v: Option<Value>): Option<Number> {
    if v.Some? && v.value.Num? then Some(v.value.n) else None
  }

  /** `as_u64`: only non-negative integers that fit in 64 bits. */
  function AsU64(v: Option<Value>): Option<nat> {
    if v.Some? && v.value.Num? && v.value.n.UInt? && v.value.n.u < U64Limit then Some(v.value.n.u)
    else None
  }
}
