/** Raw payload values as they arrive from the editor bridge (decoded msgpack /
    JSON), with Python's truthiness and the `isinstance` tests the decoding code
    performs on them. */
module Json {

  datatype Value =
    | JNull
    | JBool(b: bool)
    | JInt(i: int)
    | JFloat(r: real)
    | JStr(s: string)
    | JBytes(bytes: seq<bv8>)
    | JArr(elems: seq<Value>)
    | JObj(fields: map<string, Value>)

  /** Python `bool(v)`. */
  predicate Truthy(v: Value) {
    match v
    case JNull => false
    case JBool(b) => b
    case JInt(i) => i != 0
    case JFloat(r) => r != 0.0
    case JStr(s) => |s| > 0
    case JBytes(bs) => |bs| > 0
    case JArr(a) => |a| > 0
    case JObj(m) => |m| > 0
  }

  /** `_falsy`: `None`, `False`, anything equal to `0`, `""` or `b""`. */
  predicate Falsy(v: Value) {
    v == JNull || v == JBool(false) || v == JInt(0) || v == JFloat(0.0)
    || v == JStr("") || v == JBytes([])
  }

  /** `_falsy` is Python falsiness except for the empty list and the empty
      mapping, which are falsy in Python but not `_falsy`. */
  lemma FalsyIsFalsinessButContainers(v: Value)
    ensures Falsy(v) <==> !Truthy(v) && !v.JArr? && !v.JObj?
    ensures (v == JArr([]) || v == JObj(map[])) ==> !Truthy(v) && !Falsy(v)
  {
    match v
    case JStr(s) => if |s| == 0 { assert s == ""; }
    case JBytes(bs) => if |bs| == 0 { assert bs == []; }
    case _ =>
  }

  /** `isinstance(v, Mapping)`. */
  predicate IsMapping(v: Value) {
    v.JObj?
  }

  /** `isinstance(v, Sequence)`: lists, and also `str` and `bytes`. */
  predicate IsSequence(v: Value) {
    v.JArr? || v.JStr? || v.JBytes?
  }

  /** What iterating a sequence value yields: the elements of a list, the
      one-character strings of a `str`, the integers of a `bytes`. */
  function Elements(v: Value): (r: seq<Value>)
    requires IsSequence(v)
    ensures v.JArr? ==> r == v.elems
    ensures v.JStr? ==> |r| == |v.s|
    ensures v.JBytes? ==> |r| == |v.bytes|
  {
    match v
    case JArr(a) => a
    case JStr(s) => seq(|s|, i requires 0 <= i < |s| => JStr([s[i]]))
    case JBytes(bs) => seq(|bs|, i requires 0 <= i < |bs| => JInt(bs[i] as int))
  }

  /** `m.get(key)`: `None` when the key is absent or `m` is not a mapping. */
  function Get(m: Value, key: string): (r: Value)
    ensures m.JObj? && key in m.fields ==> r == m.fields[key]
    ensures !(m.JObj? && key in m.fields) ==> r == JNull
  {
    if m.JObj? && key in m.fields then m.fields[key] else JNull
  }

  /** `m.setdefault(key, v)` on a mapping: only an absent key is written. */
  function SetDefault(m: map<string, Value>, key: string, v: Value): (r: map<string, Value>)
    ensures r.Keys == m.Keys + {key}
    ensures forall k :: k in m ==> r[k] == m[k]
    ensures key !in m ==> r[key] == v
  {
    if key in m then m else m[key := v]
  }
}
