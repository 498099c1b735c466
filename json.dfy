/**
 * JSON values as both the Flask middleware and the browser parser see them.
 * Numbers are integers only (floating point is not modelled).
 */
module Json {
  import opened Wrappers

  datatype Value =
    | Null
    | Str(s: string)
    | Int(i: int)
    | Bool(b: bool)
    | Arr(items: seq<Value>)
    | Obj(fields: map<string, Value>)

  /** A JavaScript object's own properties in property order (what
      `Object.entries` enumerates): insertion order, integer-like keys aside.
      The keys are assumed distinct, as an object's are. */
  type Entries = seq<(string, Value)>

  /** No key occurs twice, as in every JavaScript object. */
  predicate DistinctKeys(o: Entries) {
    forall i, j :: 0 <= i < j < |o| ==> o[i].0 != o[j].0
  }

  /** `key in obj` */
  predicate HasKey(o: Entries, key: string) {
    exists i :: 0 <= i < |o| && o[i].0 == key
  }

  /** `obj[key]`, where None is `undefined`. */
  function Get(o: Entries, key: string): (r: Option<Value>)
    ensures r.None? <==> !HasKey(o, key)
    ensures r.Some? ==> exists i :: 0 <= i < |o| && o[i] == (key, r.value)
    // the first entry under the key, so with distinct keys the one stored
    ensures forall i :: 0 <= i < |o| && o[i].0 == key && (forall j :: 0 <= j < i ==> o[j].0 != key) ==> r == Some(o[i].1)
  {
    if |o| == 0 then None
    else if o[0].0 == key then Some(o[0].1)
    else
      var r := Get(o[1..], key);
      assert forall i :: 0 <= i < |o| - 1 ==> o[1..][i] == o[i + 1];
      assert HasKey(o[1..], key) ==> HasKey(o, key);
      assert HasKey(o, key) && o[0].0 != key ==> HasKey(o[1..], key) by {
        if HasKey(o, key) && o[0].0 != key {
          var i :| 0 <= i < |o| && o[i].0 == key;
          assert o[1..][i - 1].0 == key;
        }
      }
      r
  }

  /** In an object, reading a key yields the value stored under it. */
  lemma GetStored(o: Entries, i: int)
    requires DistinctKeys(o) && 0 <= i < |o|
    ensures Get(o, o[i].0) == Some(o[i].1)
  {
  }

  // ---------------------------------------------------------------------
  // Python semantics of values

  /** `isinstance(v, (int, float))`: in Python a bool is an int. */
  predicate PyIsNumber(v: Value) {
    v.Int? || v.Bool?
  }

  /** The numeric value of an int or a bool (True == 1, False == 0). */
  function PyNumber(v: Value): int
    requires PyIsNumber(v)
  {
    if v.Int? then v.i else if v.b then 1 else 0
  }

  /** Python `==` on JSON-decoded values: bools compare equal to the ints 1 and 0,
      lists element by element, dicts key by key. */
  predicate PyEq(a: Value, b: Value)
    decreases a
  {
    match a
    case Int(_) | Bool(_) => PyIsNumber(b) && PyNumber(a) == PyNumber(b)
    case Arr(xs) => b.Arr? && |xs| == |b.items| && forall i :: 0 <= i < |xs| ==> PyEq(xs[i], b.items[i])
    case Obj(f) => b.Obj? && f.Keys == b.fields.Keys && forall k :: k in f ==> PyEq(f[k], b.fields[k])
    case _ => a == b
  }

  /** `v in xs` on a Python list. */
  predicate PyIn(v: Value, xs: seq<Value>) {
    |xs| > 0 && (PyEq(v, xs[0]) || PyIn(v, xs[1..]))
  }

  // ---------------------------------------------------------------------
  // JavaScript semantics of values

  /** Decimal rendering of a natural number, most significant digit first. */
  function NatToString(n: nat): (r: string)
    ensures |r| > 0
    ensures forall i :: 0 <= i < |r| ==> '0' <= r[i] <= '9'
  {
    var d := ['0', '1', '2', '3', '4', '5', '6', '7', '8', '9'][n % 10];
    if n < 10 then [d] else NatToString(n / 10) + [d]
  }

  /** The number a string of decimal digits denotes. */
  function DigitsValue(s: string): nat
    requires forall i :: 0 <= i < |s| ==> '0' <= s[i] <= '9'
  {
    if |s| == 0 then 0 else DigitsValue(s[..|s| - 1]) * 10 + (s[|s| - 1] as int - '0' as int)
  }

  /** The rendering reads back as `n`, and has no leading zero. */
  lemma {:induction false} NatToStringRoundTrip(n: nat)
    ensures DigitsValue(NatToString(n)) == n
    ensures NatToString(n)[0] == '0' ==> n == 0
  {
    var r := NatToString(n);
    if n >= 10 {
      NatToStringRoundTrip(n / 10);
      assert r[..|r| - 1] == NatToString(n / 10);
    }
  }

  function IntToString(i: int): string {
    if i < 0 then "-" + NatToString(-i) else NatToString(i)
  }

  /** `String(v)`: the coercion `RegExp.prototype.test` and `URLSearchParams.append`
      apply to a non-string value. */
  function JsToString(v: Value): string
    decreases v, 1
  {
    match v
    case Null => "null"
    case Str(s) => s
    case Int(i) => IntToString(i)
    case Bool(b) => if b then "true" else "false"
    case Arr(xs) => JsJoin(xs)
    case Obj(_) => "[object Object]"
  }

  /** `Array.prototype.join(",")`, which renders null elements as the empty string. */
  function JsJoin(xs: seq<Value>): string
    decreases xs, 0
  {
    if |xs| == 0 then ""
    else
      var first := if xs[0].Null? then "" else JsToString(xs[0]);
      if |xs| == 1 then first else first + "," + JsJoin(xs[1..])
  }

  /** `Array.isArray(v) ? 'array' : typeof v` for a value that is not null. */
  function JsTypeOf(v: Value): (t: string)
    requires !v.Null?
    ensures t in {"string", "number", "boolean", "array", "object"}
    ensures t == "number" <==> v.Int?
  {
    match v
    case Str(_) => "string"
    case Int(_) => "number"
    case Bool(_) => "boolean"
    case Arr(_) => "array"
    case Obj(_) => "object"
  }

  /** `Array.prototype.includes` on primitives: strict equality, so `true` is not `1`.
      Arrays and objects are compared by reference, and a parameter value is never
      the same object as an element of the manifest's enum list. */
  predicate JsIncludes(xs: seq<Value>, v: Value) {
    exists i :: 0 <= i < |xs| && !v.Arr? && !v.Obj? && xs[i] == v
  }
}
