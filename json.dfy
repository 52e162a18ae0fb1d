/** JavaScript values as they reach the zone store: parsed from JSON (the
    backing document, a request body) or built by the handlers. Only the parts
    of the language's semantics that the handlers use are modelled: truthiness,
    the `||` operator, property reads and object spread. */
module Json {
  import opened Decimal

  datatype Option<+T> = None | Some(value: T)

  /** A JavaScript value. Numbers are reals: no handler does arithmetic on
      them, and the NaN and infinities that JSON text cannot spell are left
      out (a literal too large for a double, which `JSON.parse` reads as an
      infinity, is taken at its exact value). */
  datatype JsValue =
    | Undefined
    | Null
    | Bool(b: bool)
    | Num(value: real)
    | Str(text: string)
    | Arr(items: seq<JsValue>)
    | Obj(fields: JsObject)

  /** A plain object: its own enumerable properties. */
  type JsObject = map<string, JsValue>

  /** ToBoolean: `undefined`, `null`, `false`, `0` and `""` are falsy;
      every array and object, even an empty one, is truthy. */
  predicate Truthy(v: JsValue)
    ensures Truthy(v) <==> !(v == Undefined || v == Null || v == Bool(false) || v == Num(0.0) || v == Str(""))
  {
    match v
    case Undefined => false
    case Null => false
    case Bool(b) => b
    case Num(x) => x != 0.0
    case Str(s) => s != ""
    case Arr(_) => true
    case Obj(_) => true
  }

  /** `a || b`: the first operand when it is truthy, the second otherwise. */
  function Or(a: JsValue, b: JsValue): (r: JsValue)
    ensures Truthy(a) ==> r == a
    ensures !Truthy(a) ==> r == b
    ensures Truthy(r) <==> Truthy(a) || Truthy(b)
  {
    if Truthy(a) then a else b
  }

  /** `o.k` on a plain object: `undefined` when the property is missing. */
  function Get(o: JsObject, k: string): JsValue {
    if k in o then o[k] else Undefined
  }

  /** `v.k` (equally `v?.k`) where `v` may be any value that is not
      `null`/`undefined` or is guarded by `?.`: only an object has the
      properties read here, every other value yields `undefined`. */
  function Prop(v: JsValue, k: string): (r: JsValue)
    ensures v.Obj? && k in v.fields ==> r == v.fields[k]
    ensures !(v.Obj? && k in v.fields) ==> r == Undefined
  {
    if v.Obj? then Get(v.fields, k) else Undefined
  }

  /** The own properties that `{...v}` copies: an object's fields, an array's
      elements or a string's characters under their decimal indices, and
      nothing for `null`, `undefined`, booleans and numbers. */
  function Spread(v: JsValue): (o: JsObject)
    ensures v.Obj? ==> o == v.fields
    ensures v.Arr? ==> IsIndexed(o, v.items)
    ensures v.Str? ==> IsIndexed(o, seq(|v.text|, i requires 0 <= i < |v.text| => Str([v.text[i]])))
    ensures !v.Obj? && !v.Arr? && !v.Str? ==> o == map[]
  {
    match v
    case Obj(fields) => fields
    case Arr(items) => Indexed(items)
    case Str(s) =>
      var chars := seq(|s|, i requires 0 <= i < |s| => Str([s[i]]));
      Indexed(chars)
    case _ => map[]
  }

  /** `o` holds exactly `items[i]` under the key `"i"` for every index `i`. */
  ghost predicate IsIndexed(o: JsObject, items: seq<JsValue>) {
    && |o| == |items|
    && (forall i :: 0 <= i < |items| ==> NatToString(i) in o && o[NatToString(i)] == items[i])
    && (forall k :: k in o ==> exists i :: 0 <= i < |items| && k == NatToString(i))
  }

  /** The array-like object with `items` under the keys "0", "1", ... */
  function Indexed(items: seq<JsValue>): (o: JsObject)
    ensures IsIndexed(o, items)
    decreases |items|
  {
    if items == [] then map[]
    else
      var n := |items| - 1;
      var prefix := Indexed(items[..n]);
      IndexedAppend(prefix, items);
      prefix[NatToString(n) := items[n]]
  }

  /** Adding the last element under its index extends an indexed object. */
  lemma IndexedAppend(prefix: JsObject, items: seq<JsValue>)
    requires |items| >= 1 && IsIndexed(prefix, items[..|items| - 1])
    ensures IsIndexed(prefix[NatToString(|items| - 1) := items[|items| - 1]], items)
  {
    var n := |items| - 1;
    var key := NatToString(n);
    var o := prefix[key := items[n]];
    assert |o| == |prefix| + 1;
    forall i | 0 <= i < |items|
      ensures NatToString(i) in o && o[NatToString(i)] == items[i]
    {
      if i < n {
        assert items[..n][i] == items[i];
      }
    }
    forall k | k in o
      ensures exists i :: 0 <= i < |items| && k == NatToString(i)
    {
      if k != key {
        var i :| 0 <= i < n && k == NatToString(i);
      }
    }
  }
}
