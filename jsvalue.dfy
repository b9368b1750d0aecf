/** The JavaScript values that flow through the screens and the API helpers,
    and the coercions the source applies to them (`Boolean`, `Number`,
    `String`, `||`, `===`, `<`, `JSON.stringify`). Numbers are integers here. */
module JsValue {
  import opened Wrappers
  import Text
  import Numerals

  datatype Js =
    | Undefined
    | Null
    | Bool(b: bool)
    | Num(n: int)
    | NaN
    | Str(s: string)
    | Arr(items: seq<Js>)
    | Obj(fields: map<string, Js>)

  /** A plain object such as a game record or a request body. */
  type JsObject = map<string, Js>

  /** `o[k]`: a missing property reads as `undefined`. */
  function Get(o: JsObject, k: string): Js
  {
    if k in o then o[k] else Undefined
  }

  /** Truthiness: what `if (v)`, `!v`, `v || d` and `Boolean(v)` test. */
  predicate Truthy(v: Js)
  {
    match v
    case Undefined => false
    case Null => false
    case Bool(b) => b
    case Num(n) => n != 0
    case NaN => false
    case Str(s) => s != []
    case Arr(_) => true
    case Obj(_) => true
  }

  /** `a || b`. */
  function Or(a: Js, b: Js): (r: Js)
    ensures Truthy(a) ==> r == a
    ensures !Truthy(a) ==> r == b
  {
    if Truthy(a) then a else b
  }

  /** `String(v)`; inside an array `null` and `undefined` print as nothing. */
  function ToString(v: Js): string
  {
    match v
    case Undefined => "undefined"
    case Null => "null"
    case Bool(b) => if b then "true" else "false"
    case Num(n) => Numerals.IntToString(n)
    case NaN => "NaN"
    case Str(s) => s
    case Arr(items) =>
      Text.Join(seq(|items|, i requires 0 <= i < |items| =>
                      if items[i].Undefined? || items[i].Null? then [] else ToString(items[i])), ",")
    case Obj(_) => "[object Object]"
  }

  /** `Number(v)`: always a number, possibly NaN. */
  function ToNumber(v: Js): (r: Js)
    ensures r.Num? || r.NaN?
  {
    match v
    case Undefined => NaN
    case Null => Num(0)
    case Bool(b) => Num(if b then 1 else 0)
    case Num(_) => v
    case NaN => NaN
    case Str(s) => FromOption(Numerals.StringToNumber(s))
    case Arr(_) => FromOption(Numerals.StringToNumber(ToString(v)))
    case Obj(_) => NaN
  }

  function FromOption(o: Option<int>): (r: Js)
    ensures r.Num? || r.NaN?
  {
    match o
    case Some(n) => Num(n)
    case None => NaN
  }

  /** Converting to a number twice is converting once. */
  lemma ToNumberIdempotent(v: Js)
    ensures ToNumber(ToNumber(v)) == ToNumber(v)
  {
  }

  /** `String(n)` read back by `Number` is `n` again. */
  lemma ToNumberOfString(n: int)
    ensures ToNumber(Str(ToString(Num(n)))) == Num(n)
  {
    Numerals.StringToNumberRoundTrip(n);
  }

  /** `a === b` for the values the model compares (strings, numbers, booleans,
      `null`, `undefined`). Arrays and objects compare by identity in
      JavaScript, which the model does not track: they are never equal here. */
  predicate StrictEquals(a: Js, b: Js)
  {
    a == b && !a.NaN? && !a.Arr? && !a.Obj?
  }

  /** `x < v` for a number `x`: NaN compares false both ways. */
  predicate NumLess(x: int, v: Js)
  {
    match ToNumber(v)
    case Num(n) => x < n
    case _ => false
  }

  /** `x <= v` for a number `x`. */
  predicate NumAtMost(x: int, v: Js)
  {
    match ToNumber(v)
    case Num(n) => x <= n
    case _ => false
  }

  /** The members `JSON.stringify` writes for a flat object: properties whose
      value is `undefined` are dropped and NaN is written as `null`. */
  function JsonFields(o: JsObject): (r: JsObject)
    ensures forall k :: k in r <==> k in o && o[k] != Undefined
    ensures forall k :: k in r ==> r[k] == (if o[k] == NaN then Null else o[k])
  {
    map k | k in o && o[k] != Undefined :: if o[k] == NaN then Null else o[k]
  }
}
