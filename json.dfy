/**
 * JavaScript values as they come out of `JSON.parse` (plus `undefined`), with
 * objects as insertion-ordered records. Numbers are integers here.
 */
module Json {
  import opened Options
  import opened Strings
  import Assoc

  datatype Value =
    | Undefined
    | Null
    | Bool(b: bool)
    | Num(n: int)
    | Str(s: string)
    | Arr(items: seq<Value>)
    | Obj(fields: seq<(string, Value)>)

  /** JavaScript truthiness (`0`, `''`, `false`, `null`, `undefined` are falsy). */
  predicate Truthy(v: Value)
  {
    match v
    case Undefined => false
    case Null => false
    case Bool(b) => b
    case Num(n) => n != 0
    case Str(s) => s != ""
    case _ => true
  }

  /** A canonical array index property name: decimal digits without a leading zero. */
  predicate IsIndexName(k: string) { |k| >= 1 && AllDigits(k) && (|k| == 1 || k[0] != '0') }

  /** `v[k]` for a property name `k` (own data properties and `length` only). */
  function Lookup(v: Value, k: string): (r: Value)
    ensures v.Obj? ==> (r == Undefined <==> Assoc.Get(v.fields, k).None? || Assoc.Get(v.fields, k) == Some(Undefined))
  {
    match v
    case Obj(f) => Assoc.Get(f, k).GetOr(Undefined)
    case Arr(items) =>
      if IsIndexName(k) && DigitsValue(k) < |items| then items[DigitsValue(k)]
      else if k == "length" then Num(|items|)
      else Undefined
    case Str(s) =>
      if IsIndexName(k) && DigitsValue(k) < |s| then Str([s[DigitsValue(k)]])
      else if k == "length" then Num(|s|)
      else Undefined
    case _ => Undefined
  }

  /** `String(v)`; arrays join their items' texts with `,`, `null` items giving nothing. */
  function Text(v: Value): string
    decreases v
  {
    match v
    case Undefined => "undefined"
    case Null => "null"
    case Bool(b) => if b then "true" else "false"
    case Num(n) => if n < 0 then "-" + NatToString(-n) else NatToString(n)
    case Str(s) => s
    case Arr(items) => Join(seq(|items|, i requires 0 <= i < |items| => if items[i].Null? || items[i].Undefined? then "" else Text(items[i])), ",")
    case Obj(_) => "[object Object]"
  }
}
