/** The few shapes a field of a decoded API response takes, and JavaScript truthiness on them. */
module JsonValue {
  import opened Text

  /** A field of a decoded response: absent (`undefined`), `null`, a number, a string, a
      boolean, an array, or any other object. Arrays and objects are always truthy. */
  datatype Value = Missing | Null | Num(n: int) | Str(s: string) | Bool(b: bool) | Array(items: seq<Value>) | Object

  /** JavaScript truthiness: `undefined`, `null`, `0`, `""` and `false` are falsy. */
  predicate Truthy(v: Value) {
    match v
    case Missing => false
    case Null => false
    case Num(n) => n != 0
    case Str(s) => s != ""
    case Bool(b) => b
    case Array(_) => true
    case Object => true
  }

  /** `String(v)`, the text `parseInt` reads from a value that is not a string: an array is
      its items joined with commas, where `null` and `undefined` items give empty text, and
      any other object is `[object Object]`. */
  function ToText(v: Value): string
    decreases v, 0
  {
    match v
    case Missing => "undefined"
    case Null => "null"
    case Num(n) => IntText(n)
    case Str(s) => s
    case Bool(b) => if b then "true" else "false"
    case Array(items) => JoinItems(items)
    case Object => "[object Object]"
  }

  /** The decimal text of a whole number, with a minus sign when it is negative. */
  function IntText(n: int): string {
    if n < 0 then "-" + NatToString(-n) else NatToString(n)
  }

  /** `Array.prototype.join(',')` over the items. */
  function JoinItems(items: seq<Value>): string
    decreases items
  {
    if items == [] then ""
    else if |items| == 1 then ItemText(items[0])
    else ItemText(items[0]) + "," + JoinItems(items[1..])
  }

  /** An item's text in a join: `null` and `undefined` give empty text. */
  function ItemText(v: Value): string
    decreases v, 1
  {
    if v.Missing? || v.Null? then "" else ToText(v)
  }

  /** `a || b`: one of its operands, truthy exactly when either operand is; the first when
      it is truthy, the second otherwise. */
  function Or(a: Value, b: Value): (r: Value)
    ensures r == a || r == b
    ensures Truthy(r) <==> Truthy(a) || Truthy(b)
    ensures r == b || Truthy(a)
    ensures Truthy(a) ==> r == a
  {
    if Truthy(a) then a else b
  }

  /** `a || b || c` reads the same however it is grouped: the first truthy operand, or the
      last one when none is. */
  lemma OrAssociative(a: Value, b: Value, c: Value)
    ensures Or(Or(a, b), c) == Or(a, Or(b, c))
    ensures Or(Or(a, b), c) == (if Truthy(a) then a else if Truthy(b) then b else c)
  {
  }
}
