/** The JavaScript values a request payload can carry, as far as the controllers look at them.

The controllers test fields with `!x` (truthiness), `Number.isInteger`, `===`
against a string, and interpolate them into messages with `${x}`. Each of these
is a total function on `Value` here.
 */
module Js {

  /** One element of an order's `dishes` array. */
  datatype LineItem = LineItem(dishId: Value, quantity: Value)

  datatype Value =
    | Undefined                  // the field is absent
    | Null
    | Bool(b: bool)
    | Int(n: int)                // a number with an integral value
    | Fraction(text: string)     // a finite or infinite number that is not an integer, with its printed form
    | NaN
    | Str(s: string)
    | Array(items: seq<LineItem>)
    | Object                     // any other object

  /** JavaScript truthiness: `!v` is `!Truthy(v)`. Empty strings and 0 are falsy. */
  predicate Truthy(v: Value)
  {
    match v
    case Undefined => false
    case Null => false
    case Bool(b) => b
    case Int(n) => n != 0
    case Fraction(_) => true
    case NaN => false
    case Str(s) => s != ""
    case Array(_) => true
    case Object => true
  }

  /** The `update` handlers' test `id && id !== routeId`: the body carries an
      id (a truthy one) that is not the route's id. */
  predicate Mismatch(id: Value, routeId: string)
  {
    Truthy(id) && id != Str(routeId)
  }

  /** `Number.isInteger(v)`: only integral numbers qualify, never strings or other types. */
  predicate IsInteger(v: Value)
  {
    v.Int?
  }

  predicate IsDigits(s: string)
  {
    forall i :: 0 <= i < |s| ==> '0' <= s[i] <= '9'
  }

  /** The decimal digits of `n`, without leading zeros. */
  function Decimal(n: nat): (s: string)
    ensures |s| > 0 && IsDigits(s)
    ensures |s| > 1 ==> s[0] != '0'
  {
    if n < 10 then ["0123456789"[n]]
    else Decimal(n / 10) + ["0123456789"[n % 10]]
  }

  /** Reads a string of decimal digits back as a number. */
  function DigitsValue(s: string): nat
    requires IsDigits(s)
  {
    if |s| == 0 then 0
    else DigitsValue(s[..|s| - 1]) * 10 + (s[|s| - 1] - '0') as nat
  }

  lemma {:induction false} DigitsValueOfDecimal(n: nat)
    ensures DigitsValue(Decimal(n)) == n
  {
    var s := Decimal(n);
    if n >= 10 {
      DigitsValueOfDecimal(n / 10);
      assert s[..|s| - 1] == Decimal(n / 10);
    }
  }

  /** Different numbers print differently. */
  lemma DecimalInjective(a: nat, b: nat)
    ensures Decimal(a) == Decimal(b) ==> a == b
  {
    DigitsValueOfDecimal(a);
    DigitsValueOfDecimal(b);
  }

  /** `String(v)`, which is what a template literal `${v}` inserts. */
  function Render(v: Value): string
  {
    match v
    case Undefined => "undefined"
    case Null => "null"
    case Bool(b) => if b then "true" else "false"
    case Int(n) => if n < 0 then "-" + Decimal(-n) else Decimal(n)
    case Fraction(text) => text
    case NaN => "NaN"
    case Str(s) => s
    case Array(items) => JoinObjects(|items|)
    case Object => "[object Object]"
  }

  /** `Array.prototype.join(",")` of `count` plain objects. */
  function JoinObjects(count: nat): string
  {
    if count == 0 then ""
    else if count == 1 then "[object Object]"
    else "[object Object]," + JoinObjects(count - 1)
  }
}
