/** Scalar JavaScript values as they arrive from a JSON response, and the
    conversions `Number(v)`, `String(v)` and `Boolean(v)`. */
module JsValues {
  import opened JsNumbers

  datatype JsValue = JStr(s: string) | JNum(n: real) | JBool(b: bool) | JNull | JUndefined

  /** `Number(v)`. */
  function ToNumber(v: JsValue): JsNumber
  {
    match v
    case JStr(s) => StringToNumber(s)
    case JNum(n) => Num(n)
    case JBool(b) => Num(if b then 1.0 else 0.0)
    case JNull => Num(0.0)
    case JUndefined => NaN
  }

  /** `String(v)`, also what a template literal `${v}` and `new Error(v)` write. */
  function ToStr(v: JsValue): string
  {
    match v
    case JStr(s) => s
    case JNum(n) => NumberToString(n)
    case JBool(b) => if b then "true" else "false"
    case JNull => "null"
    case JUndefined => "undefined"
  }

  /** `Boolean(v)`: JavaScript truthiness. */
  predicate Truthy(v: JsValue)
  {
    match v
    case JStr(s) => s != ""
    case JNum(n) => n != 0.0
    case JBool(b) => b
    case JNull => false
    case JUndefined => false
  }

  /** The only falsy strings are empty, and a truthy value never prints as
      the empty string. */
  lemma TruthyPrintsNonEmpty(v: JsValue)
    requires Truthy(v)
    ensures ToStr(v) != ""
  {
    if v.JNum? {
      var n := v.n;
      if n < 0.0 {
        assert ToStr(v)[0] == '-';
      } else {
        assert |NatToDecimal(n.Floor as nat)| >= 1;
      }
    }
  }

  /** `a || b || fallback` on three candidate messages, converted to the
      string a thrown `Error` carries. */
  function FirstTruthy(a: JsValue, b: JsValue, fallback: string): (r: string)
    ensures Truthy(a) ==> r == ToStr(a)
    ensures !Truthy(a) && Truthy(b) ==> r == ToStr(b)
    ensures !Truthy(a) && !Truthy(b) ==> r == fallback
  {
    if Truthy(a) then ToStr(a) else if Truthy(b) then ToStr(b) else fallback
  }
}
