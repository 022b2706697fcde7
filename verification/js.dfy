/**
 * The small slice of JavaScript semantics the validators and guards rely on:
 * the `typeof` operator, truthiness of optional strings, the `||` operator,
 * the character class `['";<>]` and the two built-in parsers, which are
 * left uninterpreted.
 */
module Js {
  import opened Wrappers

  /** A JavaScript value as far as the validators distinguish it. The validators
      never look inside a number, an object or a boolean, so only strings
      carry their contents. */
  datatype JsValue =
    | JsUndefined
    | JsNull
    | JsBool(b: bool)
    | JsNumber
    | JsString(s: string)
    | JsObject

  /** The `typeof` operator (`typeof null` is "object"). */
  function TypeOf(v: JsValue): (r: string)
    ensures r == "string" <==> v.JsString?
    ensures r == "number" <==> v.JsNumber?
  {
    match v
    case JsUndefined => "undefined"
    case JsNull => "object"
    case JsBool(_) => "boolean"
    case JsNumber => "number"
    case JsString(_) => "string"
    case JsObject => "object"
  }

  /** Truthiness of a value that is either `undefined` or a string:
      `undefined` and "" are falsy, every other string is truthy. */
  predicate Truthy(o: Option<string>) {
    o.Some? && o.value != ""
  }

  /** `a || b` on two optional strings: `a` when truthy, otherwise `b`. The
      result is one of the operands, it is truthy iff either operand is, and
      a truthy left operand is never replaced. */
  function Or(a: Option<string>, b: Option<string>): (r: Option<string>)
    ensures r == a || r == b
    ensures Truthy(r) <==> Truthy(a) || Truthy(b)
    ensures Truthy(a) ==> r == a
  {
    if Truthy(a) then a else b
  }

  /** The characters of the regular expression `/['";<>]/`. */
  predicate MetaChar(c: char) {
    c == '\'' || c == '"' || c == ';' || c == '<' || c == '>'
  }

  /** `/['";<>]/.test(s)`: does any character of `s` belong to the class? */
  function TestMetaChars(s: string): (r: bool)
    ensures r <==> exists i :: 0 <= i < |s| && MetaChar(s[i])
  {
    if |s| == 0 then false
    else if MetaChar(s[0]) then true
    else
      var rest := TestMetaChars(s[1..]);
      assert forall i :: 1 <= i < |s| ==> s[i] == s[1..][i - 1];
      rest
  }

  /** The host's built-in parsers, which this model leaves uninterpreted:
      `numberIsNaN(s)` is `isNaN(Number(s))` and `dateIsNaN(s)` is
      `isNaN(Date.parse(s))`. */
  datatype Runtime = Runtime(numberIsNaN: string -> bool, dateIsNaN: string -> bool)
}
