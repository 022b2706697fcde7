/** The server's `Validate` class: guard chains with early returns, no state. */
module ServerValidate {
  import opened Js

  /** `Validate.number`: any value of type number, or a non-empty string that
      `Number()` does not turn into NaN. */
  predicate Number(rt: Runtime, value: JsValue)
    ensures value.JsNumber? ==> Number(rt, value)
    ensures !value.JsNumber? && !value.JsString? ==> !Number(rt, value)
    ensures value == JsString("") ==> !Number(rt, value)
    ensures value.JsString? && value.s != "" ==> (Number(rt, value) <==> !rt.numberIsNaN(value.s))
  {
    if TypeOf(value) != "number" then
      if TypeOf(value) != "string" then false
      else if |value.s| == 0 then false
      else if rt.numberIsNaN(value.s) then false
      else true
    else true
  }

  /** `Validate.name`: a non-empty string with none of `'`, `"`, `;`, `<`, `>`. */
  predicate Name(value: JsValue)
    ensures Name(value) <==>
      value.JsString? && |value.s| > 0 && forall i :: 0 <= i < |value.s| ==> !MetaChar(value.s[i])
    ensures !value.JsString? ==> !Name(value)
  {
    if TypeOf(value) != "string" then false
    else if |value.s| == 0 then false
    else if TestMetaChars(value.s) then false
    else true
  }

  /** `Validate.date`: the same three guards as `name`, then `Date.parse`. */
  predicate Date(rt: Runtime, value: JsValue)
    ensures Date(rt, value) ==> Name(value)
    ensures value.JsString? && rt.dateIsNaN(value.s) ==> !Date(rt, value)
    ensures Date(rt, value) <==> Name(value) && !rt.dateIsNaN(value.s)
  {
    if TypeOf(value) != "string" then false
    else if |value.s| == 0 then false
    else if TestMetaChars(value.s) then false
    else if rt.dateIsNaN(value.s) then false
    else true
  }
}
