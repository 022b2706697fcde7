/** The browser's copy of `Validate`. It has `id` where the server has
    `number`, and no `number` or `link` method at all. */
module ClientValidate {
  import opened Js
  import ServerValidate

  /** `Validate.id`: any number, or any string that `Number()` does not turn
      into NaN. Unlike the server's `number` there is no empty-string guard. */
  predicate Id(rt: Runtime, value: JsValue)
    ensures value.JsNumber? ==> Id(rt, value)
    ensures value.JsString? ==> (Id(rt, value) <==> !rt.numberIsNaN(value.s))
    ensures !value.JsNumber? && !value.JsString? ==> !Id(rt, value)
  {
    if TypeOf(value) == "number" then true
    else if TypeOf(value) == "string" && !rt.numberIsNaN(value.s) then true
    else false
  }

  /** `Validate.name`, written out again as the client file does. */
  predicate Name(value: JsValue)
    ensures Name(value) <==>
      value.JsString? && |value.s| > 0 && forall i :: 0 <= i < |value.s| ==> !MetaChar(value.s[i])
  {
    if TypeOf(value) != "string" then false
    else if |value.s| == 0 then false
    else if TestMetaChars(value.s) then false
    else true
  }

  /** `Validate.date`: the name guards followed by `Date.parse`. */
  predicate Date(rt: Runtime, value: JsValue)
    ensures Date(rt, value) ==> Name(value)
    ensures value.JsString? && rt.dateIsNaN(value.s) ==> !Date(rt, value)
  {
    if TypeOf(value) != "string" then false
    else if |value.s| == 0 then false
    else if TestMetaChars(value.s) then false
    else if rt.dateIsNaN(value.s) then false
    else true
  }

  /** The two copies of `name` and of `date` agree on every value. */
  lemma SameNameAndDate(rt: Runtime, value: JsValue)
    ensures Name(value) == ServerValidate.Name(value)
    ensures Date(rt, value) == ServerValidate.Date(rt, value)
  {
  }

  /** The drift between the copies: the client `id` accepts exactly what the
      server `number` accepts, plus the empty string whenever `Number("")` is
      not NaN (in JavaScript it is 0). */
  lemma IdDriftsFromNumber(rt: Runtime, value: JsValue)
    ensures ServerValidate.Number(rt, value) ==> Id(rt, value)
    ensures Id(rt, value) && !ServerValidate.Number(rt, value) <==>
      value == JsString("") && !rt.numberIsNaN("")
  {
  }
}
