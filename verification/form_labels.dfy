/** The form labels both `validateForm` loops walk over. */
module FormLabels {
  import opened Wrappers

  /** A `<label>` of the form: its input's `required` flag, `value` and
      `data-type` (`None` when the attribute is absent), whether the label
      has the `error` class, and the innerHTML of its `.errorMessage`. */
  datatype Label = Label(required: bool, value: string, dataType: Option<string>, hasError: bool, message: string)

  const RequiredMessage := "Dette felt skal udfyldes."

  /** A required input left empty. */
  predicate MissingRequired(l: Label) {
    l.required && l.value == ""
  }

  /** The label as the loop leaves it, given the error message it earned
      (`None` when it passed). */
  function Marked(l: Label, verdict: Option<string>): (m: Label)
    ensures m.required == l.required && m.value == l.value && m.dataType == l.dataType
    ensures m.hasError <==> verdict.Some?
    ensures m.message == verdict.GetOr("")
  {
    l.(hasError := verdict.Some?, message := verdict.GetOr(""))
  }
}
