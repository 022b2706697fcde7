/** `Elements.validateForm` of the wishlist page. */
module WishlistForm {
  import opened Wrappers
  import opened Js
  import opened FormLabels
  import ClientValidate

  const DateMessage := "Datoen er ikke gyldig."
  const NameMessage := "Navnet er ikke gyldigt."

  /** The message one label earns, or `None` when it passes: the required
      check first, which skips the type check when it fails; then the check
      for a `date` or `name` type; any other type gets no further check. */
  function Verdict(rt: Runtime, l: Label): (v: Option<string>)
    ensures MissingRequired(l) ==> v == Some(RequiredMessage)
    ensures !MissingRequired(l) && l.dataType == Some("date") ==>
              v == if ClientValidate.Date(rt, JsString(l.value)) then None else Some(DateMessage)
    ensures !MissingRequired(l) && l.dataType == Some("name") ==>
              v == if ClientValidate.Name(JsString(l.value)) then None else Some(NameMessage)
    ensures !MissingRequired(l) && l.dataType != Some("date") && l.dataType != Some("name") ==> v.None?
  {
    if MissingRequired(l) then Some(RequiredMessage)
    else if l.dataType == Some("date") then
      if ClientValidate.Date(rt, JsString(l.value)) then None else Some(DateMessage)
    else if l.dataType == Some("name") then
      if ClientValidate.Name(JsString(l.value)) then None else Some(NameMessage)
    else None
  }

  /** An optional date field left empty still fails, because the date check
      rejects the empty string. */
  lemma EmptyOptionalDateFails(rt: Runtime, l: Label)
    requires !l.required && l.value == "" && l.dataType == Some("date")
    ensures Verdict(rt, l) == Some(DateMessage)
  {
  }

  /** `validateForm`: every label is examined, each gets its error class and
      message from its verdict, and the result is true exactly when all of
      them passed. `valid` starts true and is only ever set to false. */
  method ValidateForm(rt: Runtime, labels: array<Label>) returns (valid: bool)
    modifies labels
    ensures valid <==> forall k :: 0 <= k < labels.Length ==> Verdict(rt, old(labels[k])).None?
    ensures forall k :: 0 <= k < labels.Length ==> labels[k] == Marked(old(labels[k]), Verdict(rt, old(labels[k])))
  {
    valid := true;
    var i := 0;
    while i < labels.Length
      invariant 0 <= i <= labels.Length
      invariant valid <==> forall k :: 0 <= k < i ==> Verdict(rt, old(labels[k])).None?
      invariant forall k :: 0 <= k < i ==> labels[k] == Marked(old(labels[k]), Verdict(rt, old(labels[k])))
      invariant forall k :: i <= k < labels.Length ==> labels[k] == old(labels[k])
    {
      var item := labels[i];
      if item.required && item.value == "" {
        item := item.(hasError := true);
        valid := false;
        item := item.(message := RequiredMessage);
      } else {
        item := item.(hasError := false, message := "");
        if item.dataType == Some("date") {
          if !ClientValidate.Date(rt, JsString(item.value)) {
            item := item.(hasError := true);
            valid := false;
            item := item.(message := DateMessage);
          } else {
            item := item.(hasError := false, message := "");
          }
        } else if item.dataType == Some("name") {
          if !ClientValidate.Name(JsString(item.value)) {
            item := item.(hasError := true);
            valid := false;
            item := item.(message := NameMessage);
          } else {
            item := item.(hasError := false, message := "");
          }
        }
      }
      labels[i] := item;
      i := i + 1;
    }
  }
}
