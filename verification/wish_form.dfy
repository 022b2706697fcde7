/** `Elements.validateForm` of the wish form. The browser's `Validate` has no
    `number` or `link` method, so the two checks it calls for `price` and
    `link` inputs are parameters here. */
module WishForm {
  import opened Wrappers
  import opened Js
  import opened FormLabels
  import ClientValidate

  const NameMessage := "Navnet er ikke gyldigt."
  const PriceMessage := "Prisen er ikke gyldig."
  const LinkMessage := "Linket er ikke gyldigt."

  /** The message one label earns, or `None` when it passes. */
  function Verdict(priceOk: string -> bool, linkOk: string -> bool, l: Label): (v: Option<string>)
    ensures MissingRequired(l) ==> v == Some(RequiredMessage)
    ensures !MissingRequired(l) && l.dataType == Some("name") ==>
              v == if ClientValidate.Name(JsString(l.value)) then None else Some(NameMessage)
    ensures !MissingRequired(l) && l.dataType == Some("price") ==>
              v == if priceOk(l.value) then None else Some(PriceMessage)
    ensures !MissingRequired(l) && l.dataType == Some("link") ==>
              v == if linkOk(l.value) then None else Some(LinkMessage)
    ensures !MissingRequired(l) && l.dataType !in {Some("name"), Some("price"), Some("link")} ==> v.None?
  {
    if MissingRequired(l) then Some(RequiredMessage)
    else if l.dataType == Some("name") then
      if ClientValidate.Name(JsString(l.value)) then None else Some(NameMessage)
    else if l.dataType == Some("price") then
      if priceOk(l.value) then None else Some(PriceMessage)
    else if l.dataType == Some("link") then
      if linkOk(l.value) then None else Some(LinkMessage)
    else None
  }

  /** `validateForm`: the conjunction of all labels' verdicts, each label
      marked with its own. */
  method ValidateForm(priceOk: string -> bool, linkOk: string -> bool, labels: array<Label>) returns (valid: bool)
    modifies labels
    ensures valid <==> forall k :: 0 <= k < labels.Length ==> Verdict(priceOk, linkOk, old(labels[k])).None?
    ensures forall k :: 0 <= k < labels.Length ==>
              labels[k] == Marked(old(labels[k]), Verdict(priceOk, linkOk, old(labels[k])))
  {
    valid := true;
    var i := 0;
    while i < labels.Length
      invariant 0 <= i <= labels.Length
      invariant valid <==> forall k :: 0 <= k < i ==> Verdict(priceOk, linkOk, old(labels[k])).None?
      invariant forall k :: 0 <= k < i ==> labels[k] == Marked(old(labels[k]), Verdict(priceOk, linkOk, old(labels[k])))
      invariant forall k :: i <= k < labels.Length ==> labels[k] == old(labels[k])
    {
      var item := labels[i];
      if item.required && item.value == "" {
        item := item.(hasError := true, message := RequiredMessage);
        valid := false;
      } else {
        item := item.(hasError := false, message := "");
        if item.dataType == Some("name") {
          if !ClientValidate.Name(JsString(item.value)) {
            item := item.(hasError := true);
            valid := false;
            item := item.(message := NameMessage);
          } else {
            item := item.(hasError := false, message := "");
          }
        } else if item.dataType == Some("price") {
          if !priceOk(item.value) {
            item := item.(hasError := true);
            valid := false;
            item := item.(message := PriceMessage);
          } else {
            item := item.(hasError := false, message := "");
          }
        } else if item.dataType == Some("link") {
          if !linkOk(item.value) {
            item := item.(hasError := true);
            valid := false;
            item := item.(message := LinkMessage);
          } else {
            item := item.(hasError := false, message := "");
          }
        }
      }
      labels[i] := item;
      i := i + 1;
    }
  }
}
