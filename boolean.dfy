// Yes/No text for booleans and nullable booleans.
module Boolean {
  import opened Wrappers

  const DefaultYes: string := "Yes"
  const DefaultNo: string := "No"

  /** ToYesNoString(bool): the yes text for true, the no text for false. */
  function ToYesNoString(value: bool, yes: string, no: string): (r: string)
    ensures r == yes || r == no
    ensures yes != no ==> (r == yes <==> value)
  {
    if value then yes else no
  }

  /** ToYesNoString(bool?): as for bool when there is a value, and the empty string for null. */
  function ToYesNoStringNullable(value: Option<bool>, yes: string, no: string): (r: string)
    ensures value.None? ==> r == ""
    ensures value.Some? ==> r == ToYesNoString(value.value, yes, no)
  {
    if value == Some(true) then yes
    else if value == Some(false) then no
    else ""
  }

  /** With the default texts the answers are exactly "Yes", "No" and "". */
  lemma DefaultTexts(value: Option<bool>)
    ensures ToYesNoString(true, DefaultYes, DefaultNo) == "Yes"
    ensures ToYesNoString(false, DefaultYes, DefaultNo) == "No"
    ensures ToYesNoStringNullable(value, DefaultYes, DefaultNo) ==
              match value
              case None => ""
              case Some(b) => if b then "Yes" else "No"
  {
  }
}
