/** The one piece of configuration the core reads: the default page size. */
module Env {
  import opened Wrappers
  import JsText

  /** A page size: always at least one. */
  type PosInt = n: int | n >= 1 witness 1

  /** `normalizeEventsPerPage`: the raw `PLANNING_CENTER_EVENTS_PER_PAGE` text (`None` when the variable
      is unset) becomes its `parseInt` value when that is positive, and 3 otherwise; an unset or empty
      variable reads as "3". */
  function NormalizeEventsPerPage(raw: Option<string>): (r: PosInt)
    ensures raw.None? || raw.value == "" ==> r == 3
    ensures raw.Some? && JsText.ParseInt(raw.value).Some? && JsText.ParseInt(raw.value).value > 0
            ==> r == JsText.ParseInt(raw.value).value
    ensures raw.Some? && raw.value != "" && (JsText.ParseInt(raw.value).None? || JsText.ParseInt(raw.value).value <= 0)
            ==> r == 3
  {
    var text := if raw.Some? && raw.value != "" then raw.value else "3";
    assert JsText.ParseInt("3") == Some(3) by {
      JsText.ParseIntOfDecimal(3, "");
      assert JsText.IntToString(3) + "" == "3";
    }
    var parsed := JsText.ParseInt(text);
    if parsed.None? || parsed.value <= 0 then 3 else parsed.value
  }

  /** Configuring the decimal text of a positive page size yields that page size, whatever
      non-digit text trails it. */
  lemma NormalizeEventsPerPageReadsBack(n: PosInt, trailer: string)
    requires trailer == [] || !JsText.IsDigit(trailer[0])
    ensures NormalizeEventsPerPage(Some(JsText.IntToString(n) + trailer)) == n
  {
    JsText.ParseIntOfDecimal(n, trailer);
  }
}
