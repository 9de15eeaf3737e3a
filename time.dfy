/** The day-anchored timestamp used for the "upcoming" filter. */
module Time {
  import JsText

  const Anchor: string := "T05:00:00Z"

  /** `toPlanningCenterTimestamp`, taking the `toISOString()` text of the instant: the text before the
      first `T` (the calendar date) followed by "T05:00:00Z". */
  function ToPlanningCenterTimestamp(iso: string): (r: string)
    ensures |r| >= |Anchor| && r[|r| - |Anchor|..] == Anchor
    ensures var date := r[..|r| - |Anchor|];
            |date| <= |iso| && date == iso[..|date|] && 'T' !in date && (|date| == |iso| || iso[|date|] == 'T')
  {
    var datePart := JsText.Split(iso, 'T')[0];
    var r := datePart + Anchor;
    assert r[..|r| - |Anchor|] == datePart;
    r
  }

  /** The shape `toISOString()` produces for years 0 to 9999: `YYYY-MM-DDTHH:mm:ss.sssZ`. */
  predicate IsIsoInstant(iso: string) {
    && |iso| == 24
    && (forall i | i in {0, 1, 2, 3, 5, 6, 8, 9, 11, 12, 14, 15, 17, 18, 20, 21, 22} :: 0 <= i < 24 && JsText.IsDigit(iso[i]))
    && iso[4] == '-' && iso[7] == '-' && iso[10] == 'T' && iso[13] == ':' && iso[16] == ':'
    && iso[19] == '.' && iso[23] == 'Z'
  }

  /** For a well-formed ISO instant the timestamp is its `YYYY-MM-DD` followed by "T05:00:00Z",
      twenty characters in all. */
  lemma WellFormedTimestamp(iso: string)
    requires IsIsoInstant(iso)
    ensures ToPlanningCenterTimestamp(iso) == iso[..10] + Anchor
    ensures |ToPlanningCenterTimestamp(iso)| == 20
  {
    var r := ToPlanningCenterTimestamp(iso);
    var date := r[..|r| - |Anchor|];
    assert forall i :: 0 <= i < 10 ==> iso[i] != 'T' by {
      forall i | 0 <= i < 10 ensures iso[i] != 'T' {
        assert i in {0, 1, 2, 3, 5, 6, 8, 9} || i == 4 || i == 7;
      }
    }
    assert |date| == 10;
    assert r == date + Anchor;
  }

  /** Two instants of the same UTC calendar date get the same timestamp. */
  lemma SameDateSameTimestamp(a: string, b: string)
    requires IsIsoInstant(a) && IsIsoInstant(b)
    requires a[..10] == b[..10]
    ensures ToPlanningCenterTimestamp(a) == ToPlanningCenterTimestamp(b)
  {
    WellFormedTimestamp(a);
    WellFormedTimestamp(b);
  }
}
