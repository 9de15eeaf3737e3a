/** The pagination normaliser: one `{perPage, offset, page}` triple from the raw `per_page` text, the
    raw `offset` text (both as `url.searchParams.get` returns them, `None` for `null`) and the
    already validated page. */
module Pagination {
  import opened Wrappers
  import JsText
  import Env

  /** `None` in a field is `undefined`. */
  datatype PaginationState = PaginationState(perPage: Option<int>, offset: Option<int>, page: Option<int>)

  /** The raw `per_page` is present and parses to a positive integer. */
  predicate ValidPerPage(raw: Option<string>) {
    raw.Some? && JsText.ParseInt(raw.value).Some? && JsText.ParseInt(raw.value).value > 0
  }

  /** The raw `offset` is present and parses to a non-negative integer. */
  predicate ValidOffset(raw: Option<string>) {
    raw.Some? && JsText.ParseInt(raw.value).Some? && JsText.ParseInt(raw.value).value >= 0
  }

  /** `calculateOffset`: the offset at which a page starts; dividing it by the page size gives the page
      back. */
  function CalculateOffset(page: nat, pageSize: Env.PosInt): (r: nat)
    ensures r / pageSize == page && r % pageSize == 0
  {
    MultipleDivides(page, pageSize);
    page * pageSize
  }

  lemma MultipleDivides(page: nat, pageSize: Env.PosInt)
    ensures (page * pageSize) / pageSize == page && (page * pageSize) % pageSize == 0
  {
    var q := (page * pageSize) / pageSize;
    var m := (page * pageSize) % pageSize;
    assert (page - q) * pageSize == m;
    if page - q >= 1 {
      AtLeastOneMultiple(page - q, pageSize);
    } else if q - page >= 1 {
      AtLeastOneMultiple(q - page, pageSize);

    }
  }

  lemma {:induction false} AtLeastOneMultiple(a: int, k: Env.PosInt)
    requires a >= 1
    ensures a * k >= k
  {
    if a > 1 {
      AtLeastOneMultiple(a - 1, k);
      assert a * k == (a - 1) * k + k;
    }
  }

  /** The page size: a valid raw value, else the default once a page is given. */
  function PerPageOf(perPageRaw: Option<string>, page: Option<nat>, defaultPerPage: Env.PosInt): (r: Option<Env.PosInt>)
    ensures r.Some? <==> ValidPerPage(perPageRaw) || page.Some?
    ensures ValidPerPage(perPageRaw) ==> r.Some? && r.value as int == JsText.ParseInt(perPageRaw.value).value
    ensures !ValidPerPage(perPageRaw) && page.Some? ==> r == Some(defaultPerPage)
  {
    var parsedPerPage := if perPageRaw.Some? then JsText.ParseInt(perPageRaw.value) else None;
    var hasValidPerPage := parsedPerPage.Some? && parsedPerPage.value > 0;
    if hasValidPerPage || page.Some? then
      (if hasValidPerPage then Some(parsedPerPage.value) else Some(defaultPerPage))
    else None
  }

  /** The offset: a valid raw value verbatim, else where the given page starts. */
  function OffsetOf(offsetRaw: Option<string>, page: Option<nat>, perPage: Option<Env.PosInt>): (r: Option<nat>)
    ensures r.Some? <==> ValidOffset(offsetRaw) || (page.Some? && perPage.Some?)
    ensures ValidOffset(offsetRaw) ==> r.Some? && r.value as int == JsText.ParseInt(offsetRaw.value).value
    ensures !ValidOffset(offsetRaw) && page.Some? && perPage.Some? ==> r == Some(page.value * perPage.value)
  {
    var parsedOffset := if offsetRaw.Some? then JsText.ParseInt(offsetRaw.value) else None;
    var hasValidOffset := parsedOffset.Some? && parsedOffset.value >= 0;
    if hasValidOffset || (page.Some? && perPage.Some?) then
      (if hasValidOffset then Some(parsedOffset.value) else Some(CalculateOffset(page.value, perPage.value)))
    else None
  }

  /** `Math.floor(x / k)` on a non-negative dividend: the page the offset `x` falls in. */
  function NonNegativeQuotient(x: nat, k: Env.PosInt): (q: nat)
    ensures q * k <= x < q * k + k
  {
    FloorDivisionBounds(x, k);
    x / k
  }

  /** `normalizePagination`. */
  function NormalizePagination(perPageRaw: Option<string>, offsetRaw: Option<string>, page: Option<nat>,
                               defaultPerPage: Env.PosInt): (p: PaginationState)
    // nothing asked for, nothing injected
    ensures perPageRaw.None? && offsetRaw.None? && page.None? ==> p == PaginationState(None, None, None)
    // the page size: a valid raw value, else the configured default when a page is given
    ensures p.perPage.Some? <==> ValidPerPage(perPageRaw) || page.Some?
    ensures ValidPerPage(perPageRaw) ==> p.perPage == JsText.ParseInt(perPageRaw.value)
    ensures !ValidPerPage(perPageRaw) && page.Some? ==> p.perPage == Some(defaultPerPage as int)
    ensures p.perPage.Some? ==> p.perPage.value >= 1
    // the offset: a valid raw value verbatim, else where the given page starts
    ensures p.offset.Some? <==> ValidOffset(offsetRaw) || page.Some?
    ensures ValidOffset(offsetRaw) ==> p.offset == JsText.ParseInt(offsetRaw.value)
    ensures !ValidOffset(offsetRaw) && page.Some? && p.perPage.Some?
            ==> p.offset == Some(page.value * p.perPage.value)
    ensures p.offset.Some? ==> p.offset.value >= 0
    // the page: the given one, else the page the offset falls in
    ensures page.Some? ==> p.page == Some(page.value as int)
    ensures page.None? ==> (p.page.Some? <==> p.offset.Some? && p.perPage.Some?)
    ensures page.None? && p.page.Some? ==> p.page.value >= 0 && p.page.value == p.offset.value / p.perPage.value
  {
    var perPage := PerPageOf(perPageRaw, page, defaultPerPage);
    var offset := OffsetOf(offsetRaw, page, perPage);
    var derivedPage: Option<int> :=
      if page.Some? then Some(page.value)
      else if offset.Some? && perPage.Some? then Some(NonNegativeQuotient(offset.value, perPage.value))
      else None;
    PaginationState(
      if perPage.Some? then Some(perPage.value as int) else None,
      if offset.Some? then Some(offset.value as int) else None,
      derivedPage)
  }

  /** The offset lies on the given page of the given size. */
  predicate OnPage(offset: int, page: int, perPage: int) {
    page * perPage <= offset < (page + 1) * perPage
  }

  /** Without a given page, the derived page is the one the offset falls in. */
  lemma DerivedPageContainsOffset(perPageRaw: Option<string>, offsetRaw: Option<string>, defaultPerPage: Env.PosInt)
    requires NormalizePagination(perPageRaw, offsetRaw, None, defaultPerPage).page.Some?
    ensures var p := NormalizePagination(perPageRaw, offsetRaw, None, defaultPerPage);
            OnPage(p.offset.value, p.page.value, p.perPage.value)
  {
    var p := NormalizePagination(perPageRaw, offsetRaw, None, defaultPerPage);
    FloorDivisionBounds(p.offset.value, p.perPage.value);
  }

  lemma FloorDivisionBounds(offset: nat, perPage: Env.PosInt)
    ensures OnPage(offset, offset / perPage, perPage)
  {
    var q := offset / perPage;
    assert offset == q * perPage + offset % perPage;
    assert (q + 1) * perPage == q * perPage + perPage;
  }

  /** A page given together with a valid raw offset keeps the raw offset, which need not be where that
      page starts: `page = 2` with `offset = "5"` and the default size 3 gives offset 5, not 6. */
  lemma OffsetNeedNotMatchPage()
    ensures var p := NormalizePagination(None, Some("5"), Some(2), 3);
            p == PaginationState(Some(3), Some(5), Some(2)) && p.offset.value != p.page.value * p.perPage.value
  {
    JsText.ParseIntOfDecimal(5, "");
    assert JsText.IntToString(5) + "" == "5";
  }

  /** A page without a page size: the configured default, starting at page × default. */
  lemma PageWithoutPageSize(page: nat, defaultPerPage: Env.PosInt)
    ensures NormalizePagination(None, None, Some(page), defaultPerPage)
            == PaginationState(Some(defaultPerPage as int), Some(page * defaultPerPage), Some(page))
  {
  }
}
