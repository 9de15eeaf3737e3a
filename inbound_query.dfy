/** What the controllers read from an inbound request: the `groupTypeId` route parameter, the `page`
    query value and the query part of `req.originalUrl`, and the page-only extraction of the Planning
    Center query that the groups and signups controllers share. The query text is taken as already
    split into its name-value pairs, in order (`searchParams.entries()`). */
module InboundQuery {
  import opened Wrappers
  import opened JsText
  import opened Http
  import opened SearchParams

  const GroupTypeIdRequired := HttpError("groupTypeId is required", 400)
  const GroupTypeIdMalformed := HttpError("groupTypeId must be a positive integer", 400)
  const PageMalformed := HttpError("page must be a non-negative integer", 400)

  /** `parseGroupTypeId`: the trimmed text when it is one or more ASCII digits; `None` is an absent
      route parameter. */
  function ParseGroupTypeId(raw: Option<string>): (r: Result<string, Error>)
    ensures raw.None? ==> r == Failure(GroupTypeIdRequired)
    ensures raw.Some? ==> (r.Success? <==> Trim(raw.value) != "" && AllDigits(Trim(raw.value)))
    ensures r.Success? ==> r.value == Trim(raw.value)
    ensures raw.Some? && r.Failure? ==> r.error == GroupTypeIdMalformed
  {
    if raw.None? then Failure(GroupTypeIdRequired)
    else
      var value := Trim(raw.value);
      if value != "" && AllDigits(value) then Success(value) else Failure(GroupTypeIdMalformed)
  }

  /** The decimal text of any number, padded with white space, is accepted as itself. */
  lemma GroupTypeIdOfDecimal(n: nat, before: string, after: string)
    requires AllWhiteSpace(before) && AllWhiteSpace(after)
    ensures ParseGroupTypeId(Some(before + NatToString(n) + after)) == Success(NatToString(n))
  {
    var d := NatToString(n);
    assert !IsWhiteSpace(d[0]) && !IsWhiteSpace(d[|d| - 1]) by {
      assert IsDigit(d[0]) && IsDigit(d[|d| - 1]);
    }
    TrimOfPadded(before, d, after);
  }

  /** The validation tests for digits only, so "0" passes although the message asks for a positive integer. */
  lemma GroupTypeIdZero()
    ensures ParseGroupTypeId(Some("0")) == Success("0")
  {
    GroupTypeIdOfDecimal(0, "", "");
    assert "" + NatToString(0) + "" == "0";
  }

  /** A sign is not a digit: "-1" is refused. */
  lemma GroupTypeIdSigned()
    ensures ParseGroupTypeId(Some("-1")) == Failure(GroupTypeIdMalformed)
  {
    assert !IsWhiteSpace('-') && !IsWhiteSpace('1');
    TrimOfPadded("", "-1", "");
    assert "" + "-1" + "" == "-1";
    assert !IsDigit("-1"[0]);
  }

  /** `parsePage` on a query value: `parseInt` of it when that is a number >= 0. */
  function ParsePage(raw: string): (r: Result<nat, Error>)
    ensures r.Success? <==> ParseInt(raw).Some? && ParseInt(raw).value >= 0
    ensures r.Success? ==> r.value as int == ParseInt(raw).value
    ensures r.Failure? ==> r.error == PageMalformed
  {
    var value := ParseInt(raw);
    if value.None? || value.value < 0 then Failure(PageMalformed) else Success(value.value)
  }

  /** A page number reads back as itself, whatever non-digit text follows it ("2.9" is page 2). */
  lemma ParsePageOfDecimal(n: nat, trailer: string)
    requires trailer == [] || !IsDigit(trailer[0])
    ensures ParsePage(NatToString(n) + trailer) == Success(n)
  {
    ParseIntOfDecimal(n, trailer);
  }

  /** `req.originalUrl.split("?")[1] ?? ""`: the text between the first and any second `?`. */
  function QueryStringOf(originalUrl: string): (q: string)
    ensures '?' !in q
  {
    var parts := Split(originalUrl, '?');
    if |parts| >= 2 then parts[1] else ""
  }

  /** The query of a URL with one `?` is everything after it; without `?` there is none. */
  lemma QueryStringOfOneMark(path: string, query: string)
    requires '?' !in path && '?' !in query
    ensures QueryStringOf(path + "?" + query) == query
    ensures QueryStringOf(path) == ""
  {
    SplitAtFirst(path, '?', query);
    SplitWithoutSeparator(query, '?');
    SplitWithoutSeparator(path, '?');
  }

  /** A second `?` cuts the query short: what follows it is dropped. */
  lemma QueryStringStopsAtSecondMark(path: string, query: string, rest: string)
    requires '?' !in path && '?' !in query
    ensures QueryStringOf(path + "?" + query + "?" + rest) == query
  {
    assert path + "?" + query + "?" + rest == path + ['?'] + (query + ['?'] + rest);
    SplitAtFirst(path, '?', query + ['?'] + rest);
    SplitAtFirst(query, '?', rest);
  }

  /** What the page-only extraction returns. */
  datatype PageQuery = PageQuery(passthrough: seq<Pair>, page: Option<nat>)

  /** Every `page` value is a valid page. */
  predicate ValidPages(entries: seq<Pair>) {
    var vs := ValuesOf(entries, "page");
    forall i :: 0 <= i < |vs| ==> ParsePage(vs[i]).Success?
  }

  /** The page of the last `page` value (the last one wins), `None` when there is none. */
  function LastPage(entries: seq<Pair>): (page: Option<nat>)
    ensures ValuesOf(entries, "page") == [] ==> page.None?
  {
    var vs := ValuesOf(entries, "page");
    if vs != [] && ParsePage(vs[|vs| - 1]).Success? then Some(ParsePage(vs[|vs| - 1]).value) else None
  }

  /** The page-only `extractPlanningCenterQuery` in closed form: every pair but the `page` ones passes
      through in order, the last `page` value gives the page, and any invalid one fails the request. */
  function PageQueryOf(entries: seq<Pair>): Result<PageQuery, Error> {
    if ValidPages(entries) then Success(PageQuery(RemoveName(entries, "page"), LastPage(entries)))
    else Failure(PageMalformed)
  }

  /** The values of a list with one more pair. */
  lemma ValuesOfSnoc(entries: seq<Pair>, p: Pair, name: string)
    ensures ValuesOf(entries + [p], name) == ValuesOf(entries, name) + (if p.0 == name then [p.1] else [])
  {
    ValuesOfAppend(entries, [p], name);
    assert ValuesOf([p], name) == (if p.0 == name then [p.1] else []) + ValuesOf([], name);
  }

  lemma PageQueryStep(entries: seq<Pair>, p: Pair)
    ensures ValidPages(entries + [p]) <==> ValidPages(entries) && (p.0 == "page" ==> ParsePage(p.1).Success?)
    ensures ValidPages(entries + [p]) ==>
              LastPage(entries + [p]) == if p.0 == "page" then Some(ParsePage(p.1).value) else LastPage(entries)
    ensures RemoveName(entries + [p], "page") == RemoveName(entries, "page") + (if p.0 == "page" then [] else [p])
  {
    ValuesOfSnoc(entries, p, "page");
    RemoveNameAppend(entries, [p], "page");
    var vs := ValuesOf(entries, "page");
    var ws := ValuesOf(entries + [p], "page");
    if ValidPages(entries) && (p.0 == "page" ==> ParsePage(p.1).Success?) {
      forall i | 0 <= i < |ws| ensures ParsePage(ws[i]).Success? {
        if i < |vs| { assert ws[i] == vs[i]; }
      }
    }
    if ValidPages(entries + [p]) {
      forall i | 0 <= i < |vs| ensures ParsePage(vs[i]).Success? {
        assert ws[i] == vs[i];
      }
      if p.0 == "page" { assert ws[|ws| - 1] == p.1; }
    }
  }

  /** One more pair: a `page` pair decides the page, any other pair leaves it. */
  lemma LastPageStep(entries: seq<Pair>, p: Pair)
    ensures LastPage(entries + [p])
            == if p.0 != "page" then LastPage(entries)
               else if ParsePage(p.1).Success? then Some(ParsePage(p.1).value) else None
  {
    ValuesOfSnoc(entries, p, "page");
    if p.0 == "page" {
      var ws := ValuesOf(entries + [p], "page");
      assert ws[|ws| - 1] == p.1;
    }
  }

  /** The page-only `extractPlanningCenterQuery`. */
  method ExtractPlanningCenterQuery(entries: seq<Pair>) returns (r: Result<PageQuery, Error>)
    ensures r == PageQueryOf(entries)
  {
    var passthrough: seq<Pair> := [];
    var page: Option<nat> := None;
    for i := 0 to |entries|
      invariant PageLoopState(entries[..i], passthrough, page)
    {
      if entries[i].0 == "page" {
        var parsed := ParsePage(entries[i].1);
        if parsed.Failure? {
          InvalidPageFails(entries, i);
          return Failure(parsed.error);
        }
        PageEntryStep(entries, i, passthrough);
        page := Some(parsed.value);
      } else {
        OtherEntryStep(entries, i, passthrough, page);
        passthrough := passthrough + [entries[i]];
      }
    }
    assert entries[..|entries|] == entries;
    r := Success(PageQuery(passthrough, page));
  }

  /** The loop's state after the pairs `done`. */
  predicate PageLoopState(done: seq<Pair>, passthrough: seq<Pair>, page: Option<nat>) {
    ValidPages(done) && passthrough == RemoveName(done, "page") && page == LastPage(done)
  }

  /** A valid `page` pair sets the page. */
  lemma PageEntryStep(entries: seq<Pair>, i: nat, passthrough: seq<Pair>)
    requires i < |entries| && entries[i].0 == "page" && ParsePage(entries[i].1).Success?
    requires exists page :: PageLoopState(entries[..i], passthrough, page)
    ensures PageLoopState(entries[..i + 1], passthrough, Some(ParsePage(entries[i].1).value))
  {
    PageQueryStep(entries[..i], entries[i]);
    assert entries[..i + 1] == entries[..i] + [entries[i]];
  }

  /** Any other pair passes through. */
  lemma OtherEntryStep(entries: seq<Pair>, i: nat, passthrough: seq<Pair>, page: Option<nat>)
    requires i < |entries| && entries[i].0 != "page"
    requires PageLoopState(entries[..i], passthrough, page)
    ensures PageLoopState(entries[..i + 1], passthrough + [entries[i]], page)
  {
    PageQueryStep(entries[..i], entries[i]);
    assert entries[..i + 1] == entries[..i] + [entries[i]];
  }

  /** An invalid `page` pair fails the whole extraction. */
  lemma InvalidPageFails(entries: seq<Pair>, i: nat)
    requires i < |entries| && entries[i].0 == "page" && ParsePage(entries[i].1).Failure?
    ensures !ValidPages(entries)
  {
    PageQueryStep(entries[..i], entries[i]);
    assert entries[..i + 1] == entries[..i] + [entries[i]];
    InvalidPrefixFails(entries, i + 1);
  }

  /** An invalid page value anywhere makes the whole list invalid. */
  lemma InvalidPrefixFails(entries: seq<Pair>, n: nat)
    requires n <= |entries| && !ValidPages(entries[..n])
    ensures !ValidPages(entries)
  {
    assert entries == entries[..n] + entries[n..];
    ValuesOfAppend(entries[..n], entries[n..], "page");
    var vs := ValuesOf(entries[..n], "page");
    var i :| 0 <= i < |vs| && !ParsePage(vs[i]).Success?;
    assert ValuesOf(entries, "page")[i] == vs[i];
  }

  /** Neither the passthrough pairs nor the page can carry a `page` value through: extracting again
      from the passthrough finds no page and keeps every pair. */
  lemma PageQueryOfPassthrough(entries: seq<Pair>)
    requires PageQueryOf(entries).Success?
    ensures var pass := PageQueryOf(entries).value.passthrough;
            PageQueryOf(pass) == Success(PageQuery(pass, None))
  {
    var pass := RemoveName(entries, "page");
    RemoveNameValues(entries, "page", "page");
    RemoveNameTwice(entries, "page");
  }

  /** The passthrough holds every other name's values, in order. */
  lemma PageQueryPassthroughValues(entries: seq<Pair>, name: string)
    requires PageQueryOf(entries).Success?
    ensures ValuesOf(PageQueryOf(entries).value.passthrough, name) == if name == "page" then [] else ValuesOf(entries, name)
  {
    RemoveNameValues(entries, "page", name);
  }
}
