/** The events controller: `upcoming` parsing, the extraction of the Planning Center query that
    also takes `upcoming` out, and the handler that validates the request before anything is asked of
    Planning Center. */
module EventsController {
  import opened Wrappers
  import opened JsText
  import opened Http
  import opened SearchParams
  import opened InboundQuery
  import Env
  import Pagination
  import PlanningCenterService

  const UpcomingMalformed := HttpError("upcoming must be a boolean-like value (true/false)", 400)

  /** The meaning of a trimmed, lower-cased `upcoming` value: "", "true", "1" and "yes" mean true,
      "false", "0" and "no" mean false, and anything else is refused. */
  function UpcomingWord(v: string): (r: Result<bool, Error>)
    ensures r == Success(true) <==> v == "" || v == "true" || v == "1" || v == "yes"
    ensures r == Success(false) <==> v == "false" || v == "0" || v == "no"
    ensures r.Failure? ==> r.error == UpcomingMalformed
  {
    if v == "" || v == "true" || v == "1" || v == "yes" then Success(true)
    else if v == "false" || v == "0" || v == "no" then Success(false)
    else Failure(UpcomingMalformed)
  }

  /** `parseUpcoming`: the value trimmed and lower-cased, then read as a word. */
  function ParseUpcoming(raw: string): Result<bool, Error> {
    UpcomingWord(AsciiLower(Trim(raw)))
  }

  /** White space around a value does not change what it means. */
  lemma UpcomingIgnoresPadding(before: string, core: string, after: string)
    requires AllWhiteSpace(before) && AllWhiteSpace(after)
    requires core == [] || (!IsWhiteSpace(core[0]) && !IsWhiteSpace(core[|core| - 1]))
    ensures ParseUpcoming(before + core + after) == ParseUpcoming(core)
  {
    var padded := before + core + after;
    TrimOfPadded(before, core, after);
    assert Trim(padded) == core;
    TrimOfPadded("", core, "");
    assert "" + core + "" == core;
    assert Trim(core) == core;
    assert ParseUpcoming(padded) == UpcomingWord(AsciiLower(core)) == ParseUpcoming(core);
  }

  /** Case does not matter: a value means what its lower-cased form means. */
  lemma UpcomingCaseInsensitive(raw: string)
    ensures ParseUpcoming(AsciiLower(raw)) == ParseUpcoming(raw)
  {
    TrimThenLower(raw);
    AsciiLowerIdempotent(Trim(raw));
  }

  /** Upper case is read as lower case. */
  lemma UpcomingUpperCase()
    ensures ParseUpcoming("TRUE") == Success(true)
  {
    TrimOfPadded("", "TRUE", "");
    assert "" + "TRUE" + "" == "TRUE";
    var lower := AsciiLower("TRUE");
    assert lower == "true";
  }

  lemma UpcomingMixedCase()
    ensures ParseUpcoming("No") == Success(false)
  {
    TrimOfPadded("", "No", "");
    assert "" + "No" + "" == "No";
    var lower := AsciiLower("No");
    assert lower == "no";
  }

  /** What the events extraction returns. */
  datatype EventsQuery = EventsQuery(passthrough: seq<Pair>, page: Option<nat>, upcoming: bool)

  /** One turn of the extraction loop: a `page` or `upcoming` pair is parsed (and fails the request
      when malformed), any other pair passes through. The two parsers are parameters so that the
      lemmas below hold whatever they compute (`ExtractedQuery` supplies the real ones). */
  function Absorb(acc: EventsQuery, p: Pair, parsePage: string -> Result<nat, Error>,
                  parseUpcoming: string -> Result<bool, Error>): Result<EventsQuery, Error> {
    if p.0 == "page" then
      var parsed := parsePage(p.1);
      if parsed.Failure? then Failure(parsed.error) else Success(acc.(page := Some(parsed.value)))
    else if p.0 == "upcoming" then
      var parsed := parseUpcoming(p.1);
      if parsed.Failure? then Failure(parsed.error) else Success(acc.(upcoming := parsed.value))
    else Success(acc.(passthrough := acc.passthrough + [p]))
  }

  /** A fold of `Absorb` over the pairs in order; the first failure ends it. */
  function ExtractedBy(entries: seq<Pair>, parsePage: string -> Result<nat, Error>,
                       parseUpcoming: string -> Result<bool, Error>): Result<EventsQuery, Error>
    decreases |entries|
  {
    if entries == [] then Success(EventsQuery([], None, false))
    else
      var front := ExtractedBy(entries[..|entries| - 1], parsePage, parseUpcoming);
      if front.Failure? then front else Absorb(front.value, entries[|entries| - 1], parsePage, parseUpcoming)
  }

  /** The events `extractPlanningCenterQuery` as a function of the pairs. */
  function ExtractedQuery(entries: seq<Pair>): Result<EventsQuery, Error> {
    ExtractedBy(entries, ParsePage, ParseUpcoming)
  }

  /** The events `extractPlanningCenterQuery`. */
  method ExtractPlanningCenterQuery(entries: seq<Pair>) returns (r: Result<EventsQuery, Error>)
    ensures r == ExtractedQuery(entries)
  {
    var passthrough: seq<Pair> := [];
    var page: Option<nat> := None;
    var upcoming := false;
    for i := 0 to |entries|
      invariant ExtractedQuery(entries[..i]) == Success(EventsQuery(passthrough, page, upcoming))
    {
      ExtractStep(entries, i, ParsePage, ParseUpcoming);
      if entries[i].0 == "page" {
        var parsed := ParsePage(entries[i].1);
        if parsed.Failure? {
          FailureSticks(entries, i + 1, ParsePage, ParseUpcoming);
          return Failure(parsed.error);
        }
        page := Some(parsed.value);
      } else if entries[i].0 == "upcoming" {
        var parsed := ParseUpcoming(entries[i].1);
        if parsed.Failure? {
          FailureSticks(entries, i + 1, ParsePage, ParseUpcoming);
          return Failure(parsed.error);
        }
        upcoming := parsed.value;
      } else {
        passthrough := passthrough + [entries[i]];
      }
    }
    assert entries[..|entries|] == entries;
    r := Success(EventsQuery(passthrough, page, upcoming));
  }

  lemma ExtractStep(entries: seq<Pair>, i: nat, parsePage: string -> Result<nat, Error>,
                    parseUpcoming: string -> Result<bool, Error>)
    requires i < |entries|
    ensures var front := ExtractedBy(entries[..i], parsePage, parseUpcoming);
            ExtractedBy(entries[..i + 1], parsePage, parseUpcoming)
            == if front.Failure? then front else Absorb(front.value, entries[i], parsePage, parseUpcoming)
  {
    assert entries[..i + 1][..i] == entries[..i];
  }

  /** Once a prefix has failed, the whole list fails the same way. */
  lemma {:induction false} FailureSticks(entries: seq<Pair>, n: nat, parsePage: string -> Result<nat, Error>,
                                         parseUpcoming: string -> Result<bool, Error>)
    requires n <= |entries| && ExtractedBy(entries[..n], parsePage, parseUpcoming).Failure?
    ensures ExtractedBy(entries, parsePage, parseUpcoming) == ExtractedBy(entries[..n], parsePage, parseUpcoming)
    decreases |entries|
  {
    if n == |entries| {
      assert entries[..n] == entries;
    } else {
      var front := entries[..|entries| - 1];
      assert front[..n] == entries[..n];
      FailureSticks(front, n, parsePage, parseUpcoming);
    }
  }

  /** A pair the loop accepts. */
  predicate EntryValid(p: Pair, parsePage: string -> Result<nat, Error>, parseUpcoming: string -> Result<bool, Error>) {
    (p.0 == "page" ==> parsePage(p.1).Success?) && (p.0 == "upcoming" ==> parseUpcoming(p.1).Success?)
  }

  /** The extraction succeeds exactly when every `page` and `upcoming` value parses. */
  lemma {:induction false} ExtractedSucceeds(entries: seq<Pair>, parsePage: string -> Result<nat, Error>,
                                             parseUpcoming: string -> Result<bool, Error>)
    ensures ExtractedBy(entries, parsePage, parseUpcoming).Success?
            <==> forall i :: 0 <= i < |entries| ==> EntryValid(entries[i], parsePage, parseUpcoming)
    decreases |entries|
  {
    if entries != [] {
      var front := entries[..|entries| - 1];
      ExtractedSucceeds(front, parsePage, parseUpcoming);
      assert forall i :: 0 <= i < |front| ==> front[i] == entries[i];
    }
  }

  /** The first value that does not parse decides the error, whatever follows it. */
  lemma FirstInvalidDecides(entries: seq<Pair>, i: nat, parsePage: string -> Result<nat, Error>,
                            parseUpcoming: string -> Result<bool, Error>)
    requires i < |entries| && !EntryValid(entries[i], parsePage, parseUpcoming)
    requires forall j :: 0 <= j < i ==> EntryValid(entries[j], parsePage, parseUpcoming)
    ensures ExtractedBy(entries, parsePage, parseUpcoming)
            == Failure(if entries[i].0 == "page" then parsePage(entries[i].1).error else parseUpcoming(entries[i].1).error)
  {
    var front := entries[..i];
    assert ExtractedBy(front, parsePage, parseUpcoming).Success? by {
      forall j | 0 <= j < |front| ensures EntryValid(front[j], parsePage, parseUpcoming) {
        assert front[j] == entries[j];
      }
      ExtractedSucceeds(front, parsePage, parseUpcoming);
    }
    ExtractStep(entries, i, parsePage, parseUpcoming);
    FailureSticks(entries, i + 1, parsePage, parseUpcoming);
  }

  /** The passthrough is every pair but the `page` and `upcoming` ones, in order. */
  lemma {:induction false} ExtractedPassthrough(entries: seq<Pair>, parsePage: string -> Result<nat, Error>,
                                                parseUpcoming: string -> Result<bool, Error>)
    requires ExtractedBy(entries, parsePage, parseUpcoming).Success?
    ensures ExtractedBy(entries, parsePage, parseUpcoming).value.passthrough
            == RemoveName(RemoveName(entries, "page"), "upcoming")
    decreases |entries|
  {
    if entries != [] {
      var front := entries[..|entries| - 1];
      var p := entries[|entries| - 1];
      ExtractedPassthrough(front, parsePage, parseUpcoming);
      assert entries == front + [p];
      PassthroughStep(front, p);
    }
  }

  lemma PassthroughStep(front: seq<Pair>, p: Pair)
    ensures RemoveName(RemoveName(front + [p], "page"), "upcoming")
            == RemoveName(RemoveName(front, "page"), "upcoming") + (if p.0 == "page" || p.0 == "upcoming" then [] else [p])
  {
    RemoveNameAppend(front, [p], "page");
    RemoveNameAppend(RemoveName(front, "page"), RemoveName([p], "page"), "upcoming");
  }

  /** Neither `page` nor `upcoming` reaches Planning Center; every other name keeps its values. */
  lemma ExtractedPassthroughValues(entries: seq<Pair>, name: string)
    requires ExtractedQuery(entries).Success?
    ensures ValuesOf(ExtractedQuery(entries).value.passthrough, name)
            == if name == "page" || name == "upcoming" then [] else ValuesOf(entries, name)
  {
    ExtractedPassthrough(entries, ParsePage, ParseUpcoming);
    RemoveNameValues(entries, "page", name);
    RemoveNameValues(RemoveName(entries, "page"), "upcoming", name);
  }

  /** The last value of a name, `None` when it has none. */
  function LastValue(entries: seq<Pair>, name: string): (v: Option<string>)
    ensures v.None? <==> !Has(entries, name)
  {
    var vs := ValuesOf(entries, name);
    GetIsFirstValue(entries, name);
    if vs == [] then None else Some(vs[|vs| - 1])
  }

  lemma LastValueStep(entries: seq<Pair>, p: Pair, name: string)
    ensures LastValue(entries + [p], name) == if p.0 == name then Some(p.1) else LastValue(entries, name)
  {
    ValuesOfSnoc(entries, p, name);
    if p.0 == name {
      var ws := ValuesOf(entries + [p], name);
      assert ws[|ws| - 1] == p.1;
    }
  }

  /** The page is that of the last `page` value (the last one wins), none without one. */
  lemma {:induction false} ExtractedPage(entries: seq<Pair>, parsePage: string -> Result<nat, Error>,
                                         parseUpcoming: string -> Result<bool, Error>)
    requires ExtractedBy(entries, parsePage, parseUpcoming).Success?
    ensures var last := LastValue(entries, "page"); last.Some? ==> parsePage(last.value).Success?
    ensures var last := LastValue(entries, "page");
            ExtractedBy(entries, parsePage, parseUpcoming).value.page
            == if last.None? then None else Some(parsePage(last.value).value)
    decreases |entries|
  {
    if entries != [] {
      var front := entries[..|entries| - 1];
      var p := entries[|entries| - 1];
      ExtractedPage(front, parsePage, parseUpcoming);
      assert entries == front + [p];
      LastValueStep(front, p, "page");
    }
  }

  /** The `upcoming` flag is the meaning of the last `upcoming` value (the last one wins), false
      without one. */
  lemma {:induction false} ExtractedUpcoming(entries: seq<Pair>, parsePage: string -> Result<nat, Error>,
                                             parseUpcoming: string -> Result<bool, Error>)
    requires ExtractedBy(entries, parsePage, parseUpcoming).Success?
    ensures var last := LastValue(entries, "upcoming"); last.Some? ==> parseUpcoming(last.value).Success?
    ensures var last := LastValue(entries, "upcoming");
            ExtractedBy(entries, parsePage, parseUpcoming).value.upcoming
            == (last.Some? && parseUpcoming(last.value).value)
    decreases |entries|
  {
    if entries != [] {
      var front := entries[..|entries| - 1];
      var p := entries[|entries| - 1];
      ExtractedUpcoming(front, parsePage, parseUpcoming);
      assert entries == front + [p];
      LastValueStep(front, p, "upcoming");
    }
  }

  /** `getUpcomingEventsByGroupType`: a malformed `groupTypeId`, then a malformed query, is answered
      with its 400 before Planning Center is asked anything; otherwise the service call is made with
      the extracted page, `upcoming` flag and passthrough pairs. */
  method GetUpcomingEventsByGroupType(groupTypeIdRaw: Option<string>, entries: seq<Pair>, defaultPerPage: Env.PosInt,
                                      now: string, response: Upstream, detailOf: string -> Upstream)
    returns (request: Option<PlanningCenterService.Request>, r: Result<PlanningCenterService.EventsEnvelope, Error>)
    ensures ParseGroupTypeId(groupTypeIdRaw).Failure? ==>
              request.None? && r == Failure(ParseGroupTypeId(groupTypeIdRaw).error)
    ensures ParseGroupTypeId(groupTypeIdRaw).Success? && ExtractedQuery(entries).Failure? ==>
              request.None? && r == Failure(ExtractedQuery(entries).error)
    ensures ParseGroupTypeId(groupTypeIdRaw).Success? && ExtractedQuery(entries).Success? ==>
              var q := ExtractedQuery(entries).value;
              && request == Some(PlanningCenterService.Request(
                   PlanningCenterService.ApiBase + "/groups/v2/group_types/" + ParseGroupTypeId(groupTypeIdRaw).value + "/events",
                   PlanningCenterService.UpcomingEventsQuery(q.passthrough, q.page, q.upcoming, defaultPerPage, now)))
              && r == PlanningCenterService.UpcomingEventsOutcome(request.value.query,
                   PlanningCenterService.PaginationOf(q.passthrough, q.page, defaultPerPage), q.upcoming, response, detailOf)
  {
    var groupTypeId := ParseGroupTypeId(groupTypeIdRaw);
    if groupTypeId.Failure? {
      return None, Failure(groupTypeId.error);
    }
    var query := ExtractPlanningCenterQuery(entries);
    if query.Failure? {
      return None, Failure(query.error);
    }
    var sent;
    sent, r := PlanningCenterService.FetchUpcomingEvents(query.value.page, groupTypeId.value, query.value.upcoming,
                                                        query.value.passthrough, defaultPerPage, now, response, detailOf);
    request := Some(sent);
  }

  /** A client's `page=n` with no page size or offset of its own reaches Planning Center as
      `per_page` = the configured default and `offset` = n × default. */
  lemma PageReachesUpstreamAsOffset(entries: seq<Pair>, n: nat, defaultPerPage: Env.PosInt, now: string)
    requires ExtractedQuery(entries).Success? && ExtractedQuery(entries).value.page == Some(n)
    requires !Has(entries, "per_page") && !Has(entries, "offset")
    ensures var q := ExtractedQuery(entries).value;
            var sent := PlanningCenterService.UpcomingEventsQuery(q.passthrough, q.page, q.upcoming, defaultPerPage, now);
            && ValuesOf(sent, "per_page") == [IntToString(defaultPerPage)]
            && ValuesOf(sent, "offset") == [IntToString(n * defaultPerPage)]
  {
    var q := ExtractedQuery(entries).value;
    ExtractedPassthroughValues(entries, "per_page");
    ExtractedPassthroughValues(entries, "offset");
    GetIsFirstValue(entries, "per_page");
    GetIsFirstValue(entries, "offset");
    GetIsFirstValue(q.passthrough, "per_page");
    GetIsFirstValue(q.passthrough, "offset");
    var p := PlanningCenterService.PaginationOf(q.passthrough, q.page, defaultPerPage);
    Pagination.PageWithoutPageSize(n, defaultPerPage);
    PlanningCenterService.UpcomingEventsQueryValues(q.passthrough, q.page, q.upcoming, defaultPerPage, now, "per_page");
    PlanningCenterService.UpcomingEventsQueryValues(q.passthrough, q.page, q.upcoming, defaultPerPage, now, "offset");
    PlanningCenterService.WithPaginationValues(q.passthrough, p, "per_page");
    PlanningCenterService.WithPaginationValues(q.passthrough, p, "offset");
  }
}
