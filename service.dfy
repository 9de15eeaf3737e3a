/** The request-building and envelope-building parts of the Planning Center service: each `fetch*`
    builds its query step by step on a fresh `URLSearchParams`, and turns the upstream answer into the
    envelope it returns. The upstream answers, the group-detail and enrollment calls, the clock (as
    the ISO text `toISOString` printed) and the configured page size are parameters. */
module PlanningCenterService {
  import opened Wrappers
  import JsText
  import opened JsonModel
  import opened Http
  import opened SearchParams
  import Env
  import opened Pagination
  import Time
  import ResourceMerge
  import Enrichment
  import Eligibility

  const StartsAtKey := "where[starts_at][gte]"
  const ApiBase := "https://api.planningcenteronline.com"

  /** The URL one call requests: the address without its query, and the query's pairs. */
  datatype Request = Request(address: string, query: seq<Pair>)

  /** The events envelope. */
  datatype EventsEnvelope = EventsEnvelope(
    startsAt: Option<string>, page: Option<int>, offset: Option<int>, pageSize: Option<int>,
    events: Json, links: Json, nextExist: bool, upcoming: bool)

  /** The envelope of the group and signup listings. */
  datatype ListEnvelope = ListEnvelope(
    page: Option<int>, offset: Option<int>, pageSize: Option<int>,
    items: Json, links: Json, nextExist: bool, includes: Json)

  // ---- the query builders ----

  /** `applyPassthroughParams`: every pair appended, in order. */
  method ApplyPassthroughParams(url: UrlSearchParams, params: seq<Pair>)
    modifies url
    ensures url.list == old(url.list) + params
  {
    for i := 0 to |params|
      invariant url.list == old(url.list) + params[..i]
    {
      url.Append(params[i].0, params[i].1);
      assert params[..i + 1] == params[..i] + [params[i]];
    }
    assert params[..|params|] == params;
  }

  /** `ensureSearchParam`. */
  method EnsureSearchParam(url: UrlSearchParams, key: string, value: string)
    modifies url
    ensures url.list == EnsureParam(old(url.list), key, value)
  {
    if !url.HasName(key) {
      url.Set(key, value);
    }
  }

  /** The pagination the service derives from a query and the caller's page. */
  function PaginationOf(q: seq<Pair>, page: Option<nat>, defaultPerPage: Env.PosInt): PaginationState {
    NormalizePagination(Get(q, "per_page"), Get(q, "offset"), page, defaultPerPage)
  }

  /** The two `ensureSearchParam` calls for a derived page size and offset. */
  function WithPagination(q: seq<Pair>, p: PaginationState): seq<Pair> {
    var withPerPage := if p.perPage.Some? then EnsureParam(q, "per_page", JsText.IntToString(p.perPage.value)) else q;
    if p.offset.Some? then EnsureParam(withPerPage, "offset", JsText.IntToString(p.offset.value)) else withPerPage
  }

  /** The query of `fetchUpcomingEvents`. */
  function UpcomingEventsQuery(passthrough: seq<Pair>, page: Option<nat>, upcoming: bool,
                               defaultPerPage: Env.PosInt, now: string): seq<Pair> {
    var p := PaginationOf(passthrough, page, defaultPerPage);
    var startsAt := Get(passthrough, StartsAtKey);
    var q := WithPagination(passthrough, p);
    if upcoming then SetParam(SetParam(q, StartsAtKey, Time.ToPlanningCenterTimestamp(now)), "order", "starts_at")
    else if startsAt.Some? && startsAt.value != "" then SetParam(q, StartsAtKey, startsAt.value)
    else q
  }

  /** The query of `fetchGroupsByGroupType`. */
  function GroupsByTypeQuery(passthrough: seq<Pair>, page: Option<nat>, defaultPerPage: Env.PosInt): seq<Pair> {
    WithPagination(passthrough, PaginationOf(passthrough, page, defaultPerPage))
  }

  /** The fixed pairs the all-groups call starts from. */
  function AllGroupsBase(): seq<Pair> {
    SetParam(SetParam([], "archived_at", "null"), "include", "enrollment")
  }

  /** `params.offset || 0`. */
  function FinalOffset(offset: Option<int>): int {
    if offset.Some? && offset.value != 0 then offset.value else 0
  }

  /** The query of `fetchAllGroups`: twice the requested page size, at the caller's offset or 0. */
  function AllGroupsQuery(passthrough: seq<Pair>, page: Option<nat>, defaultPerPage: Env.PosInt): seq<Pair> {
    var q := AllGroupsBase() + passthrough;
    var p := PaginationOf(q, page, defaultPerPage);
    var requested := Eligibility.RequestedPerPage(p.perPage);
    EnsureParam(EnsureParam(q, "per_page", JsText.IntToString(requested * 2)), "offset", JsText.IntToString(FinalOffset(p.offset)))
  }

  /** The fixed pair the signups call starts from. */
  function SignupsBase(): seq<Pair> {
    SetParam([], "include", "event")
  }

  /** The query of `fetchRegistrationSignups`. */
  function SignupsQuery(passthrough: seq<Pair>, page: Option<nat>, defaultPerPage: Env.PosInt): seq<Pair> {
    var q := SignupsBase() + passthrough;
    WithPagination(q, PaginationOf(q, page, defaultPerPage))
  }

  // ---- the envelopes ----

  /** `payload?.data ?? []`. */
  function DataOf(payload: Json): Json {
    Coalesce(Prop(payload, "data"), JArr([]))
  }

  /** `payload?.included ?? []`. */
  function IncludedOf(payload: Json): Json {
    Coalesce(Prop(payload, "included"), JArr([]))
  }

  /** `payload?.links ?? {}`. */
  function LinksOf(payload: Json): Json {
    Coalesce(Prop(payload, "links"), JObj(map[]))
  }

  /** `Boolean(payload?.links?.next)`. */
  predicate UpstreamNext(payload: Json) {
    OptTruthy(OptProp(Prop(payload, "links"), "next"))
  }

  /** What `fetchUpcomingEvents` returns for the built query and the upstream answer. */
  function UpcomingEventsOutcome(q: seq<Pair>, p: PaginationState, upcoming: bool, response: Upstream,
                                 detailOf: string -> Upstream): Result<EventsEnvelope, Error> {
    var payload := PayloadOf(response);
    if payload.Failure? then Failure(payload.error)
    else
      var body := payload.value;
      Success(EventsEnvelope(Get(q, StartsAtKey), p.page, p.offset, p.perPage,
                             Enrichment.EnrichEvents(DataOf(body), detailOf), LinksOf(body), UpstreamNext(body), upcoming))
  }

  /** What `fetchGroupsByGroupType` returns. */
  function GroupsByTypeOutcome(p: PaginationState, response: Upstream): Result<ListEnvelope, Error> {
    var payload := PayloadOf(response);
    if payload.Failure? then Failure(payload.error)
    else
      var body := payload.value;
      var groups := ResourceMerge.MergedResources(DataOf(body), IncludedOf(body));
      if groups.Failure? then Failure(groups.error)
      else Success(ListEnvelope(p.page, p.offset, p.perPage, groups.value, LinksOf(body), UpstreamNext(body), IncludedOf(body)))
  }

  /** What `fetchAllGroups` returns: the merged candidates filtered and cut to the requested size. */
  function AllGroupsOutcome(p: PaginationState, response: Upstream, enrollmentOf: string -> Upstream): Result<ListEnvelope, Error>
    requires p.perPage.Some? ==> p.perPage.value >= 1
  {
    var payload := PayloadOf(response);
    if payload.Failure? then Failure(payload.error)
    else
      var body := payload.value;
      var requested := Eligibility.RequestedPerPage(p.perPage);
      var groups := ResourceMerge.MergedResources(DataOf(body), IncludedOf(body));
      if groups.Failure? then Failure(groups.error)
      else
        var candidates := Eligibility.Candidates(groups.value);
        if candidates.Failure? then Failure(candidates.error)
        else
          var kept := Eligibility.KeptGroups(candidates.value, enrollmentOf);
          if kept.Failure? then Failure(kept.error)
          else
            var shown := Eligibility.TruncatedPage(kept.value, requested, UpstreamNext(body));
            Success(ListEnvelope(p.page, Some(FinalOffset(p.offset)), Some(requested), JArr(shown.groups),
                                 LinksOf(body), shown.nextExist, IncludedOf(body)))
  }

  /** The signups `filter` whose result is discarded: it still throws on non-array data (no `filter`
      method) and on a `null` signup (`null.attributes`). */
  function ArchivedFilter(data: Json): (r: Result<seq<Json>, Error>)
    ensures r.Failure? <==> !data.JArr? || JNull in data.items
  {
    if !data.JArr? || JNull in data.items then Failure(TypeError)
    else Success(FilterUnarchived(data.items))
  }

  /** The signups with `attributes.archived_on === null`. */
  function FilterUnarchived(signups: seq<Json>): (r: seq<Json>)
    ensures |r| <= |signups|
    ensures forall s :: s in r <==> s in signups && OptProp(Prop(s, "attributes"), "archived_on") == Some(JNull)
  {
    if signups == [] then []
    else
      (if OptProp(Prop(signups[0], "attributes"), "archived_on") == Some(JNull) then [signups[0]] else [])
      + FilterUnarchived(signups[1..])
  }

  /** What `fetchRegistrationSignups` returns: the unfiltered data. */
  function SignupsOutcome(p: PaginationState, response: Upstream): Result<ListEnvelope, Error> {
    var payload := PayloadOf(response);
    if payload.Failure? then Failure(payload.error)
    else
      var body := payload.value;
      var filtered := ArchivedFilter(DataOf(body));
      if filtered.Failure? then Failure(filtered.error)
      else Success(ListEnvelope(p.page, p.offset, p.perPage, DataOf(body), LinksOf(body), UpstreamNext(body), IncludedOf(body)))
  }

  // ---- the calls ----

  /** `fetchUpcomingEvents`. */
  method FetchUpcomingEvents(page: Option<nat>, groupTypeId: string, upcoming: bool, passthrough: seq<Pair>,
                             defaultPerPage: Env.PosInt, now: string, response: Upstream, detailOf: string -> Upstream)
    returns (request: Request, r: Result<EventsEnvelope, Error>)
    ensures request == Request(ApiBase + "/groups/v2/group_types/" + groupTypeId + "/events",
                               UpcomingEventsQuery(passthrough, page, upcoming, defaultPerPage, now))
    ensures r == UpcomingEventsOutcome(request.query, PaginationOf(passthrough, page, defaultPerPage), upcoming, response, detailOf)
  {
    var url := new UrlSearchParams();
    ApplyPassthroughParams(url, passthrough);
    assert url.list == passthrough;
    var params := NormalizePagination(url.GetValue("per_page"), url.GetValue("offset"), page, defaultPerPage);
    var startsAt := url.GetValue(StartsAtKey);
    if params.perPage.Some? {
      EnsureSearchParam(url, "per_page", JsText.IntToString(params.perPage.value));
    }
    if params.offset.Some? {
      EnsureSearchParam(url, "offset", JsText.IntToString(params.offset.value));
    }
    assert params == PaginationOf(passthrough, page, defaultPerPage);
    assert url.list == WithPagination(passthrough, params);
    if upcoming {
      url.Set(StartsAtKey, Time.ToPlanningCenterTimestamp(now));
      url.Set("order", "starts_at");
    } else if startsAt.Some? && startsAt.value != "" {
      url.Set(StartsAtKey, startsAt.value);
    }
    assert url.list == UpcomingEventsQuery(passthrough, page, upcoming, defaultPerPage, now);
    request := Request(ApiBase + "/groups/v2/group_types/" + groupTypeId + "/events", url.list);
    var payload := PayloadOf(response);
    if payload.Failure? {
      return request, Failure(payload.error);
    }
    var events := Enrichment.EnrichEvents(DataOf(payload.value), detailOf);
    r := Success(EventsEnvelope(url.GetValue(StartsAtKey), params.page, params.offset, params.perPage,
                                events, LinksOf(payload.value), UpstreamNext(payload.value), upcoming));
  }

  /** `fetchGroupsByGroupType`. */
  method FetchGroupsByGroupType(groupTypeId: string, page: Option<nat>, passthrough: seq<Pair>,
                                defaultPerPage: Env.PosInt, response: Upstream)
    returns (request: Request, r: Result<ListEnvelope, Error>)
    ensures request == Request(ApiBase + "/groups/v2/group_types/" + groupTypeId + "/groups",
                               GroupsByTypeQuery(passthrough, page, defaultPerPage))
    ensures r == GroupsByTypeOutcome(PaginationOf(passthrough, page, defaultPerPage), response)
  {
    var url := new UrlSearchParams();
    ApplyPassthroughParams(url, passthrough);
    assert url.list == passthrough;
    var params := NormalizePagination(url.GetValue("per_page"), url.GetValue("offset"), page, defaultPerPage);
    if params.perPage.Some? {
      EnsureSearchParam(url, "per_page", JsText.IntToString(params.perPage.value));
    }
    if params.offset.Some? {
      EnsureSearchParam(url, "offset", JsText.IntToString(params.offset.value));
    }
    request := Request(ApiBase + "/groups/v2/group_types/" + groupTypeId + "/groups", url.list);
    var payload := PayloadOf(response);
    if payload.Failure? {
      return request, Failure(payload.error);
    }
    var body := payload.value;
    var groups := ResourceMerge.MergeIncludedResources(DataOf(body), IncludedOf(body));
    if groups.Failure? {
      return request, Failure(groups.error);
    }
    r := Success(ListEnvelope(params.page, params.offset, params.perPage, groups.value, LinksOf(body),
                              UpstreamNext(body), IncludedOf(body)));
  }

  /** `fetchAllGroups`. */
  method FetchAllGroups(page: Option<nat>, passthrough: seq<Pair>, defaultPerPage: Env.PosInt,
                        response: Upstream, enrollmentOf: string -> Upstream)
    returns (request: Request, r: Result<ListEnvelope, Error>)
    ensures request == Request(ApiBase + "/groups/v2/groups", AllGroupsQuery(passthrough, page, defaultPerPage))
    ensures r == AllGroupsOutcome(PaginationOf(AllGroupsBase() + passthrough, page, defaultPerPage), response, enrollmentOf)
  {
    var url := new UrlSearchParams();
    url.Set("archived_at", "null");
    url.Set("include", "enrollment");
    ApplyPassthroughParams(url, passthrough);
    var params := NormalizePagination(url.GetValue("per_page"), url.GetValue("offset"), page, defaultPerPage);
    var requested := Eligibility.RequestedPerPage(params.perPage);
    var finalPerPage := requested * 2;
    var finalOffset := FinalOffset(params.offset);
    EnsureSearchParam(url, "per_page", JsText.IntToString(finalPerPage));
    EnsureSearchParam(url, "offset", JsText.IntToString(finalOffset));
    request := Request(ApiBase + "/groups/v2/groups", url.list);
    var payload := PayloadOf(response);
    if payload.Failure? {
      return request, Failure(payload.error);
    }
    var body := payload.value;
    var groups := ResourceMerge.MergeIncludedResources(DataOf(body), IncludedOf(body));
    if groups.Failure? {
      return request, Failure(groups.error);
    }
    var candidates := Eligibility.Candidates(groups.value);
    if candidates.Failure? {
      return request, Failure(candidates.error);
    }
    var kept := Eligibility.FilterEligibleGroups(candidates.value, enrollmentOf);
    if kept.Failure? {
      return request, Failure(kept.error);
    }
    var shown := Eligibility.TruncatedPage(kept.value, requested, UpstreamNext(body));
    r := Success(ListEnvelope(params.page, Some(finalOffset), Some(requested), JArr(shown.groups),
                              LinksOf(body), shown.nextExist, IncludedOf(body)));
  }

  /** `fetchRegistrationSignups`. */
  method FetchRegistrationSignups(page: Option<nat>, passthrough: seq<Pair>, defaultPerPage: Env.PosInt, response: Upstream)
    returns (request: Request, r: Result<ListEnvelope, Error>)
    ensures request == Request(ApiBase + "/registrations/v2/signups", SignupsQuery(passthrough, page, defaultPerPage))
    ensures r == SignupsOutcome(PaginationOf(SignupsBase() + passthrough, page, defaultPerPage), response)
  {
    var url := new UrlSearchParams();
    url.Set("include", "event");
    ApplyPassthroughParams(url, passthrough);
    var params := NormalizePagination(url.GetValue("per_page"), url.GetValue("offset"), page, defaultPerPage);
    if params.perPage.Some? {
      EnsureSearchParam(url, "per_page", JsText.IntToString(params.perPage.value));
    }
    if params.offset.Some? {
      EnsureSearchParam(url, "offset", JsText.IntToString(params.offset.value));
    }
    request := Request(ApiBase + "/registrations/v2/signups", url.list);
    var payload := PayloadOf(response);
    if payload.Failure? {
      return request, Failure(payload.error);
    }
    var data := DataOf(payload.value);
    var filtered := ArchivedFilter(data);
    if filtered.Failure? {
      return request, Failure(filtered.error);
    }
    r := Success(ListEnvelope(params.page, params.offset, params.perPage, data, LinksOf(payload.value),
                              UpstreamNext(payload.value), IncludedOf(payload.value)));
  }

  // ---- what the built queries hold ----

  /** The derived page size and offset are added only where the query has none; every other name, and
      a name the query already has, keeps its values. */
  lemma WithPaginationValues(q: seq<Pair>, p: PaginationState, other: string)
    ensures ValuesOf(WithPagination(q, p), other)
            == if other == "per_page" && p.perPage.Some? && !Has(q, "per_page") then [JsText.IntToString(p.perPage.value)]
               else if other == "offset" && p.offset.Some? && !Has(q, "offset") then [JsText.IntToString(p.offset.value)]
               else ValuesOf(q, other)
  {
    var withPerPage := if p.perPage.Some? then EnsureParam(q, "per_page", JsText.IntToString(p.perPage.value)) else q;
    if p.perPage.Some? {
      EnsureParamValues(q, "per_page", JsText.IntToString(p.perPage.value), other);
      EnsureParamValues(q, "per_page", JsText.IntToString(p.perPage.value), "offset");
    }
    SameValuesSameGet(withPerPage, q, "offset");
    if p.offset.Some? {
      EnsureParamValues(withPerPage, "offset", JsText.IntToString(p.offset.value), other);
    }
  }

  /** Normalising the query the service built gives back the very pagination it was built from: the
      injected `per_page` and `offset` read back as the values they came from. */
  lemma WithPaginationReadsBack(q: seq<Pair>, page: Option<nat>, defaultPerPage: Env.PosInt)
    ensures var p := PaginationOf(q, page, defaultPerPage);
            PaginationOf(WithPagination(q, p), page, defaultPerPage) == p
  {
    var p := PaginationOf(q, page, defaultPerPage);
    var built := WithPagination(q, p);
    ReadsBackPerPage(q, p, page, defaultPerPage);
    var perPage := PerPageOf(Get(q, "per_page"), page, defaultPerPage);
    ReadsBackOffset(q, p, page, perPage);
  }

  lemma ReadsBackPerPage(q: seq<Pair>, p: PaginationState, page: Option<nat>, defaultPerPage: Env.PosInt)
    requires p == PaginationOf(q, page, defaultPerPage)
    ensures PerPageOf(Get(WithPagination(q, p), "per_page"), page, defaultPerPage) == PerPageOf(Get(q, "per_page"), page, defaultPerPage)
  {
    var built := WithPagination(q, p);
    WithPaginationValues(q, p, "per_page");
    GetIsFirstValue(q, "per_page");
    GetIsFirstValue(built, "per_page");
    if p.perPage.Some? && !Has(q, "per_page") {
      var text := JsText.IntToString(p.perPage.value);
      assert Get(built, "per_page") == Some(text);
      JsText.ParseIntOfDecimal(p.perPage.value, "");
      assert text + "" == text;
    }
  }

  lemma ReadsBackOffset(q: seq<Pair>, p: PaginationState, page: Option<nat>, perPage: Option<Env.PosInt>)
    requires p.offset == (var o := OffsetOf(Get(q, "offset"), page, perPage); if o.Some? then Some(o.value as int) else None)
    ensures OffsetOf(Get(WithPagination(q, p), "offset"), page, perPage) == OffsetOf(Get(q, "offset"), page, perPage)
  {
    var built := WithPagination(q, p);
    WithPaginationValues(q, p, "offset");
    GetIsFirstValue(q, "offset");
    GetIsFirstValue(built, "offset");
    if p.offset.Some? && !Has(q, "offset") {
      var text := JsText.IntToString(p.offset.value);
      assert Get(built, "offset") == Some(text);
      JsText.ParseIntOfDecimal(p.offset.value, "");
      assert text + "" == text;
    }
  }

  /** The upcoming filter pins `where[starts_at][gte]` to the one timestamp of `now`'s date and orders by
      `starts_at`; otherwise the first `where[starts_at][gte]`, when not empty, replaces all of its
      duplicates. Every other name keeps what the paginated query holds. */
  lemma UpcomingEventsQueryValues(passthrough: seq<Pair>, page: Option<nat>, upcoming: bool,
                                  defaultPerPage: Env.PosInt, now: string, other: string)
    ensures var q := UpcomingEventsQuery(passthrough, page, upcoming, defaultPerPage, now);
            var startsAt := Get(passthrough, StartsAtKey);
            var paginated := WithPagination(passthrough, PaginationOf(passthrough, page, defaultPerPage));
            ValuesOf(q, other)
            == if upcoming && other == StartsAtKey then [Time.ToPlanningCenterTimestamp(now)]
               else if upcoming && other == "order" then ["starts_at"]
               else if !upcoming && other == StartsAtKey && startsAt.Some? && startsAt.value != "" then [startsAt.value]
               else ValuesOf(paginated, other)
  {
    var paginated := WithPagination(passthrough, PaginationOf(passthrough, page, defaultPerPage));
    var startsAt := Get(passthrough, StartsAtKey);
    if upcoming {
      var pinned := SetParam(paginated, StartsAtKey, Time.ToPlanningCenterTimestamp(now));
      SetParamValues(paginated, StartsAtKey, Time.ToPlanningCenterTimestamp(now), other);
      SetParamValues(pinned, "order", "starts_at", other);
    } else if startsAt.Some? && startsAt.value != "" {
      SetParamValues(paginated, StartsAtKey, startsAt.value, other);
    }
  }

  /** The envelope's `startsAt` (read back from the built query) is `now`'s timestamp under the
      upcoming filter and the caller's first `where[starts_at][gte]` otherwise. */
  lemma UpcomingEventsStartsAt(passthrough: seq<Pair>, page: Option<nat>, upcoming: bool,
                               defaultPerPage: Env.PosInt, now: string)
    ensures Get(UpcomingEventsQuery(passthrough, page, upcoming, defaultPerPage, now), StartsAtKey)
            == if upcoming then Some(Time.ToPlanningCenterTimestamp(now)) else Get(passthrough, StartsAtKey)
  {
    var q := UpcomingEventsQuery(passthrough, page, upcoming, defaultPerPage, now);
    var p := PaginationOf(passthrough, page, defaultPerPage);
    UpcomingEventsQueryValues(passthrough, page, upcoming, defaultPerPage, now, StartsAtKey);
    WithPaginationValues(passthrough, p, StartsAtKey);
    GetIsFirstValue(q, StartsAtKey);
    GetIsFirstValue(passthrough, StartsAtKey);
  }

  /** The events query reads back as the pagination the service reported in its envelope. */
  lemma UpcomingEventsQueryReadsBack(passthrough: seq<Pair>, page: Option<nat>, upcoming: bool,
                                     defaultPerPage: Env.PosInt, now: string)
    ensures PaginationOf(UpcomingEventsQuery(passthrough, page, upcoming, defaultPerPage, now), page, defaultPerPage)
            == PaginationOf(passthrough, page, defaultPerPage)
  {
    var q := UpcomingEventsQuery(passthrough, page, upcoming, defaultPerPage, now);
    var paginated := WithPagination(passthrough, PaginationOf(passthrough, page, defaultPerPage));
    UpcomingEventsQueryValues(passthrough, page, upcoming, defaultPerPage, now, "per_page");
    UpcomingEventsQueryValues(passthrough, page, upcoming, defaultPerPage, now, "offset");
    SameValuesSameGet(q, paginated, "per_page");
    SameValuesSameGet(q, paginated, "offset");
    WithPaginationReadsBack(passthrough, page, defaultPerPage);
  }

  /** The fixed pairs of the all-groups call: `archived_at=null`, then `include=enrollment`. */
  lemma AllGroupsBaseValues(name: string)
    ensures ValuesOf(AllGroupsBase(), name)
            == (if name == "archived_at" then ["null"] else []) + (if name == "include" then ["enrollment"] else [])
  {
    var first := SetParam([], "archived_at", "null");
    assert first == [("archived_at", "null")];
    assert AllGroupsBase() == [("archived_at", "null"), ("include", "enrollment")];
    ValuesOfAppend([("archived_at", "null")], [("include", "enrollment")], name);
  }

  /** A fixed prefix without `per_page` and `offset` changes neither the pagination nor which of the
      two names the query has. */
  lemma PrefixInvisibleToPagination(prefix: seq<Pair>, passthrough: seq<Pair>, page: Option<nat>, defaultPerPage: Env.PosInt)
    requires ValuesOf(prefix, "per_page") == [] && ValuesOf(prefix, "offset") == []
    ensures PaginationOf(prefix + passthrough, page, defaultPerPage) == PaginationOf(passthrough, page, defaultPerPage)
    ensures Has(prefix + passthrough, "per_page") == Has(passthrough, "per_page")
    ensures Has(prefix + passthrough, "offset") == Has(passthrough, "offset")
  {
    ValuesOfAppend(prefix, passthrough, "per_page");
    ValuesOfAppend(prefix, passthrough, "offset");
    assert [] + ValuesOf(passthrough, "per_page") == ValuesOf(passthrough, "per_page");
    assert [] + ValuesOf(passthrough, "offset") == ValuesOf(passthrough, "offset");
    SameValuesSameGet(prefix + passthrough, passthrough, "per_page");
    SameValuesSameGet(prefix + passthrough, passthrough, "offset");
  }

  /** `fetchAllGroups` asks upstream for twice the requested page size (6 when none is asked for) at the
      caller's offset or 0, unless the caller sent `per_page` or `offset` itself, which then pass through
      unchanged; `get` finds `archived_at=null` and `include=enrollment` first. */
  lemma AllGroupsOverFetch(passthrough: seq<Pair>, page: Option<nat>, defaultPerPage: Env.PosInt)
    ensures var q := AllGroupsQuery(passthrough, page, defaultPerPage);
            var p := PaginationOf(passthrough, page, defaultPerPage);
            && ValuesOf(q, "per_page") == (if Has(passthrough, "per_page") then ValuesOf(passthrough, "per_page")
                                           else [JsText.IntToString(Eligibility.RequestedPerPage(p.perPage) * 2)])
            && ValuesOf(q, "offset") == (if Has(passthrough, "offset") then ValuesOf(passthrough, "offset")
                                         else [JsText.IntToString(FinalOffset(p.offset))])
            && Get(q, "archived_at") == Some("null")
            && Get(q, "include") == Some("enrollment")
  {
    var base := AllGroupsBase();
    var q0 := base + passthrough;
    var p := PaginationOf(q0, page, defaultPerPage);
    var v1 := JsText.IntToString(Eligibility.RequestedPerPage(p.perPage) * 2);
    var v2 := JsText.IntToString(FinalOffset(p.offset));
    PrefixInvisibleToPagination(base, passthrough, page, defaultPerPage);
    assert p == PaginationOf(passthrough, page, defaultPerPage);
    assert AllGroupsQuery(passthrough, page, defaultPerPage) == EnsureParam(EnsureParam(q0, "per_page", v1), "offset", v2);
    PrefixValues(passthrough, "per_page");
    PrefixValues(passthrough, "offset");
    EnsureBoth(q0, v1, v2, "per_page");
    EnsureBoth(q0, v1, v2, "offset");
    AllGroupsFixedPairs(q0, v1, v2, passthrough);
  }

  /** Behind the fixed pairs, `per_page` and `offset` have the caller's values. */
  lemma PrefixValues(passthrough: seq<Pair>, name: string)
    requires name == "per_page" || name == "offset"
    ensures ValuesOf(AllGroupsBase() + passthrough, name) == ValuesOf(passthrough, name)
  {
    AllGroupsBaseValues(name);
    ValuesOfAppend(AllGroupsBase(), passthrough, name);
    assert [] + ValuesOf(passthrough, name) == ValuesOf(passthrough, name);
  }

  /** `ensureSearchParam` for `per_page` and then for `offset`. */
  lemma EnsureBoth(q0: seq<Pair>, v1: string, v2: string, name: string)
    ensures ValuesOf(EnsureParam(EnsureParam(q0, "per_page", v1), "offset", v2), name)
            == if name == "per_page" && !Has(q0, "per_page") then [v1]
               else if name == "offset" && !Has(q0, "offset") then [v2]
               else ValuesOf(q0, name)
  {
    var q1 := EnsureParam(q0, "per_page", v1);
    EnsureParamValues(q0, "per_page", v1, name);
    EnsureParamValues(q0, "per_page", v1, "offset");
    SameValuesSameGet(q1, q0, "offset");
    EnsureParamValues(q1, "offset", v2, name);
  }

  lemma AllGroupsFixedPairs(q0: seq<Pair>, v1: string, v2: string, passthrough: seq<Pair>)
    requires q0 == AllGroupsBase() + passthrough
    ensures var q := EnsureParam(EnsureParam(q0, "per_page", v1), "offset", v2);
            Get(q, "archived_at") == Some("null") && Get(q, "include") == Some("enrollment")
  {
    var q := EnsureParam(EnsureParam(q0, "per_page", v1), "offset", v2);
    forall name | name == "archived_at" || name == "include"
      ensures ValuesOf(q, name) == ValuesOf(AllGroupsBase(), name) + ValuesOf(passthrough, name)
    {
      ValuesOfAppend(AllGroupsBase(), passthrough, name);
      EnsureBoth(q0, v1, v2, name);
    }
    AllGroupsBaseValues("archived_at");
    AllGroupsBaseValues("include");
    GetIsFirstValue(q, "archived_at");
    GetIsFirstValue(q, "include");
  }

  /** The signups query: `get` finds `include=event` first, and it reads back as the pagination the
      envelope reports. */
  lemma SignupsQueryReadsBack(passthrough: seq<Pair>, page: Option<nat>, defaultPerPage: Env.PosInt)
    ensures var q := SignupsQuery(passthrough, page, defaultPerPage);
            && Get(q, "include") == Some("event")
            && PaginationOf(q, page, defaultPerPage) == PaginationOf(passthrough, page, defaultPerPage)
  {
    var base := SignupsBase();
    assert base == [("include", "event")];
    var q0 := base + passthrough;
    var p := PaginationOf(q0, page, defaultPerPage);
    PrefixInvisibleToPagination(base, passthrough, page, defaultPerPage);
    WithPaginationReadsBack(q0, page, defaultPerPage);
    WithPaginationValues(q0, p, "include");
    ValuesOfAppend(base, passthrough, "include");
    GetIsFirstValue(SignupsQuery(passthrough, page, defaultPerPage), "include");
  }

  // ---- what the envelopes hold ----

  /** The all-groups page: the first min(kept, requested) kept groups, each an eligible candidate in
      upstream order, with `pageSize` the requested size; `nextExist` when more eligible groups were
      found than shown or upstream has a next page. */
  lemma AllGroupsPage(p: PaginationState, response: Upstream, enrollmentOf: string -> Upstream)
    requires p.perPage.Some? ==> p.perPage.value >= 1
    requires AllGroupsOutcome(p, response, enrollmentOf).Success?
    ensures var env := AllGroupsOutcome(p, response, enrollmentOf).value;
            var requested := Eligibility.RequestedPerPage(p.perPage);
            var body := PayloadOf(response).value;
            var candidates := Eligibility.Candidates(ResourceMerge.MergedResources(DataOf(body), IncludedOf(body)).value).value;
            var kept := Eligibility.KeptGroups(candidates, enrollmentOf).value;
            && env.items.JArr? && |env.items.items| <= requested
            && |env.items.items| == (if |kept| < requested then |kept| else requested)
            && env.pageSize == Some(requested)
            && env.items.items == kept[..|env.items.items|]
            && Eligibility.KeptExactly(candidates, enrollmentOf, kept)
            && (env.nextExist <==> |kept| > requested || UpstreamNext(body))
  {
    var body := PayloadOf(response).value;
    var candidates := Eligibility.Candidates(ResourceMerge.MergedResources(DataOf(body), IncludedOf(body)).value).value;
    Eligibility.KeptGroupsAreTheEligibleOnes(candidates, enrollmentOf);
  }

  /** The signups envelope, for every upstream answer: it fails exactly when the payload fails or the
      discarded filter throws, and otherwise carries the unfiltered `data` with the request's
      pagination and the payload's links and includes. */
  lemma SignupsEnvelope(p: PaginationState, response: Upstream)
    ensures var out := SignupsOutcome(p, response);
            var payload := PayloadOf(response);
            && (out.Success? <==> payload.Success? && ArchivedFilter(DataOf(payload.value)).Success?)
            && (payload.Failure? ==> out == Failure(payload.error))
            && (payload.Success? && ArchivedFilter(DataOf(payload.value)).Failure? ==> out == Failure(TypeError))
            && (out.Success? ==>
                  var body := payload.value;
                  out.value == ListEnvelope(p.page, p.offset, p.perPage, DataOf(body), LinksOf(body),
                                            UpstreamNext(body), IncludedOf(body)))
  {
  }

  /** The signups filter runs but its result is dropped: an archived signup is filtered out and still
      returned. */
  lemma SignupsFilterIsDiscarded()
    ensures var archived := JObj(map["attributes" := JObj(map["archived_on" := JStr("2024-01-01")])]);
            var response := Answered(true, 200, JObj(map["data" := JArr([archived])]));
            && FilterUnarchived([archived]) == []
            && SignupsOutcome(PaginationState(None, None, None), response).Success?
            && SignupsOutcome(PaginationState(None, None, None), response).value.items == JArr([archived])
  {
  }
}
