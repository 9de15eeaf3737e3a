# Planning Center aggregation layer, modelled in Dafny

The Church Microservice sits in front of the Planning Center API. It answers three kinds of request:

- the events of one group type, optionally only upcoming ones;
- the groups of one group type, or all groups open for enrollment;
- registration signups.

Each request goes through the same steps:

1. A controller validates the route parameter and the query.
2. It separates the values it consumes (`page`, and `upcoming` for events) from the "passthrough" pairs it forwards.
3. The service builds the upstream query from those pairs. Only where the caller did not set `per_page` and `offset` does it inject them, from a normalised pagination triple.
4. The service shapes the answer into an envelope. Along the way it resolves JSON:API resource linkages against `included`, enriches events with their group's detail record and image, and keeps only the groups whose enrollment is open, cut to the requested page size.

This project models each of those steps, in the form the code takes:

- **Pure parts become functions and lemmas:**
  - pagination;
  - the value parsers;
  - linkage resolution;
  - event enrichment;
  - eligibility;
  - the day-anchored timestamp.
- **Step-by-step parts become methods with loops and loop invariants**, each proved equal to a function that is then characterised by lemmas:
  - the query built on a mutable `URLSearchParams`;
  - the controllers' extraction loops;
  - `mergeIncludedResources`' copy-on-first-write loop;
  - the awaited enrollment loop.

Each network call becomes an input:

- the answer to the primary call, as an `Upstream` value;
- what each group-detail or enrollment call received, as a function from the group id text;
- the clock, as the ISO text `toISOString` printed;
- the configured page size.

The query string arrives already split into its name-value pairs, in order.

Layout (one module per file):

- `wrappers.dfy` holds Option and Result.
- `js_text.dfy` holds the ECMAScript text and `parseInt` semantics the code relies on.
- `json.dfy` holds JSON values and property access.
- `http.dfy` holds errors and upstream answers.
- `search_params.dfy` holds the URL Standard's `URLSearchParams` list and a class around it.
- `env.dfy`, `time.dfy` and `pagination.dfy` cover the configuration, the clock and the pagination triple.
- `resource_merge.dfy`, `enrichment.dfy` and `eligibility.dfy` cover the response shaping.
- `service.dfy` holds the four `fetch*` calls.
- `inbound_query.dfy` holds the inbound parsers shared by the controllers.
- `events_controller.dfy`, `groups_controller.dfy` and `signups_controller.dfy` hold the handlers.

The three controllers each carry their own copy of `parseGroupTypeId`, `parsePage` and the page-only `extractPlanningCenterQuery`. The copies have identical bodies, so each is modelled once, in `InboundQuery`. The events controller's extraction also consumes `upcoming` and is modelled separately.

## Model

| member | source | states |
|---|---|---|
| Env.NormalizeEventsPerPage | src/config/env.js:38-41 | An unset or empty value gives 3. A value whose `parseInt` is positive gives that number. A value that is NaN or ≤ 0 gives 3. The result is always ≥ 1 (its type). |
| Env.NormalizeEventsPerPageReadsBack | src/config/env.js:38-41 | Configuring the decimal text of any positive size, followed by any text that does not start with a digit, yields exactly that size. |
| Time.ToPlanningCenterTimestamp | src/utils/time.js:1-5 | The result ends in `T05:00:00Z`. What precedes that is the longest prefix of the ISO text without a `T`, and it stops at the first `T` (or at the end of the text). |
| Time.WellFormedTimestamp | src/utils/time.js:1-5 | For a `YYYY-MM-DDTHH:mm:ss.sssZ` input the result is `YYYY-MM-DD` + `T05:00:00Z`, 20 characters in all. |
| Time.SameDateSameTimestamp | src/utils/time.js:1-5 | Two instants of the same UTC calendar date give the same timestamp. |
| JsText.TrimStart | src/services/planningCenterService.js:385 | `parseInt`'s white-space skip: the result is a suffix of the input, everything dropped is white space, and the result does not start with white space. |
| JsText.TrimEnd | src/controllers/eventsController.js:27 | The trailing half of `trim`: the result is a prefix, everything dropped is white space, and the result does not end with white space. |
| JsText.TrimOfPadded | src/controllers/eventsController.js:27 | `trim` of white space around a text that neither starts nor ends with white space gives exactly that text. |
| JsText.Trim | src/controllers/eventsController.js:27 | Definition (`trim` is the trailing strip after the leading one); characterised by `JsText.TrimOfPadded` and `JsText.TrimThenLower`. |
| JsText.Split | src/utils/time.js:3 | `split` on one character: there is at least one piece, no piece contains the separator, and the first piece is the input's prefix up to the first separator. |
| JsText.SplitWithoutSeparator | src/utils/time.js:3 | A text without the separator splits into itself alone. |
| JsText.SplitAtFirst | src/controllers/eventsController.js:51 | Splitting `head + sep + tail` gives `head` followed by the pieces of `tail`. |
| JsText.DigitPrefixLength | src/services/planningCenterService.js:385 | The length of the longest all-digit prefix: the prefix is all digits and the next character is not a digit. |
| JsText.NatToString | src/services/planningCenterService.js:31 | `String(n)`: a non-empty run of digits whose decimal value is `n`. |
| JsText.ParseIntOfDigits | src/controllers/eventsController.js:41 | `parseInt` of digits followed by a non-digit tail reads the digits' value ("3abc" is 3). |
| JsText.ParseInt | src/services/planningCenterService.js:385 | Definition (`Number.parseInt(s, 10)`, section 19.2.5 of ECMA-262); characterised by `JsText.ParseIntOfDigits`, `JsText.ParseIntOfNegativeDigits`, `JsText.ParseIntOfDecimal` and `JsText.ParseIntNaN`. |
| JsText.ParseIntOfNegativeDigits | src/controllers/eventsController.js:41 | The same after a minus sign, negated. |
| JsText.ParseIntOfDecimal | src/services/planningCenterService.js:384-385 | `parseInt(String(n) + tail)` is `n` for every integer `n` and every tail that does not start with a digit. |
| JsText.ParseIntNaN | src/services/planningCenterService.js:385-387 | After the white space, no sign and no digit means NaN. |
| JsText.AsciiLower | src/controllers/eventsController.js:75 | `toLowerCase` on ASCII: same length, and every upper-case ASCII letter maps to its lower-case letter while everything else is kept. |
| JsText.AsciiLowerIdempotent | src/controllers/eventsController.js:75 | Lower-casing twice is lower-casing once. |
| JsText.LowerKeepsWhiteSpace | src/controllers/eventsController.js:75 | Lower-casing makes no character white space and keeps all white space. |
| JsText.TrimStartLower | src/controllers/eventsController.js:75 | Stripping leading white space commutes with lower-casing. |
| JsText.TrimEndLower | src/controllers/eventsController.js:75 | Stripping trailing white space commutes with lower-casing. |
| JsText.TrimThenLower | src/controllers/eventsController.js:75 | `trim().toLowerCase()` equals `toLowerCase().trim()`, for every text. |
| JsonModel.Prop | src/services/planningCenterService.js:79 | `v?.name` has a value exactly when `v` is an object with that own field, and then it is the field's value. |
| JsonModel.Coalesce | src/services/planningCenterService.js:79 | `v ?? fallback`: `v` unless it is `undefined` or `null`. |
| JsonModel.OwnProps | src/services/planningCenterService.js:608 | What `{...v}` copies: an object's own fields unchanged (arrays and strings through `IndexKeyed`). |
| JsonModel.IndexKeyed | src/services/planningCenterService.js:608 | Each element is under the decimal text of its index, and every key is such a text. |
| Http.PayloadOf | src/services/planningCenterService.js:67-78 | A payload exists exactly for an ok answer. A non-ok answer is an `HttpError` with status 502 whatever the upstream status. A transport failure propagates unchanged. |
| SearchParams.Get | src/services/planningCenterService.js:24-26 | `get` has a value exactly when the name is present, and it is the value of the first pair with that name. |
| SearchParams.ValuesOfAppend | src/services/planningCenterService.js:362-366 | Appending pairs appends their values, for every name. |
| SearchParams.GetIsFirstValue | src/services/planningCenterService.js:24-26 | `has` holds exactly when the name has a value; `get` gives the first of the values. |
| SearchParams.SetParam | src/services/planningCenterService.js:41-47 | Definition (the URL Standard's `set`: the first pair with the name rewritten, the later ones removed, or one pair appended); characterised by `SearchParams.SetParamValues`, `SearchParams.SetParamInPlace` and `SearchParams.SetParamAbsent`. |
| SearchParams.SetParamValues | src/services/planningCenterService.js:41-47 | After `set(name, v)` the name has exactly the one value `v`, and every other name keeps its values in order. |
| SearchParams.SetParamInPlace | src/services/planningCenterService.js:41-47 | `set` on a present name rewrites its first pair where it stands and keeps every pair before it. |
| SearchParams.SetParamAbsent | src/services/planningCenterService.js:41-47 | `set` on an absent name appends exactly that pair. |
| SearchParams.EnsureParam | src/services/planningCenterService.js:368-372 | The query is unchanged when the name is present; otherwise exactly `(name, value)` is appended. |
| SearchParams.EnsureParamValues | src/services/planningCenterService.js:368-372 | After `ensureSearchParam` an absent name has exactly the one value, and every other name and a present one keep their values. |
| SearchParams.RemoveNameTwice | src/controllers/groupsController.js:64-71 | Removing the consumed name twice removes no more than once. |
| SearchParams.UrlSearchParams.constructor | src/services/planningCenterService.js:17-19 | A fresh URL without a query has no pairs. |
| SearchParams.UrlSearchParams.Append | src/services/planningCenterService.js:364 | `append` adds one pair at the end and changes nothing else. |
| SearchParams.UrlSearchParams.Set | src/services/planningCenterService.js:41-47 | `set` replaces the pair list by its `set` image. |
| Pagination.CalculateOffset | src/services/planningCenterService.js:358-360 | A page's offset divided by the page size gives the page back, with no remainder. |
| Pagination.PerPageOf | src/services/planningCenterService.js:384-392 | The page size exists exactly when the raw value is valid or a page is given. Then it is the parsed value if valid, else the default. |
| Pagination.OffsetOf | src/services/planningCenterService.js:394-402 | The offset exists exactly when the raw offset is valid or a page and a size are known. Then it is the raw value if valid, else page × size. |
| Pagination.NonNegativeQuotient | src/services/planningCenterService.js:408 | `Math.floor(offset / perPage)` on a non-negative offset is the page the offset falls in: `q × perPage ≤ offset < q × perPage + perPage`, which only one `q` satisfies. |
| Pagination.NormalizePagination | src/services/planningCenterService.js:383-416 | Nothing asked for gives three `undefined`s. `perPage` is defined iff the raw value is valid or a page is given; it is then that value or the default, so always ≥ 1. A valid raw offset is used verbatim even with a page, else page × perPage; it is always ≥ 0. A given page is kept. Without one, the page exists iff offset and perPage do, and is `offset div perPage`. |
| Pagination.DerivedPageContainsOffset | src/services/planningCenterService.js:404-409 | Without a given page, the derived page is the one the offset falls in: `page × perPage ≤ offset < (page + 1) × perPage`. |
| Pagination.OffsetNeedNotMatchPage | src/services/planningCenterService.js:394-402 | A page given together with a valid raw offset keeps the raw offset. `page = 2` with `"5"` and size 3 gives offset 5, not 6. |
| Pagination.PageWithoutPageSize | src/services/planningCenterService.js:383-416 | A page alone gives the default size and offset page × default. |
| PlanningCenterService.ApplyPassthroughParams | src/services/planningCenterService.js:362-366 | Every pair is appended, in the given order, repeats kept; the earlier pairs stay. |
| PlanningCenterService.EnsureSearchParam | src/services/planningCenterService.js:368-372 | The new list is `ensureSearchParam`'s image of the old one. |
| PlanningCenterService.UpcomingEventsQuery | src/services/planningCenterService.js:17-48 | Definition (the events query as the calls on `url.searchParams` leave it); characterised by `PlanningCenterService.UpcomingEventsQueryValues` and `PlanningCenterService.UpcomingEventsQueryReadsBack`. |
| PlanningCenterService.GroupsByTypeQuery | src/services/planningCenterService.js:100-118 | Definition (the paginated passthrough); characterised by `PlanningCenterService.WithPaginationValues` and `PlanningCenterService.WithPaginationReadsBack`. |
| PlanningCenterService.AllGroupsQuery | src/services/planningCenterService.js:167-192 | Definition (the fixed pairs, the passthrough and the over-fetch); characterised by `PlanningCenterService.AllGroupsBaseValues` and `PlanningCenterService.AllGroupsOverFetch`. |
| PlanningCenterService.SignupsQuery | src/services/planningCenterService.js:275-298 | Definition (`include=event`, then the paginated passthrough); characterised by `PlanningCenterService.SignupsQueryReadsBack`. |
| PlanningCenterService.UpcomingEventsOutcome | src/services/planningCenterService.js:67-92 | Definition (the events envelope); characterised by `PlanningCenterService.FetchUpcomingEvents`, `PlanningCenterService.UpcomingEventsStartsAt` and `Enrichment.EnrichedEvent`. |
| PlanningCenterService.GroupsByTypeOutcome | src/services/planningCenterService.js:136-161 | Definition (the groups envelope); characterised by `PlanningCenterService.FetchGroupsByGroupType` and `ResourceMerge.MergedResourcesPointwise`. |
| PlanningCenterService.AllGroupsOutcome | src/services/planningCenterService.js:202-271 | Definition (the all-groups envelope); characterised by `PlanningCenterService.AllGroupsPage`. |
| PlanningCenterService.SignupsOutcome | src/services/planningCenterService.js:316-342 | Definition (the signups envelope); characterised by `PlanningCenterService.SignupsEnvelope`. |
| PlanningCenterService.FetchUpcomingEvents | src/services/planningCenterService.js:11-93 | The request goes to the group type's events address with the query `UpcomingEventsQuery` describes. The result is the 502 or transport failure of the answer, or the envelope of the normalised pagination, the `startsAt` read back from the query, the enriched events, the links, `Boolean(links.next)` and the upcoming flag. |
| PlanningCenterService.FetchGroupsByGroupType | src/services/planningCenterService.js:95-162 | The request goes to the group type's groups address with the paginated passthrough. The result is the failure of the answer or of the merge, or the envelope with the merged groups, links, `nextExist` and `included`. |
| PlanningCenterService.FetchAllGroups | src/services/planningCenterService.js:166-272 | The request carries `archived_at=null`, `include=enrollment`, the passthrough and the over-fetch. The result is the first failure (answer, merge, not iterable, null group, unreachable enrollment), or the envelope of the truncated eligible groups with offset `offset \|\| 0` and page size `perPage \|\| 6`. |
| PlanningCenterService.FetchRegistrationSignups | src/services/planningCenterService.js:274-343 | The request carries `include=event` and the paginated passthrough. The result is the failure of the answer or of the dead filter, or the envelope with the data unfiltered. |
| PlanningCenterService.WithPaginationValues | src/services/planningCenterService.js:30-36 | The derived `per_page` and `offset` are added only where the query has none; every other name keeps its values. |
| PlanningCenterService.WithPaginationReadsBack | src/services/planningCenterService.js:23-36 | The pagination normalised from the built query is the very pagination the query was built from, so the envelope reports what was sent. |
| PlanningCenterService.UpcomingEventsQueryValues | src/services/planningCenterService.js:38-48 | With `upcoming` the query has exactly one `where[starts_at][gte]`, `now`'s day-anchored timestamp, and exactly one `order=starts_at`, whatever was passed through. Otherwise a non-empty first `where[starts_at][gte]` keeps its value and its duplicates are collapsed. Every other name keeps the paginated query's values. |
| PlanningCenterService.UpcomingEventsStartsAt | src/services/planningCenterService.js:81-84 | The envelope's `startsAt` is `now`'s timestamp under `upcoming`, and the caller's first `where[starts_at][gte]` otherwise. |
| PlanningCenterService.UpcomingEventsQueryReadsBack | src/services/planningCenterService.js:23-48 | The final events query still normalises to the pagination the envelope reports. |
| PlanningCenterService.AllGroupsBaseValues | src/services/planningCenterService.js:172-174 | The fixed pairs are `archived_at=null` and then `include=enrollment`. |
| PlanningCenterService.PrefixInvisibleToPagination | src/services/planningCenterService.js:177-183 | Fixed pairs without `per_page` and `offset` change neither the pagination nor the presence of those names. |
| PlanningCenterService.AllGroupsOverFetch | src/services/planningCenterService.js:185-192 | Upstream is asked for `per_page` = 2 × (`perPage \|\| 6`) and for `offset` = `offset \|\| 0`, unless the caller sent those names, which then pass unchanged. `archived_at` and `include` read as the fixed values. |
| PlanningCenterService.SignupsQueryReadsBack | src/services/planningCenterService.js:282-298 | `include=event` is found first, and the query reads back as the reported pagination. |
| PlanningCenterService.AllGroupsPage | src/services/planningCenterService.js:254-271 | The first min(kept, requested) kept groups: exactly that many, a prefix of the kept list, which is exactly the eligible candidates in order. `pageSize` is the requested size. `nextExist` iff more were kept than requested or upstream has a next page. |
| PlanningCenterService.ArchivedFilter | src/services/planningCenterService.js:330-332 | The dead filter throws exactly when the data is not an array or holds a `null` signup. |
| PlanningCenterService.FilterUnarchived | src/services/planningCenterService.js:330-332 | A signup is in the result iff it is in the input and its `attributes.archived_on` is `null`; the result is no longer than the input. |
| PlanningCenterService.SignupsEnvelope | src/services/planningCenterService.js:316-342 | For every upstream answer: the call succeeds iff the payload exists and the discarded filter does not throw. A failing answer propagates its error and a throwing filter gives a TypeError. On success the envelope is the request's pagination, the unfiltered `data ?? []`, the links, `Boolean(links.next)` and `included ?? []`. |
| PlanningCenterService.SignupsFilterIsDiscarded | src/services/planningCenterService.js:327-342 | An archived signup is filtered out by the filter and still returned in the envelope. |
| ResourceMerge.LinkageKeyInjective | src/services/planningCenterService.js:578 | For types without `:`, the key `type:id` determines type and id. |
| ResourceMerge.LinkageKey | src/services/planningCenterService.js:578 | Definition (`${type}:${id}`); characterised by `ResourceMerge.LinkageKeyInjective`. |
| ResourceMerge.BuildLookup | src/services/planningCenterService.js:577-579 | Every included resource's key is in the lookup. |
| ResourceMerge.LookupHoldsIncluded | src/services/planningCenterService.js:577-579 | Every lookup entry is an included resource under its own key. |
| ResourceMerge.LookupFindsLast | src/services/planningCenterService.js:577-579 | For each key the lookup holds the last included resource carrying it (`Map` keeps the last pair). |
| ResourceMerge.ResolveStubs | src/services/planningCenterService.js:602-604 | At most one resource per stub, and none at all exactly when no stub is found with a truthy resource. Which resources, in which order, is `ResourceMerge.ResolveStubsAreTheResolvingOnes`. |
| ResourceMerge.ResolveStubsAllFound | src/services/planningCenterService.js:602-604 | When every stub is found, the result is the stubs' resources one for one, in stub order. |
| ResourceMerge.ResolveStubsAppend | src/services/planningCenterService.js:602-604 | Resolving a concatenation of stub lists concatenates their resolutions. |
| ResourceMerge.ResolvingIndices | src/services/planningCenterService.js:603-604 | A position is listed iff it holds a stub whose key is in the lookup with a truthy resource; the positions strictly increase. |
| ResourceMerge.ResolveStubsAreTheResolvingOnes | src/services/planningCenterService.js:602-604 | The resolved list has one element per resolving stub, and its k-th element is the lookup's resource for the k-th resolving stub: `map` then `filter(Boolean)`, order kept. |
| ResourceMerge.LinkageData | src/services/planningCenterService.js:591-599 | Linkage data exists only for a truthy object relationship value with a truthy `data` member, and it is that member. |
| ResourceMerge.ResolveRelationship | src/services/planningCenterService.js:591-622 | Without linkage data nothing is written. It fails, with a TypeError, iff the data is an array holding `null`. A single stub writes its resource iff the lookup holds a truthy resource under its key. An array writes iff some stub resolves, and then it writes `ResolveStubs` of the array. |
| ResourceMerge.Outcomes | src/services/planningCenterService.js:590 | One outcome per relationship name, each that relationship's resolution. |
| ResourceMerge.MergeItem | src/services/planningCenterService.js:581-626 | The `map` callback computes `MergedItem`. |
| ResourceMerge.WriteRelationships | src/services/planningCenterService.js:588-625 | The `forEach` over an object item computes `MergedWith`. |
| ResourceMerge.WriteLoop | src/services/planningCenterService.js:590-623 | The loop throws iff some relationship throws. It copies iff some relationship resolves, and the copy is the item's fields with every resolved relationship written under its name. |
| ResourceMerge.MergeIncludedResources | src/services/planningCenterService.js:567-627 | The method computes `MergedResources`: the primary data itself unless both lists are non-empty arrays; a TypeError for a `null` included resource or a throwing item; else every item merged. |
| ResourceMerge.MergedItem | src/services/planningCenterService.js:581-626 | Definition (one `map` callback); characterised by `ResourceMerge.MergedItemFields`, `ResourceMerge.MergeKeepsStubs` and `ResourceMerge.MergedItemIdempotent`. |
| ResourceMerge.MergedResources | src/services/planningCenterService.js:567-627 | Definition (`mergeIncludedResources`); characterised by `ResourceMerge.MergedResourcesPointwise` and `ResourceMerge.MergedResourcesIdempotent`. |
| ResourceMerge.MergedItemFields | src/services/planningCenterService.js:581-626 | An item without relationships, or with none that resolves, comes back identical. Otherwise the copy keeps every field not overwritten, holds each resolved relationship's resource under its name, and has no other field. |
| ResourceMerge.MergeKeepsStubs | src/services/planningCenterService.js:607-621 | For an item with no relationship named `relationships` (`NoSelfNamedRelationship`), the resolved resources are written beside `relationships`, which itself is unchanged. |
| ResourceMerge.MergedItemIdempotent | src/services/planningCenterService.js:581-626 | For an item with no relationship named `relationships`, merging the merged item again gives the same item. |
| ResourceMerge.MergedResourcesPointwise | src/services/planningCenterService.js:567-627 | A primary list that is not merged (either list empty or not an array) comes back as it was. Otherwise the result has the primary list's length and order, and item i is item i merged. |
| ResourceMerge.MergedResourcesIdempotent | src/services/planningCenterService.js:567-627 | For an array of items none of which has a relationship named `relationships`, merging the merged list against the same `included` changes nothing. |
| ResourceMerge.SelfNamedRelationshipNotIdempotent | src/services/planningCenterService.js:590-621 | Without that condition the merge is not idempotent. An item whose relationship `relationships` links `t:1` merges to `{relationships: R}`. Merging that again also writes `x: R`, because R's own field `x` is then read as a relationship. |
| Enrichment.ExtractGroupId | src/services/planningCenterService.js:524-526 | Only an object event can name a group. |
| Enrichment.CandidateIds | src/services/planningCenterService.js:451-453 | Exactly the non-empty string group ids of the events. |
| Enrichment.Distinct | src/services/planningCenterService.js:449-455 | `Array.from(new Set(ids))`: the same members, no repeats. |
| Enrichment.GroupIdsToFetch | src/services/planningCenterService.js:449-455 | Each non-empty string group id of the events, exactly once. |
| Enrichment.DetailMap | src/services/planningCenterService.js:461-478 | The map holds exactly the ids whose fetch succeeded, each with its fetched detail. |
| Enrichment.ImageCandidates | src/services/planningCenterService.js:551-561 | Definition (the eight reads of `attributes`, in source order); its contract gives their number, and `Enrichment.GroupImageIsFirstCandidate` characterises what is picked from them. |
| Enrichment.NonEmptyStrings | src/services/planningCenterService.js:562 | The filter keeps at most every candidate. |
| Enrichment.FirstNonEmptyString | src/services/planningCenterService.js:562-564 | The filtered list is empty iff no candidate is a non-empty string. Otherwise its head is the earliest such candidate. |
| Enrichment.ExtractGroupImage | src/services/planningCenterService.js:550-565 | A found image is a non-empty string; which one it is is `Enrichment.GroupImageIsFirstCandidate`. |
| Enrichment.GroupImageIsFirstCandidate | src/services/planningCenterService.js:550-565 | `extractGroupImage` is `null` iff no candidate is a non-empty string, else it is the first that is. |
| Enrichment.EnrichEvent | src/services/planningCenterService.js:480-500 | Definition (one `map` callback); characterised by `Enrichment.EnrichEventAgainstMap`. |
| Enrichment.EnrichEventAgainstMap | src/services/planningCenterService.js:480-500 | An event whose id is among the fetched ids is enriched exactly as its own detail says. Without a truthy detail it is unchanged. With one, the result's fields are the event's plus `groupDetails`, plus `groupImage` only when an image is found, and no others. `groupDetails` is the detail, `groupImage` the found image, and every other field keeps its value. The event's own `groupImage` is kept when no image is found. |
| Enrichment.EnrichEvents | src/services/planningCenterService.js:444-501 | Non-array input comes back as is; an array comes back as an array of the same length. What each event becomes is `Enrichment.EnrichedEvent`. |
| Enrichment.EnrichedEvent | src/services/planningCenterService.js:444-501 | No event is lost or reordered. Event i is enriched iff its own group's fetch gave a truthy detail, and otherwise comes back unchanged. Enriched means exactly the event's fields plus `groupDetails` and, only when an image is found, `groupImage`, as in `Enrichment.EnrichEventAgainstMap`. |
| Enrichment.EnrichEventReadsOwnEntry | src/services/planningCenterService.js:480-500 | An event's enrichment depends only on its own group's entry. |
| Enrichment.FailureIsIsolated | src/services/planningCenterService.js:461-500 | A failing group fetch affects only the events naming that group, which come back unchanged. |
| Eligibility.FetchGroupEnrollment | src/services/planningCenterService.js:503-521 | A non-ok answer is `{strategy: null, autoClosed: false}`. The strategy is truthy or `null`. Only a transport failure fails. |
| Eligibility.Decorated | src/services/planningCenterService.js:244-247 | `{...group, enrollmentStrategy}`: the fields are the group's own properties plus `enrollmentStrategy` and no others. `enrollmentStrategy` is the strategy and every other field keeps its value. |
| Eligibility.Candidates | src/services/planningCenterService.js:231 | `for…of` fails exactly on a non-iterable, and visits an array's elements. |
| Eligibility.Eligible | src/services/planningCenterService.js:236-243 | Definition (the three conditions of the `if`); characterised by `Eligibility.EligibleIndices` and `Eligibility.KeptGroupsAreTheEligibleOnes`. |
| Eligibility.KeptGroups | src/services/planningCenterService.js:229-249 | Definition (the loop as a fold); characterised by `Eligibility.KeptGroupsFailureSticks` and `Eligibility.KeptGroupsAreTheEligibleOnes`. |
| Eligibility.FilterEligibleGroups | src/services/planningCenterService.js:229-249 | The loop computes the fold `KeptGroups`: the first failure, or the eligible groups decorated. |
| Eligibility.KeptGroupsFailureSticks | src/services/planningCenterService.js:231-232 | A failure on a prefix is the loop's failure. |
| Eligibility.EligibleIndices | src/services/planningCenterService.js:231-243 | A position is listed iff its candidate is not `null`, its enrollment call answered, and it passes the three conditions. The positions strictly increase. |
| Eligibility.KeptGroupsAreTheEligibleOnes | src/services/planningCenterService.js:231-249 | The kept list is exactly the eligible candidates, in candidate order, each decorated with its own strategy. |
| Eligibility.RequestedPerPage | src/services/planningCenterService.js:185 | `perPage \|\| 6`. |
| Eligibility.TruncatedPage | src/services/planningCenterService.js:254-269 | The first `min(kept, requested)` kept groups, `pageSize` = requested, and `nextExist` iff more were kept than requested or upstream has a next page. |
| Eligibility.ExactlyFilled | src/services/planningCenterService.js:254-269 | Exactly `requested` kept groups: all returned, and `nextExist` is upstream's. |
| Eligibility.Overfilled | src/services/planningCenterService.js:254-269 | More kept than requested: the first `requested` of them, and `nextExist`. |
| InboundQuery.ParseGroupTypeId | src/controllers/eventsController.js:22-34 | Absent gives 400 "groupTypeId is required". It accepts exactly a trimmed text of one or more ASCII digits and returns that text; anything else is 400 "must be a positive integer". |
| InboundQuery.GroupTypeIdOfDecimal | src/controllers/groupsController.js:44-56 | Any decimal number padded with white space is accepted as its digits. |
| InboundQuery.GroupTypeIdZero | src/controllers/eventsController.js:29-33 | "0" is accepted. |
| InboundQuery.GroupTypeIdSigned | src/controllers/eventsController.js:29-31 | "-1" is refused. |
| InboundQuery.ParsePage | src/controllers/signupsController.js:18-30 | Succeeds iff `parseInt` gives a number ≥ 0, and returns that number. Otherwise 400 "page must be a non-negative integer". |
| InboundQuery.ParsePageOfDecimal | src/controllers/eventsController.js:36-48 | A page number followed by any non-digit text reads back as itself ("2.9" is 2). |
| InboundQuery.QueryStringOf | src/controllers/signupsController.js:33 | The query text never holds a `?`. |
| InboundQuery.QueryStringOfOneMark | src/controllers/groupsController.js:59 | With one `?` the query is all that follows it; without one it is empty. |
| InboundQuery.QueryStringStopsAtSecondMark | src/controllers/eventsController.js:51 | Only the text between the first and the second `?` is the query. |
| InboundQuery.LastPage | src/controllers/groupsController.js:62-68 | No `page` value means no page. |
| InboundQuery.PageQueryStep | src/controllers/signupsController.js:38-45 | One more pair: a `page` pair must parse and decides the page; any other pair is appended to the passthrough. |
| InboundQuery.LastPageStep | src/controllers/signupsController.js:39-42 | The last `page` pair decides the page. |
| InboundQuery.ExtractPlanningCenterQuery | src/controllers/groupsController.js:58-74 | The loop's result is `PageQueryOf`. Every invalid `page` fails with 400. Otherwise the passthrough is every non-`page` pair in order, with duplicates, and the page is from the last `page` value (absent without one). |
| InboundQuery.PageQueryOf | src/controllers/signupsController.js:32-48 | Definition (the page-only extraction); characterised by `InboundQuery.ExtractPlanningCenterQuery`, `InboundQuery.PageQueryStep` and `InboundQuery.PageQueryPassthroughValues`. |
| InboundQuery.InvalidPrefixFails | src/controllers/signupsController.js:38-42 | An invalid `page` anywhere fails the extraction, whatever follows. |
| InboundQuery.PageQueryOfPassthrough | src/controllers/signupsController.js:32-48 | Extracting again from the passthrough finds no page and keeps every pair, so no `page` can pass through. |
| InboundQuery.PageQueryPassthroughValues | src/controllers/groupsController.js:64-71 | The passthrough holds no `page` value, and every other name's values in order (`upcoming` included). |
| EventsController.ParseUpcoming | src/controllers/eventsController.js:74-89 | Definition (`String(v).trim().toLowerCase()`, then the word); characterised by `EventsController.UpcomingIgnoresPadding` and `EventsController.UpcomingCaseInsensitive`. |
| EventsController.UpcomingWord | src/controllers/eventsController.js:77-88 | "", "true", "1" and "yes" give true. "false", "0" and "no" give false. Anything else is the 400 "upcoming must be a boolean-like value". |
| EventsController.UpcomingIgnoresPadding | src/controllers/eventsController.js:75 | White space around a value does not change its meaning. |
| EventsController.UpcomingCaseInsensitive | src/controllers/eventsController.js:75 | Every value means what its lower-cased form means. |
| EventsController.UpcomingUpperCase | src/controllers/eventsController.js:75-79 | "TRUE" means true. |
| EventsController.UpcomingMixedCase | src/controllers/eventsController.js:75-83 | "No" means false. |
| EventsController.ExtractPlanningCenterQuery | src/controllers/eventsController.js:50-72 | The loop's result is the fold `ExtractedQuery` over the pairs with `parsePage` and `parseUpcoming`. |
| EventsController.ExtractedQuery | src/controllers/eventsController.js:50-72 | Definition (the fold with the real parsers); characterised by `EventsController.ExtractedSucceeds`, `EventsController.ExtractedPassthrough`, `EventsController.ExtractedPage` and `EventsController.ExtractedUpcoming`. |
| EventsController.ExtractStep | src/controllers/eventsController.js:57-69 | One more pair: the loop body applied to the prefix's outcome. |
| EventsController.FailureSticks | src/controllers/eventsController.js:57-66 | Once a prefix fails, the whole extraction fails the same way. |
| EventsController.ExtractedSucceeds | src/controllers/eventsController.js:57-69 | For any page and upcoming parsers, the extraction succeeds iff every `page` and every `upcoming` value parses. |
| EventsController.FirstInvalidDecides | src/controllers/eventsController.js:57-66 | The first value that does not parse decides the error, whatever follows. |
| EventsController.ExtractedPassthrough | src/controllers/eventsController.js:57-69 | The passthrough is the pairs with every `page` and `upcoming` pair removed, in order. |
| EventsController.ExtractedPassthroughValues | src/controllers/eventsController.js:57-69 | Neither `page` nor `upcoming` reaches the passthrough; every other name keeps all its values in order. |
| EventsController.LastValue | src/controllers/eventsController.js:57-66 | No last value exactly when the name is absent. |
| EventsController.LastValueStep | src/controllers/eventsController.js:57-66 | A later pair with the name becomes the last value. |
| EventsController.ExtractedPage | src/controllers/eventsController.js:54-71 | The page is the parse of the last `page` value, and undefined without one. |
| EventsController.ExtractedUpcoming | src/controllers/eventsController.js:55-71 | `upcoming` is the meaning of the last `upcoming` value, and false without one. |
| EventsController.GetUpcomingEventsByGroupType | src/controllers/eventsController.js:4-20 | A bad `groupTypeId`, then a bad query, is answered with its 400 and no upstream request. Otherwise the events call is made with the extracted page, flag and passthrough, and its outcome is returned. |
| EventsController.PageReachesUpstreamAsOffset | src/controllers/eventsController.js:4-14 | A client's `page=n` without `per_page` or `offset` reaches Planning Center as `per_page` = default and `offset` = n × default. |
| GroupsController.ListGroupsByGroupType | src/controllers/groupsController.js:8-23 | A bad `groupTypeId`, then a bad `page`, is answered with its 400 and no request. Otherwise the groups call is made with the extracted page and passthrough. |
| GroupsController.ListAllGroups | src/controllers/groupsController.js:28-41 | A bad `page` is a 400 and no request. Otherwise the all-groups call is made. |
| SignupsController.GetRegistrationSignups | src/controllers/signupsController.js:4-16 | A bad `page` is a 400 and no request. Otherwise the signups call is made. |

### Where the code does not do what its comments, messages or shape suggest (the model follows the code)

- Pagination: `normalizePagination` keeps a valid raw `offset` beside a given page (src/services/planningCenterService.js:394-402), so the offset need not be page × page size. `Pagination.OffsetNeedNotMatchPage` gives the instance page 2, offset "5", size 3.
- `groupTypeId`: the error text at src/controllers/eventsController.js:30 says "must be a positive integer". The test `/^\d+$/` on the line before it accepts any run of digits, including "0" and "007" (`InboundQuery.GroupTypeIdZero`).
- Signups: the comment at src/services/planningCenterService.js:329 says the signups are filtered to `archived_on === null`. The filtered list is never used, and line 338 returns `payload?.data ?? []` unfiltered (`PlanningCenterService.SignupsFilterIsDiscarded`, `PlanningCenterService.SignupsEnvelope`). The filter still runs, so it can still throw.
- Relationships: a resolved relationship is written as a top-level field named after the relationship (src/services/planningCenterService.js:610 and 621). The stubs under `relationships` are left as they were (`ResourceMerge.MergeKeepsStubs`).
- Idempotence: merging twice can differ from merging once. This happens when an item has a relationship itself named `relationships`: the first merge overwrites the item's `relationships` member with the resolved resource, and the second merge reads that resource's fields as relationships (`ResourceMerge.SelfNamedRelationshipNotIdempotent`). `MergedItemIdempotent`, `MergedResourcesIdempotent` and `MergeKeepsStubs` therefore hold under `NoSelfNamedRelationship`.

## Left out

- Network I/O: `fetch`, the `Authorization` and `Accept` headers and `toBasicAuthToken`'s base64 are not modelled. Every upstream answer is an input.
- `safeReadText`: the error body it reads is only logged, so it is left out.
- A body that is not JSON: the parsed body is an input, so the failure of `response.json()` is not modelled.
- Logging: `logRequest` and every `console` call are left out, because they do not affect any result.
- Concurrency: the `Promise.all` fan-out of the detail fetches is not modelled. Its result is the same detail map whatever the scheduling, and the model computes that map directly.
- URL text: the `URL` constructor, percent-encoding, and the parsing and serialisation of query text are not modelled. A request is the address plus its ordered name-value pairs.
- Inbound query parsing: the inbound query is taken as the already-split pairs. Only the choice of the query text from `req.originalUrl` is modelled (`InboundQuery.QueryStringOf`).
- Configuration loading: the `.env` reading, `process.env`, the required-variable check and the server port are left out. The configured page size is a parameter of type `Env.PosInt`, which is what `Env.NormalizeEventsPerPage` produces.
- The clock: `new Date().toISOString()` becomes the ISO text parameter `now`.
- Express plumbing: `res.json`, `next(error)`, the routes, the error middleware and `listen` are left out. A handler returns the request it would send and the `Result` it would answer with.
- `src/utils/httpError.js` is not part of this model. `HttpError` is taken to be a message plus a status, as its callers use it.
- Numbers: JSON numbers are integers, and floating point is not modelled. A number written into a query or a key is assumed below 10^21, where `String(n)` is plain decimal.
- JsText.ParseInt: does not model precision beyond 2^53 or the sign of zero. "-0" reads as 0, which `parsePage` accepts just as the code accepts `-0`.
- JsText.AsciiLower: lower-cases only ASCII letters. Beyond ASCII, only the Kelvin sign lower-cases to a single ASCII letter, and no accepted `upcoming` word contains a `k`. U+0130 lower-cases to `i` followed by a combining dot, which matches no accepted word either.
- Identity: object identity is modelled as value equality. "Returned as is" and "never mutated" are stated as equality with the input. The model cannot express the difference between a copy and the original object; it can only state equality of values.
- Property order: `Object.entries` order is not modelled, because relationships are a map. The order cannot be observed: the names are distinct, and a throwing relationship discards the copy anyway.
- JsonModel.Prop: finds only an object's own fields. None of the names the code reads is a member of the array or string prototypes.
- JsonModel.OwnProps: keys a string's characters by their position as Unicode scalar values. JavaScript keys `{...text}` by UTF-16 code unit, so the two disagree from the first character outside the Basic Multilingual Plane on. This shows in one place, `Eligibility.Decorated`, when upstream `data` is a string. `mergeIncludedResources` returns it as it is (src/services/planningCenterService.js:574), and `for…of` makes each code point a group (line 231). `{...group, enrollmentStrategy}` then gives an astral character one key per UTF-16 unit, where the model gives it one key.
- Eligibility.Candidates: iterates a string by Unicode scalar value, as `for…of` iterates code points. A lone surrogate, which `for…of` yields on its own, cannot occur in a Dafny string.
- Repeated fetches: `enrollmentOf` and `detailOf` are functions of the group id text, so the model assumes that two groups with the same id get the same answer. The loop at src/services/planningCenterService.js:232 fetches once per group, and two fetches for one id could answer differently.
- A relationship named `__proto__`: in JavaScript, `enhanced["__proto__"] = resolved` sets the copy's prototype instead of adding a field. The model writes an ordinary field. JSON:API member names may not start with `_`, so a conforming document has no such relationship.
