/** `enrichEventsWithGroupDetails`: every event that names a group gains that group's detail record
    (and a representative image), the details being fetched once per distinct group id. The fetches
    are inputs: `detailOf(id)` is what `fetchGroupDetail(id)` received. */
module Enrichment {
  import opened Wrappers
  import opened JsonModel
  import opened Http

  /** `extractGroupId`: `event?.relationships?.group?.data?.id ?? null`. */
  function ExtractGroupId(event: Json): (id: Json)
    ensures id != JNull ==> event.JObj?
  {
    Coalesce(OptProp(OptProp(OptProp(Prop(event, "relationships"), "group"), "data"), "id"), JNull)
  }

  /** A group id the fan-out fetches: a non-empty string. */
  predicate Fetchable(id: Json) {
    id.JStr? && id.s != ""
  }

  /** The fetchable ids of the events, in event order, repeats kept (the `map` and `filter`). */
  function CandidateIds(events: seq<Json>): (ids: seq<string>)
    ensures forall k :: k in ids <==> exists i :: 0 <= i < |events| && ExtractGroupId(events[i]) == JStr(k) && k != ""
  {
    if events == [] then []
    else
      var n := |events| - 1;
      var front := CandidateIds(events[..n]);
      assert forall i :: 0 <= i < n ==> events[..n][i] == events[i];
      var id := ExtractGroupId(events[n]);
      if Fetchable(id) then front + [id.s] else front
  }

  /** `Array.from(new Set(ids))`: the distinct ids in order of first occurrence. */
  function Distinct(ids: seq<string>): (d: seq<string>)
    ensures forall k :: k in d <==> k in ids
    ensures forall i, j :: 0 <= i < j < |d| ==> d[i] != d[j]
  {
    if ids == [] then []
    else
      var n := |ids| - 1;
      var front := Distinct(ids[..n]);
      assert forall k :: k in ids <==> k in ids[..n] || k == ids[n];
      if ids[n] in front then front else front + [ids[n]]
  }

  /** The ids the fan-out fetches: each fetchable id of the events exactly once. */
  function GroupIdsToFetch(events: seq<Json>): (ids: seq<string>)
    ensures forall i, j :: 0 <= i < j < |ids| ==> ids[i] != ids[j]
    ensures forall k :: k in ids <==> exists i :: 0 <= i < |events| && ExtractGroupId(events[i]) == JStr(k) && k != ""
  {
    Distinct(CandidateIds(events))
  }

  /** The detail record a group fetch produced, `None` when the fetch failed (non-ok answer or
      transport failure, both caught and logged). */
  function DetailOf(response: Upstream): Option<Json> {
    if response.Answered? && response.ok then Some(response.body) else None
  }

  /** `new Map(detailPairs.filter(...))`: the successfully fetched details by id. */
  function DetailMap(ids: seq<string>, detailOf: string -> Upstream): (m: map<string, Json>)
    ensures forall k :: k in m <==> k in ids && DetailOf(detailOf(k)).Some?
    ensures forall k :: k in m ==> m[k] == DetailOf(detailOf(k)).value
  {
    map k | k in ids && DetailOf(detailOf(k)).Some? :: DetailOf(detailOf(k)).value
  }

  /** The candidate image URLs of a group detail, in preference order: the header photo at three
      decreasing resolutions, the photo at the same three, then the two flat URL fields. */
  function ImageCandidates(detail: Json): (cs: seq<Option<Json>>)
    ensures |cs| == 8
  {
    var attributes := Coalesce(OptProp(Prop(detail, "data"), "attributes"), JObj(map[]));
    var header := Prop(attributes, "header_photo");
    var photo := Prop(attributes, "photo");
    [OptProp(header, "original"), OptProp(header, "large"), OptProp(header, "medium"),
     OptProp(photo, "original"), OptProp(photo, "large"), OptProp(photo, "medium"),
     Prop(attributes, "header_photo_url"), Prop(attributes, "photo_url")]
  }

  /** The candidate is a non-empty string (`typeof value === "string" && value.length > 0`). */
  predicate NonEmptyString(c: Option<Json>) {
    c.Some? && c.value.JStr? && c.value.s != ""
  }

  /** The `filter` over the candidates. */
  function NonEmptyStrings(cs: seq<Option<Json>>): (r: seq<string>)
    ensures |r| <= |cs|
  {
    if cs == [] then []
    else (if NonEmptyString(cs[0]) then [cs[0].value.s] else []) + NonEmptyStrings(cs[1..])
  }

  /** `extractGroupImage`: `candidates[0] ?? null` after the filter. */
  function ExtractGroupImage(detail: Json): (image: Option<string>)
    ensures image.Some? ==> image.value != ""
  {
    var found := NonEmptyStrings(ImageCandidates(detail));
    FirstNonEmptyString(ImageCandidates(detail));
    if found == [] then None else Some(found[0])
  }

  /** The filter keeps a candidate first exactly when it is the earliest non-empty string. */
  lemma {:induction false} FirstNonEmptyString(cs: seq<Option<Json>>)
    ensures NonEmptyStrings(cs) == [] <==> forall i :: 0 <= i < |cs| ==> !NonEmptyString(cs[i])
    ensures NonEmptyStrings(cs) != [] ==>
              exists i :: 0 <= i < |cs| && NonEmptyString(cs[i]) && cs[i].value.s == NonEmptyStrings(cs)[0]
                       && forall j :: 0 <= j < i ==> !NonEmptyString(cs[j])
  {
    if cs != [] {
      FirstNonEmptyString(cs[1..]);
      if !NonEmptyString(cs[0]) {
        assert forall i :: 1 <= i < |cs| ==> cs[i] == cs[1..][i - 1];
        if NonEmptyStrings(cs) != [] {
          var i :| 0 <= i < |cs[1..]| && NonEmptyString(cs[1..][i]) && cs[1..][i].value.s == NonEmptyStrings(cs[1..])[0]
                   && forall j :: 0 <= j < i ==> !NonEmptyString(cs[1..][j]);
          assert cs[i + 1] == cs[1..][i];
        }
      }
    }
  }

  /** The image is the first candidate, in preference order, that is a non-empty string. */
  lemma GroupImageIsFirstCandidate(detail: Json)
    ensures var cs := ImageCandidates(detail);
            && (ExtractGroupImage(detail).None? <==> forall i :: 0 <= i < 8 ==> !NonEmptyString(cs[i]))
            && (ExtractGroupImage(detail).Some? ==>
                  exists i :: 0 <= i < 8 && cs[i] == Some(JStr(ExtractGroupImage(detail).value))
                           && forall j :: 0 <= j < i ==> !NonEmptyString(cs[j]))
  {
    FirstNonEmptyString(ImageCandidates(detail));
  }

  /** The events `map` callback: an event whose group id has a truthy detail gets its own fields
      spread, `groupDetails` set and, when an image is found, `groupImage`; every other event is
      returned as it is. */
  function EnrichEvent(event: Json, detailMap: map<string, Json>): Json {
    var id := ExtractGroupId(event);
    if !Truthy(id) || !(id.JStr? && id.s in detailMap) then event
    else
      var detail := detailMap[id.s];
      if !Truthy(detail) then event
      else
        var image := ExtractGroupImage(detail);
        var withDetails := OwnProps(event)["groupDetails" := detail];
        JObj(if image.Some? then withDetails["groupImage" := JStr(image.value)] else withDetails)
  }

  /** `enrichEventsWithGroupDetails(events)`: a non-array or empty list, or a list naming no group, is
      returned as it is; otherwise every event is mapped through `EnrichEvent`. */
  function EnrichEvents(events: Json, detailOf: string -> Upstream): (r: Json)
    ensures !events.JArr? ==> r == events
    ensures events.JArr? ==> r.JArr? && |r.items| == |events.items|
  {
    if !events.JArr? || |events.items| == 0 then events
    else
      var ids := GroupIdsToFetch(events.items);
      if |ids| == 0 then events
      else
        var detailMap := DetailMap(ids, detailOf);
        JArr(seq(|events.items|, i requires 0 <= i < |events.items| => EnrichEvent(events.items[i], detailMap)))
  }

  /** The group detail an event receives: its group id's fetched detail, when that is truthy. */
  function ReceivedDetail(event: Json, detailOf: string -> Upstream): Option<Json> {
    var id := ExtractGroupId(event);
    if Fetchable(id) && DetailOf(detailOf(id.s)).Some? && Truthy(DetailOf(detailOf(id.s)).value)
    then DetailOf(detailOf(id.s))
    else None
  }

  /** `out` is `event` enriched with `detail`, or `event` itself when there is none: the event's
      fields plus `groupDetails` and, only when the detail yields an image, `groupImage`; every other
      field keeps its value (the event's own `groupImage` too when no image is found), and no other
      field appears. */
  predicate EnrichedAs(event: Json, out: Json, detail: Option<Json>) {
    && (detail.None? ==> out == event)
    && (detail.Some? ==>
          var image := ExtractGroupImage(detail.value);
          && event.JObj? && out.JObj?
          && out.fields.Keys == event.fields.Keys + {"groupDetails"} + (if image.Some? then {"groupImage"} else {})
          && "groupDetails" in out.fields && out.fields["groupDetails"] == detail.value
          && (image.Some? ==> "groupImage" in out.fields && out.fields["groupImage"] == JStr(image.value))
          && (forall f :: f in event.fields && f != "groupDetails" && (f != "groupImage" || image.None?)
                ==> f in out.fields && out.fields[f] == event.fields[f]))
  }

  /** One event against the detail map of a set of ids that contains its own group id. */
  lemma EnrichEventAgainstMap(event: Json, ids: seq<string>, detailOf: string -> Upstream)
    requires Fetchable(ExtractGroupId(event)) ==> ExtractGroupId(event).s in ids
    ensures EnrichedAs(event, EnrichEvent(event, DetailMap(ids, detailOf)), ReceivedDetail(event, detailOf))
  {
  }

  /** No event is lost or reordered, and event i is enriched exactly when its own group's fetch gave a
      truthy detail; otherwise it is returned unchanged. */
  lemma EnrichedEvent(events: Json, detailOf: string -> Upstream, i: nat)
    requires events.JArr? && i < |events.items|
    ensures EnrichEvents(events, detailOf).JArr? && |EnrichEvents(events, detailOf).items| == |events.items|
    ensures EnrichedAs(events.items[i], EnrichEvents(events, detailOf).items[i], ReceivedDetail(events.items[i], detailOf))
  {
    var event := events.items[i];
    var ids := GroupIdsToFetch(events.items);
    if Fetchable(ExtractGroupId(event)) {
      assert ExtractGroupId(event).s in ids;
    }
    EnrichEventAgainstMap(event, ids, detailOf);
  }

  /** An event's enrichment depends only on its own group's entry in the detail map. */
  lemma EnrichEventReadsOwnEntry(event: Json, m1: map<string, Json>, m2: map<string, Json>)
    requires var id := ExtractGroupId(event);
             Fetchable(id) ==> (id.s in m1 <==> id.s in m2) && (id.s in m1 ==> m1[id.s] == m2[id.s])
    ensures EnrichEvent(event, m1) == EnrichEvent(event, m2)
  {
  }

  /** A failed fetch only affects the events that name that group: with `bad`'s fetch failing instead
      of succeeding, every event naming another group comes out exactly as before, and the events
      naming `bad` come out unchanged. */
  lemma FailureIsIsolated(events: Json, detailOf: string -> Upstream, failing: string -> Upstream, bad: string, i: nat)
    requires events.JArr? && i < |events.items|
    requires forall k :: k != bad ==> failing(k) == detailOf(k)
    requires DetailOf(failing(bad)).None?
    ensures ExtractGroupId(events.items[i]) != JStr(bad) ==>
              EnrichEvents(events, failing).items[i] == EnrichEvents(events, detailOf).items[i]
    ensures ExtractGroupId(events.items[i]) == JStr(bad) ==> EnrichEvents(events, failing).items[i] == events.items[i]
  {
    var event := events.items[i];
    var ids := GroupIdsToFetch(events.items);
    if |ids| > 0 {
      var id := ExtractGroupId(event);
      var before := DetailMap(ids, detailOf);
      var after := DetailMap(ids, failing);
      assert EnrichEvents(events, failing).items[i] == EnrichEvent(event, after);
      assert EnrichEvents(events, detailOf).items[i] == EnrichEvent(event, before);
      if id != JStr(bad) {
        if Fetchable(id) {
          assert failing(id.s) == detailOf(id.s);
        }
        EnrichEventReadsOwnEntry(event, after, before);
      } else {
        assert bad !in after;
      }
    }
  }
}
