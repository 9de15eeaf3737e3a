/** `mergeIncludedResources`: resolving the resource-linkage stubs of a JSON:API compound document
    (the "Compound Documents" section of JSON:API 1.0) against its `included` array. Each item whose
    relationships resolve is copied once and gains one top-level field per resolved relationship. */
module ResourceMerge {
  import opened Wrappers
  import opened JsonModel
  import opened Http
  import JsText

  /** The lookup key `${v.type}:${v.id}`. */
  function LinkageKey(v: Json): string {
    TemplateString(Prop(v, "type")) + ":" + TemplateString(Prop(v, "id"))
  }

  /** For string types without ':' (JSON:API member names cannot contain one) the key determines the
      type and the id. */
  lemma LinkageKeyInjective(t1: string, i1: string, t2: string, i2: string)
    requires ':' !in t1 && ':' !in t2
    requires t1 + ":" + i1 == t2 + ":" + i2
    ensures t1 == t2 && i1 == i2
  {
    JsText.SplitAtFirst(t1, ':', i1);
    JsText.SplitAtFirst(t2, ':', i2);
    assert t1 + [':'] + i1 == t1 + ":" + i1;
    assert t2 + [':'] + i2 == t2 + ":" + i2;
    assert t1 == t2;
    assert i1 == (t1 + ":" + i1)[|t1| + 1..];
    assert i2 == (t2 + ":" + i2)[|t2| + 1..];
  }

  /** `new Map(included.map(item => [key(item), item]))`: every key of an included resource, mapped to
      the LAST resource with that key. */
  function BuildLookup(included: seq<Json>): (m: map<string, Json>)
    ensures forall i :: 0 <= i < |included| ==> LinkageKey(included[i]) in m

  {
    if included == [] then map[]
    else
      var n := |included| - 1;
      var prefix := BuildLookup(included[..n]);
      assert forall i :: 0 <= i < n ==> included[..n][i] == included[i];
      prefix[LinkageKey(included[n]) := included[n]]
  }

  /** Every entry of the lookup is an included resource under its own key. */
  lemma {:induction false} LookupHoldsIncluded(included: seq<Json>, k: string)
    requires k in BuildLookup(included)
    ensures exists i :: 0 <= i < |included| && LinkageKey(included[i]) == k && BuildLookup(included)[k] == included[i]
  {
    var n := |included| - 1;
    var prefix := included[..n];
    assert BuildLookup(included) == BuildLookup(prefix)[LinkageKey(included[n]) := included[n]];
    if k != LinkageKey(included[n]) {
      LookupHoldsIncluded(prefix, k);
      var i :| 0 <= i < |prefix| && LinkageKey(prefix[i]) == k && BuildLookup(prefix)[k] == prefix[i];
      assert included[i] == prefix[i];
    }
  }

  /** The lookup finds, for each key, the last included resource carrying it. */
  lemma {:induction false} LookupFindsLast(included: seq<Json>, i: nat)
    requires i < |included|
    requires forall j :: i < j < |included| ==> LinkageKey(included[j]) != LinkageKey(included[i])
    ensures BuildLookup(included)[LinkageKey(included[i])] == included[i]
  {
    var n := |included| - 1;
    var prefix := included[..n];
    assert BuildLookup(included) == BuildLookup(prefix)[LinkageKey(included[n]) := included[n]];
    if i < n {
      assert prefix[i] == included[i];
      assert forall j :: i < j < n ==> prefix[j] == included[j];
      LookupFindsLast(prefix, i);
      assert LinkageKey(included[n]) != LinkageKey(included[i]);
    }
  }

  /** A stub resolves when its key is in the lookup and maps to a truthy value (`.filter(Boolean)`,
      `if (resolved)`). */
  predicate Resolves(stub: Json, lookup: map<string, Json>) {
    LinkageKey(stub) in lookup && Truthy(lookup[LinkageKey(stub)])
  }

  /** `Resolves`, as a test on stubs. */
  function ResolvesIn(lookup: map<string, Json>): Json -> bool {
    stub => Resolves(stub, lookup)
  }

  /** What the lookup holds for a stub (`lookup.get(key(stub))`; `null` where it holds nothing). */
  function ResourceIn(lookup: map<string, Json>): Json -> Json {
    stub => if LinkageKey(stub) in lookup then lookup[LinkageKey(stub)] else JNull
  }

  /** `xs.map(value).filter` over the elements that pass `keep`, in order. */
  function Picked(xs: seq<Json>, keep: Json -> bool, value: Json -> Json): (r: seq<Json>)
    ensures |r| <= |xs|
    ensures r == [] <==> forall i :: 0 <= i < |xs| ==> !keep(xs[i])
  {
    if xs == [] then []
    else
      var rest := Picked(xs[1..], keep, value);
      assert forall i :: 1 <= i < |xs| ==> xs[1..][i - 1] == xs[i];
      (if keep(xs[0]) then [value(xs[0])] else []) + rest
  }

  /** The resources an array of stubs resolves to, in stub order, unmatched stubs dropped. */
  function ResolveStubs(stubs: seq<Json>, lookup: map<string, Json>): (r: seq<Json>)
    ensures |r| <= |stubs|
    ensures r == [] <==> forall i :: 0 <= i < |stubs| ==> !Resolves(stubs[i], lookup)
  {
    Picked(stubs, ResolvesIn(lookup), ResourceIn(lookup))
  }

  /** When every element passes, picking keeps them all, one for one. */
  lemma {:induction false} PickedAll(xs: seq<Json>, keep: Json -> bool, value: Json -> Json)
    requires forall i :: 0 <= i < |xs| ==> keep(xs[i])
    ensures |Picked(xs, keep, value)| == |xs|
    ensures forall i :: 0 <= i < |xs| ==> Picked(xs, keep, value)[i] == value(xs[i])
  {
    if xs != [] {
      var tail := xs[1..];
      forall i | 0 <= i < |tail| ensures keep(tail[i]) {
        assert tail[i] == xs[i + 1];
      }
      PickedAll(tail, keep, value);
      var rest := Picked(tail, keep, value);
      assert Picked(xs, keep, value) == [value(xs[0])] + rest;
      forall i | 0 <= i < |xs| ensures Picked(xs, keep, value)[i] == value(xs[i]) {
        if i > 0 {
          assert xs[i] == tail[i - 1];
        }
      }
    }
  }

  /** When every stub resolves, the resolved list is the stubs' resources one for one. */
  lemma ResolveStubsAllFound(stubs: seq<Json>, lookup: map<string, Json>)
    requires forall i :: 0 <= i < |stubs| ==> Resolves(stubs[i], lookup)
    ensures |ResolveStubs(stubs, lookup)| == |stubs|
    ensures forall i :: 0 <= i < |stubs| ==> ResolveStubs(stubs, lookup)[i] == lookup[LinkageKey(stubs[i])]
  {
    PickedAll(stubs, ResolvesIn(lookup), ResourceIn(lookup));
  }

  /** Picking from a concatenation concatenates the picks. */
  lemma {:induction false} PickedAppend(a: seq<Json>, b: seq<Json>, keep: Json -> bool, value: Json -> Json)
    ensures Picked(a + b, keep, value) == Picked(a, keep, value) + Picked(b, keep, value)
  {
    if a != [] {
      assert (a + b)[0] == a[0] && (a + b)[1..] == a[1..] + b;
      PickedAppend(a[1..], b, keep, value);
    } else {
      assert a + b == b;
    }
  }

  /** Joining two stub lists joins what they resolve to. */
  lemma ResolveStubsAppend(a: seq<Json>, b: seq<Json>, lookup: map<string, Json>)
    ensures ResolveStubs(a + b, lookup) == ResolveStubs(a, lookup) + ResolveStubs(b, lookup)
  {
    PickedAppend(a, b, ResolvesIn(lookup), ResourceIn(lookup));
  }

  /** The positions of the elements that satisfy `keep`, in increasing order. */
  function IndicesWhere(xs: seq<Json>, keep: Json -> bool): (ix: seq<nat>)
    ensures forall k :: 0 <= k < |ix| ==> ix[k] < |xs|
    ensures forall k, l :: 0 <= k < l < |ix| ==> ix[k] < ix[l]
    ensures forall i: int :: i in ix <==> 0 <= i < |xs| && keep(xs[i])
  {
    if xs == [] then []
    else
      var n := |xs| - 1;
      var front := IndicesWhere(xs[..n], keep);
      assert forall i :: 0 <= i < n ==> xs[..n][i] == xs[i];
      if keep(xs[n]) then front + [n] else front
  }

  /** The k-th pick is the value of the k-th element that passes. */
  predicate PickedExactly(xs: seq<Json>, keep: Json -> bool, value: Json -> Json, r: seq<Json>) {
    var ix := IndicesWhere(xs, keep);
    |r| == |ix| && forall k :: 0 <= k < |ix| ==> r[k] == value(xs[ix[k]])
  }

  /** Picking takes exactly the elements that pass, in order. */
  lemma {:induction false} PickedAreTheKeptOnes(xs: seq<Json>, keep: Json -> bool, value: Json -> Json)
    ensures PickedExactly(xs, keep, value, Picked(xs, keep, value))
  {
    if xs != [] {
      var n := |xs| - 1;
      var front := xs[..n];
      PickedAreTheKeptOnes(front, keep, value);
      assert xs == front + [xs[n]];
      PickedAppend(front, [xs[n]], keep, value);
      assert Picked([xs[n]], keep, value) == (if keep(xs[n]) then [value(xs[n])] else []);
      PickedExactlyStep(xs, keep, value, Picked(front, keep, value));
    }
  }

  /** One more element extends the picks exactly when it passes. */
  lemma PickedExactlyStep(xs: seq<Json>, keep: Json -> bool, value: Json -> Json, rf: seq<Json>)
    requires xs != [] && PickedExactly(xs[..|xs| - 1], keep, value, rf)
    ensures var last := xs[|xs| - 1];
            PickedExactly(xs, keep, value, rf + (if keep(last) then [value(last)] else []))
  {
    var n := |xs| - 1;
    var last := xs[n];
    var r := rf + (if keep(last) then [value(last)] else []);
    var ixf := IndicesWhere(xs[..n], keep);
    var ix := IndicesWhere(xs, keep);
    assert ix == if keep(last) then ixf + [n] else ixf;
    forall k | 0 <= k < |ix| ensures r[k] == value(xs[ix[k]]) {
      if k < |ixf| {
        assert r[k] == rf[k] && ix[k] == ixf[k];
        assert xs[..n][ixf[k]] == xs[ix[k]];
      }
    }
  }

  /** The positions of the stubs that resolve, in increasing order. */
  function ResolvingIndices(stubs: seq<Json>, lookup: map<string, Json>): (ix: seq<nat>)
    ensures forall k :: 0 <= k < |ix| ==> ix[k] < |stubs|
    ensures forall k, l :: 0 <= k < l < |ix| ==> ix[k] < ix[l]
    ensures forall i: int :: i in ix <==> 0 <= i < |stubs| && Resolves(stubs[i], lookup)
  {
    IndicesWhere(stubs, ResolvesIn(lookup))
  }

  /** `r` holds, in stub order, the resource of each stub that resolves and of no other: its k-th
      element is the resource of the k-th resolving stub. */
  predicate ResolvedExactly(stubs: seq<Json>, lookup: map<string, Json>, r: seq<Json>) {
    var ix := ResolvingIndices(stubs, lookup);
    |r| == |ix| && forall k :: 0 <= k < |ix| ==> r[k] == lookup[LinkageKey(stubs[ix[k]])]
  }

  /** The resolved list is exactly the resources of the resolving stubs, in stub order. */
  lemma ResolveStubsAreTheResolvingOnes(stubs: seq<Json>, lookup: map<string, Json>)
    ensures ResolvedExactly(stubs, lookup, ResolveStubs(stubs, lookup))
  {
    var r := ResolveStubs(stubs, lookup);
    var ix := ResolvingIndices(stubs, lookup);
    PickedAreTheKeptOnes(stubs, ResolvesIn(lookup), ResourceIn(lookup));
    forall k | 0 <= k < |ix| ensures r[k] == lookup[LinkageKey(stubs[ix[k]])] {
      assert ix[k] in ix;
    }
  }

  /** The linkage data of a relationship value: the truthy `data` member of a truthy, object-typed
      value; `None` when the relationship is skipped. */
  function LinkageData(relValue: Json): (d: Option<Json>)
    ensures d.Some? ==> Truthy(d.value) && relValue.JObj? && "data" in relValue.fields && d.value == relValue.fields["data"]
  {
    if !Truthy(relValue) || !(relValue.JObj? || relValue.JArr?) then None
    else
      var relData := Prop(relValue, "data");
      if OptTruthy(relData) then relData else None
  }

  /** One relationship value: `None` when it leaves the item alone, the resolved resource (single
      stub) or resolved list (array of stubs, at least one match) otherwise. Destructuring a `null`
      entry of an array of stubs throws. */
  function ResolveRelationship(relValue: Json, lookup: map<string, Json>): (r: Result<Option<Json>, Error>)
    // no linkage data: nothing written
    ensures LinkageData(relValue).None? ==> r == Success(None)
    // the only throw: a `null` entry in an array of stubs
    ensures r.Failure? <==> LinkageData(relValue).Some? && LinkageData(relValue).value.JArr?
                            && JNull in LinkageData(relValue).value.items
    ensures r.Failure? ==> r.error == TypeError
    // a single stub: its resource when found and truthy, else nothing
    ensures var d := LinkageData(relValue);
            d.Some? && !d.value.JArr? ==>
              r == if Resolves(d.value, lookup) then Success(Some(lookup[LinkageKey(d.value)])) else Success(None)
    // an array of stubs: written exactly when some stub resolves, as the list of resolved resources
    ensures var d := LinkageData(relValue);
            d.Some? && d.value.JArr? && r.Success? ==>
              && (r.value.Some? <==> exists i :: 0 <= i < |d.value.items| && Resolves(d.value.items[i], lookup))
              && (r.value.Some? ==> r.value.value == JArr(ResolveStubs(d.value.items, lookup)))
  {
    var data := LinkageData(relValue);
    if data.None? then Success(None)
    else if data.value.JArr? then
      var stubs := data.value.items;
      if JNull in stubs then Failure(TypeError)
      else
        var resolved := ResolveStubs(stubs, lookup);
        if |resolved| > 0 then Success(Some(JArr(resolved))) else Success(None)
    else if Resolves(data.value, lookup) then Success(Some(lookup[LinkageKey(data.value)])) else Success(None)
  }

  /** The relationships of an item as `Object.entries` lists them, when the item has a truthy
      object-typed `relationships` member. */
  function RelationshipEntries(item: Json): Option<map<string, Json>> {
    var rels := Prop(item, "relationships");
    if OptTruthy(rels) && (rels.value.JObj? || rels.value.JArr?) then Some(OwnProps(rels.value)) else None
  }

  /** What resolving each relationship gives, by relationship name. */
  function Outcomes(rels: map<string, Json>, lookup: map<string, Json>): (o: map<string, Result<Option<Json>, Error>>)
    ensures o.Keys == rels.Keys
    ensures forall name :: name in rels ==> o[name] == ResolveRelationship(rels[name], lookup)
  {
    map name | name in rels :: ResolveRelationship(rels[name], lookup)
  }

  /** Some relationship throws. */
  predicate AnyThrows(outcomes: map<string, Result<Option<Json>, Error>>) {
    exists name :: name in outcomes && outcomes[name].Failure?
  }

  /** The fields written for the relationships named in `names`: one per relationship that resolves. */
  function Written(outcomes: map<string, Result<Option<Json>, Error>>, names: set<string>): map<string, Json> {
    map name | name in names && name in outcomes && outcomes[name].Success? && outcomes[name].value.Some?
      :: outcomes[name].value.value
  }

  /** Visiting a relationship that resolves adds its field. */
  lemma WrittenStep(outcomes: map<string, Result<Option<Json>, Error>>, names: set<string>, name: string, v: Json)
    requires name in outcomes && outcomes[name] == Success(Some(v))
    ensures Written(outcomes, names + {name}) == Written(outcomes, names)[name := v]
  {
  }

  /** Visiting a relationship that resolves to nothing adds no field. */
  lemma WrittenSkip(outcomes: map<string, Result<Option<Json>, Error>>, names: set<string>, name: string)
    requires name in outcomes && outcomes[name] == Success(None)
    ensures Written(outcomes, names + {name}) == Written(outcomes, names)
  {
  }

  /** Writing one more field into the copy extends the fields written so far. */
  lemma OverrideStep(base: map<string, Json>, written: map<string, Json>, name: string, v: Json)
    ensures (base + written)[name := v] == base + written[name := v]
    ensures written[name := v] != map[]
  {
    assert name in written[name := v];
  }

  /** The item with the resolved relationships written over its fields, or itself when none resolves. */
  function MergedWith(item: Json, outcomes: map<string, Result<Option<Json>, Error>>): Result<Json, Error>
    requires item.JObj?
  {
    if AnyThrows(outcomes) then Failure(TypeError)
    else
      var updates := Written(outcomes, outcomes.Keys);
      if updates == map[] then Success(item) else Success(JObj(item.fields + updates))
  }

  /** The merged form of one primary item: unchanged when nothing resolves, else a copy of its fields
      with each resolved relationship written under the relationship's name. */
  function MergedItem(item: Json, lookup: map<string, Json>): Result<Json, Error> {
    var entries := RelationshipEntries(item);
    if entries.None? then Success(item) else MergedWith(item, Outcomes(entries.value, lookup))
  }

  /** The merged primary list: `primaryData` itself unless both lists are non-empty arrays; a `null`
      in `included` throws while building the lookup. */
  function MergedResources(primary: Json, included: Json): Result<Json, Error> {
    if !(primary.JArr? && |primary.items| > 0 && included.JArr? && |included.items| > 0) then Success(primary)
    else if JNull in included.items then Failure(TypeError)
    else
      var lookup := BuildLookup(included.items);
      if exists i :: 0 <= i < |primary.items| && MergedItem(primary.items[i], lookup).Failure? then Failure(TypeError)
      else Success(JArr(seq(|primary.items|, i requires 0 <= i < |primary.items| => MergedItem(primary.items[i], lookup).value)))
  }

  /** The body of the `primaryData.map` callback. */
  method MergeItem(item: Json, lookup: map<string, Json>) returns (r: Result<Json, Error>)
    ensures r == MergedItem(item, lookup)
  {
    var entries := RelationshipEntries(item);
    if entries.None? {
      return Success(item);
    }
    r := WriteRelationships(item, Outcomes(entries.value, lookup));
  }

  /** Moving one name from the pending to the visited names keeps them a partition of all names. */
  lemma MoveOne(pending: set<string>, visited: set<string>, all: set<string>, name: string)
    requires pending !! visited && pending + visited == all && name in pending
    ensures (pending - {name}) !! (visited + {name}) && (pending - {name}) + (visited + {name}) == all
  {
  }

  /** The `Object.entries(relationships).forEach` callback applied to an object item. */
  method WriteRelationships(item: Json, outcomes: map<string, Result<Option<Json>, Error>>) returns (r: Result<Json, Error>)
    requires item.JObj?
    ensures r == MergedWith(item, outcomes)
  {
    var threw, copied, copy := WriteLoop(item.fields, outcomes);
    if threw {
      return Failure(TypeError);
    }
    if copied {
      return Success(JObj(copy));
    }
    return Success(item);
  }

  /** The loop itself: the item's fields are copied on the first relationship that resolves, and every
      resolved relationship is written into the copy; `threw` reports a relationship that throws. */
  method WriteLoop(fields: map<string, Json>, outcomes: map<string, Result<Option<Json>, Error>>)
    returns (threw: bool, copied: bool, copy: map<string, Json>)
    ensures threw <==> AnyThrows(outcomes)
    ensures !threw ==> (copied <==> Written(outcomes, outcomes.Keys) != map[])
    ensures !threw && copied ==> copy == fields + Written(outcomes, outcomes.Keys)
  {
    copy := map[];
    copied := false;
    var pending := outcomes.Keys;
    ghost var visited: set<string> := {};
    ghost var written: map<string, Json> := map[];
    while pending != {}
      invariant pending !! visited && pending + visited == outcomes.Keys
      invariant forall name :: name in visited ==> outcomes[name].Success?
      invariant written == Written(outcomes, visited)
      invariant copied <==> written != map[]
      invariant copied ==> copy == fields + written
      decreases |pending|
    {
      var name :| name in pending;
      var outcome := outcomes[name];
      if outcome.Failure? {
        return true, copied, copy;
      }
      if outcome.value.Some? {
        var resolved := outcome.value.value;
        if !copied {
          copy := fields;
          copied := true;
          assert fields + written == fields;
        }
        OverrideStep(fields, written, name, resolved);
        copy := copy[name := resolved];
        written := written[name := resolved];
        WrittenStep(outcomes, visited, name, resolved);
      } else {
        WrittenSkip(outcomes, visited, name);
      }
      MoveOne(pending, visited, outcomes.Keys, name);
      pending := pending - {name};
      visited := visited + {name};
    }
    assert visited == outcomes.Keys;
    threw := false;
  }

  /** `mergeIncludedResources(primaryData, included)`. */
  method MergeIncludedResources(primary: Json, included: Json) returns (r: Result<Json, Error>)
    ensures r == MergedResources(primary, included)
  {
    if !(primary.JArr? && |primary.items| > 0 && included.JArr? && |included.items| > 0) {
      return Success(primary);
    }
    if JNull in included.items {
      return Failure(TypeError);
    }
    var lookup := BuildLookup(included.items);
    var items := primary.items;
    var merged: seq<Json> := [];
    for i := 0 to |items|
      invariant |merged| == i
      invariant forall j :: 0 <= j < i ==> MergedItem(items[j], lookup).Success? && merged[j] == MergedItem(items[j], lookup).value
    {
      var one := MergeItem(items[i], lookup);
      if one.Failure? {
        return Failure(TypeError);
      }
      merged := merged + [one.value];
    }
    assert merged == seq(|items|, i requires 0 <= i < |items| => MergedItem(items[i], lookup).value);
    return Success(JArr(merged));
  }

  /** A merged item keeps every field of the original that no resolved relationship overwrites, gains
      exactly the resolved relationships, and nothing else. */
  lemma MergedItemFields(item: Json, lookup: map<string, Json>)
    requires MergedItem(item, lookup).Success?
    ensures var out := MergedItem(item, lookup).value;
            var entries := RelationshipEntries(item);
            && (entries.None? ==> out == item)
            && (entries.Some? && Written(Outcomes(entries.value, lookup), entries.value.Keys) == map[] ==> out == item)
            && (entries.Some? ==>
                  && out.JObj?
                  && (forall name :: name in out.fields <==> name in item.fields || name in Written(Outcomes(entries.value, lookup), entries.value.Keys))
                  && (forall name :: name in entries.value && ResolveRelationship(entries.value[name], lookup).Success?
                        && ResolveRelationship(entries.value[name], lookup).value.Some?
                        ==> out.fields[name] == ResolveRelationship(entries.value[name], lookup).value.value)
                  && (forall name :: name in item.fields && name !in Written(Outcomes(entries.value, lookup), entries.value.Keys)
                        ==> out.fields[name] == item.fields[name]))
  {
    var entries := RelationshipEntries(item);
    if entries.Some? {
      var outcomes := Outcomes(entries.value, lookup);
      var updates := Written(outcomes, entries.value.Keys);
      assert outcomes.Keys == entries.value.Keys;
      if updates != map[] {
        assert MergedItem(item, lookup).value == JObj(item.fields + updates);
      }
    }
  }

  /** No relationship of the item is itself called "relationships" (whose resolution would overwrite the
      relationships the merge reads). */
  predicate NoSelfNamedRelationship(item: Json) {
    var entries := RelationshipEntries(item);
    entries.None? || "relationships" !in entries.value
  }

  /** The stubs stay where they were: the merge never changes an item's `relationships` member (the
      resolved resources are written beside it). */
  lemma MergeKeepsStubs(item: Json, lookup: map<string, Json>)
    requires NoSelfNamedRelationship(item)
    requires MergedItem(item, lookup).Success?
    ensures Prop(MergedItem(item, lookup).value, "relationships") == Prop(item, "relationships")
  {
    var entries := RelationshipEntries(item);
    if entries.Some? {
      var updates := Written(Outcomes(entries.value, lookup), entries.value.Keys);
      assert "relationships" !in updates;
    }
  }

  /** The counterexample below: a stub for `t:1`, the resource R it names (which has a field `x` that
      looks like a relationship), and an item whose only relationship is called "relationships". */
  const CounterStub: Json := JObj(map["type" := JStr("t"), "id" := JStr("1")])
  const CounterResource: Json := JObj(map["type" := JStr("t"), "id" := JStr("1"), "x" := JObj(map["data" := CounterStub])])
  const CounterItem: Json := JObj(map["relationships" := JObj(map["relationships" := JObj(map["data" := CounterStub])])])

  /** Without `NoSelfNamedRelationship` the merge is not idempotent. The first merge replaces the
      item's `relationships` member by R. The second then reads R's own fields as relationships and also
      writes R's field `x`. */
  lemma SelfNamedRelationshipNotIdempotent()
    ensures !NoSelfNamedRelationship(CounterItem)
    ensures MergedItem(CounterItem, BuildLookup([CounterResource])) == Success(JObj(map["relationships" := CounterResource]))
    ensures MergedItem(JObj(map["relationships" := CounterResource]), BuildLookup([CounterResource]))
            == Success(JObj(map["relationships" := CounterResource, "x" := CounterResource]))
  {
    CounterLookup();
    CounterFirstMerge();
    CounterSecondMerge();
  }

  /** When exactly one relationship resolves and none throws, exactly its field is written. */
  lemma WrittenOnlyOne(outcomes: map<string, Result<Option<Json>, Error>>, name: string, v: Json)
    requires name in outcomes && outcomes[name] == Success(Some(v))
    requires forall other :: other in outcomes && other != name ==> outcomes[other] == Success(None)
    ensures Written(outcomes, outcomes.Keys) == map[name := v]
  {
  }

  lemma CounterLookup()
    ensures LinkageKey(CounterStub) == "t:1"
    ensures BuildLookup([CounterResource]) == CounterLookupMap
  {
    assert [CounterResource][..0] == [];
    assert LinkageKey(CounterResource) == "t:1";
  }

  /** The lookup of the counterexample. */
  const CounterLookupMap: map<string, Json> := map["t:1" := CounterResource]

  lemma CounterResolutions()
    ensures ResolveRelationship(JObj(map["data" := CounterStub]), CounterLookupMap) == Success(Some(CounterResource))
    ensures ResolveRelationship(JStr("t"), CounterLookupMap) == Success(None)
    ensures ResolveRelationship(JStr("1"), CounterLookupMap) == Success(None)
  {
    CounterLookup();
  }

  lemma CounterFirstOutcomes()
    ensures RelationshipEntries(CounterItem) == Some(map["relationships" := JObj(map["data" := CounterStub])])
    ensures Outcomes(map["relationships" := JObj(map["data" := CounterStub])], CounterLookupMap)
            == map["relationships" := Success(Some(CounterResource))]
  {
    CounterResolutions();
  }

  lemma CounterSecondOutcomes()
    ensures RelationshipEntries(JObj(map["relationships" := CounterResource])) == Some(CounterResource.fields)
    ensures Outcomes(CounterResource.fields, CounterLookupMap)
            == map["type" := Success(None), "id" := Success(None), "x" := Success(Some(CounterResource))]
  {
    CounterResolutions();
  }

  lemma CounterFirstMerge()
    ensures MergedItem(CounterItem, CounterLookupMap) == Success(JObj(map["relationships" := CounterResource]))
  {
    CounterFirstOutcomes();
    var outcomes := map["relationships" := Success(Some(CounterResource))];
    WrittenOnlyOne(outcomes, "relationships", CounterResource);
    assert !AnyThrows(outcomes);
    assert CounterItem.fields + map["relationships" := CounterResource] == map["relationships" := CounterResource];
  }

  lemma CounterSecondMerge()
    ensures MergedItem(JObj(map["relationships" := CounterResource]), CounterLookupMap)
            == Success(JObj(map["relationships" := CounterResource, "x" := CounterResource]))
  {
    CounterSecondOutcomes();
    var outcomes: map<string, Result<Option<Json>, Error>> :=
      map["type" := Success(None), "id" := Success(None), "x" := Success(Some(CounterResource))];
    var once := JObj(map["relationships" := CounterResource]);
    WrittenOnlyOne(outcomes, "x", CounterResource);
    assert !AnyThrows(outcomes);
    assert "x" in map["x" := CounterResource];
    assert MergedItem(once, CounterLookupMap) == MergedWith(once, outcomes);
    assert MergedWith(once, outcomes) == Success(JObj(once.fields + map["x" := CounterResource]));
    assert once.fields + map["x" := CounterResource]
           == map["relationships" := CounterResource, "x" := CounterResource];
  }

  lemma OverrideTwice(base: map<string, Json>, updates: map<string, Json>)
    ensures (base + updates) + updates == base + updates
  {
  }

  /** Merging a merged item again changes nothing: the copy carries the same relationships, which
      resolve to the same resources. */
  lemma MergedItemIdempotent(item: Json, lookup: map<string, Json>)
    requires NoSelfNamedRelationship(item)
    requires MergedItem(item, lookup).Success?
    ensures MergedItem(MergedItem(item, lookup).value, lookup) == MergedItem(item, lookup)
  {
    var entries := RelationshipEntries(item);
    if entries.Some? {
      var outcomes := Outcomes(entries.value, lookup);
      var updates := Written(outcomes, outcomes.Keys);
      if updates != map[] {
        var out := JObj(item.fields + updates);
        assert "relationships" !in updates;
        assert Prop(out, "relationships") == Prop(item, "relationships");
        assert RelationshipEntries(out) == entries;
        OverrideTwice(item.fields, updates);
      }
    }
  }

  /** The merged list has the primary list's length and order: item i of the result is item i merged;
      unless both lists are non-empty arrays the primary data comes back as it was. */
  lemma MergedResourcesPointwise(primary: Json, included: Json)
    requires MergedResources(primary, included).Success?
    ensures var r := MergedResources(primary, included).value;
            && (!(primary.JArr? && |primary.items| > 0 && included.JArr? && |included.items| > 0) ==> r == primary)
            && (primary.JArr? ==> r.JArr? && |r.items| == |primary.items|)
            && (primary.JArr? && included.JArr? && |included.items| > 0 ==>
                  forall i :: 0 <= i < |primary.items| ==>
                    MergedItem(primary.items[i], BuildLookup(included.items)) == Success(r.items[i]))
  {
  }

  /** The whole merge is idempotent for items without a self-named relationship. */
  lemma MergedResourcesIdempotent(primary: Json, included: Json)
    requires primary.JArr? && forall i :: 0 <= i < |primary.items| ==> NoSelfNamedRelationship(primary.items[i])
    requires MergedResources(primary, included).Success?
    ensures MergedResources(MergedResources(primary, included).value, included) == MergedResources(primary, included)
  {
    var r := MergedResources(primary, included).value;
    if primary.JArr? && |primary.items| > 0 && included.JArr? && |included.items| > 0 {
      var lookup := BuildLookup(included.items);
      forall i | 0 <= i < |primary.items|
        ensures MergedItem(r.items[i], lookup) == Success(r.items[i])
      {
        MergedItemIdempotent(primary.items[i], lookup);
      }
      assert r.items == seq(|r.items|, i requires 0 <= i < |r.items| => MergedItem(r.items[i], lookup).value);
    }
  }
}
