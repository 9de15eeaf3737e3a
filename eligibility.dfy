/** The tail of `fetchAllGroups`: every candidate group's enrollment is fetched in candidate order,
    the eligible groups are kept (decorated with their strategy), and the kept list is cut to the
    requested page size. The enrollment fetches are inputs: `enrollmentOf(id)` is what the call for
    the group id text `id` received. */
module Eligibility {
  import opened Wrappers
  import opened JsonModel
  import opened Http

  /** What `fetchGroupEnrollment` returns. */
  datatype Enrollment = Enrollment(strategy: Json, autoClosed: Json)

  /** `fetchGroupEnrollment`: a non-ok answer is `{strategy: null, autoClosed: false}`; an ok answer
      gives its truthy `data.attributes.strategy` (else `null`) and truthy `auto_closed` (else
      `false`); a transport failure propagates. */
  function FetchGroupEnrollment(response: Upstream): (r: Result<Enrollment, Error>)
    ensures r.Failure? <==> response.Unreachable?
    ensures r.Failure? ==> r.error == TransportError
    ensures response.Answered? && !response.ok ==> r == Success(Enrollment(JNull, JBool(false)))
    ensures r.Success? ==> Truthy(r.value.strategy) || r.value.strategy == JNull
  {
    match response
    case Unreachable => Failure(TransportError)
    case Answered(ok, _, body) =>
      if !ok then Success(Enrollment(JNull, JBool(false)))
      else
        var attributes := OptProp(Prop(body, "data"), "attributes");
        var strategy := OptProp(attributes, "strategy");
        var autoClosed := OptProp(attributes, "auto_closed");
        Success(Enrollment(if OptTruthy(strategy) then strategy.value else JNull,
                           if OptTruthy(autoClosed) then autoClosed.value else JBool(false)))
  }

  /** The three-part predicate: an open strategy, `(attributes.enrollment_open ?? true) === true`, and
      the merged `enrollment.attributes.auto_closed !== true`. */
  predicate Eligible(group: Json, enrollment: Enrollment) {
    var autoClosed := OptProp(OptProp(Prop(group, "enrollment"), "attributes"), "auto_closed");
    var enrollmentOpen := Coalesce(OptProp(Prop(group, "attributes"), "enrollment_open"), JBool(true));
    && (enrollment.strategy == JStr("request_to_join") || enrollment.strategy == JStr("open_signup"))
    && enrollmentOpen == JBool(true)
    && autoClosed != Some(JBool(true))
  }

  /** `{...group, enrollmentStrategy: strategy}`: the group's own properties, each with its value
      unless it is `enrollmentStrategy`, which takes the strategy; no other field. */
  function Decorated(group: Json, strategy: Json): (d: Json)
    ensures d.JObj? && d.fields.Keys == OwnProps(group).Keys + {"enrollmentStrategy"}
    ensures d.fields["enrollmentStrategy"] == strategy
    ensures forall f :: f in OwnProps(group) && f != "enrollmentStrategy" ==> d.fields[f] == OwnProps(group)[f]
  {
    JObj(OwnProps(group)["enrollmentStrategy" := strategy])
  }

  /** The text `group.id` gives in the enrollment URL. */
  function EnrollmentKey(group: Json): string {
    TemplateString(Prop(group, "id"))
  }

  /** `for (const group of groups)`: an array's elements, a string's characters; the other values
      are not iterable. */
  function Candidates(groups: Json): (r: Result<seq<Json>, Error>)
    ensures r.Failure? <==> !(groups.JArr? || groups.JStr?)
    ensures groups.JArr? ==> r == Success(groups.items)
  {
    match groups
    case JArr(items) => Success(items)
    case JStr(s) => Success(seq(|s|, i requires 0 <= i < |s| => JStr([s[i]])))
    case _ => Failure(TypeError)
  }

  /** The outcome of the loop over a candidate prefix: the kept groups, or the first failure (a `null`
      group, whose `id` read throws, or an unreachable enrollment call). */
  function KeptGroups(groups: seq<Json>, enrollmentOf: string -> Upstream): (r: Result<seq<Json>, Error>)
    ensures r.Success? ==> |r.value| <= |groups|
  {
    if groups == [] then Success([])
    else
      var n := |groups| - 1;
      var front := KeptGroups(groups[..n], enrollmentOf);
      if front.Failure? then front
      else
        var group := groups[n];
        if group.JNull? then Failure(TypeError)
        else
          var enrollment := FetchGroupEnrollment(enrollmentOf(EnrollmentKey(group)));
          if enrollment.Failure? then Failure(enrollment.error)
          else if Eligible(group, enrollment.value) then Success(front.value + [Decorated(group, enrollment.value.strategy)])
          else front
  }

  /** The loop of `fetchAllGroups`, awaiting one enrollment at a time and pushing each eligible group. */
  method FilterEligibleGroups(groups: seq<Json>, enrollmentOf: string -> Upstream) returns (r: Result<seq<Json>, Error>)
    ensures r == KeptGroups(groups, enrollmentOf)
  {
    var filtered: seq<Json> := [];
    for i := 0 to |groups|
      invariant KeptGroups(groups[..i], enrollmentOf) == Success(filtered)
    {
      KeptGroupsStep(groups, i, enrollmentOf);
      var group := groups[i];
      if group.JNull? {
        KeptGroupsFailureSticks(groups, i + 1, enrollmentOf);
        return Failure(TypeError);
      }
      var enrollment := FetchGroupEnrollment(enrollmentOf(EnrollmentKey(group)));
      if enrollment.Failure? {
        KeptGroupsFailureSticks(groups, i + 1, enrollmentOf);
        return Failure(enrollment.error);
      }
      if Eligible(group, enrollment.value) {
        filtered := filtered + [Decorated(group, enrollment.value.strategy)];
      }
    }
    assert groups[..|groups|] == groups;
    r := Success(filtered);
  }

  /** One more candidate: the loop body's effect on the outcome of the prefix. */
  lemma KeptGroupsStep(groups: seq<Json>, i: nat, enrollmentOf: string -> Upstream)
    requires i < |groups| && KeptGroups(groups[..i], enrollmentOf).Success?
    ensures var front := KeptGroups(groups[..i], enrollmentOf).value;
            var group := groups[i];
            var enrollment := FetchGroupEnrollment(enrollmentOf(EnrollmentKey(group)));
            KeptGroups(groups[..i + 1], enrollmentOf)
            == if group.JNull? then Failure(TypeError)
               else if enrollment.Failure? then Failure(enrollment.error)
               else if Eligible(group, enrollment.value) then Success(front + [Decorated(group, enrollment.value.strategy)])
               else Success(front)
  {
    assert groups[..i + 1][..i] == groups[..i];
  }

  /** A failure on a prefix is the failure of the whole loop. */
  lemma {:induction false} KeptGroupsFailureSticks(groups: seq<Json>, i: nat, enrollmentOf: string -> Upstream)
    requires i <= |groups| && KeptGroups(groups[..i], enrollmentOf).Failure?
    ensures KeptGroups(groups, enrollmentOf) == KeptGroups(groups[..i], enrollmentOf)
    decreases |groups| - i
  {
    if i < |groups| {
      assert groups[..i + 1][..i] == groups[..i];
      KeptGroupsFailureSticks(groups, i + 1, enrollmentOf);
    } else {
      assert groups[..i] == groups;
    }
  }

  /** A group is kept when it is eligible: every element of the kept list is some candidate, in
      candidate order, decorated with its strategy, and the eligible candidates are all there. */
  predicate KeptExactly(groups: seq<Json>, enrollmentOf: string -> Upstream, kept: seq<Json>) {
    |kept| == |EligibleIndices(groups, enrollmentOf)|
    && forall k :: 0 <= k < |kept| ==>
         var i := EligibleIndices(groups, enrollmentOf)[k];
         0 <= i < |groups| && kept[k] == Decorated(groups[i], StrategyOf(groups[i], enrollmentOf))
  }

  /** The strategy the enrollment call for the group gave (`null` when the call failed). */
  function StrategyOf(group: Json, enrollmentOf: string -> Upstream): Json {
    var enrollment := FetchGroupEnrollment(enrollmentOf(EnrollmentKey(group)));
    if enrollment.Success? then enrollment.value.strategy else JNull
  }

  /** The candidate is kept: not `null`, its enrollment call answered, and it is eligible. */
  predicate EligibleCandidate(group: Json, enrollmentOf: string -> Upstream) {
    var enrollment := FetchGroupEnrollment(enrollmentOf(EnrollmentKey(group)));
    !group.JNull? && enrollment.Success? && Eligible(group, enrollment.value)
  }

  /** The candidate positions whose group is eligible, in increasing order. */
  function EligibleIndices(groups: seq<Json>, enrollmentOf: string -> Upstream): (ix: seq<nat>)
    ensures forall k :: 0 <= k < |ix| ==> ix[k] < |groups|
    ensures forall k, l :: 0 <= k < l < |ix| ==> ix[k] < ix[l]
    ensures forall i: int :: i in ix <==> 0 <= i < |groups| && EligibleCandidate(groups[i], enrollmentOf)
  {
    if groups == [] then []
    else
      var n := |groups| - 1;
      var front := EligibleIndices(groups[..n], enrollmentOf);
      assert forall i :: 0 <= i < n ==> groups[..n][i] == groups[i];
      if EligibleCandidate(groups[n], enrollmentOf) then front + [n] else front
  }

  /** When the loop succeeds, the kept list is the eligible candidates in candidate order, each
      decorated with its strategy. */
  lemma {:induction false} KeptGroupsAreTheEligibleOnes(groups: seq<Json>, enrollmentOf: string -> Upstream)
    requires KeptGroups(groups, enrollmentOf).Success?
    ensures KeptExactly(groups, enrollmentOf, KeptGroups(groups, enrollmentOf).value)
  {
    if groups != [] {
      var n := |groups| - 1;
      var front := groups[..n];
      assert front == groups[..|groups| - 1];
      KeptGroupsAreTheEligibleOnes(front, enrollmentOf);
      KeptExactlyStep(groups, enrollmentOf, KeptGroups(front, enrollmentOf).value);
    }
  }

  /** One more candidate extends the kept list exactly when it is eligible. */
  lemma KeptExactlyStep(groups: seq<Json>, enrollmentOf: string -> Upstream, front: seq<Json>)
    requires groups != [] && KeptExactly(groups[..|groups| - 1], enrollmentOf, front)
    requires !groups[|groups| - 1].JNull?
    requires FetchGroupEnrollment(enrollmentOf(EnrollmentKey(groups[|groups| - 1]))).Success?
    ensures var g := groups[|groups| - 1];
            var enrollment := FetchGroupEnrollment(enrollmentOf(EnrollmentKey(g))).value;
            KeptExactly(groups, enrollmentOf,
                        if Eligible(g, enrollment) then front + [Decorated(g, enrollment.strategy)] else front)
  {
    var n := |groups| - 1;
    var g := groups[n];
    var enrollment := FetchGroupEnrollment(enrollmentOf(EnrollmentKey(g))).value;
    var ixFront := EligibleIndices(groups[..n], enrollmentOf);
    var ix := EligibleIndices(groups, enrollmentOf);
    var kept := if Eligible(g, enrollment) then front + [Decorated(g, enrollment.strategy)] else front;
    assert ix == if Eligible(g, enrollment) then ixFront + [n] else ixFront;
    forall k | 0 <= k < |kept|
      ensures 0 <= ix[k] < |groups| && kept[k] == Decorated(groups[ix[k]], StrategyOf(groups[ix[k]], enrollmentOf))
    {
      if k < |front| {
        assert ix[k] == ixFront[k] && kept[k] == front[k];
        assert groups[..n][ixFront[k]] == groups[ix[k]];
      }
    }
  }

  /** `params.perPage || 6`. */
  function RequestedPerPage(perPage: Option<int>): (n: int)
    ensures perPage.Some? && perPage.value != 0 ==> n == perPage.value
    ensures perPage.None? || perPage.value == 0 ==> n == 6
  {
    if perPage.Some? && perPage.value != 0 then perPage.value else 6
  }

  /** The part of the all-groups envelope the filter decides. */
  datatype Page = Page(groups: seq<Json>, pageSize: int, nextExist: bool)

  /** `filteredGroups.slice(0, requestedPerPage)` and
      `nextExist: filteredGroups.length > requestedPerPage || Boolean(payload?.links?.next)`. */
  function TruncatedPage(kept: seq<Json>, requested: int, upstreamNext: bool): (p: Page)
    requires requested >= 1
    ensures |p.groups| <= requested && |p.groups| <= |kept| && p.groups == kept[..|p.groups|]
    ensures |p.groups| == if |kept| < requested then |kept| else requested
    ensures p.pageSize == requested
    ensures p.nextExist <==> |kept| > requested || upstreamNext
  {
    Page(if |kept| <= requested then kept else kept[..requested], requested, |kept| > requested || upstreamNext)
  }

  /** Exactly as many eligible groups as requested: all are returned, and more results are reported
      only when the upstream has a next page. */
  lemma ExactlyFilled(kept: seq<Json>, requested: int, upstreamNext: bool)
    requires requested >= 1 && |kept| == requested
    ensures TruncatedPage(kept, requested, upstreamNext) == Page(kept, requested, upstreamNext)
  {
  }

  /** More eligible groups than requested: the first `requested` of them, and more results. */
  lemma Overfilled(kept: seq<Json>, requested: int, upstreamNext: bool)
    requires requested >= 1 && |kept| > requested
    ensures TruncatedPage(kept, requested, upstreamNext) == Page(kept[..requested], requested, true)
  {
  }
}
