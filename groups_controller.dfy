/** The groups controller: the listing of one group type's groups and the listing of all open
    groups, each validating the request before anything is asked of Planning Center. */
module GroupsController {
  import opened Wrappers
  import opened Http
  import opened SearchParams
  import opened InboundQuery
  import Env
  import PlanningCenterService

  /** `listGroupsByGroupType`: a malformed `groupTypeId`, then a malformed `page`, is answered with its
      400 and no request; otherwise the service call is made with the extracted page and passthrough. */
  method ListGroupsByGroupType(groupTypeIdRaw: Option<string>, entries: seq<Pair>, defaultPerPage: Env.PosInt,
                               response: Upstream)
    returns (request: Option<PlanningCenterService.Request>, r: Result<PlanningCenterService.ListEnvelope, Error>)
    ensures ParseGroupTypeId(groupTypeIdRaw).Failure? ==>
              request.None? && r == Failure(ParseGroupTypeId(groupTypeIdRaw).error)
    ensures ParseGroupTypeId(groupTypeIdRaw).Success? && PageQueryOf(entries).Failure? ==>
              request.None? && r == Failure(PageMalformed)
    ensures ParseGroupTypeId(groupTypeIdRaw).Success? && PageQueryOf(entries).Success? ==>
              var q := PageQueryOf(entries).value;
              && request == Some(PlanningCenterService.Request(
                   PlanningCenterService.ApiBase + "/groups/v2/group_types/" + ParseGroupTypeId(groupTypeIdRaw).value + "/groups",
                   PlanningCenterService.GroupsByTypeQuery(q.passthrough, q.page, defaultPerPage)))
              && r == PlanningCenterService.GroupsByTypeOutcome(
                   PlanningCenterService.PaginationOf(q.passthrough, q.page, defaultPerPage), response)
  {
    var groupTypeId := ParseGroupTypeId(groupTypeIdRaw);
    if groupTypeId.Failure? {
      return None, Failure(groupTypeId.error);
    }
    var query := ExtractPlanningCenterQuery(entries);
    if query.Failure? {
      return None, Failure(query.error);
    }
    var sent;
    sent, r := PlanningCenterService.FetchGroupsByGroupType(groupTypeId.value, query.value.page, query.value.passthrough,
                                                           defaultPerPage, response);
    request := Some(sent);
  }

  /** `listAllGroups`: a malformed `page` is answered with its 400 and no request; otherwise the service
      call is made with the extracted page and passthrough. */
  method ListAllGroups(entries: seq<Pair>, defaultPerPage: Env.PosInt, response: Upstream, enrollmentOf: string -> Upstream)
    returns (request: Option<PlanningCenterService.Request>, r: Result<PlanningCenterService.ListEnvelope, Error>)
    ensures PageQueryOf(entries).Failure? ==> request.None? && r == Failure(PageMalformed)
    ensures PageQueryOf(entries).Success? ==>
              var q := PageQueryOf(entries).value;
              && request == Some(PlanningCenterService.Request(PlanningCenterService.ApiBase + "/groups/v2/groups",
                   PlanningCenterService.AllGroupsQuery(q.passthrough, q.page, defaultPerPage)))
              && r == PlanningCenterService.AllGroupsOutcome(
                   PlanningCenterService.PaginationOf(PlanningCenterService.AllGroupsBase() + q.passthrough, q.page, defaultPerPage),
                   response, enrollmentOf)
  {
    var query := ExtractPlanningCenterQuery(entries);
    if query.Failure? {
      return None, Failure(query.error);
    }
    var sent;
    sent, r := PlanningCenterService.FetchAllGroups(query.value.page, query.value.passthrough, defaultPerPage,
                                                   response, enrollmentOf);
    request := Some(sent);
  }
}
