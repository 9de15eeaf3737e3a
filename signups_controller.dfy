/** The signups controller: the registration signups listing, validating `page` before anything is
    asked of Planning Center. */
module SignupsController {
  import opened Wrappers
  import opened Http
  import opened SearchParams
  import opened InboundQuery
  import Env
  import PlanningCenterService

  /** `getRegistrationSignups`: a malformed `page` is answered with its 400 and no request; otherwise the
      service call is made with the extracted page and passthrough. */
  method GetRegistrationSignups(entries: seq<Pair>, defaultPerPage: Env.PosInt, response: Upstream)
    returns (request: Option<PlanningCenterService.Request>, r: Result<PlanningCenterService.ListEnvelope, Error>)
    ensures PageQueryOf(entries).Failure? ==> request.None? && r == Failure(PageMalformed)
    ensures PageQueryOf(entries).Success? ==>
              var q := PageQueryOf(entries).value;
              && request == Some(PlanningCenterService.Request(PlanningCenterService.ApiBase + "/registrations/v2/signups",
                   PlanningCenterService.SignupsQuery(q.passthrough, q.page, defaultPerPage)))
              && r == PlanningCenterService.SignupsOutcome(
                   PlanningCenterService.PaginationOf(PlanningCenterService.SignupsBase() + q.passthrough, q.page, defaultPerPage),
                   response)
  {
    var query := ExtractPlanningCenterQuery(entries);
    if query.Failure? {
      return None, Failure(query.error);
    }
    var sent;
    sent, r := PlanningCenterService.FetchRegistrationSignups(query.value.page, query.value.passthrough, defaultPerPage, response);
    request := Some(sent);
  }
}
