/** What an upstream call can answer and the failures a request can end with. */
module Http {
  import opened Wrappers
  import JsText
  import opened JsonModel

  datatype Error =
    /** An `HttpError` with its message and HTTP status. */
    | HttpError(message: string, status: int)
    /** A JavaScript TypeError (a property read on `null`, iterating a non-iterable, ...). */
    | TypeError
    /** The network call itself failed (a rejected `fetch`); the error propagates unchanged. */
    | TransportError

  /** The outcome of one `fetch`: an answer with its `ok` flag, status and parsed JSON body, or a
      transport failure. */
  datatype Upstream = Answered(ok: bool, status: int, body: Json) | Unreachable

  /** The 502 every non-ok upstream answer becomes, whatever its own status. */
  function UpstreamFailure(status: int): Error {
    HttpError("Planning Center request failed with status " + JsText.IntToString(status), 502)
  }

  /** The payload of a primary call: the parsed body of an ok answer; a non-ok answer is the fixed
      502 and a transport failure propagates. */
  function PayloadOf(response: Upstream): (r: Result<Json, Error>)
    ensures r.Success? <==> response.Answered? && response.ok
    ensures response.Answered? && !response.ok ==> r.error.HttpError? && r.error.status == 502
    ensures response.Unreachable? ==> r == Failure(TransportError)
  {
    match response
    case Unreachable => Failure(TransportError)
    case Answered(ok, status, body) => if ok then Success(body) else Failure(UpstreamFailure(status))
  }
}
