/** The error classifier `handle_error`: it turns a failure raised by the
    middleware stack into a status code and a message body. */
module Errors {
  import opened Http

  /** The failure kinds that reach the classifier.  The source probes a boxed
      error at run time (`is::<Elapsed>()`, `is::<Overloaded>()`); here the
      kinds form a closed set, and `Other` carries the error's display text. */
  datatype BoxError =
    | Elapsed                 // the timeout layer's deadline passed
    | Overloaded              // the load-shedding layer refused the request
    | Other(detail: string)   // anything else, with its `Display` text

  /** A response: status code and body. */
  datatype Response = Response(status: StatusCode, body: string)

  const TIMED_OUT_MESSAGE: string := "request timed out"
  const OVERLOADED_MESSAGE: string := "service is overloaded, try again later"
  const UNHANDLED_PREFIX: string := "Unhandled internal error: "

  /** `handle_error`: Elapsed is tested first, then Overloaded, and everything
      else falls through to 500 with the error's text appended. */
  function HandleError(error: BoxError): (r: Response)
    ensures r.status == REQUEST_TIMEOUT <==> error.Elapsed?
    ensures r.status == SERVICE_UNAVAILABLE <==> error.Overloaded?
    ensures r.status == INTERNAL_SERVER_ERROR <==> error.Other?
    ensures r.status in {REQUEST_TIMEOUT, SERVICE_UNAVAILABLE, INTERNAL_SERVER_ERROR}
    ensures error.Elapsed? ==> r == Response(REQUEST_TIMEOUT, TIMED_OUT_MESSAGE)
    ensures error.Overloaded? ==> r == Response(SERVICE_UNAVAILABLE, OVERLOADED_MESSAGE)
    ensures error.Other? ==>
      |r.body| == |UNHANDLED_PREFIX| + |error.detail| &&
      r.body[..|UNHANDLED_PREFIX|] == UNHANDLED_PREFIX &&
      r.body[|UNHANDLED_PREFIX|..] == error.detail
  {
    if error.Elapsed? then
      Response(REQUEST_TIMEOUT, TIMED_OUT_MESSAGE)
    else if error.Overloaded? then
      Response(SERVICE_UNAVAILABLE, OVERLOADED_MESSAGE)
    else
      Response(INTERNAL_SERVER_ERROR, UNHANDLED_PREFIX + error.detail)
  }

  /** Reads a classifier response back into the failure that produced it;
      `None` for a response the classifier never emits. */
  function ErrorOfResponse(r: Response): (e: Option<BoxError>)
    ensures e.Some? ==> r.status in {REQUEST_TIMEOUT, SERVICE_UNAVAILABLE, INTERNAL_SERVER_ERROR}
  {
    if r == Response(REQUEST_TIMEOUT, TIMED_OUT_MESSAGE) then Some(Elapsed)
    else if r == Response(SERVICE_UNAVAILABLE, OVERLOADED_MESSAGE) then Some(Overloaded)
    else if r.status == INTERNAL_SERVER_ERROR
         && |UNHANDLED_PREFIX| <= |r.body|
         && r.body[..|UNHANDLED_PREFIX|] == UNHANDLED_PREFIX
    then Some(Other(r.body[|UNHANDLED_PREFIX|..]))
    else None
  }

  /** The response determines the failure kind it came from and, for an
      unclassified failure, its display text. */
  lemma HandleErrorRoundTrip(error: BoxError)
    ensures ErrorOfResponse(HandleError(error)) == Some(error)
  {
  }

  /** Distinct failure kinds, or unclassified failures with distinct display
      texts, get distinct responses. */
  lemma HandleErrorInjective(e1: BoxError, e2: BoxError)
    requires HandleError(e1) == HandleError(e2)
    ensures e1 == e2
  {
    HandleErrorRoundTrip(e1);
    HandleErrorRoundTrip(e2);
  }
}
