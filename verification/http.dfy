/** The Fetch-standard objects the worker inspects: requests, responses and
    the outcome of a network fetch. URL parsing is not modelled: a request
    carries its full URL and its host name as given strings. */
module Http {
  import opened Wrappers

  type Url = string

  /** The `type` attribute of a Fetch `Response`. */
  datatype ResponseType = Basic | Cors | Default | Error | Opaque | OpaqueRedirect

  /** A response; the body is opaque, and `clone()` yields an equal value. */
  datatype Response = Response(status: int, kind: ResponseType, body: seq<bv8>)

  /** An intercepted request: its full URL and the host name parsed from it. */
  datatype Request = Request(url: Url, hostname: string)

  /** What the host's `fetch(request)` settles to: fulfilled with a response
      (the worker also guards against an absent one), or rejected. */
  datatype Network = Ok(response: Option<Response>) | Failed

  /** How a promise handed back to the host settles: fulfilled with a value
      that may be `undefined`, or rejected. */
  datatype Reply = Resolved(value: Option<Response>) | Rejected

  /** The reply a promise chain yields when it simply passes a fetch through.
      The ensures spell out the two arms for the solver's benefit; the
      worker's promise about line 50 is stated by the fetch properties. */
  function Forward(net: Network): (r: Reply)
    ensures r.Rejected? <==> net.Failed?
    ensures net.Ok? ==> r.value == net.response
  {
    match net
    case Ok(resp) => Resolved(resp)
    case Failed => Rejected
  }

  /** A status in the range 200-299 (the Fetch standard's "ok status"). */
  predicate OkStatus(status: int)
  {
    200 <= status <= 299
  }
}
