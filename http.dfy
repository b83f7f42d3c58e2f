/**
 * The HTTP values the middleware works with: a URI split into its RFC 3986
 * components, the request carrying it, the response a downstream handler
 * produces, the response the middleware returns, and a stand-in for the
 * downstream request handler.
 */
module Http {

  /** 301 Moved Permanently (section 15.4.2 of RFC 9110). */
  const MovedPermanently: nat := 301

  /**
   * A URI by its components (section 3 of RFC 3986). An absent component is
   * the empty string, as with a PSR-7 URI.
   */
  datatype Uri = Uri(scheme: string, authority: string, path: string, query: string, fragment: string)
  {
    /** The same URI with only its path replaced, as `withPath` does. */
    function WithPath(newPath: string): (u: Uri)
      ensures u.path == newPath
      ensures u.scheme == scheme && u.authority == authority
      ensures u.query == query && u.fragment == fragment
    {
      this.(path := newPath)
    }
  }

  /** An incoming request; only its URI matters to the middleware. */
  datatype Request = Request(verb: string, uri: Uri)

  /** Whatever the rest of the handler chain answered; never inspected. */
  datatype DownstreamResponse = DownstreamResponse(status: nat, headers: map<string, seq<string>>)

  /**
   * What the middleware returns: the downstream response itself, or a fresh
   * redirect whose Location header is the given URI.
   */
  datatype Response =
    | Passthrough(downstream: DownstreamResponse)
    | Redirect(status: nat, location: Uri)

  /**
   * The next handler of the chain: it answers every request with a supplied
   * response and records each request it was asked to handle.
   */
  class Handler {
    const response: DownstreamResponse
    var handled: seq<Request>

    constructor (response: DownstreamResponse)
      ensures this.response == response && handled == []
    {
      this.response := response;
      handled := [];
    }

    method Handle(request: Request) returns (r: DownstreamResponse)
      modifies this
      ensures r == response
      ensures handled == old(handled) + [request]
    {
      handled := handled + [request];
      r := response;
    }
  }
}
