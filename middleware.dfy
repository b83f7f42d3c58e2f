/**
 * The trailing-slash middleware: a configuration slot that can be read and
 * overwritten, and `Process`, which asks the next handler for its response,
 * then either passes that response on or replaces it with a permanent
 * redirect to the normalized path.
 */
module Middleware {
  import opened Http
  import opened Config
  import opened Paths

  /** What the middleware decides for one request path. */
  datatype Decision =
    | Exempt
    | AlreadyNormal
    | NeedsRedirect(newPath: string)

  /**
   * Whether some entry of `prefixes` is a literal prefix of `path`, as
   * `str_starts_with` tests, scanning the entries in order.
   */
  function AnyPrefix(prefixes: seq<string>, path: string): (found: bool)
    ensures found <==> exists i :: 0 <= i < |prefixes| && prefixes[i] <= path
  {
    if |prefixes| == 0 then false
    else if prefixes[0] <= path then true
    else
      var found := AnyPrefix(prefixes[1..], path);
      assert forall i :: 1 <= i < |prefixes| ==> prefixes[i] == prefixes[1..][i - 1];
      found
  }

  /** The decision for `path` under the exempt prefixes `prefixes`. */
  function Decide(prefixes: seq<string>, path: string): (d: Decision)
    ensures d == Exempt <==> exists i :: 0 <= i < |prefixes| && prefixes[i] <= path
    ensures d == AlreadyNormal ==> Normalize(path) == path
    ensures d.NeedsRedirect? ==> d.newPath == Normalize(path) && d.newPath != path
  {
    if AnyPrefix(prefixes, path) then Exempt
    else if Normalize(path) == path then AlreadyNormal
    else NeedsRedirect(Normalize(path))
  }

  /** The response the middleware returns for `decision`, given the request URI and the downstream response. */
  function Respond(decision: Decision, uri: Uri, downstream: DownstreamResponse): (r: Response)
    ensures r.Redirect? <==> decision.NeedsRedirect?
    ensures r.Passthrough? ==> r.downstream == downstream
    ensures r.Redirect? ==> r.status == MovedPermanently && r.location == uri.WithPath(decision.newPath)
  {
    match decision
    case Exempt => Passthrough(downstream)
    case AlreadyNormal => Passthrough(downstream)
    case NeedsRedirect(newPath) => Redirect(MovedPermanently, uri.WithPath(newPath))
  }

  /** A path that some exempt prefix starts is passed through, whatever it looks like. */
  lemma ExemptPathPassesThrough(prefixes: seq<string>, uri: Uri, downstream: DownstreamResponse, i: nat)
    requires i < |prefixes| && prefixes[i] <= uri.path
    ensures Decide(prefixes, uri.path) == Exempt
    ensures Respond(Decide(prefixes, uri.path), uri, downstream) == Passthrough(downstream)
  {
  }

  /** An empty entry in the exempt list exempts every path. */
  lemma EmptyPrefixExemptsAll(prefixes: seq<string>, path: string)
    requires "" in prefixes
    ensures Decide(prefixes, path) == Exempt
  {
    var i :| 0 <= i < |prefixes| && prefixes[i] == "";
  }

  /**
   * The middleware redirects exactly when no exempt prefix starts the path and
   * normalizing changes it; in every other case the downstream response is
   * returned unchanged.
   */
  lemma RedirectIff(prefixes: seq<string>, uri: Uri, downstream: DownstreamResponse)
    ensures Respond(Decide(prefixes, uri.path), uri, downstream).Redirect? <==>
      (forall i :: 0 <= i < |prefixes| ==> !(prefixes[i] <= uri.path)) && Normalize(uri.path) != uri.path
    ensures !Respond(Decide(prefixes, uri.path), uri, downstream).Redirect? ==>
      Respond(Decide(prefixes, uri.path), uri, downstream) == Passthrough(downstream)
  {
  }

  /**
   * A redirect is a 301 whose Location is the request URI with only its path
   * replaced by the normalized one: scheme, authority, query and fragment kept.
   */
  lemma RedirectLocation(prefixes: seq<string>, uri: Uri, downstream: DownstreamResponse)
    requires Respond(Decide(prefixes, uri.path), uri, downstream).Redirect?
    ensures Respond(Decide(prefixes, uri.path), uri, downstream).status == MovedPermanently
    ensures Respond(Decide(prefixes, uri.path), uri, downstream).location ==
      Uri(uri.scheme, uri.authority, Normalize(uri.path), uri.query, uri.fragment)
  {
  }

  /**
   * A redirect target is stable: a request for the Location the middleware
   * sent is passed through, so the middleware never redirects twice in a row.
   */
  lemma RedirectTargetIsStable(prefixes: seq<string>, uri: Uri, downstream: DownstreamResponse)
    requires Respond(Decide(prefixes, uri.path), uri, downstream).Redirect?
    ensures var target := Respond(Decide(prefixes, uri.path), uri, downstream).location;
      Respond(Decide(prefixes, target.path), target, downstream) == Passthrough(downstream)
  {
    NormalizeIdempotent(uri.path);
  }

  /**
   * The middleware object. Its `config` field is the whole configuration
   * array; a new instance starts with an empty one.
   */
  class TrailingSlashMiddleware {
    var config: Settings

    constructor ()
      ensures config == map[]
    {
      config := map[];
    }

    function GetConfig(): (c: Settings)
      reads this
      ensures c == config
    {
      config
    }

    /** Replaces (never merges) the configuration and returns this same instance. */
    method SetConfig(c: Settings) returns (self: TrailingSlashMiddleware)
      modifies this
      ensures config == c
      ensures self == this
    {
      config := c;
      self := this;
    }

    /**
     * Asks `handler` for its response first, on every path. Returns that
     * response when the request path starts with one of the `path_disable`
     * prefixes (the first match ends the scan) or is already normal; otherwise
     * returns a fresh 301 to the request URI with its path normalized.
     */
    method Process(request: Request, handler: Handler) returns (r: Response)
      modifies handler
      ensures handler.handled == old(handler.handled) + [request]
      ensures r == Respond(Decide(PathDisable(config), request.uri.path), request.uri, handler.response)
    {
      var cfg := GetConfig();
      var uri := request.uri;
      var response := handler.Handle(request);

      var prefixes := PathDisable(cfg);
      var i := 0;
      while i < |prefixes|
        invariant 0 <= i <= |prefixes|
        invariant forall j :: 0 <= j < i ==> !(prefixes[j] <= uri.path)
      {
        if prefixes[i] <= uri.path {
          return Passthrough(response);
        }
        i := i + 1;
      }

      var path := Normalize(uri.path);
      if path == uri.path {
        return Passthrough(response);
      }

      var location := uri.WithPath(path);
      r := Redirect(MovedPermanently, location);
    }
  }
}
