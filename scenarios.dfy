/**
 * Concrete requests and configurations, derived from the general results:
 * what a caller of the middleware and of its factory observes.
 */
module Scenarios {
  import opened Wrappers
  import opened Http
  import opened Config
  import opened Paths
  import opened PathExamples
  import opened Middleware
  import opened Factory

  /** A request with an empty path is redirected to "/". */
  lemma EmptyPathRedirectsToRoot(uri: Uri, downstream: DownstreamResponse)
    requires uri.path == ""
    ensures Respond(Decide([], uri.path), uri, downstream) == Redirect(MovedPermanently, uri.WithPath("/"))
  {
    NormalizeEmpty();
  }

  /** "/path?foo=bar#section" is redirected to "/path/?foo=bar#section". */
  lemma QueryAndFragmentSurviveRedirect(downstream: DownstreamResponse)
    ensures var uri := Uri("", "", "/path", "foo=bar", "section");
      Respond(Decide([], uri.path), uri, downstream) == Redirect(MovedPermanently, Uri("", "", "/path/", "foo=bar", "section"))
  {
    PathGetsSlash();
  }

  /** "/path/" and "/file.txt" pass the downstream response through. */
  lemma NormalPathsPassThrough(uri: Uri, downstream: DownstreamResponse)
    requires uri.path == "/path/" || uri.path == "/file.txt"
    ensures Respond(Decide([], uri.path), uri, downstream) == Passthrough(downstream)
  {
    SlashedPathKept();
    FileWithExtensionKept();
  }

  /** "/admin/users" under the exempt prefix "/admin" passes through although it lacks a slash. */
  lemma ExemptPrefixPassesThrough(uri: Uri, downstream: DownstreamResponse)
    requires uri.path == "/admin/users"
    ensures Respond(Decide(["/admin"], uri.path), uri, downstream) == Passthrough(downstream)
  {
    assert ["/admin"][0] <= uri.path;
    ExemptPathPassesThrough(["/admin"], uri, downstream, 0);
  }

  /**
   * A middleware built from a container without configuration redirects
   * "/path" and still calls the next handler exactly once.
   */
  method ProcessRedirectsAfterCallingHandler() returns (r: Response, handled: seq<Request>)
    ensures r == Redirect(MovedPermanently, Uri("", "", "/path/", "", ""))
    ensures handled == [Request("GET", Uri("", "", "/path", "", ""))]
  {
    var container := new Container(None);
    var built := Invoke(container);
    assert SelectConfig(None) == Success(map[]);
    var middleware := built.value;
    assert middleware.config == map[];

    var ok := DownstreamResponse(200, map[]);
    var handler := new Handler(ok);
    var uri := Uri("", "", "/path", "", "");
    var request := Request("GET", uri);
    r := middleware.Process(request, handler);
    PathGetsSlash();
    handled := handler.handled;
  }

  /** The container's configuration is used whole when it has no middleware section. */
  method FactoryUsesWholeConfigWithoutSection() returns (config: Settings, hasCalls: nat, getCalls: nat)
    ensures config == map["other_service" := Table(map["key" := Str("value")])]
    ensures hasCalls == 1 && getCalls == 1
  {
    var settings := map["other_service" := Table(map["key" := Str("value")])];
    assert MiddlewareKey != "other_service";
    var container := new Container(Some(settings));
    var built := Invoke(container);
    config := built.value.GetConfig();
    hasCalls, getCalls := container.hasCalls, container.getCalls;
  }

  /** A set middleware section is used exactly; the rest of the configuration is ignored. */
  method FactoryUsesMiddlewareSection() returns (config: Settings)
    ensures config == map[PathDisableKey := StrList(["/admin", "/api"])]
    ensures PathDisable(config) == ["/admin", "/api"]
  {
    var section := map[PathDisableKey := StrList(["/admin", "/api"])];
    var settings := map["other_config" := Table(map[]), MiddlewareKey := Table(section)];
    var container := new Container(Some(settings));
    var built := Invoke(container);
    config := built.value.GetConfig();
  }

  /** An empty middleware section leaves the configuration empty. */
  method FactoryKeepsEmptySectionEmpty() returns (config: Settings)
    ensures config == map[]
  {
    var container := new Container(Some(map[MiddlewareKey := Table(map[])]));
    var built := Invoke(container);
    config := built.value.GetConfig();
  }

  /** Without container configuration, nothing is fetched and two calls give two instances. */
  method FactoryWithoutConfig() returns (distinct: bool, hasCalls: nat, getCalls: nat)
    ensures distinct
    ensures hasCalls == 2 && getCalls == 0
  {
    var container := new Container(None);
    var first := Invoke(container);
    var second := Invoke(container);
    distinct := first.value != second.value;
    hasCalls, getCalls := container.hasCalls, container.getCalls;
  }

  /** Chained `SetConfig` calls leave the last configuration, not a merge of both. */
  method SetConfigChains() returns (sameInstance: bool, chained: Settings, cleared: Settings)
    ensures sameInstance
    ensures chained == map["chained" := Bool(true)] && "initial" !in chained
    ensures cleared == map[]
  {
    var middleware := new TrailingSlashMiddleware();
    var first := middleware.SetConfig(map["initial" := Str("config")]);
    var second := first.SetConfig(map["chained" := Bool(true)]);
    sameInstance := second == middleware;
    chained := middleware.GetConfig();
    var _ := middleware.SetConfig(map[]);
    cleared := middleware.GetConfig();
  }
}
