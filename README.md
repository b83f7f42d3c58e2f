# Trailing-slash middleware, modelled in Dafny

This project models the PSR-15 middleware `TrailingSlashMiddleware` and the parts around it.
The middleware makes request paths canonical. It sends a 301 Moved Permanently to the same URI
with a trailing slash appended to the path. It does this when the path is longer than one
character, has no trailing slash and no file extension, and when no configured `path_disable`
prefix starts the path. The empty path is redirected to `/`. In every
other case it returns the downstream handler's response unchanged.

The model has these parts:

- `Paths` (paths.dfy): PHP's `pathinfo($path, PATHINFO_EXTENSION)` and `normalize`.
  The extension rule strips trailing slashes, takes the last segment, then takes the text
  after its last dot. `Normalize` is proved idempotent. Its result is either the path itself
  or the path plus `/`, except that `""` becomes `"/"`. Lemmas state the rule in terms of a
  path's last segment.
- `PathExamples` (path_examples.dfy): the concrete paths the rule is known by. These include
  `/path`, `/file.txt`, `/.env`, `/file.`, `/v1.0/x` and `/path.with.dots`.
- `Http` (http.dfy): a URI record with the five RFC 3986 components, and the request. It also
  holds the two kinds of response the middleware returns (the downstream response passed on, or
  a redirect with a status and a Location URI). A `Handler` class stands in for the next
  handler: it returns a supplied response and records every request it handles.
- `Config` (config.dfy): configuration values, the `path_disable` prefix list and a `Container`
  class. The container stands in for the PSR-11 container and counts its `has` and `get` calls.
- `Middleware` (middleware.dfy): the `TrailingSlashMiddleware` class has a mutable `config`
  field, `SetConfig` (which overwrites and returns the same instance) and `Process`.
  `Process` is proved against a reference decision, `Decide` followed by `Respond`. Lemmas about
  that decision say when a redirect happens and what it contains. One lemma proves that a
  redirect target is never redirected again.
- `Factory` (factory.dfy): the factory's rule for choosing the configuration, and `Invoke`.
- `Scenarios` (scenarios.dfy): concrete requests and factory calls, derived from the general
  results. Some repeat cases from the repository's tests (`/path`, `""`, `/path/`, the factory's
  configuration cases); others (query and fragment kept, an exempt prefix, `/file.txt`) follow
  from the code alone.

Three behaviours of the code are easy to get wrong; the model follows the code:

- `process` calls the downstream handler first, on every path, and throws its response away
  when it redirects (src/TrailingSlashMiddleware.php:23). It does not skip the handler on
  redirect. `Process` ensures that the handler gets the request exactly once.
- A last segment that ends in a dot has an empty extension under `pathinfo`. So `/file.`
  becomes `/file./`, even though its last segment contains a dot
  (`Paths.NormalizeSegmentEndingInDot`).
- The configuration stays a mutable field that `setConfig` overwrites. It is not fixed when the
  object is built.

## Model

| member | source | states |
|---|---|---|
| `Paths.StripTrailingSlashes` | src/TrailingSlashMiddleware.php:56 | basename's first step: the result is a prefix of the path, does not end in `/`, and only `/` characters were removed |
| `Paths.AfterLast` | src/TrailingSlashMiddleware.php:56 | the text after the last separator is the longest suffix that does not contain it; when it is shorter than the input, a separator comes right before it |
| `Paths.Extension` | src/TrailingSlashMiddleware.php:56 | the extension holds no `.` and no `/`; it is empty exactly when the basename has no dot or ends in a dot |
| `Paths.Basename` | src/TrailingSlashMiddleware.php:56 | PHP's basename inside `pathinfo`: the last segment of the path once its trailing slashes are stripped, that is, the longest suffix of the stripped path without `/`, with a `/` right before it unless it is the whole stripped path |
| `Paths.AfterLastOfFree` | src/TrailingSlashMiddleware.php:56 | a string without the separator is returned whole |
| `Paths.BasenameOfSingleSegment` | src/TrailingSlashMiddleware.php:56 | a path without any `/` is its own basename |
| `Paths.AfterLastEmptyIff` | src/TrailingSlashMiddleware.php:56 | the text after the last separator is empty exactly when the string ends in the separator |
| `Paths.AfterLastOfSeparated` | src/TrailingSlashMiddleware.php:56 | in `s + [c] + t`, with no `c` in `t`, the text after the last `c` is exactly `t` |
| `Paths.BasenameOfLastSegment` | src/TrailingSlashMiddleware.php:56 | the basename of `dir/name`, where `name` is non-empty and has no slash, is `name` |
| `Paths.Normalize` | src/TrailingSlashMiddleware.php:47-63 | the result is never empty; `""` gives `"/"`; any other path gives either itself or itself plus `/` |
| `Paths.NormalizeEmpty` | src/TrailingSlashMiddleware.php:51-53 | the empty path normalizes to `/` |
| `Paths.NormalizeShort` | src/TrailingSlashMiddleware.php:55-62 | a one-character path, such as `/` or `a`, is unchanged |
| `Paths.NormalizeAppendsIff` | src/TrailingSlashMiddleware.php:55-62 | for a non-empty path, a slash is appended if and only if it is longer than one character, does not end in `/` and has an empty extension; otherwise it is unchanged |
| `Paths.NormalizeKeepsTrailingSlash` | src/TrailingSlashMiddleware.php:57-62 | a path ending in `/` is unchanged |
| `Paths.NormalizeKeepsExtension` | src/TrailingSlashMiddleware.php:56-62 | a path with a non-empty extension is unchanged |
| `Paths.NormalizeIdempotent` | src/TrailingSlashMiddleware.php:47-63 | normalizing twice gives the same as normalizing once |
| `Paths.NormalizeSegmentWithoutDot` | src/TrailingSlashMiddleware.php:55-59 | `dir/name`, where `name` is non-empty and has no slash or dot, becomes `dir/name/` |
| `Paths.NormalizeSingleSegment` | src/TrailingSlashMiddleware.php:55-59 | a slash-free path longer than one character and without a dot, such as `ab`, becomes `ab/` |
| `Paths.NormalizeSegmentWithExtension` | src/TrailingSlashMiddleware.php:56-62 | `dir/stem.ext`, where `ext` is non-empty and dot-free, has extension `ext` and is unchanged, whatever `stem` holds |
| `Paths.NormalizeSegmentEndingInDot` | src/TrailingSlashMiddleware.php:56-59 | `dir/stem.` becomes `dir/stem./`, because a trailing dot gives an empty extension |
| `PathExamples.PathGetsSlash` | test/TrailingSlashMiddlewareTest.php:15-27 | `/path` becomes `/path/` |
| `PathExamples.SlashedPathKept` | test/TrailingSlashMiddlewareTest.php:43-51 | `/path/` is unchanged |
| `PathExamples.NestedPathGetsSlash` | src/TrailingSlashMiddleware.php:55-59 | `/path/to/nested/resource` gets a trailing slash |
| `PathExamples.FileWithExtensionKept` | src/TrailingSlashMiddleware.php:56-62 | `/file.txt` is unchanged |
| `PathExamples.MultiDotNameKept` | src/TrailingSlashMiddleware.php:56-62 | `/path.with.dots` is unchanged (its extension is `dots`) |
| `PathExamples.DotFileKept` | src/TrailingSlashMiddleware.php:56-62 | `/.env` is unchanged (its extension is `env`) |
| `PathExamples.TrailingDotGetsSlash` | src/TrailingSlashMiddleware.php:56-59 | `/file.` becomes `/file./` |
| `PathExamples.DottedDirectoryGetsSlash` | src/TrailingSlashMiddleware.php:55-59 | `/v1.0/x` becomes `/v1.0/x/`; only the last segment counts |
| `PathExamples.SlashFreeNameGetsSlash` | src/TrailingSlashMiddleware.php:55-59 | `ab` becomes `ab/` |
| `Http.Uri.WithPath` | src/TrailingSlashMiddleware.php:39-40 | the new URI has the given path, and the same scheme, authority, query and fragment |
| `Http.Handler.constructor` | src/TrailingSlashMiddleware.php:19 | the stand-in handler answers with the supplied response and has handled nothing yet |
| `Http.Handler.Handle` | src/TrailingSlashMiddleware.php:23 | handling returns the supplied response and records the request once |
| `Config.PathDisable` | src/TrailingSlashMiddleware.php:25-26 | the exempt prefixes are the `path_disable` list, in order, when it is set; with no such key, or with a null or other non-list value there, there are none |
| `Config.Container.constructor` | src/TrailingSlashMiddlewareFactory.php:10 | the stand-in container holds the given optional configuration and has answered no calls |
| `Config.Container.Has` | src/TrailingSlashMiddlewareFactory.php:13 | `has('config')` is true exactly when the container holds a configuration; each call is counted |
| `Config.Container.Get` | src/TrailingSlashMiddlewareFactory.php:14 | `get('config')` returns the configuration; each call is counted |
| `Middleware.AnyPrefix` | src/TrailingSlashMiddleware.php:25-31 | the ordered `str_starts_with` scan matches if and only if some entry is a literal prefix of the path |
| `Middleware.Decide` | src/TrailingSlashMiddleware.php:25-37 | the reference decision: exempt if and only if some prefix starts the path; already normal only when normalizing keeps the path; a redirect only to the normalized path, and only when it differs |
| `Middleware.Respond` | src/TrailingSlashMiddleware.php:28-44 | the reference response: a redirect exactly for a redirect decision, with status 301 and the request URI with the new path; otherwise the downstream response itself |
| `Middleware.ExemptPathPassesThrough` | src/TrailingSlashMiddleware.php:25-31 | when any exempt prefix starts the path, the result is exactly the downstream response |
| `Middleware.EmptyPrefixExemptsAll` | src/TrailingSlashMiddleware.php:26-28 | an empty-string entry exempts every path |
| `Middleware.RedirectIff` | src/TrailingSlashMiddleware.php:25-44 | a redirect happens if and only if no prefix matches and normalizing changes the path; otherwise the downstream response is returned unchanged |
| `Middleware.RedirectLocation` | src/TrailingSlashMiddleware.php:39-44 | a redirect has status 301 and its Location is the request URI with only the path replaced by the normalized one, so scheme, authority, query and fragment are kept |
| `Middleware.RedirectTargetIsStable` | src/TrailingSlashMiddleware.php:33-44 | a request for the Location of a redirect is passed through, so there is never a second redirect |
| `Middleware.TrailingSlashMiddleware.constructor` | src/AbstractTrailingSlashMiddleware.php:10 | a new middleware has an empty configuration |
| `Middleware.TrailingSlashMiddleware.GetConfig` | src/AbstractTrailingSlashMiddleware.php:12-15 | `getConfig` returns the current configuration |
| `Middleware.TrailingSlashMiddleware.SetConfig` | src/AbstractTrailingSlashMiddleware.php:17-22 | the configuration becomes exactly the argument, with nothing merged, and the same instance is returned |
| `Middleware.TrailingSlashMiddleware.Process` | src/TrailingSlashMiddleware.php:19-45 | the handler receives the request exactly once, on every branch; the result is the reference decision for the configured prefixes, the request URI and the downstream response |
| `Factory.IsSet` | src/TrailingSlashMiddlewareFactory.php:16 | `isset`: true if and only if the key is present and its value is not null, so a null value counts as not set |
| `Factory.IsEmptyArray` | src/TrailingSlashMiddlewareFactory.php:23 | PHP's `[] === $config`: the value is an empty table or an empty list, that is, an array with no elements |
| `Factory.SelectConfig` | src/TrailingSlashMiddlewareFactory.php:12-25 | no container configuration gives an empty one; a set middleware section that is a table is used exactly, and an empty array gives an empty one; without a set section the whole container configuration is used; a set section that is neither a table nor an empty array is a failure |
| `Factory.Invoke` | src/TrailingSlashMiddlewareFactory.php:10-28 | `has` is called once and `get` only when there is configuration; the result is a fresh middleware whose configuration is the selected one, or the selection's failure |
| `Scenarios.EmptyPathRedirectsToRoot` | test/TrailingSlashMiddlewareTest.php:29-41 | an empty path gives a 301 whose Location path is `/` |
| `Scenarios.QueryAndFragmentSurviveRedirect` | src/TrailingSlashMiddleware.php:39-44 | `/path?foo=bar#section` redirects to `/path/?foo=bar#section` |
| `Scenarios.NormalPathsPassThrough` | src/TrailingSlashMiddleware.php:56-62 | `/path/` and `/file.txt` pass the downstream response through |
| `Scenarios.ExemptPrefixPassesThrough` | src/TrailingSlashMiddleware.php:25-31 | `/admin/users` under the exempt prefix `/admin` passes through |
| `Scenarios.ProcessRedirectsAfterCallingHandler` | test/TrailingSlashMiddlewareTest.php:15-27 | a middleware built without configuration answers `GET /path` with a 301 to `/path/`, and the next handler still received that request exactly once |
| `Scenarios.FactoryUsesWholeConfigWithoutSection` | test/TrailingSlashMiddlewareFactoryTest.php:76-98 | without a middleware section the whole container configuration becomes the middleware's, after one `has` and one `get` |
| `Scenarios.FactoryUsesMiddlewareSection` | test/TrailingSlashMiddlewareFactoryTest.php:103-157 | a middleware section is used exactly, other entries are ignored, and its `path_disable` list is `/admin`, `/api` |
| `Scenarios.FactoryKeepsEmptySectionEmpty` | test/TrailingSlashMiddlewareFactoryTest.php:223-242 | an empty middleware section gives an empty configuration |
| `Scenarios.FactoryWithoutConfig` | test/TrailingSlashMiddlewareFactoryTest.php:193-218 | without container configuration, two calls give two distinct middlewares, call `has` twice and never call `get` |
| `Scenarios.SetConfigChains` | test/AbstractTrailingSlashMiddlewareTest.php:70-120 | chained `SetConfig` calls return the same instance and leave only the last configuration; setting `[]` clears it |

## Left out

- PHP's class split: `AbstractTrailingSlashMiddleware` and `TrailingSlashMiddleware` are one class here. The `config` field, `getConfig` and `setConfig` belong to that class.
- `ConfigProvider`: a constant registration map with no logic.
- URI serialization (`Uri::__toString`) and response construction (`Factory::getResponseFactory`): these belong to foreign libraries. A redirect carries its Location as a URI record, namely the request URI with its path replaced.
- Headers of the redirect other than Location: the redirect is modelled by its status and Location only.
- Http.Handler.Handle: the next handler returns one supplied response whatever the request. The real handler chain may compute a response from the request. Its own effects are represented only by the record of requests it received.
- Config.PathDisable: a `path_disable` value given as an associative array, or as a list with non-string entries, is not modelled. Only a list of strings yields prefixes; every other value yields none.
- Middleware.TrailingSlashMiddleware.SetConfig: a configuration is a map with string keys and no order. It cannot hold the integer keys a PHP array may carry, and it does not keep the order of a PHP array's keys. `process` reads only the `path_disable` key, so neither limit changes its behaviour.
- Factory.SelectConfig: a non-empty list stored directly under the middleware key would be accepted by PHP's `setConfig`, because it is an array. A configuration here is a string-keyed map, which cannot hold such a list, so the selection reports it as `NotATable`.
- Factory.Invoke: for the same reason, a non-empty list under the middleware key ends in the `NotATable` failure instead of a middleware configured with that list.
- The `assert(is_array($config))` on the container's configuration: here the container holds a configuration map or nothing, so the check cannot fail.
- Multibyte and locale handling in PHP's `basename`: paths are plain character sequences and `/` is the only separator.
- Concurrency and HTTP transport: the core has none.
