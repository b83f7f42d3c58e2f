/**
 * The factory that builds the middleware from the container's configuration:
 * the middleware's own section when the configuration has one, the whole
 * configuration otherwise, and nothing when the container has none.
 */
module Factory {
  import opened Wrappers
  import opened Config
  import opened Middleware

  /** The configuration key of the middleware: its fully qualified class name. */
  const MiddlewareKey: string := "Ctw\\Middleware\\TrailingSlashMiddleware\\TrailingSlashMiddleware"

  /**
   * The middleware section could not be used as a string-keyed configuration:
   * a scalar, which `setConfig` rejects with a type error, or a non-empty list.
   */
  datatype FactoryError = NotATable(value: Value)

  /** Whether `v` is PHP's empty array `[]`, as an empty table or an empty list. */
  predicate IsEmptyArray(v: Value)
    ensures IsEmptyArray(v) <==> (v.Table? && |v.entries| == 0) || (v.StrList? && |v.items| == 0)
  {
    v == Table(map[]) || v == StrList([])
  }

  /** `isset($config[$key])`: the key is present and its value is not null. */
  predicate IsSet(config: Settings, key: string)
    ensures IsSet(config, key) <==> key in config && config[key] != Null
  {
    key in config && !config[key].Null?
  }

  /**
   * The configuration the factory hands to the new middleware, or the failure
   * for a section that is not a table. With no container configuration the
   * result is empty; a set middleware section is used as it is (an empty array
   * gives the empty configuration); without one, the whole container
   * configuration is used.
   */
  function SelectConfig(container: Option<Settings>): (r: Result<Settings, FactoryError>)
    ensures container.None? ==> r == Success(map[])
    ensures container.Some? && !IsSet(container.value, MiddlewareKey) ==> r == Success(container.value)
    ensures container.Some? && MiddlewareKey in container.value && container.value[MiddlewareKey].Table? ==>
      r == Success(container.value[MiddlewareKey].entries)
    ensures container.Some? && IsSet(container.value, MiddlewareKey) && IsEmptyArray(container.value[MiddlewareKey]) ==>
      r == Success(map[])
    ensures r.Failure? <==>
      container.Some? && IsSet(container.value, MiddlewareKey) &&
      !container.value[MiddlewareKey].Table? && !IsEmptyArray(container.value[MiddlewareKey])
  {
    if container.None? then Success(map[])
    else if !IsSet(container.value, MiddlewareKey) then Success(container.value)
    else
      var section := container.value[MiddlewareKey];
      if section.Table? then Success(section.entries)
      else if IsEmptyArray(section) then Success(map[])
      else Failure(NotATable(section))
  }

  /**
   * `__invoke`: asks the container whether it has a configuration (once), fetches
   * it only if so, picks the middleware's section when one is set, and builds a
   * fresh middleware, calling `SetConfig` only for a non-empty selection.
   */
  method Invoke(container: Container) returns (r: Result<TrailingSlashMiddleware, FactoryError>)
    modifies container
    ensures container.hasCalls == old(container.hasCalls) + 1
    ensures container.getCalls == old(container.getCalls) + (if container.config.Some? then 1 else 0)
    ensures r.Success? <==> SelectConfig(container.config).Success?
    ensures r.Success? ==> fresh(r.value) && r.value.config == SelectConfig(container.config).value
  {
    var config: Value := Table(map[]);
    var has := container.Has(ConfigId);
    if has {
      var entry := container.Get(ConfigId);
      var settings := entry.value;
      config := Table(settings);
      if IsSet(settings, MiddlewareKey) {
        config := settings[MiddlewareKey];
      }
    }

    var middleware := new TrailingSlashMiddleware();

    if !IsEmptyArray(config) {
      if !config.Table? {
        return Failure(NotATable(config));
      }
      var _ := middleware.SetConfig(config.entries);
    }

    return Success(middleware);
  }
}
