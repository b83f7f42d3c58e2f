/**
 * Configuration values as the middleware and its factory see them, and a
 * stand-in for the dependency-injection container that holds them.
 */
module Config {
  import opened Wrappers

  /** A configuration value: the shapes a PHP configuration array holds. */
  datatype Value =
    | Null
    | Bool(b: bool)
    | Int(i: int)
    | Str(s: string)
    | StrList(items: seq<string>)
    | Table(entries: map<string, Value>)

  /** A configuration array with string keys. */
  type Settings = map<string, Value>

  /** The key whose list of prefixes exempts paths from the redirect. */
  const PathDisableKey: string := "path_disable"

  /** The container entry that holds the application configuration. */
  const ConfigId: string := "config"

  /**
   * The exempt prefixes, in order: the `path_disable` list when it is set
   * (present and not null), and nothing otherwise. A scalar there gives no
   * iteration at all, as PHP's `foreach` over a non-array.
   */
  function PathDisable(config: Settings): (prefixes: seq<string>)
    ensures PathDisableKey !in config ==> prefixes == []
    ensures !(PathDisableKey in config && config[PathDisableKey].StrList?) ==> prefixes == []
    ensures PathDisableKey in config && config[PathDisableKey].StrList? ==>
      prefixes == config[PathDisableKey].items
  {
    if PathDisableKey in config && config[PathDisableKey].StrList? then config[PathDisableKey].items else []
  }

  /**
   * A PSR-11 container reduced to the one entry the factory asks for: the
   * application configuration, which may be absent. It counts the lookups made.
   */
  class Container {
    const config: Option<Settings>
    var hasCalls: nat
    var getCalls: nat

    constructor (config: Option<Settings>)
      ensures this.config == config && hasCalls == 0 && getCalls == 0
    {
      this.config := config;
      hasCalls, getCalls := 0, 0;
    }

    /** `has($id)`: whether the container can return an entry for `id`. */
    method Has(id: string) returns (b: bool)
      modifies this`hasCalls
      ensures b <==> id == ConfigId && config.Some?
      ensures hasCalls == old(hasCalls) + 1
    {
      hasCalls := hasCalls + 1;
      b := id == ConfigId && config.Some?;
    }

    /** `get($id)`: the entry for `id`, or None where PSR-11 throws "not found". */
    method Get(id: string) returns (entry: Option<Settings>)
      modifies this`getCalls
      ensures entry == if id == ConfigId then config else None
      ensures getCalls == old(getCalls) + 1
    {
      getCalls := getCalls + 1;
      entry := if id == ConfigId then config else None;
    }
  }
}
