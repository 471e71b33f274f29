/**
 * The service registry of gateway/src/registry.rs: a map from service name to
 * the endpoint of its backend, plus the read-only queries on the static
 * function configuration loaded at start-up.
 */
module Registry {
  import opened Wrappers

  /** One configured function (the `Function` record of the configuration file). */
  datatype FunctionSpec = FunctionSpec(
    lang: string,
    handler: string,
    image: string,
    memory: string,
    environment: seq<string>)

  /** The configuration map `SERVICE_CONFIG_MAP`: service name to function. */
  type Config = map<string, FunctionSpec>

  /** `HashMap::get(..).copied()` on a name-keyed map. */
  function Lookup<E>(m: map<string, E>, name: string): (r: Option<E>)
    ensures r.Some? <==> name in m
    ensures r.Some? ==> r.value == m[name]
  {
    if name in m then Some(m[name]) else None
  }

  /** `Registry::get_service_from_config`: the configured function, if any. */
  function GetServiceFromConfig(config: Config, name: string): (r: Option<FunctionSpec>)
    ensures r.Some? <==> name in config
    ensures r.Some? ==> r.value == config[name]
  {
    Lookup(config, name)
  }

  /** `Registry::check_service_config`: true exactly when the name is configured. */
  function CheckServiceConfig(config: Config, name: string): (b: bool)
    ensures b <==> GetServiceFromConfig(config, name).Some?
  {
    name in config
  }

  /**
   * `Registry`: the `service_registry` map behind its mutex. The endpoint type
   * is a parameter: `(IpAddr, u16)` here, a bare port in the main.rs draft.
   */
  class ServiceRegistry<E> {
    var services: map<string, E>

    /** `Registry::new`: an empty registry. */
    constructor ()
      ensures services == map[]
    {
      services := map[];
    }

    /** `get_service_endpoint`: the stored endpoint; the registry is only read. */
    method GetServiceEndpoint(name: string) returns (r: Option<E>)
      ensures r.Some? <==> name in services
      ensures r.Some? ==> r.value == services[name]
    {
      if name in services {
        r := Some(services[name]);
      } else {
        r := None;
      }
    }

    /** `insert_service`: insert or overwrite the endpoint of one name. */
    method InsertService(name: string, endpoint: E)
      modifies this
      ensures services == old(services)[name := endpoint]
    {
      services := services[name := endpoint];
    }
  }

  /** A freshly constructed registry knows no service. */
  lemma NewRegistryIsEmpty<E>(name: string)
    ensures Lookup<E>(map[], name) == None
  {
  }

  /** After an insert, the inserted name maps to the inserted endpoint, even if it was present before. */
  lemma InsertThenLookup<E>(m: map<string, E>, name: string, endpoint: E)
    ensures Lookup(m[name := endpoint], name) == Some(endpoint)
  {
  }

  /** An insert leaves every other name's endpoint (or absence) unchanged. */
  lemma InsertKeepsOthers<E>(m: map<string, E>, name: string, endpoint: E, other: string)
    requires other != name
    ensures Lookup(m[name := endpoint], other) == Lookup(m, other)
  {
  }

  /** Inserting a name already present replaces its endpoint instead of keeping the old one. */
  lemma InsertOverwrites<E>(m: map<string, E>, name: string, first: E, second: E)
    ensures Lookup(m[name := first][name := second], name) == Some(second)
    ensures m[name := first][name := second] == m[name := second]
  {
  }
}
