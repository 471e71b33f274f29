/**
 * The resolve-or-start routine `get_or_start_service` of both gateway drafts
 * (gateway/src/reverse_proxy.rs and gateway/src/main.rs), as one model with
 * the draft as a parameter.
 *
 * `Resolve` specifies one call as a pure function of a `World` (registry,
 * cursor, host) and of the `Environment` (what the operating system and the
 * backend do); `Gateway.GetOrStartService` is the step-by-step method, proved
 * to compute exactly `Resolve`; the lemmas state what the routine promises.
 */
module Lifecycle {
  import opened Wrappers
  import opened Net
  import opened Registry
  import opened PortAllocator
  import opened Launcher

  /** The two drafts of the routine. */
  datatype Draft = MainDraft | ReverseProxyDraft

  /** A registry value: a bare port in main.rs, `(IpAddr, u16)` in reverse_proxy.rs. */
  datatype Endpoint = PortOnly(port: Port) | Socket(address: IpAddr, port: Port)

  /** The endpoint recorded for an assigned port. */
  function MakeEndpoint(d: Draft, port: Port): (e: Endpoint)
    ensures e.port == port
  {
    match d
    case MainDraft => PortOnly(port)
    case ReverseProxyDraft => Socket(Localhost, port)
  }

  /** The error cases of the routine, each one `Err(String)` in the source. */
  datatype GatewayError =
    | UnknownService(name: string)
    | NoAvailablePorts
    | PortCheckFailed(port: Port, os: string)
    | SpawnFailed(os: string)
    | KillFailed(os: string)
    | NotOccupiedAfterStartup(port: Port)

  /** The error text the source formats; `os` stands for the operating system's own error text. */
  function Message(e: GatewayError): string
  {
    match e
    case UnknownService(name) => "Unknown service: " + name
    case NoAvailablePorts => "No available ports in range 8050-8100"
    case PortCheckFailed(port, os) => "Port " + Dec(port) + " check failed: " + os
    case SpawnFailed(os) => "Failed to start service: " + os
    case KillFailed(os) => "Failed to kill child process: " + os
    case NotOccupiedAfterStartup(port) => "Port " + Dec(port) + " not occupied after startup"
  }

  /**
   * What the world outside the gateway does during one call:
   * - takenMeanwhile: another program binds the scanned port between the scan
   *   and the re-check probe (with the OS error the re-check then reports);
   * - spawnError: `spawn()` fails with this error;
   * - backendBinds: the backend holds its port when the probe runs (one second
   *   after the spawn for `echo`, as soon as the docker client exits for a
   *   configured function);
   * - killError: `child.kill()` of the still running local backend fails with this error.
   */
  datatype Environment = Environment(
    takenMeanwhile: Option<string>,
    spawnError: Option<string>,
    backendBinds: bool,
    killError: Option<string>)

  /** Everything one call can read or change. */
  datatype World = World(
    registry: map<string, Endpoint>,
    cursor: Port,
    occupied: set<Port>,
    processes: seq<Process>)

  datatype Outcome = Outcome(result: Result<Endpoint, GatewayError>, world: World)

  /** A name the routine serves: configured, or the built-in test backend. */
  predicate Known(config: Config, name: string)
  {
    CheckServiceConfig(config, name) || name == EchoService
  }

  /** One call of `get_or_start_service(name)`. */
  function Resolve(d: Draft, config: Config, w: World, name: string, env: Environment): (o: Outcome)
    ensures |w.processes| <= |o.world.processes| <= |w.processes| + 1
    ensures o.world.processes[..|w.processes|] == w.processes
    ensures o.result.Ok? ==> name in o.world.registry && o.world.registry[name] == o.result.value
  {
    if !Known(config, name) then
      Outcome(Err(UnknownService(name)), w)
    else if name in w.registry then
      Outcome(Ok(w.registry[name]), w)
    else
      // fetch_add(1): the scan starts at the old cursor value
      var w1 := w.(cursor := WrappingIncrement(w.cursor));
      match FindAvailablePort(w.occupied, w.cursor)
      case None => Outcome(Err(NoAvailablePorts), w1)
      case Some(port) =>
        var occ1 := if env.takenMeanwhile.Some? then w.occupied + {port} else w.occupied;
        if !Bindable(occ1, port) then
          Outcome(Err(PortCheckFailed(port, env.takenMeanwhile.value)), w1.(occupied := occ1))
        else
          // the endpoint is registered before the backend is launched
          var endpoint := MakeEndpoint(d, port);
          var w2 := w1.(registry := w.registry[name := endpoint], occupied := occ1);
          if env.spawnError.Some? then
            Outcome(Err(SpawnFailed(env.spawnError.value)), w2)
          else
            var pid := |w.processes|;
            var command := LaunchCommand(config, name, port);
            // the docker client is waited for; the local backend keeps running
            var child := Process(command, if name == EchoService then Running else Exited);
            var occ3 := if env.backendBinds then occ1 + {port} else occ1;
            var w3 := w2.(occupied := occ3, processes := w.processes + [child]);
            // still bindable after start-up means the backend never took the port
            if !Bindable(occ3, port) then
              Outcome(Ok(endpoint), w3)
            else if child.state == Exited then
              Outcome(Err(KillFailed(KillExitedError)), w3)
            else if env.killError.Some? then
              Outcome(Err(KillFailed(env.killError.value)), w3)
            else
              Outcome(Err(NotOccupiedAfterStartup(port)), w3.(processes := w3.processes[pid := child.(state := Killed)]))
  }

  /**
   * The gateway's state: the registry object and the `NEXT_PORT` cursor,
   * with the function configuration it serves and the draft it follows.
   */
  class Gateway {
    const draft: Draft
    const config: Config
    const registry: ServiceRegistry<Endpoint>
    var nextPort: Port

    constructor (draft: Draft, config: Config)
      ensures this.draft == draft && this.config == config
      ensures fresh(registry) && registry.services == map[]
      ensures nextPort == InitialCursor
    {
      this.draft := draft;
      this.config := config;
      registry := new ServiceRegistry();
      nextPort := InitialCursor;
    }

    ghost function Snapshot(host: Host): World
      reads this, registry, host
    {
      World(registry.services, nextPort, host.occupied, host.processes)
    }

    /** `get_or_start_service(name)`, step by step. */
    method GetOrStartService(name: string, host: Host, env: Environment)
      returns (r: Result<Endpoint, GatewayError>)
      modifies this, registry, host
      ensures Outcome(r, Snapshot(host)) == Resolve(draft, config, old(Snapshot(host)), name, env)
    {
      var port: Port := 0;
      if CheckServiceConfig(config, name) || name == EchoService {
        var cached := registry.GetServiceEndpoint(name);
        if cached.Some? {
          return Ok(cached.value);
        }
        var startPort := nextPort;
        nextPort := WrappingIncrement(nextPort);
        var found := FindAvailablePort(host.occupied, startPort);
        if found.None? {
          return Err(NoAvailablePorts);
        }
        port := found.value;
        if env.takenMeanwhile.Some? {
          host.Bind(port);
        }
        var free := host.Probe(port);
        if !free {
          return Err(PortCheckFailed(port, env.takenMeanwhile.value));
        }
        registry.InsertService(name, MakeEndpoint(draft, port));
      }
      var command: Command;
      if name == EchoService {
        command := EchoCommand(port);
      } else if CheckServiceConfig(config, name) {
        var spec := GetServiceFromConfig(config, name);
        command := ContainerCommand(port, spec.value.image);
      } else {
        return Err(UnknownService(name));
      }
      if env.spawnError.Some? {
        return Err(SpawnFailed(env.spawnError.value));
      }
      var pid := host.Spawn(command);
      if name != EchoService {
        host.Wait(pid);
      }
      if env.backendBinds {
        host.Bind(port);
      }
      var stillFree := host.Probe(port);
      if stillFree {
        var killError := host.Kill(pid, env.killError);
        if killError.Some? {
          return Err(KillFailed(killError.value));
        }
        return Err(NotOccupiedAfterStartup(port));
      }
      return Ok(MakeEndpoint(draft, port));
    }
  }
}
