/**
 * What one call of `get_or_start_service` does, per branch, and what follows
 * for a sequence of calls. Every lemma is about the specification `Resolve`,
 * which `Gateway.GetOrStartService` is proved to compute.
 */
module LifecycleFacts {
  import opened Wrappers
  import opened Net
  import opened Registry
  import opened PortAllocator
  import opened Launcher
  import opened Lifecycle

  /** A name that is neither configured nor `echo` fails at once and changes nothing. */
  lemma UnknownServiceRejected(d: Draft, config: Config, w: World, name: string, env: Environment)
    requires !CheckServiceConfig(config, name) && name != EchoService
    ensures Resolve(d, config, w, name, env) == Outcome(Err(UnknownService(name)), w)
    ensures Message(UnknownService(name)) == "Unknown service: " + name
  {
  }

  /** In `a + x`, the numeral `a` is followed by the non-digit `x[0]`. */
  lemma NumeralThenNonDigit(a: string, x: string)
    requires AllDigits(a) && |x| > 0 && !IsDigit(x[0])
    ensures forall i :: 0 <= i < |a| ==> IsDigit((a + x)[i])
    ensures !IsDigit((a + x)[|a|])
  {
  }

  /** A decimal numeral followed by a non-digit splits the same way in both of two equal strings. */
  lemma NumeralPrefixUnique(a: string, x: string, b: string, y: string)
    requires AllDigits(a) && AllDigits(b) && |x| > 0 && |y| > 0
    requires !IsDigit(x[0]) && !IsDigit(y[0])
    requires a + x == b + y
    ensures a == b && x == y
  {
    NumeralThenNonDigit(a, x);
    NumeralThenNonDigit(b, y);
    assert |a| == |b|;
    assert a == (a + x)[..|a|] && b == (b + y)[..|b|];
    assert x == (a + x)[|a|..] && y == (b + y)[|b|..];
  }

  /** `Port <p> ...` messages: the port and the rest of the text are read back uniquely. */
  lemma PortMessageUnique(p: Port, x: string, q: Port, y: string)
    requires |x| > 0 && |y| > 0 && x[0] == ' ' && y[0] == ' '
    requires "Port " + Dec(p) + x == "Port " + Dec(q) + y
    ensures p == q && x == y
  {
    ParseDecOfDec(p);
    ParseDecOfDec(q);
    assert Dec(p) + x == ("Port " + Dec(p) + x)[5..];
    assert Dec(q) + y == ("Port " + Dec(q) + y)[5..];
    NumeralPrefixUnique(Dec(p), x, Dec(q), y);
    DecInjective(p, q);
  }

  /** Equal prefixes cancel. */
  lemma PrefixCancel(prefix: string, x: string, y: string)
    requires prefix + x == prefix + y
    ensures x == y
  {
    assert x == (prefix + x)[|prefix|..];
    assert y == (prefix + y)[|prefix|..];
  }

  /** The first character of each message, and the eleventh of the two `Failed to ...` ones. */
  lemma MessageHeads(e: GatewayError)
    ensures e.UnknownService? ==> Message(e)[0] == 'U'
    ensures e.NoAvailablePorts? ==> Message(e)[0] == 'N'
    ensures e.PortCheckFailed? || e.NotOccupiedAfterStartup? ==> Message(e)[0] == 'P'
    ensures e.SpawnFailed? ==> Message(e)[0] == 'F' && Message(e)[10] == 's'
    ensures e.KillFailed? ==> Message(e)[0] == 'F' && Message(e)[10] == 'k'
  {
    if e.PortCheckFailed? || e.NotOccupiedAfterStartup? {
      PortMessageHead(e);
    } else if e.UnknownService? {
      PrefixHead("Unknown service: ", e.name);
    } else if e.SpawnFailed? {
      PrefixHead("Failed to start service: ", e.os);
    } else if e.KillFailed? {
      PrefixHead("Failed to kill child process: ", e.os);
    }
  }

  lemma PortMessageHead(e: GatewayError)
    requires e.PortCheckFailed? || e.NotOccupiedAfterStartup?
    ensures Message(e)[0] == 'P'
  {
    var d := Dec(e.port);
    if e.PortCheckFailed? {
      PortHead(d, " check failed: " + e.os);
      assert Message(e) == "Port " + d + " check failed: " + e.os;
    } else {
      PortHead(d, " not occupied after startup");
    }
  }

  lemma PortHead(d: string, tail: string)
    ensures ("Port " + d + tail)[0] == 'P'
    ensures "Port " + d + tail == "Port " + (d + tail)
  {
  }

  lemma PrefixHead(prefix: string, x: string)
    requires |prefix| > 10
    ensures (prefix + x)[..11] == prefix[..11]
  {
  }

  /** The rest of a `Port <p> ...` message after the numeral. */
  function PortTail(e: GatewayError): string
    requires e.PortCheckFailed? || e.NotOccupiedAfterStartup?
  {
    if e.PortCheckFailed? then " check failed: " + e.os else " not occupied after startup"
  }

  /** The two `Port <p> ...` messages are told apart by their tails and carry their fields uniquely. */
  lemma PortMessagesInjective(e1: GatewayError, e2: GatewayError)
    requires e1.PortCheckFailed? || e1.NotOccupiedAfterStartup?
    requires e2.PortCheckFailed? || e2.NotOccupiedAfterStartup?
    requires Message(e1) == Message(e2)
    ensures e1 == e2
  {
    assert Message(e1) == "Port " + Dec(e1.port) + PortTail(e1);
    assert Message(e2) == "Port " + Dec(e2.port) + PortTail(e2);
    PortMessageUnique(e1.port, PortTail(e1), e2.port, PortTail(e2));
    assert PortTail(e1)[1] == PortTail(e2)[1];
    if e1.PortCheckFailed? {
      PrefixCancel(" check failed: ", e1.os, e2.os);
    }
  }

  /**
   * The text of the 500 response identifies the error exactly: distinct
   * errors always have distinct messages.
   */
  lemma MessageInjective(e1: GatewayError, e2: GatewayError)
    requires Message(e1) == Message(e2)
    ensures e1 == e2
  {
    MessageHeads(e1);
    MessageHeads(e2);
    match e1
    case UnknownService(n1) =>
      if e2.UnknownService? { PrefixCancel("Unknown service: ", n1, e2.name); }
    case NoAvailablePorts =>
    case SpawnFailed(os1) =>
      if e2.SpawnFailed? { PrefixCancel("Failed to start service: ", os1, e2.os); }
    case KillFailed(os1) =>
      if e2.KillFailed? { PrefixCancel("Failed to kill child process: ", os1, e2.os); }
    case _ =>
      if e2.PortCheckFailed? || e2.NotOccupiedAfterStartup? { PortMessagesInjective(e1, e2); }
  }

  /** A registered name gets its stored endpoint back: no cursor move, no probe, no launch. */
  lemma CachedEndpointReturned(d: Draft, config: Config, w: World, name: string, env: Environment)
    requires Known(config, name) && name in w.registry
    ensures Resolve(d, config, w, name, env) == Outcome(Ok(w.registry[name]), w)
  {
  }

  /** Every miss for a known name advances the cursor by exactly one (wrapping), whatever follows. */
  lemma MissAdvancesCursor(d: Draft, config: Config, w: World, name: string, env: Environment)
    requires Known(config, name) && name !in w.registry
    ensures Resolve(d, config, w, name, env).world.cursor == WrappingIncrement(w.cursor)
  {
  }

  /** With no bindable port left in `[cursor, 8100)` the miss fails, and only the cursor has moved. */
  lemma ExhaustedRangeFails(d: Draft, config: Config, w: World, name: string, env: Environment)
    requires Known(config, name) && name !in w.registry
    requires forall q: Port :: w.cursor <= q < RangeEnd ==> !Bindable(w.occupied, q)
    ensures Resolve(d, config, w, name, env)
      == Outcome(Err(NoAvailablePorts), w.(cursor := WrappingIncrement(w.cursor)))
  {
  }

  /**
   * Once the scan found `port` and the re-check passed, the endpoint is in the
   * registry after the call, whether the spawn, the backend or the
   * verification then fails: a failed launch is never deregistered.
   */
  lemma MissRegistersBeforeLaunch(d: Draft, config: Config, w: World, name: string, env: Environment, port: Port)
    requires Known(config, name) && name !in w.registry
    requires FindAvailablePort(w.occupied, w.cursor) == Some(port)
    requires env.takenMeanwhile.None?
    ensures Resolve(d, config, w, name, env).world.registry == w.registry[name := MakeEndpoint(d, port)]
  {
  }

  /**
   * If another program takes the scanned port before the re-check, the call
   * fails with that port's check error before anything is registered or launched.
   */
  lemma RacedPortFailsCheck(d: Draft, config: Config, w: World, name: string, env: Environment, port: Port)
    requires Known(config, name) && name !in w.registry
    requires FindAvailablePort(w.occupied, w.cursor) == Some(port)
    requires env.takenMeanwhile.Some? && port != 0
    ensures var o := Resolve(d, config, w, name, env);
      o.result == Err(PortCheckFailed(port, env.takenMeanwhile.value))
      && o.world.registry == w.registry && o.world.processes == w.processes
  {
  }

  /**
   * After a successful spawn, exactly one process is added, running the
   * draft-independent launch command for the name on the assigned port.
   */
  lemma LaunchRunsCommand(d: Draft, config: Config, w: World, name: string, env: Environment, port: Port)
    requires Known(config, name) && name !in w.registry
    requires FindAvailablePort(w.occupied, w.cursor) == Some(port)
    requires env.takenMeanwhile.None? && env.spawnError.None?
    ensures var ps := Resolve(d, config, w, name, env).world.processes;
      |ps| == |w.processes| + 1 && ps[..|w.processes|] == w.processes
      && ps[|w.processes|].command == LaunchCommand(config, name, port)
  {
  }

  /**
   * Post-launch verification with its deliberate polarity: the call succeeds
   * exactly when the port is no longer bindable (the backend took it; port 0
   * always stays bindable). Otherwise the child is killed:
   * - for `echo`, the still running cargo process is killed and the call fails
   *   with "not occupied after startup", or with the kill error if that fails;
   * - for a container, the child is the docker client, already waited for, so
   *   the kill always fails and the call always reports the kill error.
   */
  lemma VerificationPolarity(d: Draft, config: Config, w: World, name: string, env: Environment, port: Port)
    requires Known(config, name) && name !in w.registry
    requires FindAvailablePort(w.occupied, w.cursor) == Some(port)
    requires env.takenMeanwhile.None? && env.spawnError.None?
    ensures var o := Resolve(d, config, w, name, env);
      var child := o.world.processes[|w.processes|];
      (o.result.Ok? <==> env.backendBinds && port != 0)
      && (o.result.Ok? ==> o.result.value == MakeEndpoint(d, port) && port in o.world.occupied)
      && (!o.result.Ok? && name != EchoService ==>
            o.result == Err(KillFailed(KillExitedError)) && child.state == Exited)
      && (!o.result.Ok? && name == EchoService && env.killError.Some? ==>
            o.result == Err(KillFailed(env.killError.value)) && child.state == Running)
      && (!o.result.Ok? && name == EchoService && env.killError.None? ==>
            o.result == Err(NotOccupiedAfterStartup(port)) && child.state == Killed)
  {
  }

  /** A configured function's failed start-up is never reported as "not occupied after startup". */
  lemma ContainerNeverReportsNotOccupied(d: Draft, config: Config, w: World, name: string, env: Environment)
    requires name != EchoService
    ensures !Resolve(d, config, w, name, env).result.Err?
      || !Resolve(d, config, w, name, env).result.error.NotOccupiedAfterStartup?
  {
  }

  /** The spawn error is reported as is, with the endpoint already registered and nothing launched. */
  lemma SpawnFailureReported(d: Draft, config: Config, w: World, name: string, env: Environment, port: Port)
    requires Known(config, name) && name !in w.registry
    requires FindAvailablePort(w.occupied, w.cursor) == Some(port)
    requires env.takenMeanwhile.None? && env.spawnError.Some?
    ensures var o := Resolve(d, config, w, name, env);
      o.result == Err(SpawnFailed(env.spawnError.value)) && o.world.processes == w.processes
      && Message(o.result.error) == "Failed to start service: " + env.spawnError.value
  {
  }

  /**
   * A call touches the registry entry of its own name only, and never removes
   * an entry.
   */
  lemma RegistryChangesOnlyAtName(d: Draft, config: Config, w: World, name: string, env: Environment, other: string)
    requires other != name
    ensures var o := Resolve(d, config, w, name, env);
      Lookup(o.world.registry, other) == Lookup(w.registry, other)
      && w.registry.Keys <= o.world.registry.Keys
  {
  }

  /**
   * A call launches at most one process, and only on a miss for a known name;
   * processes already spawned keep their commands.
   */
  lemma AtMostOneLaunch(d: Draft, config: Config, w: World, name: string, env: Environment)
    ensures var ps := Resolve(d, config, w, name, env).world.processes;
      (|ps| == |w.processes| || |ps| == |w.processes| + 1)
      && ps[..|w.processes|] == w.processes
      && (|ps| > |w.processes| ==> Known(config, name) && name !in w.registry)
  {
  }

  /** Every port the routine assigns comes from the scan window `[cursor, 8100)`. */
  lemma AssignedPortFromWindow(d: Draft, config: Config, w: World, name: string, env: Environment)
    requires name !in w.registry
    ensures var o := Resolve(d, config, w, name, env);
      name in o.world.registry ==>
        w.cursor <= o.world.registry[name].port < RangeEnd
        && Bindable(w.occupied, o.world.registry[name].port)
  {
  }

  /** All registered ports lie below the range end. */
  ghost predicate PortsBelowRangeEnd(registry: map<string, Endpoint>)
  {
    forall n :: n in registry ==> registry[n].port < RangeEnd
  }

  /** Every call keeps all registered ports below the range end, even after the cursor wraps. */
  lemma PortsBelowRangeEndPreserved(d: Draft, config: Config, w: World, name: string, env: Environment)
    requires PortsBelowRangeEnd(w.registry)
    ensures PortsBelowRangeEnd(Resolve(d, config, w, name, env).world.registry)
  {
    var o := Resolve(d, config, w, name, env);
    forall n | n in o.world.registry ensures o.world.registry[n].port < RangeEnd {
      if n != name {
        RegistryChangesOnlyAtName(d, config, w, name, env, n);
      } else if name in w.registry {
        assert o.world.registry == w.registry;
      } else {
        AssignedPortFromWindow(d, config, w, name, env);
      }
    }
  }

  /**
   * A failed launch leaves a stale entry: the next call for the same name is a
   * cache hit and returns the dead endpoint, with no new launch.
   */
  lemma FailedLaunchServedFromCache(d: Draft, config: Config, w: World, name: string, env1: Environment, env2: Environment)
    requires Known(config, name) && name !in w.registry
    requires Resolve(d, config, w, name, env1).result.Err?
    requires name in Resolve(d, config, w, name, env1).world.registry
    ensures var w1 := Resolve(d, config, w, name, env1).world;
      Resolve(d, config, w1, name, env2) == Outcome(Ok(w1.registry[name]), w1)
  {
    var w1 := Resolve(d, config, w, name, env1).world;
    CachedEndpointReturned(d, config, w1, name, env2);
  }

  /**
   * Two names can end up registered on the same port: a failed launch keeps
   * its port registered yet leaves it bindable, and the next miss, whose scan
   * starts at the failed launch's port, finds it again.
   */
  lemma SharedPortAfterFailedLaunch(d: Draft, config: Config, name: string)
    requires name in config && name != EchoService
    ensures var fails := Environment(None, None, false, None);
      var starts := Environment(None, None, true, None);
      var w0 := World(map[], InitialCursor, {8050}, []);
      var o1 := Resolve(d, config, w0, EchoService, fails);
      var o2 := Resolve(d, config, o1.world, name, starts);
      o1.result == Err(NotOccupiedAfterStartup(8051))
      && o2.result == Ok(MakeEndpoint(d, 8051))
      && o2.world.registry[EchoService].port == o2.world.registry[name].port == 8051
  {
    assert FindAvailablePort({8050}, 8050) == Some(8051);
    assert FindAvailablePort({8050}, 8051) == Some(8051);
  }

  /**
   * The cursor is a `u16`: from 65535 a miss finds nothing (the window is
   * empty) and the cursor wraps to 0, so later scans start below 8050.
   */
  lemma CursorWraps(d: Draft, config: Config, w: World, name: string, env: Environment)
    requires Known(config, name) && name !in w.registry && w.cursor == 0xFFFF
    ensures var o := Resolve(d, config, w, name, env);
      o.result == Err(NoAvailablePorts) && o.world.cursor == 0
  {
  }

  /**
   * After the wrap, a scan from 0 always yields port 0, which always stays
   * bindable, so that launch can never pass verification.
   */
  lemma PortZeroNeverVerifies(d: Draft, config: Config, w: World, name: string, env: Environment)
    requires Known(config, name) && name !in w.registry && w.cursor == 0
    ensures Resolve(d, config, w, name, env).result.Err?
  {
    assert FindAvailablePort(w.occupied, 0) == Some(0);
  }

  // ------------------------------------------------------- sequences of calls

  /** One request's call of the routine: the name asked for and what the world does meanwhile. */
  datatype Call = Call(name: string, env: Environment)

  /** The world after serving `calls` one after another. */
  function Run(d: Draft, config: Config, w: World, calls: seq<Call>): World
    decreases |calls|
  {
    if calls == [] then w
    else Run(d, config, Resolve(d, config, w, calls[0].name, calls[0].env).world, calls[1..])
  }

  /** A call that reaches the cursor: a known name that is not registered yet. */
  predicate IsMiss(config: Config, w: World, name: string)
  {
    Known(config, name) && name !in w.registry
  }

  /** How many of `calls` are misses, each judged in the world it meets. */
  function Misses(d: Draft, config: Config, w: World, calls: seq<Call>): nat
    decreases |calls|
  {
    if calls == [] then 0
    else
      (if IsMiss(config, w, calls[0].name) then 1 else 0)
      + Misses(d, config, Resolve(d, config, w, calls[0].name, calls[0].env).world, calls[1..])
  }

  /** The cursor counts misses modulo 2^16, and nothing else moves it. */
  lemma {:induction false} RunAdvancesCursorPerMiss(d: Draft, config: Config, w: World, calls: seq<Call>)
    ensures Run(d, config, w, calls).cursor == (w.cursor + Misses(d, config, w, calls)) % 0x1_0000
    decreases |calls|
  {
    if calls != [] {
      var w1 := Resolve(d, config, w, calls[0].name, calls[0].env).world;
      RunAdvancesCursorPerMiss(d, config, w1, calls[1..]);
      var k := Misses(d, config, w1, calls[1..]);
      if IsMiss(config, w, calls[0].name) {
        MissAdvancesCursor(d, config, w, calls[0].name, calls[0].env);
        assert w1.cursor == (w.cursor + 1) % 0x1_0000;
        ModAddAssoc(w.cursor + 1, k);
      } else {
        assert w1 == w;
      }
    }
  }

  lemma ModAddAssoc(a: nat, k: nat)
    ensures ((a % 0x1_0000) + k) % 0x1_0000 == (a + k) % 0x1_0000
  {
  }

  /** Over any run, no more processes are launched than there were misses and earlier entries of the log are kept. */
  lemma {:induction false} RunLaunchesAtMostMisses(d: Draft, config: Config, w: World, calls: seq<Call>)
    ensures |Run(d, config, w, calls).processes| <= |w.processes| + Misses(d, config, w, calls)
    ensures |w.processes| <= |Run(d, config, w, calls).processes|
    ensures Run(d, config, w, calls).processes[..|w.processes|] == w.processes
    decreases |calls|
  {
    if calls != [] {
      var w1 := Resolve(d, config, w, calls[0].name, calls[0].env).world;
      AtMostOneLaunch(d, config, w, calls[0].name, calls[0].env);
      RunLaunchesAtMostMisses(d, config, w1, calls[1..]);
      var ps := Run(d, config, w, calls).processes;
      assert ps[..|w.processes|] == ps[..|w1.processes|][..|w.processes|];
    }
  }

  /** Over any run, no registry entry is ever removed: a failed launch stays registered for good. */
  lemma {:induction false} RunNeverDeregisters(d: Draft, config: Config, w: World, calls: seq<Call>)
    ensures w.registry.Keys <= Run(d, config, w, calls).registry.Keys
    decreases |calls|
  {
    if calls != [] {
      var name := calls[0].name;
      var w1 := Resolve(d, config, w, name, calls[0].env).world;
      forall n | n in w.registry ensures n in w1.registry {
        if n != name {
          RegistryChangesOnlyAtName(d, config, w, name, calls[0].env, n);
        }
      }
      RunNeverDeregisters(d, config, w1, calls[1..]);
    }
  }

  /** Over any run from a registry with ports below 8100, every registered port stays below 8100. */
  lemma {:induction false} RunKeepsPortsBelowRangeEnd(d: Draft, config: Config, w: World, calls: seq<Call>)
    requires PortsBelowRangeEnd(w.registry)
    ensures PortsBelowRangeEnd(Run(d, config, w, calls).registry)
    decreases |calls|
  {
    if calls != [] {
      PortsBelowRangeEndPreserved(d, config, w, calls[0].name, calls[0].env);
      RunKeepsPortsBelowRangeEnd(d, config, Resolve(d, config, w, calls[0].name, calls[0].env).world, calls[1..]);
    }
  }
}
