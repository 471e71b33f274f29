/**
 * The launcher: the command line that starts a backend on an assigned port,
 * and the host the gateway runs on, reduced to the TCP ports programs hold
 * and the processes the gateway has spawned.
 */
module Launcher {
  import opened Wrappers
  import opened Net
  import opened Registry
  import opened PortAllocator

  /** The reserved name of the local test backend. */
  const EchoService: string := "echo"

  /** The port every function container listens on inside the container. */
  const ContainerPort: nat := 3000

  /** A program and its argument vector, as given to `Command::new(..).args(..)`. */
  datatype Command = Command(program: string, args: seq<string>)

  /** `cargo run --bin echo -- --port <port>`: the local echo backend. */
  function EchoCommand(port: Port): (c: Command)
    ensures c.program == "cargo" && |c.args| == 6
    ensures c.args[..4] == ["run", "--bin", "echo", "--"]
    ensures c.args[4] == "--port" && c.args[5] == Dec(port)
  {
    Command("cargo", ["run", "--bin", "echo", "--", "--port", Dec(port)])
  }

  /** `format!("{}:{}", port, 3000)`: docker's host-to-container port mapping. */
  function PortMapping(port: Port): string
  {
    Dec(port) + ":" + Dec(ContainerPort)
  }

  /** `docker run -p <port>:3000 --pull=missing --rm -d <image>`: a function container. */
  function ContainerCommand(port: Port, image: string): (c: Command)
    ensures c.program == "docker" && |c.args| == 7
    ensures c.args[0] == "run" && c.args[3..6] == ["--pull=missing", "--rm", "-d"]
    ensures c.args[1] == "-p" && c.args[2] == PortMapping(port) && c.args[6] == image
  {
    Command("docker", ["run", "-p", PortMapping(port), "--pull=missing", "--rm", "-d", image])
  }

  /**
   * The command `get_or_start_service` spawns for a name: the `"echo"` arm of
   * its `match` is tried first, so a configured function named `echo` still
   * starts the local backend; any other known name starts its image.
   */
  function LaunchCommand(config: Config, name: string, port: Port): (c: Command)
    requires CheckServiceConfig(config, name) || name == EchoService
    ensures name == EchoService ==> c == EchoCommand(port)
    ensures name != EchoService ==> c == ContainerCommand(port, config[name].image)
  {
    if name == EchoService then EchoCommand(port)
    else
      var spec := GetServiceFromConfig(config, name);
      ContainerCommand(port, spec.value.image)
  }

  /**
   * The echo backend reads its port as the third word of its own argument
   * vector (`echo --port <p>`, everything after cargo's `--`) and parses it:
   * it gets exactly the assigned port.
   */
  lemma EchoCommandCarriesPort(port: Port)
    ensures var c := EchoCommand(port);
      |c.args| == 6 && c.args[3] == "--" && c.args[4] == "--port"
      && AllDigits(c.args[5]) && ParseDec(c.args[5]) == port
  {
    ParseDecOfDec(port);
  }

  /**
   * `mapping` is `<port>:3000` with its colon at `i`: decimal digits naming
   * `port` before it, the container port after it, and no other colon.
   */
  ghost predicate MapsPortAt(mapping: string, i: int, port: Port)
  {
    0 <= i < |mapping| && mapping[i] == ':'
    && AllDigits(mapping[..i]) && ParseDec(mapping[..i]) == port
    && mapping[i + 1..] == "3000"
    && forall j :: 0 <= j < |mapping| && j != i ==> IsDigit(mapping[j])
  }

  /**
   * The `-p` argument of a container launch splits at its only colon into the
   * decimal assigned host port and the container port 3000.
   */
  lemma ContainerCommandMapsPort(port: Port, image: string)
    ensures var c := ContainerCommand(port, image);
      |c.args| == 7 && c.args[1] == "-p" && c.args[6] == image
      && (exists i :: MapsPortAt(c.args[2], i, port))
  {
    ParseDecOfDec(port);
    var m := PortMapping(port);
    var i := |Dec(port)|;
    assert Dec(ContainerPort) == "3000";
    assert m[..i] == Dec(port);
    assert m[i + 1..] == "3000";
    forall j | 0 <= j < |m| && j != i ensures IsDigit(m[j]) {
      if j < i { assert m[j] == Dec(port)[j]; } else { assert m[j] == "3000"[j - i - 1]; }
    }
    assert MapsPortAt(m, i, port);
    assert ContainerCommand(port, image).args[2] == m;
  }

  /**
   * The life of a child process the gateway spawned. A container launch's
   * child is the docker client, which the gateway waits for; the detached
   * container it starts is not a child of the gateway and is not tracked.
   */
  datatype ProcessState = Running | Exited | Killed

  datatype Process = Process(command: Command, state: ProcessState)

  /** What tokio's `Child::kill` reports for a child that has already been waited for. */
  const KillExitedError: string := "invalid argument: can't kill an exited process"

  /**
   * The machine the gateway runs on: the ports programs hold and the log of
   * the processes the gateway spawned. Spawn and bind outcomes are decided by
   * the caller, which stands for the operating system and the backends.
   */
  class Host {
    var occupied: set<Port>
    var processes: seq<Process>

    constructor (occupied: set<Port>)
      ensures this.occupied == occupied && processes == []
    {
      this.occupied := occupied;
      processes := [];
    }

    /**
     * A bind/drop probe `TcpListener::bind((addr, port)).is_ok()`; the
     * listener is dropped at once, so the host is left as it was.
     */
    method Probe(port: Port) returns (ok: bool)
      ensures ok <==> (port == 0 || port !in occupied)
    {
      ok := Bindable(occupied, port);
    }

    /** Some program (a backend, or any other) starts listening on `port`. */
    method Bind(port: Port)
      modifies this
      ensures occupied == old(occupied) + {port} && processes == old(processes)
    {
      occupied := occupied + {port};
    }

    /** A successful `spawn()`: the new, running process is appended to the log. */
    method Spawn(command: Command) returns (pid: nat)
      modifies this
      ensures pid == |old(processes)|
      ensures processes == old(processes) + [Process(command, Running)] && occupied == old(occupied)
    {
      pid := |processes|;
      processes := processes + [Process(command, Running)];
    }

    /** `child.wait()`: the gateway waits until the process has exited. */
    method Wait(pid: nat)
      requires pid < |processes|
      modifies this
      ensures processes == old(processes)[pid := old(processes)[pid].(state := Exited)]
      ensures occupied == old(occupied)
    {
      processes := processes[pid := processes[pid].(state := Exited)];
    }

    /**
     * `child.kill()`: fails for a child already waited for, fails with
     * `failure` when the operating system refuses, and kills it otherwise.
     */
    method Kill(pid: nat, failure: Option<string>) returns (err: Option<string>)
      requires pid < |processes|
      modifies this
      ensures old(processes)[pid].state == Exited ==> err == Some(KillExitedError)
      ensures old(processes)[pid].state != Exited ==> err == failure
      ensures err.None? ==> processes == old(processes)[pid := old(processes)[pid].(state := Killed)]
      ensures err.Some? ==> processes == old(processes)
      ensures occupied == old(occupied)
    {
      if processes[pid].state == Exited {
        err := Some(KillExitedError);
      } else if failure.Some? {
        err := failure;
      } else {
        processes := processes[pid := processes[pid].(state := Killed)];
        err := None;
      }
    }
  }
}
