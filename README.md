# gateway-demo: a Dafny model of the on-demand gateway's decision logic

The gateway fronts a set of "functions". A request for `/{service_name}/...`
resolves the name to a running backend. A backend that is not yet known is
started on a freshly allocated TCP port: a local `cargo run` process for the
built-in `echo` service, a `docker run` container for a configured function.
The request is then forwarded and the backend's answer relayed.

This project models that decision logic with sockets and processes replaced
by an abstract host:

- `Registry` (registry.dfy): the name-to-endpoint registry class and the
  queries on the function configuration.
- `PortAllocator` (ports.dfy): the first-free scan over `[start, 8100)`.
  A probe binds a listener and drops it at once, so it is a pure question
  about the set of occupied ports. Binding port 0 always succeeds, because the
  operating system then picks an ephemeral port.
- `Launcher` (launcher.dfy): the launch command lines. `Host` is the machine:
  the ports programs hold and the log of processes the gateway spawned.
- `Lifecycle` (lifecycle.dfy): `get_or_start_service`. `Resolve` is a pure
  specification of one call over a `World` snapshot. `Gateway.GetOrStartService`
  is the step-by-step method, which updates the registry object, the
  `NEXT_PORT` cursor and the host, and is proved to compute `Resolve`.
  `LifecycleFacts` (lifecycle_facts.dfy) proves what the routine does per branch.
- `Proxy` (proxy.dfy): the `//` collapse of the target path, body buffering,
  outbound headers and the response relay (`proxy_request`).
- `Server` (server.dfy): `handle_request`, and its mapping of errors to status codes.
- `Net` (net.dfy): `u16` ports, the wrapping cursor increment, IPv4 addresses,
  and the decimal text of a port.

The two drafts of the routine, gateway/src/main.rs and gateway/src/reverse_proxy.rs,
are one model with a `Draft` parameter. They differ in four ways:
- the registry value: a bare port (`PortOnly`) in main.rs, `(127.0.0.1, port)` (`Socket`) in reverse_proxy.rs;
- the address of the re-check and of the post-launch probe: 0.0.0.0 in main.rs, 127.0.0.1 in reverse_proxy.rs (both drafts scan on 0.0.0.0);
- the forwarding address: always 0.0.0.0 in main.rs, the endpoint's address in reverse_proxy.rs;
- main.rs alone sets the inbound `Content-Type` on the outbound request once more.

Occupancy is tracked per port, so the probe addresses do not change any answer.

The environment is an input. `Environment` says four things:
- whether another program takes the scanned port before the re-check;
- whether `spawn()` fails;
- whether the backend holds its port when the probe runs: one second after the spawn for `echo`, as soon as the docker client exits for a configured function;
- whether `kill()` of a still running local backend fails.

`SendOutcome` is what the outbound HTTP exchange returns. The payload is a
sequence of chunks, each holding bytes or an error.

## Where the intended behaviour and the code disagree (the model follows the code)

- One would expect a failed launch to remove its registry entry. The code
  inserts the endpoint before launching and never removes it.
  The next request for that name is then a cache hit that returns the dead
  endpoint (`LifecycleFacts.FailedLaunchServedFromCache`).
- One would expect no two endpoints to hold the same port. A failed launch
  leaves its registered port bindable, so a later miss for another name can be
  given the same port (`LifecycleFacts.SharedPortAfterFailedLaunch`: `echo`
  and a configured function both end up on 8051).
- One would expect the cursor only to increase. `NEXT_PORT` is a wrapping
  `u16`. From 65535 it wraps to 0 (`LifecycleFacts.CursorWraps`). A scan
  from 0 then yields port 0, whose launch can never pass verification
  (`LifecycleFacts.PortZeroNeverVerifies`).
- One would expect a non-zero exit of the launch command to count as a
  failure. The code ignores docker's exit status; only the port verification
  decides.
- One would expect a container whose port never opens to be stopped. The
  gateway's child for a configured function is the `docker run -d` client,
  which it has already waited for (gateway/src/reverse_proxy.rs:125). Tokio
  refuses to kill a child that has been waited for, so a failed verification
  of a configured function always returns "Failed to kill child process: ..."
  (`LifecycleFacts.VerificationPolarity`,
  `LifecycleFacts.ContainerNeverReportsNotOccupied`). The detached container
  is never stopped. Only the local `echo` backend can be killed.
- One would expect a container launch to wait the same grace period as `echo`.
  The one-second sleep sits in the `echo` arm only
  (gateway/src/reverse_proxy.rs:99); for a configured function the code probes
  the port as soon as `docker run -d` returns (gateway/src/reverse_proxy.rs:125, 134).
- One would expect the query string to reach the backend. The target is built
  from the matched path alone, so `?...` is dropped.

## Model

| member | source | states |
|---|---|---|
| Net.Dec | gateway/src/reverse_proxy.rs:95 | `port.to_string()` is never empty, and is one character exactly for ports below 10 |
| Net.WrappingIncrement | gateway/src/reverse_proxy.rs:77 | `fetch_add(1)` leaves the cursor one higher, except that 65535 wraps to 0 |
| Net.DecWellFormed | gateway/src/reverse_proxy.rs:95 | `port.to_string()` is a non-empty string of decimal digits with no leading zero |
| Net.ParseDecOfDec | gateway/src/main.rs:148 | parsing the decimal text of the port passed to the backend gives back that port |
| Net.DecInjective | gateway/src/main.rs:159 | distinct ports have distinct decimal texts in the launch arguments |
| Registry.Lookup | gateway/src/registry.rs:22-25 | a lookup is Some exactly for stored names, and then carries the stored endpoint |
| Registry.GetServiceFromConfig | gateway/src/registry.rs:36-40 | the configured function of a name if it is configured, None otherwise |
| Registry.CheckServiceConfig | gateway/src/registry.rs:32-35 | `check_service_config(n)` is true exactly when `get_service_from_config(n)` is Some |
| Registry.ServiceRegistry.constructor | gateway/src/registry.rs:16-20 | a new registry holds no entries |
| Registry.ServiceRegistry.GetServiceEndpoint | gateway/src/registry.rs:22-25 | returns the stored endpoint or None, and changes nothing |
| Registry.ServiceRegistry.InsertService | gateway/src/registry.rs:27-30 | the new map is the old one with the name set to the endpoint |
| Registry.NewRegistryIsEmpty | gateway/src/registry.rs:16-25 | a fresh registry returns None for every name |
| Registry.InsertThenLookup | gateway/src/registry.rs:27-30 | after inserting `(n, e)`, looking up `n` gives `e` |
| Registry.InsertKeepsOthers | gateway/src/registry.rs:29 | inserting one name leaves every other name's lookup unchanged |
| Registry.InsertOverwrites | gateway/src/registry.rs:29 | inserting an already present name replaces its endpoint |
| PortAllocator.Bindable | gateway/src/reverse_proxy.rs:33 | binding port 0 always succeeds; a port held by another program binds only if it is port 0 |
| PortAllocator.FindAvailablePort | gateway/src/reverse_proxy.rs:32-34 | returns the least bindable port of `[start, 8100)`, or None when none of them is bindable |
| PortAllocator.FindAvailablePortIsLeast | gateway/src/main.rs:29-31 | whenever some port of the window is bindable, the scan finds one at or below it |
| PortAllocator.FindAvailablePortPastRange | gateway/src/reverse_proxy.rs:33 | a start at or above 8100 always gives None |
| PortAllocator.FindAvailablePortLocal | gateway/src/main.rs:30 | the answer depends only on the occupancy of the window `[start, 8100)` |
| Launcher.LaunchCommand | gateway/src/reverse_proxy.rs:92-131 | `echo` gets the cargo command even when also configured; other known names get their image's docker command |
| Launcher.EchoCommand | gateway/src/main.rs:147-148 | the echo backend is started as `cargo run --bin echo -- --port <p>`, with `p` the assigned port's decimal text |
| Launcher.PortMapping | gateway/src/reverse_proxy.rs:106 | the `<port>:3000` text of the `-p` argument; it names exactly the assigned port (`Launcher.ContainerCommandMapsPort`) |
| Launcher.ContainerCommand | gateway/src/main.rs:165-166 | a function is started as `docker run -p <mapping> --pull=missing --rm -d <image>`, the mapping that of the assigned port; `-d` detaches, so the docker client exits once the container is up |
| Launcher.EchoCommandCarriesPort | gateway/src/main.rs:147-151 | the backend reads the word after `--port`, past cargo's `--`, and parses exactly `p` back |
| Launcher.ContainerCommandMapsPort | gateway/src/main.rs:159-169 | the argument after `-p` splits at its only colon into the decimal host port `p` and the container port 3000, and the image is the last argument |
| Launcher.Host.Probe | gateway/src/reverse_proxy.rs:134 | a bind probe succeeds exactly for port 0 or an unoccupied port, and leaves the host unchanged |
| Launcher.Host.Spawn | gateway/src/reverse_proxy.rs:94-98 | a successful spawn appends one process and changes no port |
| Launcher.Host.Wait | gateway/src/reverse_proxy.rs:125 | waiting for a child marks that one process exited and changes nothing else |
| Launcher.Host.Kill | gateway/src/reverse_proxy.rs:136-138 | killing a child that was waited for fails with tokio's "can't kill an exited process" error; otherwise the outcome is the given one; a successful kill marks that one process killed, a failed one changes nothing |
| Lifecycle.Resolve | gateway/src/reverse_proxy.rs:69-144 | one call spawns at most one process and keeps the earlier ones as they were; a successful result is what the registry then holds for the name |
| Lifecycle.Known | gateway/src/reverse_proxy.rs:72 | the routine serves a name exactly when it is configured or is `echo` (its partner is `LifecycleFacts.UnknownServiceRejected`) |
| Lifecycle.Message | gateway/src/reverse_proxy.rs:80-139 | the routine's error texts; distinct errors give distinct texts (`LifecycleFacts.MessageInjective`) |
| Lifecycle.MakeEndpoint | gateway/src/reverse_proxy.rs:89 | the registered endpoint carries the assigned port |
| Lifecycle.Gateway.constructor | gateway/src/reverse_proxy.rs:17-30 | the gateway starts with an empty registry and the cursor at 8050 |
| Lifecycle.Gateway.GetOrStartService | gateway/src/reverse_proxy.rs:69-144 | the result, registry, cursor, occupancy and processes after the call are exactly those of `Resolve` |
| LifecycleFacts.UnknownServiceRejected | gateway/src/reverse_proxy.rs:72 | an unconfigured, non-`echo` name gives `Unknown service: <name>` with no cursor move, insert or spawn |
| LifecycleFacts.MessageHeads | gateway/src/reverse_proxy.rs:80-139 | each error text starts with its own letter (`U`, `N`, `P`, `F`), and the two `Failed to` texts differ at their eleventh character |
| LifecycleFacts.PortMessagesInjective | gateway/src/reverse_proxy.rs:85-139 | the texts "Port p check failed: e" and "Port p not occupied after startup" never coincide, and each determines its port and error |
| LifecycleFacts.MessageInjective | gateway/src/reverse_proxy.rs:80-139 | distinct errors always have distinct texts, so the 500 body identifies the error |
| LifecycleFacts.CachedEndpointReturned | gateway/src/reverse_proxy.rs:73-75 | a registered name returns its stored endpoint and nothing changes |
| LifecycleFacts.MissAdvancesCursor | gateway/src/reverse_proxy.rs:77-80 | each miss for a known name advances the cursor by exactly one (wrapping), whatever follows |
| LifecycleFacts.ExhaustedRangeFails | gateway/src/main.rs:131-132 | with no bindable port in the window the call fails with "No available ports", and only the cursor moved |
| LifecycleFacts.MissRegistersBeforeLaunch | gateway/src/reverse_proxy.rs:88-90 | after the re-check passes, the endpoint stays registered whatever the spawn or the verification do |
| LifecycleFacts.RacedPortFailsCheck | gateway/src/reverse_proxy.rs:83-86 | a port taken before the re-check fails the call with that port's check error, before any insert or spawn |
| LifecycleFacts.LaunchRunsCommand | gateway/src/main.rs:145-177 | a successful spawn adds exactly one process, running the name's launch command on the assigned port |
| LifecycleFacts.VerificationPolarity | gateway/src/reverse_proxy.rs:134-143 | success exactly when the port is no longer bindable; otherwise `echo`'s child is killed and "Port p not occupied after startup" returned, or the kill error returned, while a container launch always returns tokio's "can't kill an exited process" error |
| LifecycleFacts.ContainerNeverReportsNotOccupied | gateway/src/main.rs:170-190 | a configured function's launch never ends in "Port p not occupied after startup" |
| LifecycleFacts.SpawnFailureReported | gateway/src/reverse_proxy.rs:94-98 | a spawn error is returned as "Failed to start service: ..." and nothing is launched |
| LifecycleFacts.RegistryChangesOnlyAtName | gateway/src/main.rs:142 | a call changes no other name's entry and never removes an entry |
| LifecycleFacts.AtMostOneLaunch | gateway/src/main.rs:145-177 | a call spawns at most one process, only on a miss for a known name, and leaves every earlier process, command and state, as it was |
| LifecycleFacts.AssignedPortFromWindow | gateway/src/main.rs:131-132 | a newly registered port lies in `[cursor, 8100)` and was bindable at the scan |
| LifecycleFacts.PortsBelowRangeEndPreserved | gateway/src/reverse_proxy.rs:77-90 | every call keeps all registered ports below 8100 |
| LifecycleFacts.FailedLaunchServedFromCache | gateway/src/reverse_proxy.rs:73-75 | after a failed launch, the next call for that name returns the stale endpoint without launching |
| LifecycleFacts.SharedPortAfterFailedLaunch | gateway/src/reverse_proxy.rs:77-90 | two names can be registered on the same port after a failed launch |
| LifecycleFacts.CursorWraps | gateway/src/reverse_proxy.rs:17 | from cursor 65535 a miss finds no port and the cursor wraps to 0 |
| LifecycleFacts.PortZeroNeverVerifies | gateway/src/reverse_proxy.rs:134-140 | a miss scanning from cursor 0 always fails, because port 0 stays bindable |
| LifecycleFacts.RunAdvancesCursorPerMiss | gateway/src/reverse_proxy.rs:77 | over any sequence of calls, the cursor ends at its start plus the number of misses, modulo 2^16 |
| LifecycleFacts.RunLaunchesAtMostMisses | gateway/src/reverse_proxy.rs:72-131 | over any sequence of calls, the earlier process log is kept unchanged as a prefix and no more processes are launched than there were misses |
| LifecycleFacts.RunNeverDeregisters | gateway/src/reverse_proxy.rs:88-90 | over any sequence of calls, no registry entry is ever removed |
| LifecycleFacts.RunKeepsPortsBelowRangeEnd | gateway/src/main.rs:131-142 | over any sequence of calls, all registered ports stay below 8100 |
| Proxy.CollapseSlashes | gateway/src/reverse_proxy.rs:51 | `replace("//","/")` never lengthens the path, and gives the empty string only for the empty string |
| Proxy.CollapseLength | gateway/src/reverse_proxy.rs:51 | `replace("//","/")` never lengthens the path, and shortens it exactly when it contains `//` |
| Proxy.CollapseKeepsCleanPath | gateway/src/reverse_proxy.rs:51 | a path without `//` is unchanged |
| Proxy.CollapseLeavesDoubleOnlyFromTriple | gateway/src/main.rs:101 | the result contains `//` only if the path contained `///` |
| Proxy.CollapseRemovesOnlySlashes | gateway/src/main.rs:101 | every non-slash character survives, in order |
| Proxy.CollapseIsSinglePass | gateway/src/reverse_proxy.rs:51 | a single left-to-right pass: `///` becomes `//` |
| Proxy.TargetFor | gateway/src/reverse_proxy.rs:48-53 | the target carries the endpoint's port and a collapsed path no longer than the rest path, or than `/` when the rest path is empty |
| Proxy.ConcatAppend | gateway/src/reverse_proxy.rs:157-161 | the buffered body of a split stream is the two parts' bodies in order |
| Proxy.BufferBody | gateway/src/reverse_proxy.rs:157-163 | the body is the in-order concatenation of all chunks; otherwise the first error chunk's error is returned |
| Proxy.GetHeader | gateway/src/main.rs:222 | the `Content-Type` lookup returns the first value given for the name, or None when the name is absent |
| Proxy.LastValueIsLastOccurrence | gateway/src/main.rs:236-238 | after inserting headers in order, each name holds the value of its last occurrence, and absent names stay absent |
| Proxy.CopyHeaders | gateway/src/reverse_proxy.rs:175-177 | every backend header name is in the response, with its last value, and no other name is |
| Proxy.OutboundHeaders | gateway/src/main.rs:209-224 | inbound headers are copied; main.rs appends the inbound Content-Type once more when it is present |
| Proxy.ProxyRequest | gateway/src/reverse_proxy.rs:147-185 | a broken body aborts before sending; otherwise method, headers and body are sent, a send error gives 502 with its text, and a reply has its status, headers and body relayed |
| Server.HandleRequest | gateway/src/reverse_proxy.rs:36-67 | a resolution error gives a 500 with the error message and no proxying; a body error gives a 500 with its text; otherwise the proxied reply |

## Left out

- Real sockets, processes, docker, the one-second grace period and logging: the host is a set of occupied ports plus a process log, and the `Environment` input decides each outcome.
- Concurrency: mutexes, the atomic ordering of `NEXT_PORT` and locks released between check and insert. Calls are sequential here, so the lack of single-flight launching is not modelled.
- Per-address occupancy: a port counts as held whatever address it is bound on, so probes of 0.0.0.0 and 127.0.0.1 answer alike.
- URL handling: `Url::parse` normalisation (dot segments, percent-encoding, the omission of a port 80 when serialising) and the panicking `Url::parse("")` fallback. The target is kept structured, as address, port and collapsed path.
- actix-web route matching of `{service_name}{path:/?.*}`. Header-name normalisation is not modelled: names are assumed already lower-case.
- Whether reqwest's `header()` appends or replaces: it is modelled as appending one more header.
- The panics in the source: `child.wait().expect(..)` on docker, the `panic!` for a configured function without a spec, and `resp.bytes().unwrap()`.
- Configuration loading (config.rs, lib.rs, `get_config`), and the echo backend itself except for how it parses its port argument.
- The process-wide `NEXT_PORT` static (gateway/src/reverse_proxy.rs:17, gateway/src/main.rs:26) is not reset by `ReverseProxy::new` (gateway/src/reverse_proxy.rs:25-30). Here the cursor is a field of `Gateway` that its constructor sets to 8050, so the model is of one gateway per process.
- Query strings: `InboundRequest` and `Target` have no query, because the target is built from the matched path only (gateway/src/reverse_proxy.rs:38, 48; gateway/src/main.rs:79, 98) and the query never reaches the backend.
- Docker containers: the model tracks only the gateway's own child processes. The detached container a `docker run -d` starts, and its lifetime, are not modelled. `Launcher.KillExitedError` is tokio's text for the kill of a child that was waited for.
- The end-to-end test in gateway/src/tests/test.rs, which needs live processes.
- Error texts from the operating system and from reqwest are opaque strings given as inputs.
