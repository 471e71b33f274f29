/**
 * The port allocator: the `NEXT_PORT` cursor's range and the first-free scan
 * `find_available_port` of both gateway drafts. Occupancy of the host's TCP
 * ports is a set; a probe binds a listener and drops it at once, so it is a
 * pure question about that set and changes nothing.
 */
module PortAllocator {
  import opened Wrappers
  import opened Net

  /** Initial value of the `NEXT_PORT` cursor. */
  const InitialCursor: Port := 8050

  /** Exclusive upper bound of the scan `(start_port..8100)`. */
  const RangeEnd: Port := 8100

  /**
   * `TcpListener::bind((addr, p)).is_ok()`: binding port 0 always succeeds
   * (the operating system picks an ephemeral port); any other port binds
   * exactly when no program holds it.
   */
  predicate Bindable(occupied: set<Port>, p: Port)
    ensures p == 0 ==> Bindable(occupied, p)
    ensures p in occupied && Bindable(occupied, p) ==> p == 0
  {
    p == 0 || p !in occupied
  }

  /** `find_available_port(start)`: the first bindable port of `[start, 8100)`. */
  function FindAvailablePort(occupied: set<Port>, start: Port): (r: Option<Port>)
    ensures r.Some? ==> start <= r.value < RangeEnd && Bindable(occupied, r.value)
    ensures r.Some? ==> forall q: Port :: start <= q < r.value ==> !Bindable(occupied, q)
    ensures r.None? ==> forall q: Port :: start <= q < RangeEnd ==> !Bindable(occupied, q)
    decreases RangeEnd - start
  {
    if start >= RangeEnd then None
    else if Bindable(occupied, start) then Some(start)
    else FindAvailablePort(occupied, start + 1)
  }

  /**
   * The scan's answer is THE least bindable port at or above `start`: every
   * bindable port of the range is at or above it, and it is None only when the
   * range holds no bindable port.
   */
  lemma FindAvailablePortIsLeast(occupied: set<Port>, start: Port, p: Port)
    requires start <= p < RangeEnd && Bindable(occupied, p)
    ensures FindAvailablePort(occupied, start).Some?
    ensures FindAvailablePort(occupied, start).value <= p
  {
  }

  /** A start at or past the range end finds nothing, whatever is occupied. */
  lemma FindAvailablePortPastRange(occupied: set<Port>, start: Port)
    requires start >= RangeEnd
    ensures FindAvailablePort(occupied, start) == None
  {
  }

  /**
   * The scan depends only on the occupancy of `[start, 8100)`: ports outside
   * that window (and so the cursor's own history) do not influence it.
   */
  lemma {:induction false} FindAvailablePortLocal(occ1: set<Port>, occ2: set<Port>, start: Port)
    requires forall q: Port :: start <= q < RangeEnd ==> (q in occ1 <==> q in occ2)
    ensures FindAvailablePort(occ1, start) == FindAvailablePort(occ2, start)
    decreases RangeEnd - start
  {
    if start < RangeEnd && !Bindable(occ1, start) {
      FindAvailablePortLocal(occ1, occ2, start + 1);
    }
  }
}
