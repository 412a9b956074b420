/** The machine event record that the broadcaster stamps and serialises. */
module Events {

  /** The `events.Type` value that marks machine events (`events.Machine`). */
  const MachineType: string := "machine"

  /** A point in time, as `time.Now()` returns it; only its identity matters here. */
  datatype Instant = Instant(unixNano: int)

  /** The serialised bytes of one event. */
  type Payload = seq<bv8>

  /**
   * An `events.Event`. `status`, `time` and `typ` are stamped at publish time; the other fields
   * are context the caller supplies.
   */
  datatype Event = Event(
    containerExitCode: int,
    id: string,
    image: string,
    name: string,
    network: string,
    status: string,
    time: Instant,
    typ: string,
    attributes: map<string, string>)

  /** The three assignments at the head of `newMachineEvent`. */
  function Stamp(status: string, event: Event, now: Instant): (r: Event)
    ensures r.status == status && r.time == now && r.typ == MachineType
    ensures r.containerExitCode == event.containerExitCode && r.id == event.id
    ensures r.image == event.image && r.name == event.name && r.network == event.network
    ensures r.attributes == event.attributes
  {
    event.(status := status, time := now, typ := MachineType)
  }

  /**
   * Whatever status, time and type the caller left in the record are overwritten: stamping a
   * stamped event again is the same as stamping the original once.
   */
  lemma StampForgetsCallerStamp(status: string, status': string, event: Event, now: Instant, now': Instant)
    ensures Stamp(status, Stamp(status', event, now'), now) == Stamp(status, event, now)
  {
  }
}
