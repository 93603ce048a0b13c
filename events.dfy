/** The protocol values that flow through the harvester: an event as a relay
    delivers it, and the same event tagged with the relay it came from. */
module Events {

  /** A protocol event. Only the fields the harvester reads are kept: the kind
      (counted by the status display) and the creation timestamp in Unix
      seconds (the pagination cursor is built from it). */
  datatype Event = Event(id: string, kind: int, createdAt: int)

  /** An event together with the URL of the relay that delivered it. */
  datatype RelayEvent = RelayEvent(event: Event, relay: string)
}
