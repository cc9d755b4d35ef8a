/**
 * The `EventProcessor` contract as the dispatcher sees it: a name, a
 * technical flag, and the two calls the dispatcher makes. A processor's own
 * behaviour is outside the dispatcher, so each call is recorded in a ghost
 * log in the order it arrives.
 */
module Processors {
  import opened Wrappers
  import opened JsonValues
  import opened EventNames
  import opened ProcessorNames

  /** The arguments of one `send(_:properties:)` call. */
  datatype Delivery = Delivery(name: EventName, properties: Properties)

  /** One call the dispatcher made on a processor. */
  datatype Action =
    | Receive(delivery: Delivery)            // send(_:properties:)
    | AssignUserId(userId: Option<string>)   // set(userId:)

  class Processor {
    const name: ProcessorName
    const isTechnical: bool
    ghost var log: seq<Action>

    constructor (name: ProcessorName, isTechnical: bool)
      ensures this.name == name && this.isTechnical == isTechnical
      ensures log == []
    {
      this.name := name;
      this.isTechnical := isTechnical;
      log := [];
    }

    /** `send(_:properties:)`. */
    method Send(eventName: EventName, properties: Properties)
      modifies this
      ensures log == old(log) + [Receive(Delivery(eventName, properties))]
    {
      log := log + [Receive(Delivery(eventName, properties))];
    }

    /** `set(userId:)`. */
    method SetUserId(userId: Option<string>)
      modifies this
      ensures log == old(log) + [AssignUserId(userId)]
    {
      log := log + [AssignUserId(userId)];
    }
  }
}
