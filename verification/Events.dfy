/** Queue messages and the events in them (internal/queue/event.go). */
module Events {
  import opened Wrappers
  import opened Uuids

  const ORDER_CREATED := "OrderCreated"

  datatype Event = Event(kind: string, orderId: string)

  /** A message text that decodes to an event, or one that does not. */
  datatype Body = Json(event: Event) | Malformed

  /** The event createOrder publishes for an order. */
  function CreatedEvent(id: Uuid): Event {
    Event(ORDER_CREATED, Format(id))
  }

  /** The type the worker looks for, and the id of the order in a text that reads back to it. */
  lemma CreatedEventSays(id: Uuid)
    ensures CreatedEvent(id).kind == "OrderCreated"
    ensures Parse(CreatedEvent(id).orderId) == Some(id)
  {
    FormatRoundTrips(id);
  }

  lemma CreatedEventNamesOneOrder(id: Uuid, other: Uuid)
    requires CreatedEvent(id) == CreatedEvent(other)
    ensures id == other
  {
    FormatIsInjective(id, other);
  }
}
