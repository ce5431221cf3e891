/** The records the engine moves around: events as the service returns them and the
    persisted cursor `{timeBucket, eventId?}`. */
module Events {
  import opened Wrappers

  /** Event ids are time UUIDs; the model keeps their text and does not interpret it. */
  type EventId = string

  /** An event of the log. The payload and the remaining metadata are not modelled. */
  datatype Event = Event(eventId: EventId, eventType: string, timeBucket: string)

  /** The cursor / checkpoint: a time bucket and an optional event id after which to continue. */
  datatype Cursor = Cursor(timeBucket: string, eventId: Option<EventId>)

  /** The ids of a batch of events, in order: what a redelivery timer is armed with. */
  function EventIds(events: seq<Event>): (r: seq<EventId>)
    ensures |r| == |events|
    ensures forall i :: 0 <= i < |events| ==> r[i] == events[i].eventId
  {
    seq(|events|, i requires 0 <= i < |events| => events[i].eventId)
  }

  /** The id of the last event of a batch, none for an empty batch: where the cursor moves after a
      fetch, and the checkpoint tail after events are given up. */
  function LastEventId(events: seq<Event>): (r: Option<EventId>)
    ensures r.None? <==> events == []
    ensures r.Some? ==> r.value == events[|events| - 1].eventId
  {
    if events == [] then None else Some(events[|events| - 1].eventId)
  }
}
