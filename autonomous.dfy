/**
 The parts of the autonomous-component framework that the round-trip approver
 touches: the event and batch records handed out by the event storage, the
 failure records a result collector accumulates, and the two collaborators
 that the approver changes (the result collector and the event storage).
 The storage and the collector are external services; here each is an
 object whose only state is the sequence of records appended to it.
 */
module Autonomous {

  /** Wall-clock time of an event; its value is never inspected. */
  type Timestamp = int

  /** One entry in the history of a round trip. */
  datatype Event = Event(eventID: string, date: Timestamp, details: string, success: bool)

  /**
   One round trip of a batch, as the event storage reports it: the batch it
   belongs to, its number, the identifier used when reporting about it, and
   its event history.
   */
  datatype Batch = Batch(batchID: string, roundTripNumber: int, fullID: string, eventList: seq<Event>)

  /** A failure as handed to a result collector. */
  datatype Failure = Failure(reference: string, failureType: string, component: string, description: string)

  /** An event appended to the history of round trip `roundTripNumber` of batch `batchID`. */
  datatype StoredEvent = StoredEvent(batchID: string, roundTripNumber: int, agent: string, event: Event)

  /** Collects the failures reported while a round trip is processed. */
  class ResultCollector {
    var failures: seq<Failure>

    constructor ()
      ensures failures == []
    {
      failures := [];
    }

    /** Records one failure about `reference`; earlier failures stay as they were. */
    method AddFailure(reference: string, failureType: string, component: string, description: string)
      modifies this
      ensures failures == old(failures) + [Failure(reference, failureType, component, description)]
    {
      failures := failures + [Failure(reference, failureType, component, description)];
    }
  }

  /** The event storage, seen as the log of events appended to it. */
  class EventStore {
    var log: seq<StoredEvent>

    constructor ()
      ensures log == []
    {
      log := [];
    }

    /** Appends one event to the history of round trip `roundTripNumber` of batch `batchID`. */
    method AddEventToBatch(batchID: string, roundTripNumber: int, agent: string, timestamp: Timestamp,
                           details: string, eventType: string, outcome: bool)
      modifies this
      ensures log == old(log) + [StoredEvent(batchID, roundTripNumber, agent, Event(eventType, timestamp, details, outcome))]
    {
      log := log + [StoredEvent(batchID, roundTripNumber, agent, Event(eventType, timestamp, details, outcome))];
    }
  }
}
