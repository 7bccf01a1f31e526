/** The inventory service's transactional outbox: ingredient events queued in
    the inventory_outbox table and delivered to the menu service with a
    bounded number of retries, plus the counts the admin status endpoint
    reports. Delivery itself is a network call; here its outcome for each
    event is an input (None: delivered, Some(message): the error raised). */
module InventoryOutbox {
  import opened Wrappers

  const MaxRetriesDefault: int := 3

  datatype OutboxEvent = OutboxEvent(
    eventType: string,
    payload: string,
    processed: bool,
    processedAt: Option<int>,
    retryCount: int,
    maxRetries: int,
    errorMessage: Option<string>)

  /** The events process_outbox_events selects: not processed, retries left. */
  predicate Eligible(ev: OutboxEvent) {
    !ev.processed && ev.retryCount < ev.maxRetries
  }

  /** The events outbox_status counts as failed. */
  predicate Failed(ev: OutboxEvent) {
    !ev.processed && ev.retryCount >= ev.maxRetries
  }

  /** A row as the table defaults create it. */
  function NewEvent(eventType: string, payload: string): (ev: OutboxEvent)
    ensures Eligible(ev) && ev.retryCount == 0 && ev.maxRetries == MaxRetriesDefault
    ensures ev.eventType == eventType && ev.payload == payload
  {
    OutboxEvent(eventType, payload, false, None, 0, MaxRetriesDefault, None)
  }

  /** One delivery attempt as the loop body performs it; events outside the
      selection are not touched. */
  function Attempt(ev: OutboxEvent, outcome: Option<string>, now: int): (r: OutboxEvent)
    ensures !Eligible(ev) ==> r == ev
    ensures Eligible(ev) && outcome.None? ==>
      r.processed && r.processedAt == Some(now) && r.errorMessage.None? && r.retryCount == ev.retryCount
    ensures Eligible(ev) && outcome.Some? ==>
      !r.processed && r.retryCount == ev.retryCount + 1 && r.errorMessage == outcome
    ensures r.eventType == ev.eventType && r.payload == ev.payload && r.maxRetries == ev.maxRetries
  {
    if !Eligible(ev) then ev
    else match outcome
      case None => ev.(processed := true, processedAt := Some(now), errorMessage := None)
      case Some(message) => ev.(retryCount := ev.retryCount + 1, errorMessage := Some(message))
  }

  /** Every event of the table after one pass of process_outbox_events. */
  function ProcessAll(events: seq<OutboxEvent>, outcome: seq<Option<string>>, now: int): (r: seq<OutboxEvent>)
    requires |outcome| == |events|
    ensures |r| == |events|
    ensures forall i :: 0 <= i < |r| ==> r[i] == Attempt(events[i], outcome[i], now)
  {
    seq(|events|, i requires 0 <= i < |events| => Attempt(events[i], outcome[i], now))
  }

  /** No event has gone past its retry budget. */
  predicate RetriesBounded(events: seq<OutboxEvent>) {
    forall i :: 0 <= i < |events| ==> 0 <= events[i].retryCount <= events[i].maxRetries
  }

  class Outbox {
    var events: seq<OutboxEvent>

    constructor ()
      ensures events == []
    {
      events := [];
    }

    /** create_outbox_event: a fresh row at the end of the table. */
    method CreateEvent(eventType: string, payload: string)
      modifies this
      ensures events == old(events) + [NewEvent(eventType, payload)]
    {
      events := events + [NewEvent(eventType, payload)];
    }

    /** process_outbox_events: one attempt for each selected event, updating
        the rows in place. */
    method ProcessOutboxEvents(outcome: seq<Option<string>>, now: int)
      requires |outcome| == |events|
      modifies this
      ensures events == ProcessAll(old(events), outcome, now)
    {
      var i := 0;
      while i < |events|
        invariant 0 <= i <= |events| == |old(events)|
        invariant forall k :: 0 <= k < i ==> events[k] == Attempt(old(events)[k], outcome[k], now)
        invariant forall k :: i <= k < |events| ==> events[k] == old(events)[k]
      {
        var ev := events[i];
        if !ev.processed && ev.retryCount < ev.maxRetries {
          if outcome[i].None? {
            ev := ev.(processed := true, processedAt := Some(now), errorMessage := None);
          } else {
            ev := ev.(retryCount := ev.retryCount + 1, errorMessage := outcome[i]);
          }
        }
        events := events[i := ev];
        i := i + 1;
      }
    }
  }

  /** A pass keeps every retry count within its budget. */
  lemma ProcessKeepsRetriesBounded(events: seq<OutboxEvent>, outcome: seq<Option<string>>, now: int)
    requires |outcome| == |events| && RetriesBounded(events)
    ensures RetriesBounded(ProcessAll(events, outcome, now))
  {
  }

  /** A delivered event is never sent again, and an event out of retries is
      never retried: both come out of a pass unchanged. */
  lemma ProcessLeavesSettledEvents(events: seq<OutboxEvent>, outcome: seq<Option<string>>, now: int, i: int)
    requires |outcome| == |events| && 0 <= i < |events|
    requires events[i].processed || Failed(events[i])
    ensures ProcessAll(events, outcome, now)[i] == events[i]
  {
  }

  /** A pass never turns a processed event back into an unprocessed one. */
  lemma ProcessedStaysProcessed(events: seq<OutboxEvent>, outcome: seq<Option<string>>, now: int, i: int)
    requires |outcome| == |events| && 0 <= i < |events|
    ensures events[i].processed ==> ProcessAll(events, outcome, now)[i].processed
    ensures Failed(events[i]) ==> Failed(ProcessAll(events, outcome, now)[i])
  {
  }

  function Count(events: seq<OutboxEvent>, p: OutboxEvent -> bool): (n: nat)
    ensures n <= |events|
    decreases |events|
  {
    if events == [] then 0
    else Count(events[..|events| - 1], p) + (if p(events[|events| - 1]) then 1 else 0)
  }

  predicate IsProcessed(ev: OutboxEvent) { ev.processed }

  datatype OutboxStatus = OutboxStatus(total: int, processed: int, failed: int, pending: int)

  /** GET /admin/outbox_status: pending is whatever is neither processed nor failed. */
  function Status(events: seq<OutboxEvent>): OutboxStatus {
    var total := |events|;
    var processed := Count(events, IsProcessed);
    var failed := Count(events, Failed);
    OutboxStatus(total, processed, failed, total - processed - failed)
  }

  /** The three counts partition the table: pending is exactly the number of
      events the next pass would select, so it is never negative. */
  lemma {:induction false} PendingIsEligible(events: seq<OutboxEvent>)
    ensures Status(events).pending == Count(events, Eligible)
    ensures Status(events).pending >= 0
    decreases |events|
  {
    if events != [] {
      PendingIsEligible(events[..|events| - 1]);
    }
  }
}
