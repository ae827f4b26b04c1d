/**
 * ModelChangeNotifier.swift: drops empty change events and hands the others,
 * one closure each, to its serial update queue, which passes them to the event
 * handler in the order they were received.
 */
module ModelChangeNotifier {
  import opened Wrappers
  import Sequences
  import E = ModelChangeEvent
  import opened DispatchQueue

  function NonEmpty(): E.ModelChangeEvent -> bool {
    (ev: E.ModelChangeEvent) => !E.IsEmpty(ev)
  }

  class ModelChangeNotifier {
    /** Whether `eventHandler` is set. */
    var hasEventHandler: bool
    const updateQueue: SerialQueue
    /** Every event passed to `receiveChangeEvent`, oldest first. */
    ghost var received: seq<E.ModelChangeEvent>
    /** The events whose delivery closure has run, oldest first. */
    ghost var processed: seq<E.ModelChangeEvent>

    /**
     * Exactly the non-empty received events, in order, have either been
     * processed or are still waiting in the queue behind them.
     */
    ghost predicate Valid()
      reads this, updateQueue
    {
      processed + DeliverEvents(updateQueue.tasks) == Sequences.Filter(received, NonEmpty())
    }

    constructor(updateQueue: SerialQueue)
      requires DeliverEvents(updateQueue.tasks) == []
      ensures this.updateQueue == updateQueue
      ensures !hasEventHandler && received == [] && processed == []
      ensures Valid()
    {
      this.updateQueue := updateQueue;
      hasEventHandler := false;
      received := [];
      processed := [];
    }

    /** `receiveChangeEvent(_:)`: an empty event is dropped, any other one queued once. */
    method ReceiveChangeEvent(event: E.ModelChangeEvent)
      requires Valid()
      modifies this, updateQueue
      ensures unchanged(this`hasEventHandler) && processed == old(processed)
      ensures received == old(received) + [event]
      ensures E.IsEmpty(event) ==> updateQueue.tasks == old(updateQueue.tasks)
      ensures !E.IsEmpty(event) ==> updateQueue.tasks == old(updateQueue.tasks) + [Deliver(event)]
      ensures Valid()
    {
      received := received + [event];
      Sequences.FilterSnoc(old(received), event, NonEmpty());
      if E.IsEmpty(event) {
        return;
      }
      DeliverEventsSnoc(updateQueue.tasks, Deliver(event));
      updateQueue.Async(Deliver(event));
    }

    /**
     * The body of a delivery closure, `self?.eventHandler?(event)`: the event
     * goes to the handler when one is set and nowhere otherwise.
     */
    method Process(event: E.ModelChangeEvent) returns (handled: Option<E.ModelChangeEvent>)
      modifies this
      ensures unchanged(this`hasEventHandler) && received == old(received)
      ensures processed == old(processed) + [event]
      ensures hasEventHandler ==> handled == Some(event)
      ensures !hasEventHandler ==> handled == None
    {
      processed := processed + [event];
      if hasEventHandler {
        handled := Some(event);
      } else {
        handled := None;
      }
    }
  }

  /**
   * Only non-empty events reach the handler, each at most once and in the
   * order received: the processed events are a prefix of the non-empty
   * received ones, and the queued ones are the rest.
   */
  lemma DeliveredInOrder(n: ModelChangeNotifier)
    requires n.Valid()
    ensures forall ev :: ev in n.processed ==> !E.IsEmpty(ev) && ev in n.received
    ensures forall ev :: ev in DeliverEvents(n.updateQueue.tasks) ==> !E.IsEmpty(ev) && ev in n.received
    ensures n.processed == Sequences.Filter(n.received, NonEmpty())[..|n.processed|]
  {
    var all := Sequences.Filter(n.received, NonEmpty());
    assert all[..|n.processed|] == n.processed;
    forall ev | ev in n.processed ensures !E.IsEmpty(ev) && ev in n.received {
      assert ev in all;
    }
    forall ev | ev in DeliverEvents(n.updateQueue.tasks) ensures !E.IsEmpty(ev) && ev in n.received {
      assert ev in all;
    }
  }
}
