/**
 * ModelChangeMulticaster.swift: fans the notifier's events out to the
 * registered observers. The registry is touched only from the serial observe
 * queue, so subscribing and cancelling are queued like deliveries.
 */
module ModelChangeMulticaster {
  import opened Wrappers
  import Sequences
  import E = ModelChangeEvent
  import opened Multicast
  import opened DispatchQueue
  import opened ModelChangeNotifier
  import Stack = CoreDataStack

  /** The identity of an observer's dispatch queue. */
  type QueueId = nat
  /** The identity of an observer's block. */
  type BlockId = nat

  datatype Observer = Observer(block: BlockId, queue: QueueId)

  /** `obs.queue.async { obs.block(event) }`. */
  datatype Dispatch = Dispatch(queue: QueueId, block: BlockId, event: E.ModelChangeEvent)

  /** The dispatches for the observers `called`, one each, in order. */
  function DispatchesFor(called: seq<ObjectId>, observers: map<ObjectId, Observer>, event: E.ModelChangeEvent): (r: seq<Dispatch>)
    requires forall id :: id in called ==> id in observers
    ensures |r| == |called|
    ensures forall i :: 0 <= i < |called| ==>
      r[i] == Dispatch(observers[called[i]].queue, observers[called[i]].block, event)
  {
    if called == [] then []
    else [Dispatch(observers[called[0]].queue, observers[called[0]].block, event)] + DispatchesFor(called[1..], observers, event)
  }

  /** `ModelChangeObserverCancelToken`: an `ObservationToken` with its weak multicaster, or an `EmptyCancelToken`. */
  datatype CancelToken =
    | ObservationToken(observer: ObjectId, multicaster: ModelChangeMulticaster)
    | EmptyCancelToken

  class ModelChangeMulticaster {
    const changeNotifier: ModelChangeNotifier
    const multicast: Multicast
    const observeQueue: SerialQueue
    /** Every `Observer` created so far, by identity. */
    var observers: map<ObjectId, Observer>
    /** The identity the next `Observer` gets. */
    var nextObserver: ObjectId
    /** Every dispatch onto an observer's queue, oldest first. */
    var dispatched: seq<Dispatch>

    ghost predicate Valid()
      reads this, changeNotifier, multicast, observeQueue
    {
      && changeNotifier.updateQueue == observeQueue
      && changeNotifier.hasEventHandler
      && changeNotifier.Valid()
      && (forall id: ObjectId :: id in observers <==> id < nextObserver)
      && (forall id :: id in multicast.weakObjects ==> id < nextObserver)
      && (forall id: ObjectId :: AppendObserver(id) in observeQueue.tasks ==> id < nextObserver)
      // each observer is registered at most once, counting the appends still queued
      && Sequences.NoDuplicates(multicast.weakObjects + AppendedObservers(observeQueue.tasks))
    }

    /**
     * `init(coreDataStack:)`: the stack must not have a merge handler yet; the one
     * installed forwards each event to the notifier (see `ReceiveChangeEvent`),
     * whose handler invokes the registry (see `RunNextTask`).
     */
    constructor(stack: Stack.CoreDataStack)
      requires !stack.hasMergeHandler
      modifies stack
      ensures stack.hasMergeHandler
      ensures Valid()
      ensures fresh(changeNotifier) && fresh(multicast) && fresh(observeQueue)
      ensures observers == map[] && multicast.weakObjects == [] && observeQueue.tasks == [] && dispatched == []
      ensures changeNotifier.received == [] && changeNotifier.processed == []
    {
      var queue := new SerialQueue();
      var notifier := new ModelChangeNotifier(queue);
      notifier.hasEventHandler := true;
      changeNotifier := notifier;
      observeQueue := queue;
      multicast := new Multicast();
      observers := map[];
      nextObserver := 0;
      dispatched := [];
      new;
      stack.hasMergeHandler := true;
    }

    /** The stack's merge handler: `self?.changeNotifier.receiveChangeEvent(event)`. */
    method ReceiveChangeEvent(event: E.ModelChangeEvent)
      requires Valid()
      modifies changeNotifier, observeQueue
      ensures Valid()
      ensures changeNotifier.received == old(changeNotifier.received) + [event]
      ensures E.IsEmpty(event) ==> observeQueue.tasks == old(observeQueue.tasks)
      ensures !E.IsEmpty(event) ==> observeQueue.tasks == old(observeQueue.tasks) + [Deliver(event)]
    {
      AppendedObserversSnoc(observeQueue.tasks, Deliver(event));
      assert AppendedObservers(observeQueue.tasks) + [] == AppendedObservers(observeQueue.tasks);
      changeNotifier.ReceiveChangeEvent(event);
    }

    /** `observeModelChanges(on:with:)`: a new observer, queued for registration, and its token. */
    method ObserveModelChanges(queue: QueueId, block: BlockId) returns (token: CancelToken)
      requires Valid()
      modifies this, observeQueue
      ensures Valid()
      ensures token == ObservationToken(old(nextObserver), this)
      ensures old(nextObserver) !in old(observers)
      ensures observers == old(observers)[old(nextObserver) := Observer(block, queue)]
      ensures observeQueue.tasks == old(observeQueue.tasks) + [AppendObserver(old(nextObserver))]
      ensures dispatched == old(dispatched)
    {
      var id := nextObserver;
      observers := observers[id := Observer(block, queue)];
      nextObserver := nextObserver + 1;
      token := ObservationToken(id, this);
      // the token's initialiser: `multicaster.append(observer: observer)`
      DeliverEventsSnoc(observeQueue.tasks, AppendObserver(id));
      AppendedObserversSnoc(observeQueue.tasks, AppendObserver(id));
      AppendedObserversFromTasks(observeQueue.tasks, id);
      FreshIdKeepsNoDuplicates(multicast.weakObjects + AppendedObservers(observeQueue.tasks), id);
      assert multicast.weakObjects + (AppendedObservers(observeQueue.tasks) + [id]) ==
             multicast.weakObjects + AppendedObservers(observeQueue.tasks) + [id];
      observeQueue.Async(AppendObserver(id));
    }

    /**
     * `Valid` while the observe queue runs `task`, its oldest closure, already
     * taken off the queue: a delivery counts as not yet processed, an append as
     * not yet registered.
     */
    ghost predicate Running(task: Task)
      reads this, changeNotifier, multicast, observeQueue
    {
      && changeNotifier.updateQueue == observeQueue
      && changeNotifier.hasEventHandler
      && changeNotifier.processed + (if task.Deliver? then [task.event] else []) + DeliverEvents(observeQueue.tasks)
           == Sequences.Filter(changeNotifier.received, NonEmpty())
      && (forall id: ObjectId :: id in observers <==> id < nextObserver)
      && (forall id :: id in multicast.weakObjects ==> id < nextObserver)
      && (forall id: ObjectId :: AppendObserver(id) in observeQueue.tasks ==> id < nextObserver)
      && (task.AppendObserver? ==> task.observer < nextObserver)
      && Sequences.NoDuplicates(multicast.weakObjects + (if task.AppendObserver? then [task.observer] else []) +
                                AppendedObservers(observeQueue.tasks))
    }

    /**
     * The observe queue running its oldest closure; `alive` says which observers
     * are still held by a token or a queued closure.
     */
    method RunNextTask(alive: Liveness)
      requires Valid()
      modifies this, changeNotifier, multicast, observeQueue
      ensures Valid()
      ensures observers == old(observers)
      ensures changeNotifier.received == old(changeNotifier.received)
      ensures !(old(observeQueue.tasks) != [] && old(observeQueue.tasks)[0].Deliver?) ==>
        changeNotifier.processed == old(changeNotifier.processed)
      ensures old(observeQueue.tasks) == [] ==>
        observeQueue.tasks == [] && multicast.weakObjects == old(multicast.weakObjects) && dispatched == old(dispatched)
      ensures old(observeQueue.tasks) != [] ==> observeQueue.tasks == old(observeQueue.tasks)[1..]
      ensures old(observeQueue.tasks) != [] && old(observeQueue.tasks)[0].Deliver? ==>
        var event := old(observeQueue.tasks)[0].event;
        var called := LiveEntries(old(multicast.weakObjects), alive);
        && changeNotifier.processed == old(changeNotifier.processed) + [event]
        && multicast.weakObjects == called
        && (forall id :: id in called ==> id in observers)
        && dispatched == old(dispatched) + DispatchesFor(called, observers, event)
      ensures old(observeQueue.tasks) != [] && old(observeQueue.tasks)[0].AppendObserver? ==>
        && multicast.weakObjects == old(multicast.weakObjects) + [old(observeQueue.tasks)[0].observer]
        && dispatched == old(dispatched)
      ensures old(observeQueue.tasks) != [] && old(observeQueue.tasks)[0].RemoveObserver? ==>
        var id := old(observeQueue.tasks)[0].observer;
        && multicast.weakObjects == Removed(old(multicast.weakObjects), id, alive[id := true])
        && dispatched == old(dispatched)
    {
      var tasks := observeQueue.tasks;
      var next := observeQueue.Take();
      if next.None? {
        return;
      }
      var task := next.value;
      TakeSplits(multicast.weakObjects, changeNotifier.processed, tasks);
      TakeKeepsBound(tasks, nextObserver);
      match task {
        case Deliver(event) => RunDeliver(event, alive);
        case AppendObserver(id) => RunAppend(id);
        case RemoveObserver(id) => RunRemove(id, alive);
      }
    }

    /** A delivery closure: the notifier's handler invokes the registry. */
    method RunDeliver(event: E.ModelChangeEvent, alive: Liveness)
      requires Running(Deliver(event))
      modifies this, changeNotifier, multicast
      ensures Valid()
      ensures observers == old(observers) && nextObserver == old(nextObserver)
      ensures changeNotifier.received == old(changeNotifier.received)
      ensures changeNotifier.processed == old(changeNotifier.processed) + [event]
      ensures multicast.weakObjects == LiveEntries(old(multicast.weakObjects), alive)
      ensures forall id :: id in multicast.weakObjects ==> id in observers
      ensures dispatched == old(dispatched) + DispatchesFor(multicast.weakObjects, observers, event)
    {
      var handled := changeNotifier.Process(event);
      var w := multicast.weakObjects;
      // the notifier's handler: `self?.multicast.invoke { obs in obs.queue.async { obs.block(event) } }`
      var called := multicast.Invoke(alive);
      PrunedHasNoDeadEntries(w, alive);
      dispatched := dispatched + DispatchesFor(called, observers, event);
      assert w + [] == w;
      Sequences.FilterLeftNoDuplicates(w, AppendedObservers(observeQueue.tasks), Live(alive));
    }

    /** An append closure: `self?.multicast.append(observer)`. */
    method RunAppend(id: ObjectId)
      requires Running(AppendObserver(id))
      modifies multicast
      ensures Valid()
      ensures multicast.weakObjects == old(multicast.weakObjects) + [id]
    {
      multicast.Append(id);
      assert changeNotifier.processed + [] == changeNotifier.processed;
    }

    /**
     * A remove closure: `self?.multicast.remove(observer)`. The closure holds the
     * observer strongly, so it is alive while the closure runs.
     */
    method RunRemove(id: ObjectId, alive: Liveness)
      requires Running(RemoveObserver(id))
      modifies multicast
      ensures Valid()
      ensures multicast.weakObjects == Removed(old(multicast.weakObjects), id, alive[id := true])
    {
      var w := multicast.weakObjects;
      multicast.Remove(id, alive[id := true]);
      assert changeNotifier.processed + [] == changeNotifier.processed;
      assert w + [] == w;
      Sequences.FilterLeftNoDuplicates(w, AppendedObservers(observeQueue.tasks), NotIdentical(id, alive[id := true]));
    }
  }

  /** Taking the oldest closure off the queue splits its own entries off those of the closures behind it. */
  lemma TakeSplits(w: seq<ObjectId>, processed: seq<E.ModelChangeEvent>, tasks: seq<Task>)
    requires tasks != []
    ensures var t := tasks[0];
      && processed + DeliverEvents(tasks) == processed + (if t.Deliver? then [t.event] else []) + DeliverEvents(tasks[1..])
      && w + AppendedObservers(tasks) == w + (if t.AppendObserver? then [t.observer] else []) + AppendedObservers(tasks[1..])
  {
    var t := tasks[0];
    var d := if t.Deliver? then [t.event] else [];
    var a := if t.AppendObserver? then [t.observer] else [];
    assert DeliverEvents(tasks) == d + DeliverEvents(tasks[1..]);
    assert processed + (d + DeliverEvents(tasks[1..])) == processed + d + DeliverEvents(tasks[1..]);
    assert AppendedObservers(tasks) == a + AppendedObservers(tasks[1..]);
    assert w + (a + AppendedObservers(tasks[1..])) == w + a + AppendedObservers(tasks[1..]);
  }

  /** The observers of queued appends stay below `bound` when the oldest closure is taken off. */
  lemma TakeKeepsBound(tasks: seq<Task>, bound: ObjectId)
    requires tasks != []
    requires forall id: ObjectId :: AppendObserver(id) in tasks ==> id < bound
    ensures forall id: ObjectId :: AppendObserver(id) in tasks[1..] ==> id < bound
    ensures tasks[0].AppendObserver? ==> tasks[0].observer < bound
  {
    if tasks[0].AppendObserver? {
      assert AppendObserver(tasks[0].observer) in tasks;
    }
    forall id: ObjectId | AppendObserver(id) in tasks[1..] ensures id < bound {
      assert AppendObserver(id) in tasks;
    }
  }

  lemma FreshIdKeepsNoDuplicates(s: seq<ObjectId>, id: ObjectId)
    requires Sequences.NoDuplicates(s)
    requires id !in s
    ensures Sequences.NoDuplicates(s + [id])
  {
  }

  /**
   * `cancel()`. An observation token queues the removal of its observer while
   * its multicaster is still alive; otherwise, and for `EmptyCancelToken`,
   * nothing happens.
   */
  method Cancel(token: CancelToken, multicasterAlive: bool)
    requires token.ObservationToken? ==> token.multicaster.Valid()
    modifies if token.ObservationToken? then {token.multicaster.observeQueue} else {}
    ensures token.ObservationToken? ==> token.multicaster.Valid()
    ensures token.ObservationToken? && multicasterAlive ==>
      token.multicaster.observeQueue.tasks == old(token.multicaster.observeQueue.tasks) + [RemoveObserver(token.observer)]
    ensures token.ObservationToken? && !multicasterAlive ==>
      token.multicaster.observeQueue.tasks == old(token.multicaster.observeQueue.tasks)
  {
    match token
    case EmptyCancelToken =>
    case ObservationToken(observer, multicaster) =>
      if multicasterAlive {
        var queue := multicaster.observeQueue;
        DeliverEventsSnoc(queue.tasks, RemoveObserver(observer));
        AppendedObserversSnoc(queue.tasks, RemoveObserver(observer));
        assert AppendedObservers(queue.tasks) + [] == AppendedObservers(queue.tasks);
        forall id: ObjectId | AppendObserver(id) in queue.tasks + [RemoveObserver(observer)] ensures id < multicaster.nextObserver {
          assert AppendObserver(id) in queue.tasks;
        }
        queue.Async(RemoveObserver(observer));
      }
  }
}
