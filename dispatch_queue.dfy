/**
 * The serial `observeQueue` shared by the change notifier and the multicaster,
 * as a FIFO of the closures submitted to it with `async`; each runs to
 * completion before the next.
 */
module DispatchQueue {
  import opened Wrappers
  import E = ModelChangeEvent
  import opened Multicast

  /** A closure submitted to the queue. */
  datatype Task =
    | Deliver(event: E.ModelChangeEvent)     // ModelChangeNotifier: `self?.eventHandler?(event)`
    | AppendObserver(observer: ObjectId)     // ModelChangeMulticaster: `self?.multicast.append(observer)`
    | RemoveObserver(observer: ObjectId)     // ModelChangeMulticaster: `self?.multicast.remove(observer)`

  class SerialQueue {
    var tasks: seq<Task>

    constructor()
      ensures tasks == []
    {
      tasks := [];
    }

    /** `async(execute:)`: the closure runs after every one submitted before it. */
    method Async(t: Task)
      modifies this
      ensures tasks == old(tasks) + [t]
    {
      tasks := tasks + [t];
    }

    /** The queue starting its oldest pending closure. */
    method Take() returns (t: Option<Task>)
      modifies this
      ensures old(tasks) == [] ==> t == None && tasks == []
      ensures old(tasks) != [] ==> t == Some(old(tasks)[0]) && tasks == old(tasks)[1..]
    {
      if tasks == [] {
        t := None;
      } else {
        t := Some(tasks[0]);
        tasks := tasks[1..];
      }
    }
  }

  /** The events of the pending deliveries, oldest first. */
  function DeliverEvents(tasks: seq<Task>): seq<E.ModelChangeEvent> {
    if tasks == [] then []
    else (if tasks[0].Deliver? then [tasks[0].event] else []) + DeliverEvents(tasks[1..])
  }

  /** The observers of the pending appends, oldest first. */
  function AppendedObservers(tasks: seq<Task>): seq<ObjectId> {
    if tasks == [] then []
    else (if tasks[0].AppendObserver? then [tasks[0].observer] else []) + AppendedObservers(tasks[1..])
  }

  lemma {:induction false} DeliverEventsSnoc(tasks: seq<Task>, t: Task)
    ensures DeliverEvents(tasks + [t]) == DeliverEvents(tasks) + (if t.Deliver? then [t.event] else [])
  {
    var x := if t.Deliver? then [t.event] else [];
    if tasks == [] {
      assert tasks + [t] == [t];
      assert [t][1..] == [];
      assert DeliverEvents([t]) == x + [];
      assert x + [] == [] + x;
    } else {
      var h := if tasks[0].Deliver? then [tasks[0].event] else [];
      var s := tasks + [t];
      assert s[0] == tasks[0];
      assert s[1..] == tasks[1..] + [t];
      DeliverEventsSnoc(tasks[1..], t);
      var rest := DeliverEvents(tasks[1..]);
      assert DeliverEvents(s) == h + (rest + x);
      assert h + (rest + x) == (h + rest) + x;
    }
  }

  lemma {:induction false} AppendedObserversSnoc(tasks: seq<Task>, t: Task)
    ensures AppendedObservers(tasks + [t]) == AppendedObservers(tasks) + (if t.AppendObserver? then [t.observer] else [])
  {
    var x := if t.AppendObserver? then [t.observer] else [];
    if tasks == [] {
      assert tasks + [t] == [t];
      assert [t][1..] == [];
      assert AppendedObservers([t]) == x + [];
      assert x + [] == [] + x;
    } else {
      var h := if tasks[0].AppendObserver? then [tasks[0].observer] else [];
      var s := tasks + [t];
      assert s[0] == tasks[0];
      assert s[1..] == tasks[1..] + [t];
      AppendedObserversSnoc(tasks[1..], t);
      var rest := AppendedObservers(tasks[1..]);
      assert AppendedObservers(s) == h + (rest + x);
      assert h + (rest + x) == (h + rest) + x;
    }
  }

  /** Every pending append's observer is one of the pending tasks' observers. */
  lemma {:induction false} AppendedObserversFromTasks(tasks: seq<Task>, id: ObjectId)
    ensures id in AppendedObservers(tasks) <==> AppendObserver(id) in tasks
  {
    if tasks != [] {
      AppendedObserversFromTasks(tasks[1..], id);
      assert tasks == [tasks[0]] + tasks[1..];
    }
  }
}
