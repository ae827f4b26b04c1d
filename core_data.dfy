/**
 * CoreData.swift: the public facade. It picks the delegate, builds the stack
 * and the change multicaster, and runs blocks on the read or the write
 * context.
 */
module CoreData {
  import opened Wrappers
  import E = ModelChangeEvent
  import opened CoreDataConfig
  import opened CoreDataDelegate
  import opened CoreDataError
  import Util = CoreDataUtil
  import opened ManagedObjectContext
  import Stack = CoreDataStack
  import opened DispatchQueue
  import Multicaster = ModelChangeMulticaster

  datatype ContextType = Read | Write

  /** The delegate the stack uses, and whether the facade retains it as its `defaultDelegate`. */
  function SelectDelegate(delegate: Option<Delegate>): (r: (Delegate, bool))
    ensures delegate.Some? ==> r.0 == delegate.value && !r.1
    ensures delegate.None? ==> r.0 == DefaultDelegate && r.1
  {
    match delegate
    case Some(d) => (d, false)
    case None => (DefaultDelegate, true)
  }

  /** A value a block returns. */
  datatype Value =
    | ManagedObjectValue(object: E.ManagedObject)
    | ManagedObjectArray(objects: seq<E.ManagedObject>)
    | OtherValue(payload: int)

  /** The check of `performAndWait`: a managed object, or a non-empty array of them, must not leave the context's queue. */
  predicate EscapesContext(v: Value) {
    v.ManagedObjectValue? || (v.ManagedObjectArray? && v.objects != [])
  }

  datatype BlockOutcome = Returns(value: Value) | Throws(error: Error)

  /** A block run on a context: the work it does there, then what it returns or throws. */
  datatype Block = Block(work: PendingChanges, outcome: BlockOutcome)

  /** What `performAndWait` returns or throws for a block's outcome. */
  function PerformAndWaitResult(outcome: BlockOutcome): (r: Result<Value, Error>)
    ensures r.Success? <==> outcome.Returns? && !EscapesContext(outcome.value)
    ensures r.Success? ==> r.value == outcome.value
    ensures outcome.Throws? ==> r == Failure(outcome.error)
    ensures outcome.Returns? && EscapesContext(outcome.value) ==> r == Failure(CoreDataError(InvalidAccess))
  {
    match outcome
    case Throws(error) => Failure(error)
    case Returns(value) => if EscapesContext(value) then Failure(CoreDataError(InvalidAccess)) else Success(value)
  }

  /** What `perform` reports to its completion: there is no escape check. */
  function PerformResult(outcome: BlockOutcome): (r: Result<Value, Error>)
    ensures r.Success? <==> outcome.Returns?
    ensures outcome.Returns? ==> r == Success(outcome.value)
    ensures outcome.Throws? ==> r == Failure(outcome.error)
  {
    match outcome
    case Returns(value) => Success(value)
    case Throws(error) => Failure(error)
  }

  /** The two differ exactly on escaping values; `unexpectedNil` is never the answer. */
  lemma PerformAndWaitIsPerformWithEscapeCheck(outcome: BlockOutcome)
    ensures PerformAndWaitResult(outcome) != PerformResult(outcome) <==> outcome.Returns? && EscapesContext(outcome.value)
    ensures PerformAndWaitResult(outcome) != Failure(CoreDataError(UnexpectedNil)) || outcome == Throws(CoreDataError(UnexpectedNil))
  {
  }

  class CoreData {
    const config: Config
    const model: Stack.CoreDataModel
    const stack: Stack.CoreDataStack
    const changeMulticaster: Multicaster.ModelChangeMulticaster
    /** The delegate the stack was built with. */
    const delegate: Delegate
    /** Whether the facade created, and so retains, the delegate itself. */
    const retainsDefaultDelegate: bool

    ghost predicate Valid()
      reads this, stack, stack.readContext, stack.writeContext
      reads changeMulticaster, changeMulticaster.changeNotifier, changeMulticaster.multicast, changeMulticaster.observeQueue
    {
      && stack.Valid()
      && changeMulticaster.Valid()
      && stack.hasMergeHandler
    }

    constructor(config: Config, model: Stack.CoreDataModel, stack: Stack.CoreDataStack,
                changeMulticaster: Multicaster.ModelChangeMulticaster, delegate: Delegate, retainsDefaultDelegate: bool)
      ensures this.config == config && this.model == model && this.stack == stack
      ensures this.changeMulticaster == changeMulticaster
      ensures this.delegate == delegate && this.retainsDefaultDelegate == retainsDefaultDelegate
    {
      this.config := config;
      this.model := model;
      this.stack := stack;
      this.changeMulticaster := changeMulticaster;
      this.delegate := delegate;
      this.retainsDefaultDelegate := retainsDefaultDelegate;
    }

    /** `context(of:)`: one of the stack's two contexts, and the write context is the one that may save. */
    function Context(contextType: ContextType): (c: ManagedObjectContext)
      reads this, stack, stack.readContext, stack.writeContext
      ensures c == stack.readContext || c == stack.writeContext
      ensures stack.Valid() ==> (c.isSavingAllowed <==> contextType == Write)
    {
      match contextType
      case Read => stack.readContext
      case Write => stack.writeContext
    }

    /**
     * `performAndWait(_:block:)`. The block's work is done on the context; a
     * thrown error or an escaping value rolls back the pending changes, when
     * there are any, and is rethrown; otherwise the block's value is returned.
     */
    method PerformAndWait(contextType: ContextType, block: Block) returns (r: Result<Value, Error>)
      requires Valid()
      modifies Context(contextType)
      ensures Valid()
      ensures r == PerformAndWaitResult(block.outcome)
      ensures r.Success? ==> Context(contextType).pending == Then(old(Context(contextType).pending), block.work)
      ensures r.Failure? ==> Context(contextType).pending == NoPendingChanges()
      ensures Context(contextType).saved == old(Context(contextType).saved)
      ensures Context(contextType).merged == old(Context(contextType).merged)
      ensures Context(contextType).persistentStoreCoordinator == old(Context(contextType).persistentStoreCoordinator)
      ensures Context(contextType).mergePolicy == old(Context(contextType).mergePolicy)
      ensures Context(contextType).isSavingAllowed == old(Context(contextType).isSavingAllowed)
    {
      var context := Context(contextType);
      var maybeValue: Option<Value> := None;
      var maybeError: Option<Error> := None;
      context.Edit(block.work);
      match block.outcome {
        case Returns(value) =>
          maybeValue := Some(value);
          if EscapesContext(value) {
            maybeError := Some(CoreDataError(InvalidAccess));
          }
        case Throws(error) =>
          maybeError := Some(error);
      }
      if maybeError.Some? && context.HasPendingChanges() {
        context.Rollback();
      }
      r := if maybeError.Some? then Failure(maybeError.value)
           else if maybeValue.None? then Failure(CoreDataError(UnexpectedNil))
           else Success(maybeValue.value);
    }

    /**
     * `perform(_:block:reportOn:completion:)`. `completion` is what the
     * completion handler receives on the report queue.
     */
    method Perform(contextType: ContextType, block: Block) returns (completion: Result<Value, Error>)
      requires Valid()
      modifies Context(contextType)
      ensures Valid()
      ensures completion == PerformResult(block.outcome)
      ensures completion.Success? ==> Context(contextType).pending == Then(old(Context(contextType).pending), block.work)
      ensures completion.Failure? ==> Context(contextType).pending == NoPendingChanges()
      ensures Context(contextType).saved == old(Context(contextType).saved)
      ensures Context(contextType).merged == old(Context(contextType).merged)
      ensures Context(contextType).persistentStoreCoordinator == old(Context(contextType).persistentStoreCoordinator)
      ensures Context(contextType).mergePolicy == old(Context(contextType).mergePolicy)
      ensures Context(contextType).isSavingAllowed == old(Context(contextType).isSavingAllowed)
    {
      var context := Context(contextType);
      context.Edit(block.work);
      match block.outcome {
        case Returns(value) =>
          completion := Success(value);
        case Throws(error) =>
          if context.HasPendingChanges() {
            context.Rollback();
          }
          completion := Failure(error);
      }
    }

    /**
     * `resetAndDeletePersistentStore()`: resets the write context and detaches
     * all of its stores, then does the same for the read context, then deletes
     * the store file.
     */
    method ResetAndDeletePersistentStore(fs: Util.FileSystem)
      requires Valid()
      modifies stack.writeContext, stack.readContext, fs
      modifies stack.writeContext.persistentStoreCoordinator.value, stack.readContext.persistentStoreCoordinator.value
      ensures Valid()
      ensures stack.writeContext.pending == NoPendingChanges() && stack.readContext.pending == NoPendingChanges()
      ensures stack.writeContext.persistentStoreCoordinator.value.stores == []
      ensures stack.readContext.persistentStoreCoordinator.value.stores == []
      ensures stack.params.storeURL.None? ==> fs.items == old(fs.items)
      ensures stack.params.storeURL.Some? ==> fs.items == old(fs.items) - {stack.params.storeURL.value.path}
      ensures stack.writeContext.saved == old(stack.writeContext.saved) && stack.writeContext.merged == old(stack.writeContext.merged)
      ensures stack.readContext.saved == old(stack.readContext.saved) && stack.readContext.merged == old(stack.readContext.merged)
      ensures stack.writeContext.mergePolicy == old(stack.writeContext.mergePolicy)
      ensures stack.readContext.mergePolicy == old(stack.readContext.mergePolicy)
    {
      var write := stack.writeContext;
      write.Reset();
      write.persistentStoreCoordinator.value.RemoveAllStores();
      var read := stack.readContext;
      read.Reset();
      read.persistentStoreCoordinator.value.RemoveAllStores();
      stack.DeletePersistentStoreFile(fs);
    }

    /**
     * The write context's did-save observer with the merge handler the
     * multicaster installed: merge into the read context, then hand the
     * event to the notifier, which queues it unless it is empty.
     */
    method WriteContextDidSave(note: E.Notification)
      requires Valid()
      modifies stack.readContext, changeMulticaster.changeNotifier, changeMulticaster.observeQueue
      ensures Valid()
      ensures stack.readContext.merged == old(stack.readContext.merged) + [note]
      ensures stack.readContext.pending == old(stack.readContext.pending)
      ensures stack.readContext.saved == old(stack.readContext.saved)
      ensures changeMulticaster.changeNotifier.received ==
        old(changeMulticaster.changeNotifier.received) + [E.ModelChangeEvent(E.Grouped(note))]
      ensures E.Grouped(note) == map[] ==>
        changeMulticaster.observeQueue.tasks == old(changeMulticaster.observeQueue.tasks)
      ensures E.Grouped(note) != map[] ==>
        changeMulticaster.observeQueue.tasks ==
          old(changeMulticaster.observeQueue.tasks) + [Deliver(E.ModelChangeEvent(E.Grouped(note)))]
    {
      var forwarded := stack.WriteContextDidSave(note);
      changeMulticaster.ReceiveChangeEvent(forwarded.value);
    }

    /** `observeModelChanges(on:using:)`. */
    method ObserveModelChanges(queue: Multicaster.QueueId, block: Multicaster.BlockId) returns (token: Multicaster.CancelToken)
      requires Valid()
      modifies changeMulticaster, changeMulticaster.observeQueue
      ensures Valid()
      ensures token == Multicaster.ObservationToken(old(changeMulticaster.nextObserver), changeMulticaster)
      ensures changeMulticaster.observers ==
        old(changeMulticaster.observers)[old(changeMulticaster.nextObserver) := Multicaster.Observer(block, queue)]
      ensures changeMulticaster.dispatched == old(changeMulticaster.dispatched)
      ensures changeMulticaster.observeQueue.tasks ==
        old(changeMulticaster.observeQueue.tasks) + [AppendObserver(old(changeMulticaster.nextObserver))]
    {
      token := changeMulticaster.ObserveModelChanges(queue, block);
    }
  }

  /**
   * `init(config:model:delegate:)`: the stack opened with the chosen delegate,
   * then the multicaster wired to it. The result is `None` when opening a store
   * ended the process.
   */
  method Open(config: Config, model: Stack.CoreDataModel, delegate: Option<Delegate>, fs: Util.FileSystem,
              readOutcomes: Stack.OpenOutcomes, writeOutcomes: Stack.OpenOutcomes)
    returns (coreData: Option<CoreData>)
    modifies fs
    // the process ends exactly when opening the read coordinator, or the separate write one, does
    ensures var p, d := Stack.ParamsFor(config, model), SelectDelegate(delegate).0;
      coreData.None? <==>
        Stack.Exits(p.storeURL, d, readOutcomes) ||
        (Stack.HasSeparateWriteCoordinator(p.storeType) && Stack.Exits(p.storeURL, d, writeOutcomes))
    ensures coreData.Some? ==> fresh(coreData.value) && coreData.value.Valid()
    ensures coreData.Some? ==>
      && coreData.value.delegate == SelectDelegate(delegate).0
      && coreData.value.retainsDefaultDelegate == SelectDelegate(delegate).1
      && coreData.value.stack.params == Stack.ParamsFor(config, model)
      && coreData.value.changeMulticaster.observers == map[]
      && coreData.value.changeMulticaster.multicast.weakObjects == []
    // a new stack and multicaster: no pending changes, no history, nothing queued
    ensures coreData.Some? ==>
      var s, m := coreData.value.stack, coreData.value.changeMulticaster;
      && fresh(s) && fresh(m)
      && fresh(s.readContext) && fresh(s.writeContext)
      && s.readContext.pending == NoPendingChanges() && s.writeContext.pending == NoPendingChanges()
      && s.readContext.merged == [] && s.writeContext.saved == []
      && fresh(m.changeNotifier) && fresh(m.multicast) && fresh(m.observeQueue)
      && m.observeQueue.tasks == [] && m.dispatched == []
      && m.changeNotifier.received == [] && m.changeNotifier.processed == []
    // the coordinators were opened with the chosen delegate: their stores and the file-system effect
    ensures coreData.Some? ==>
      var p, d, s := Stack.ParamsFor(config, model), SelectDelegate(delegate).0, coreData.value.stack;
      && s.readContext.persistentStoreCoordinator.Some?
      && s.writeContext.persistentStoreCoordinator.Some?
      && s.readContext.persistentStoreCoordinator.value.stores ==
           Util.OpenedStores(p.storeType, p.storeURL, d, readOutcomes.first, readOutcomes.retry)
      && (Stack.HasSeparateWriteCoordinator(p.storeType) ==>
           s.writeContext.persistentStoreCoordinator.value.stores ==
             Util.OpenedStores(p.storeType, p.storeURL, d, writeOutcomes.first, writeOutcomes.retry))
      && fs.items == old(fs.items) + Stack.CreatedDirectories(p)
           - Util.RemovedFiles(p.storeURL, d, readOutcomes.first)
           - (if Stack.HasSeparateWriteCoordinator(p.storeType)
              then Util.RemovedFiles(p.storeURL, d, writeOutcomes.first) else {})
  {
    var (delegateInUse, retains) := SelectDelegate(delegate);
    var stack, _ := Stack.Open(Stack.ParamsFor(config, model), delegateInUse, fs, readOutcomes, writeOutcomes);
    if stack.None? {
      return None;
    }
    var multicaster := new Multicaster.ModelChangeMulticaster(stack.value);
    var c := new CoreData(config, model, stack.value, multicaster, delegateInUse, retains);
    coreData := Some(c);
  }
}
