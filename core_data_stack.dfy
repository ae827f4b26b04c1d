/**
 * CoreDataStack.swift: the read and write contexts with their coordinators, the
 * store parameters derived from the configuration, and the did-save observer of
 * the write context.
 */
module CoreDataStack {
  import opened Wrappers
  import opened CoreDataConfig
  import opened CoreDataDelegate
  import Util = CoreDataUtil
  import E = ModelChangeEvent
  import opened ManagedObjectContext

  /** CoreData.swift's `CoreDataModel`: the name and bundle of the compiled model. */
  datatype CoreDataModel = CoreDataModel(name: string, bundle: string)

  datatype Params = Params(storeType: string, storeURL: Option<Util.URL>, model: CoreDataModel)

  /** `Params.init(config:model:)`. */
  function ParamsFor(config: Config, model: CoreDataModel): (p: Params)
    ensures p.storeType == PersistentStoreType(config)
    ensures p.storeURL.None? <==> config.InMemory?
    ensures p.storeURL.Some? ==> p.storeURL.value.path == config.path
    ensures p.model == model
  {
    var storeURL := match config
      case InMemory => None
      case Persistent(path) => Some(Util.StoreURL(path));
    Params(PersistentStoreType(config), storeURL, model)
  }

  /** The `switch params.storeType` of the initialiser: SQLite and binary stores get their own write coordinator. */
  predicate HasSeparateWriteCoordinator(storeType: string) {
    storeType == NSSQLiteStoreType || storeType == NSBinaryStoreType
  }

  /** Persistent configurations get a separate write coordinator, in-memory ones share the read one. */
  lemma SeparateWriteCoordinatorIffPersistent(config: Config, model: CoreDataModel)
    ensures HasSeparateWriteCoordinator(ParamsFor(config, model).storeType) <==> config.Persistent?
  {
  }

  /** The errors the two `addPersistentStore` attempts of one coordinator would report. */
  datatype OpenOutcomes = OpenOutcomes(first: Option<NSError>, retry: Option<NSError>)

  /** Whether opening a coordinator with these outcomes ends the process. */
  predicate Exits(storeURL: Option<Util.URL>, delegate: Delegate, outcomes: OpenOutcomes) {
    Util.Exit in Util.OpenTrace(storeURL, delegate, outcomes.first)
  }

  /** The directory the initialiser creates for a persistent store. */
  function CreatedDirectories(params: Params): set<string> {
    if params.storeURL.Some? then {Util.DirectoryOf(params.storeURL.value.path)} else {}
  }

  class CoreDataStack {
    const params: Params
    const readContext: ManagedObjectContext
    const writeContext: ManagedObjectContext
    /** Whether `didMergeChangesHandler` is set. */
    var hasMergeHandler: bool

    /** The read context never saves, the write context may, and they share a coordinator exactly for in-memory stores. */
    ghost predicate Valid()
      reads this, readContext, writeContext
    {
      && readContext != writeContext
      && !readContext.isSavingAllowed
      && writeContext.isSavingAllowed
      && readContext.persistentStoreCoordinator.Some?
      && writeContext.persistentStoreCoordinator.Some?
      && (HasSeparateWriteCoordinator(params.storeType) <==>
            readContext.persistentStoreCoordinator != writeContext.persistentStoreCoordinator)
    }

    constructor(params: Params, readContext: ManagedObjectContext, writeContext: ManagedObjectContext)
      ensures this.params == params && this.readContext == readContext && this.writeContext == writeContext
      ensures !hasMergeHandler
    {
      this.params := params;
      this.readContext := readContext;
      this.writeContext := writeContext;
      hasMergeHandler := false;
    }

    /**
     * The observer of the write context's did-save notification: builds the
     * change event, merges the notification into the read context, and then
     * passes that same event on to the merge handler, if one is set.
     */
    method WriteContextDidSave(note: E.Notification) returns (forwarded: Option<E.ModelChangeEvent>)
      requires Valid()
      modifies readContext
      ensures Valid()
      ensures readContext.merged == old(readContext.merged) + [note]
      ensures readContext.pending == old(readContext.pending) && readContext.saved == old(readContext.saved)
      ensures hasMergeHandler ==> forwarded.Some? && forwarded.value.changeMap == E.Grouped(note)
      ensures !hasMergeHandler ==> forwarded == None
    {
      var event := E.FromNotification(note);
      readContext.MergeChanges(note);
      if hasMergeHandler {
        forwarded := Some(event);
      } else {
        forwarded := None;
      }
    }

    /** `deletePersistentStoreFile()`: nothing to delete for an in-memory store. */
    method DeletePersistentStoreFile(fs: Util.FileSystem)
      modifies fs
      ensures params.storeURL.None? ==> fs.items == old(fs.items)
      ensures params.storeURL.Some? ==> fs.items == old(fs.items) - {params.storeURL.value.path}
    {
      if params.storeURL.None? {
        return;
      }
      Util.DeleteStore(fs, params.storeURL.value);
    }
  }

  /**
   * `init(params:delegate:)`. `readOutcomes` and `writeOutcomes` are what opening
   * the read and the write coordinator would meet; the result is `None` when the
   * delegate ended the process. `trace` holds the steps of every coordinator opened.
   */
  method Open(params: Params, delegate: Delegate, fs: Util.FileSystem,
              readOutcomes: OpenOutcomes, writeOutcomes: OpenOutcomes)
    returns (stack: Option<CoreDataStack>, trace: seq<Util.OpenStep>)
    modifies fs
    ensures var separate := HasSeparateWriteCoordinator(params.storeType);
      var readExits := Exits(params.storeURL, delegate, readOutcomes);
      && trace == Util.OpenTrace(params.storeURL, delegate, readOutcomes.first) +
           (if !readExits && separate then Util.OpenTrace(params.storeURL, delegate, writeOutcomes.first) else [])
      && (stack.None? <==> readExits || (separate && Exits(params.storeURL, delegate, writeOutcomes)))
    ensures stack.Some? ==> fresh(stack.value) && stack.value.Valid() && !stack.value.hasMergeHandler
    ensures stack.Some? ==>
      var s := stack.value;
      && s.params == params
      && fresh(s.readContext) && fresh(s.writeContext)
      && s.readContext.pending == NoPendingChanges() && s.writeContext.pending == NoPendingChanges()
      && s.readContext.merged == [] && s.writeContext.saved == []
      && s.readContext.persistentStoreCoordinator.value.stores ==
           Util.OpenedStores(params.storeType, params.storeURL, delegate, readOutcomes.first, readOutcomes.retry)
      && (HasSeparateWriteCoordinator(params.storeType) ==>
           s.writeContext.persistentStoreCoordinator.value.stores ==
             Util.OpenedStores(params.storeType, params.storeURL, delegate, writeOutcomes.first, writeOutcomes.retry))
      && fs.items == old(fs.items) + CreatedDirectories(params)
           - Util.RemovedFiles(params.storeURL, delegate, readOutcomes.first)
           - (if HasSeparateWriteCoordinator(params.storeType)
              then Util.RemovedFiles(params.storeURL, delegate, writeOutcomes.first) else {})
  {
    if params.storeURL.Some? {
      Util.CreateDirectoryIfNeeded(fs, params.storeURL.value);
    }
    var readContext := new ManagedObjectContext();
    readContext.isSavingAllowed := false;
    var readPSC, readTrace := Util.CreatePersistentStoreCoordinator(
      params.storeType, params.storeURL, delegate, fs, readOutcomes.first, readOutcomes.retry);
    trace := readTrace;
    if readPSC.None? {
      return None, trace;
    }
    readContext.persistentStoreCoordinator := readPSC;

    var writeContext := new ManagedObjectContext();
    writeContext.isSavingAllowed := true;
    var writePSC: Option<Util.Coordinator>;
    if HasSeparateWriteCoordinator(params.storeType) {
      var writeTrace;
      writePSC, writeTrace := Util.CreatePersistentStoreCoordinator(
        params.storeType, params.storeURL, delegate, fs, writeOutcomes.first, writeOutcomes.retry);
      trace := trace + writeTrace;
      if writePSC.None? {
        return None, trace;
      }
    } else {
      writePSC := readPSC;
      assert trace == trace + [];
    }
    writeContext.persistentStoreCoordinator := writePSC;
    var s := new CoreDataStack(params, readContext, writeContext);
    stack := Some(s);
  }
}
