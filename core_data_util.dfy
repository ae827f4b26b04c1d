/**
 * CoreDataUtil.swift: store URLs, the file system, and opening a persistent
 * store coordinator with the delegate's reset-and-retry-once recovery.
 */
module CoreDataUtil {
  import opened Wrappers
  import opened CoreDataDelegate

  datatype URL = FileURL(path: string)

  /** `storeURL(forFilePath:)`. */
  function StoreURL(filePath: string): (r: URL)
    ensures r.path == filePath
  {
    FileURL(filePath)
  }

  /** The index of the last `/` in `path`, if any. */
  function LastSlash(path: string): (r: Option<nat>)
    ensures r.Some? ==>
      (r.value < |path| && path[r.value] == '/' && forall k :: r.value < k < |path| ==> path[k] != '/')
    ensures r.None? ==> forall k :: 0 <= k < |path| ==> path[k] != '/'
    decreases |path|
  {
    if path == [] then None
    else if path[|path| - 1] == '/' then Some(|path| - 1)
    else LastSlash(path[..|path| - 1])
  }

  /**
   * `url.deletingLastPathComponent().path` for a file path without a trailing
   * `/`: the path up to its last `/`, the root when that `/` is the first
   * character, and the empty path when there is no `/`.
   */
  function DirectoryOf(path: string): (r: string)
    ensures '/' !in path ==> r == ""
    ensures '/' in path ==>
      exists i :: 0 <= i < |path| && path[i] == '/' && (forall k :: i < k < |path| ==> path[k] != '/') &&
        r == (if i == 0 then "/" else path[..i])
  {
    match LastSlash(path)
    case None => ""
    case Some(i) =>
      assert path[i] == '/';
      if i == 0 then "/" else path[..i]
  }

  /** The file system: the paths of the items that exist. */
  class FileSystem {
    var items: set<string>

    constructor(items: set<string>)
      ensures this.items == items
    {
      this.items := items;
    }

    predicate FileExists(path: string)
      reads this
    {
      path in items
    }

    /** `removeItem(at:)`: fails when there is nothing at the path. */
    method RemoveItem(url: URL) returns (removed: bool)
      modifies this
      ensures removed <==> url.path in old(items)
      ensures items == old(items) - {url.path}
    {
      removed := url.path in items;
      items := items - {url.path};
    }

    /** `createDirectory(atPath:withIntermediateDirectories:attributes:)`. */
    method CreateDirectory(path: string)
      modifies this
      ensures items == old(items) + {path}
    {
      items := items + {path};
    }
  }

  /** `deleteStore(at:)`: removes the file; a failure is swallowed. */
  method DeleteStore(fs: FileSystem, storeURL: URL)
    modifies fs
    ensures fs.items == old(fs.items) - {storeURL.path}
  {
    var _ := fs.RemoveItem(storeURL);
  }

  /** `createDirectoryIfNeeded(at:)`: creates the store's directory unless it exists. */
  method CreateDirectoryIfNeeded(fs: FileSystem, url: URL)
    modifies fs
    ensures DirectoryOf(url.path) in old(fs.items) ==> fs.items == old(fs.items)
    ensures fs.items == old(fs.items) + {DirectoryOf(url.path)}
  {
    var directoryPath := DirectoryOf(url.path);
    if fs.FileExists(directoryPath) {
      return;
    }
    fs.CreateDirectory(directoryPath);
  }

  /** A store added to a coordinator. */
  datatype Store = Store(storeType: string, url: Option<URL>)

  /** An NSPersistentStoreCoordinator: its persistent stores. */
  class Coordinator {
    var stores: seq<Store>

    constructor()
      ensures stores == []
    {
      stores := [];
    }

    /** `addPersistentStore(ofType:configurationName:at:options:)`; `outcome` is the error Core Data reports, if any. */
    method AddPersistentStore(storeType: string, url: Option<URL>, outcome: Option<NSError>) returns (error: Option<NSError>)
      modifies this
      ensures error == outcome
      ensures outcome.None? ==> stores == old(stores) + [Store(storeType, url)]
      ensures outcome.Some? ==> stores == old(stores)
    {
      error := outcome;
      if outcome.None? {
        stores := stores + [Store(storeType, url)];
      }
    }

    /** `persistentStores.forEach { remove($0) }`. */
    method RemoveAllStores()
      modifies this
      ensures stores == []
    {
      stores := [];
    }
  }

  /** An observable step of opening a coordinator. */
  datatype OpenStep =
    | WillOpen                         // `delegate.coreDataWillOpenDatabaseConnection()`
    | AddStore                         // an `addPersistentStore` attempt
    | ConsultDelegate(error: NSError)  // `delegate.coreDataShouldResetPersistenceStore(onError:)`
    | RemoveStoreFile(path: string)    // `fileManager.removeItem(at: storeURL)`
    | Exit                             // the delegate ended the process

  /** The steps of `createPersistentStoreCoordinator`, given the error of the first attempt (if any). */
  function OpenTrace(storeURL: Option<URL>, delegate: Delegate, first: Option<NSError>): seq<OpenStep> {
    [WillOpen, AddStore] +
      match first
      case None => []
      case Some(err) =>
        [ConsultDelegate(err)] +
          match ShouldResetPersistenceStore(delegate, err)
          case Terminate => [Exit]
          case ShouldReset(reset) =>
            if !reset then []
            else (if storeURL.Some? then [RemoveStoreFile(storeURL.value.path)] else []) + [AddStore]
  }

  /** Whether the delegate, asked about a failed first attempt, allowed the reset. */
  predicate ResetAllowed(delegate: Delegate, first: Option<NSError>) {
    first.Some? && ShouldResetPersistenceStore(delegate, first.value) == ShouldReset(true)
  }

  /** The stores of the returned coordinator: one if an attempt succeeded, none otherwise. */
  function OpenedStores(storeType: string, storeURL: Option<URL>, delegate: Delegate,
                        first: Option<NSError>, retry: Option<NSError>): seq<Store> {
    if first.None? || (ResetAllowed(delegate, first) && retry.None?) then [Store(storeType, storeURL)] else []
  }

  /** The files removed while opening. */
  function RemovedFiles(storeURL: Option<URL>, delegate: Delegate, first: Option<NSError>): set<string> {
    if ResetAllowed(delegate, first) && storeURL.Some? then {storeURL.value.path} else {}
  }

  /**
   * `createPersistentStoreCoordinator(for:params:delegate:)`. `first` and `retry`
   * are the errors the two `addPersistentStore` attempts would report. The result
   * is `None` when the delegate ended the process.
   */
  method CreatePersistentStoreCoordinator(storeType: string, storeURL: Option<URL>, delegate: Delegate,
                                          fs: FileSystem, first: Option<NSError>, retry: Option<NSError>)
    returns (coordinator: Option<Coordinator>, trace: seq<OpenStep>)
    modifies fs
    ensures trace == OpenTrace(storeURL, delegate, first)
    ensures coordinator.None? <==> Exit in trace
    ensures coordinator.Some? ==>
      (fresh(coordinator.value) && coordinator.value.stores == OpenedStores(storeType, storeURL, delegate, first, retry))
    ensures fs.items == old(fs.items) - RemovedFiles(storeURL, delegate, first)
  {
    trace := [WillOpen];
    var c := new Coordinator();
    trace := trace + [AddStore];
    var error := c.AddPersistentStore(storeType, storeURL, first);
    if error.Some? {
      trace := trace + [ConsultDelegate(error.value)];
      var decision := ShouldResetPersistenceStore(delegate, error.value);
      if decision == Terminate {
        trace := trace + [Exit];
        return None, trace;
      }
      if decision.reset {
        if storeURL.Some? {
          trace := trace + [RemoveStoreFile(storeURL.value.path)];
          var _ := fs.RemoveItem(storeURL.value);
        }
        trace := trace + [AddStore];
        var _ := c.AddPersistentStore(storeType, storeURL, retry);
      }
    }
    coordinator := Some(c);
  }

  /** How often `x` occurs in `trace`. */
  function Occurrences(trace: seq<OpenStep>, x: OpenStep): nat {
    if trace == [] then 0
    else (if trace[0] == x then 1 else 0) + Occurrences(trace[1..], x)
  }

  lemma {:induction false} OccurrencesConcat(a: seq<OpenStep>, b: seq<OpenStep>, x: OpenStep)
    ensures Occurrences(a + b, x) == Occurrences(a, x) + Occurrences(b, x)
  {
    if a == [] {
      assert a + b == b;
    } else {
      assert (a + b)[1..] == a[1..] + b;
      OccurrencesConcat(a[1..], b, x);
    }
  }

  lemma OccurrencesOfOne(y: OpenStep, x: OpenStep)
    ensures Occurrences([y], x) == if y == x then 1 else 0
  {
    assert [y][1..] == [];
  }

  /** The will-open hook runs exactly once, before the first attempt. */
  lemma WillOpenOnceFirst(storeURL: Option<URL>, delegate: Delegate, first: Option<NSError>)
    ensures var t := OpenTrace(storeURL, delegate, first);
      |t| >= 2 && t[0] == WillOpen && t[1] == AddStore && Occurrences(t, WillOpen) == 1
  {
    var t := OpenTrace(storeURL, delegate, first);
    var rest := t[2..];
    assert t == [WillOpen] + [AddStore] + rest;
    assert WillOpen !in rest;
    OccurrencesConcat([WillOpen] + [AddStore], rest, WillOpen);
    OccurrencesConcat([WillOpen], [AddStore], WillOpen);
    OccurrencesOfOne(WillOpen, WillOpen);
    OccurrencesOfOne(AddStore, WillOpen);
    OccurrencesAbsent(rest, WillOpen);
  }

  lemma {:induction false} OccurrencesAbsent(t: seq<OpenStep>, x: OpenStep)
    requires x !in t
    ensures Occurrences(t, x) == 0
  {
    if t != [] {
      OccurrencesAbsent(t[1..], x);
    }
  }

  /** The delegate is consulted exactly when the first attempt fails, and then once, with that error. */
  lemma ConsultIffFirstFails(storeURL: Option<URL>, delegate: Delegate, first: Option<NSError>)
    ensures var t := OpenTrace(storeURL, delegate, first);
      (forall err :: ConsultDelegate(err) in t <==> first == Some(err)) &&
      (first.Some? ==> Occurrences(t, ConsultDelegate(first.value)) == 1)
  {
    var t := OpenTrace(storeURL, delegate, first);
    if first.Some? {
      var c := ConsultDelegate(first.value);
      var rest := t[3..];
      assert t == [WillOpen, AddStore] + [c] + rest;
      assert c !in rest;
      assert [WillOpen, AddStore] == [WillOpen] + [AddStore];
      OccurrencesConcat([WillOpen, AddStore] + [c], rest, c);
      OccurrencesConcat([WillOpen, AddStore], [c], c);
      OccurrencesConcat([WillOpen], [AddStore], c);
      OccurrencesOfOne(WillOpen, c);
      OccurrencesOfOne(AddStore, c);
      OccurrencesOfOne(c, c);
      OccurrencesAbsent(rest, c);
    }
  }

  /**
   * At most two attempts; a second one only after the delegate allowed the
   * reset, preceded by removing the store file when there is one. A refusal
   * neither deletes nor retries, and only `Terminate` ends the process.
   */
  lemma RetryOnlyAfterReset(storeURL: Option<URL>, delegate: Delegate, first: Option<NSError>)
    ensures var t := OpenTrace(storeURL, delegate, first);
      && Occurrences(t, AddStore) == (if ResetAllowed(delegate, first) then 2 else 1)
      && (forall p :: RemoveStoreFile(p) in t <==> ResetAllowed(delegate, first) && storeURL == Some(FileURL(p)))
      && (Exit in t <==> first.Some? && ShouldResetPersistenceStore(delegate, first.value) == Terminate)
  {
    var t := OpenTrace(storeURL, delegate, first);
    var head: seq<OpenStep> := [WillOpen, AddStore];
    assert head == [WillOpen] + [AddStore];
    OccurrencesConcat([WillOpen], [AddStore], AddStore);
    OccurrencesOfOne(WillOpen, AddStore);
    OccurrencesOfOne(AddStore, AddStore);
    var rest := t[2..];
    assert t == head + rest;
    OccurrencesConcat(head, rest, AddStore);
    if first.Some? {
      var c := ConsultDelegate(first.value);
      var tail := rest[1..];
      assert rest == [c] + tail;
      OccurrencesConcat([c], tail, AddStore);
      OccurrencesOfOne(c, AddStore);
      if ResetAllowed(delegate, first) {
        var removal: seq<OpenStep> := if storeURL.Some? then [RemoveStoreFile(storeURL.value.path)] else [];
        assert tail == removal + [AddStore];
        OccurrencesConcat(removal, [AddStore], AddStore);
        OccurrencesAbsent(removal, AddStore);
      } else {
        OccurrencesAbsent(tail, AddStore);
      }
    } else {
      assert rest == [];
    }
  }

  /**
   * The returned coordinator holds the store exactly when the last attempt the
   * trace makes succeeded: the first one, or the retry when there are two. The
   * files removed are exactly those the trace's removal step names.
   */
  lemma StoreIffLastAttemptSucceeds(storeType: string, storeURL: Option<URL>, delegate: Delegate,
                                    first: Option<NSError>, retry: Option<NSError>)
    ensures var t := OpenTrace(storeURL, delegate, first);
      var last := if Occurrences(t, AddStore) == 2 then retry else first;
      OpenedStores(storeType, storeURL, delegate, first, retry) ==
        (if last.None? then [Store(storeType, storeURL)] else [])
    ensures forall p :: p in RemovedFiles(storeURL, delegate, first) <==>
      RemoveStoreFile(p) in OpenTrace(storeURL, delegate, first)
  {
    RetryOnlyAfterReset(storeURL, delegate, first);
  }
}
