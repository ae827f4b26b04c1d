# CoreDataStack in Dafny

This project models the core of the CoreDataStack Swift library, which wraps
Core Data:

- **Query DSL.** A typed `Query` tree compiles to an `NSPredicate`, given as a
  format string plus its argument array. `CompoundQuery` combines compiled
  items with AND, OR and NOT, and the `&&` and `&` operators build queries.
  `FetchRequestBuilder` puts the compiled predicate on a fetch request.
- **Change sets.** `ChangesType` holds created, updated and deleted lists.
  `ModelChangeEvent` is built from a did-save notification: the fragments of
  the changed objects, grouped by entity name.
- **Change fan-out.** `ModelChangeNotifier` drops empty events and queues the
  others on a serial queue. `ModelChangeMulticaster` and the weak-reference
  `Multicast` list deliver each event to every live observer. Subscribing and
  cancelling are queued like deliveries.
- **Stack.** `CoreDataConfig`, `CoreDataDelegate` and `CoreDataUtil` open a
  persistent store coordinator, with the delegate's reset-and-retry-once
  recovery. `CoreDataStack` holds the read and write contexts, and the write
  context's did-save observer. The `CoreData` facade runs blocks with
  `perform`/`performAndWait` and can reset and delete the store.
- **Versioned entities.** `CoreDataSchemaVersionedEntityProtocol` records the
  schema version and data version of an entity.

Entities that the source mutates in place are classes with `modifies`
clauses. This covers the multicast list, the serial queue, the notifier, the
multicaster, contexts, coordinators, the file system, the stack and the
facade. Values are datatypes, and the pure parts are functions with
lemmas. Anything the model cannot decide by itself is a parameter:

- what Core Data reports when adding a store or saving;
- which weak references still resolve (a `Liveness` map);
- whether a weakly held multicaster is still alive.

A call to `exit` is an absent (`None`) result. The queues are FIFO sequences
of the closures submitted to them.

## Model

| member | source | states |
|---|---|---|
| QueryDSL.Formatted | Resource/CoreDataStack/Classes/Core/Query/QueryDSL.swift:72-81 | succeeds exactly for a key path (`%K`) or a value (`%@`); every other node fails with `invalidFormat` |
| QueryDSL.Literal | Resource/CoreDataStack/Classes/Core/Query/QueryDSL.swift:83-92 | succeeds exactly for a leaf, binding the key path's string or the value; otherwise fails with `invalidLiteral` |
| QueryDSL.CompileBinary | Resource/CoreDataStack/Classes/Core/Query/QueryDSL.swift:106-119 | a comparison or bitwise-and compiles exactly when both operands are leaves, to the operator's format with both placeholders and both bound arguments in order; otherwise fails with `invalidFormat` |
| QueryDSL.ToNSPredicate | Resource/CoreDataStack/Classes/Core/Query/QueryDSL.swift:94-121 | a bare leaf fails with `invalidPredicate`; `presentIn`/`notPresentIn` always compile to `%K IN %@` / `NOT (%K IN %@)` with the key and the collection; binary nodes as above |
| QueryDSL.NeverInvalidLiteral | Resource/CoreDataStack/Classes/Core/Query/QueryDSL.swift:94-121 | no query compiles to `invalidLiteral`, because `formatted()` always fails first |
| QueryDSL.CompiledQueryShape | Resource/CoreDataStack/Classes/Core/Query/QueryDSL.swift:100-119 | every compiled simple query is one format string with exactly two arguments |
| QueryDSL.KeyPathString | Resource/CoreDataStack/Classes/Core/Query/KeyPathStringConvertible.swift:15-18 | a key path's KVC string when it has one, and the empty string otherwise |
| QueryDSL.Compile | Resource/CoreDataStack/Classes/Core/Query/QueryDSL.swift:12-14 | no item, however deeply nested, fails with `invalidLiteral`; a plain query compiles to a simple predicate and a compound never does |
| QueryDSL.CompileCompound | Resource/CoreDataStack/Classes/Core/Query/QueryDSL.swift:130-141 | an `and`/`or` compiles exactly when every item does, to the matching compound of the items' predicates in order; a `not` compiles exactly when its item does, to its negation; never `invalidLiteral` |
| QueryDSL.CompileAll | Resource/CoreDataStack/Classes/Core/Query/QueryDSL.swift:133-136 | `try preds.map { try $0.toNSPredicate() }`: on success, one predicate per item in order, each that item's compilation; on failure, the error of the first failing item, all earlier items compiling |
| QueryDSL.CompileAllConcat | Resource/CoreDataStack/Classes/Core/Query/QueryDSL.swift:130-141 | compiling a concatenation compiles the left part first, then the right part |
| QueryDSL.CompoundFailsWithFirstError | Resource/CoreDataStack/Classes/Core/Query/QueryDSL.swift:130-141 | an AND or OR compound fails with exactly the error of its first failing item |
| QueryDSL.BitAnd | Resource/CoreDataStack/Classes/Core/Query/QueryDSL.swift:66-68 | `q & r` compiles to `(%K|%@ & %K|%@) > 0` with both bound arguments when both operands are leaves, and otherwise fails with `invalidFormat` |
| QueryDSL.AndQueries | Resource/CoreDataStack/Classes/Core/Query/QueryDSL.swift:55-57 | `q && r` is a two-item `and`; compiled, it fails with the left error first, then the right one, and otherwise is an AND predicate |
| QueryDSL.AndQueryCompound | Resource/CoreDataStack/Classes/Core/Query/QueryDSL.swift:59-64 | `q && c` widens a right-hand `and` by one item and otherwise pairs; compiled, errors come left first, otherwise an AND predicate |
| QueryDSL.AndCompounds | Resource/CoreDataStack/Classes/Core/Query/QueryDSL.swift:144-146 | `c && d` is always a two-item `and`; compiled, errors come left first, otherwise an AND predicate |
| QueryDSL.AndCompoundQuery | Resource/CoreDataStack/Classes/Core/Query/QueryDSL.swift:148-153 | `c && q` widens a left-hand `and` by one item and otherwise pairs; compiled, errors come left first, otherwise an AND predicate |
| QueryDSL.AndMeansConjunction | Resource/CoreDataStack/Classes/Core/Query/QueryDSL.swift:55-153 | whichever `&&` overload builds it, the compiled result holds exactly when both compiled operands hold, under every meaning of the simple parts |
| QueryDSL.QueryAndCompoundMeansNested | Resource/CoreDataStack/Classes/Core/Query/QueryDSL.swift:59-64 | widening `q && and(ps)` flat gives the same error, or a predicate with the same truth value under every leaf meaning, as nesting it |
| QueryDSL.CompoundAndQueryMeansNested | Resource/CoreDataStack/Classes/Core/Query/QueryDSL.swift:148-153 | the same for `and(ps) && q` |
| FetchRequestBuilder.NewBuilder | Resource/CoreDataStack/Classes/Core/Query/FetchRequestBuilder.swift:15-24 | the request is for the model's entity name; its predicate is the compiled query, and it stays unset when there is no query or compilation throws (the error is swallowed) |
| FetchRequestBuilder.FetchFiltersByQuery | Resource/CoreDataStack/Classes/Core/Query/FetchRequestBuilder.swift:15-31 | `fetch(builder:)` runs one request for the entity, filtered by the compiled query; without a query, or when the query fails to compile, the request carries no predicate, so everything is fetched |
| ChangesType.All | Resource/CoreDataStack/Classes/Core/Common/ChangesType.swift:40-42 | `all()` has one element per created, updated and deleted element |
| ChangesType.IsEmpty | Resource/CoreDataStack/Classes/Core/Common/ChangesType.swift:36-38 | `isEmpty` holds exactly when `all()` is empty |
| ChangesType.Contains | Resource/CoreDataStack/Classes/Core/Common/ChangesType.swift:44-48 | `contains(where:)` holds exactly when some element of `all()` satisfies the predicate |
| ChangesType.Filter | Resource/CoreDataStack/Classes/Core/Common/ChangesType.swift:50-54 | each list keeps exactly its elements that satisfy the predicate |
| ChangesType.ConvenienceInits | Resource/CoreDataStack/Classes/Core/Common/ChangesType.swift:21-32 | `init()` is empty; each one-list initialiser fills exactly its own list |
| ChangesType.AllOfFilter | Resource/CoreDataStack/Classes/Core/Common/ChangesType.swift:50-54 | `all()` of a filtered change set is the filtered `all()`, in order |
| ChangesType.FilterIdempotent | Resource/CoreDataStack/Classes/Core/Common/ChangesType.swift:50-54 | filtering twice with one predicate is filtering once |
| ChangesType.FilterEmptyIffNotContains | Resource/CoreDataStack/Classes/Core/Common/ChangesType.swift:44-54 | a filtered change set is empty exactly when `contains(where:)` is false |
| ChangesType.Plus | Resource/CoreDataStack/Classes/Core/Common/ChangesType.swift:56-60 | as written, the sum agrees with the intended sum on created and deleted, but its updated list is a copy of its created list |
| ChangesType.PlusIgnoresUpdates | Resource/CoreDataStack/Classes/Core/Common/ChangesType.swift:56-60 | as written, the sum never depends on either updated list, and it equals the intended sum exactly when the two updated lists together equal the two created lists |
| ChangesType.PlusLosesUpdates | Resource/CoreDataStack/Classes/Core/Common/ChangesType.swift:56-60 | a non-empty update-only change set plus `init()` is empty |
| ChangesType.PlusIntended | Resource/CoreDataStack/Classes/Core/Common/ChangesType.swift:56-60 | the intended sum is empty exactly when both sides are, and holds every element of both sides (multiset union of `all()`) |
| ChangesType.PlusIntendedIdentity | Resource/CoreDataStack/Classes/Core/Common/ChangesType.swift:21-60 | `init()` is an identity of the intended sum, on either side |
| ChangesType.PlusIntendedAssociative | Resource/CoreDataStack/Classes/Core/Common/ChangesType.swift:56-60 | the intended sum is associative |
| ChangesType.FilterPlusIntended | Resource/CoreDataStack/Classes/Core/Common/ChangesType.swift:50-60 | filtering distributes over the intended sum |
| ModelChangeEvent.FragmentsOf | Resource/CoreDataStack/Classes/Core/Notifier/ModelChangeEvent.swift:24 | the fragments are exactly those of the fragmentable objects |
| ModelChangeEvent.AddObjects | Resource/CoreDataStack/Classes/Core/Notifier/ModelChangeEvent.swift:22-35 | the loop appends each fragment, in order, to its entity's list of the given kind, creating missing entries; an absent or empty entry adds nothing |
| ModelChangeEvent.FromNotification | Resource/CoreDataStack/Classes/Core/Notifier/ModelChangeEvent.swift:18-42 | the change map has one entry per entity name occurring among the inserted, updated and deleted fragments, holding that entity's fragments of each kind in order |
| ModelChangeEvent.KeysExtended | Resource/CoreDataStack/Classes/Core/Notifier/ModelChangeEvent.swift:25-34 | the loop keeps the old entries and adds one per new entity name |
| ModelChangeEvent.LookupExtended | Resource/CoreDataStack/Classes/Core/Notifier/ModelChangeEvent.swift:25-34 | after the loop, each entity's entry is its old entry with that entity's fragments appended |
| ModelChangeEvent.GroupedKeys | Resource/CoreDataStack/Classes/Core/Notifier/ModelChangeEvent.swift:44-46 | `hasChanges(for:)` on a built event holds exactly when some inserted, updated or deleted object has a fragment of that entity |
| ModelChangeEvent.GroupedHoldsEveryFragment | Resource/CoreDataStack/Classes/Core/Notifier/ModelChangeEvent.swift:29-31 | every fragment of an inserted, updated or deleted object ends up in its entity's created, updated or deleted list |
| ModelChangeEvent.GroupedWellFormed | Resource/CoreDataStack/Classes/Core/Notifier/ModelChangeEvent.swift:18-42 | a built event has no empty entry, and no entry holds another entity's fragment |
| ModelChangeEvent.UnfragmentableObjectsIgnored | Resource/CoreDataStack/Classes/Core/Notifier/ModelChangeEvent.swift:24 | adding a non-fragmentable object to any of the three sets changes nothing |
| ModelChangeEvent.IsEmpty | Resource/CoreDataStack/Classes/Core/Notifier/ModelChangeEvent.swift:16 | `isEmpty` holds exactly when `hasChanges(for:)` is false for every entity |
| ModelChangeEvent.HasChanges | Resource/CoreDataStack/Classes/Core/Notifier/ModelChangeEvent.swift:44-46 | on a well-formed event, `hasChanges(for:)` holds exactly when `filter(_:)` gives a non-empty change set |
| ModelChangeEvent.EventEmptyIffNoFragments | Resource/CoreDataStack/Classes/Core/Notifier/ModelChangeEvent.swift:16-42 | a built event is empty exactly when the notification carries no fragment |
| ModelChangeEvent.Filter | Resource/CoreDataStack/Classes/Core/Notifier/ModelChangeEvent.swift:52-68 | only fragments of the entity come out; an absent entity gives `init()`; on a well-formed event the casts keep every fragment, so the source's count assertions and its non-empty assertion hold |
| ModelChangeEvent.FilterWhere | Resource/CoreDataStack/Classes/Core/Notifier/ModelChangeEvent.swift:70-75 | `filter(_:where:)` is `filter(_:)` followed by the change set's `filter`, also on `all()` |
| ModelChangeEvent.HasChangesWhere | Resource/CoreDataStack/Classes/Core/Notifier/ModelChangeEvent.swift:48-50 | `hasChanges(for:where:)` holds exactly when `filter(_:where:)` is non-empty, and implies `hasChanges(for:)` |
| Multicast.Multicast.Append | Resource/CoreDataStack/Classes/Foundation/Multicast.swift:35-38 | one entry is added at the end |
| Multicast.Multicast.Remove | Resource/CoreDataStack/Classes/Foundation/Multicast.swift:40-43 | the entries whose object is not identical to the argument remain, in order (a released entry is never identical) |
| Multicast.Multicast.Invoke | Resource/CoreDataStack/Classes/Foundation/Multicast.swift:45-53 | the function is called on exactly the live entries, in order, and afterwards exactly those remain |
| Multicast.RemoveAbsent | Resource/CoreDataStack/Classes/Foundation/Multicast.swift:40-43 | removing an object never appended changes nothing |
| Multicast.RemoveKeepsOthers | Resource/CoreDataStack/Classes/Foundation/Multicast.swift:40-43 | every other entry stays and no live entry of the object remains |
| Multicast.AppendTwiceRemoveOnce | Resource/CoreDataStack/Classes/Foundation/Multicast.swift:35-43 | appending twice adds two entries, and one `remove` drops both |
| Multicast.PrunedHasNoDeadEntries | Resource/CoreDataStack/Classes/Foundation/Multicast.swift:45-53 | after `invoke` exactly the live entries remain, and a second prune keeps them |
| Multicast.InvokeCallsEachOnce | Resource/CoreDataStack/Classes/Foundation/Multicast.swift:45-53 | a duplicate-free list calls each live object exactly once |
| DispatchQueue.SerialQueue.Async | Resource/CoreDataStack/Classes/Core/Notifier/ModelChangeNotifier.swift:21-24 | the closure runs after every closure submitted before it |
| DispatchQueue.SerialQueue.Take | Resource/CoreDataStack/Classes/Core/Notifier/ModelChangeMulticaster.swift:14 | the serial queue runs its oldest pending closure first |
| ModelChangeNotifier.ModelChangeNotifier.ReceiveChangeEvent | Resource/CoreDataStack/Classes/Core/Notifier/ModelChangeNotifier.swift:19-25 | an empty event queues nothing; any other event queues exactly one delivery at the end; the invariant "processed + queued = the non-empty received events" is kept |
| ModelChangeNotifier.ModelChangeNotifier.Process | Resource/CoreDataStack/Classes/Core/Notifier/ModelChangeNotifier.swift:21-24 | a delivery goes to the event handler exactly when one is set |
| ModelChangeNotifier.DeliveredInOrder | Resource/CoreDataStack/Classes/Core/Notifier/ModelChangeNotifier.swift:19-25 | only non-empty received events are delivered, each once and in the order received: the processed events are a prefix of the non-empty received ones |
| ModelChangeMulticaster.DispatchesFor | Resource/CoreDataStack/Classes/Core/Notifier/ModelChangeMulticaster.swift:20-24 | one `async` onto each called observer's queue with its block and the event, in order |
| ModelChangeMulticaster.ModelChangeMulticaster.constructor | Resource/CoreDataStack/Classes/Core/Notifier/ModelChangeMulticaster.swift:16-30 | installs the notifier handler and the stack's merge handler, which must not be set yet; starts with no observers |
| ModelChangeMulticaster.ModelChangeMulticaster.ReceiveChangeEvent | Resource/CoreDataStack/Classes/Core/Notifier/ModelChangeMulticaster.swift:26-29 | the merge handler forwards the event to the notifier, queuing a delivery unless it is empty |
| ModelChangeMulticaster.ModelChangeMulticaster.ObserveModelChanges | Resource/CoreDataStack/Classes/Core/Notifier/ModelChangeMulticaster.swift:32-42 | a fresh observer with the given queue and block; its registration is queued on the observe queue, and the token refers to it; no observer is registered twice |
| ModelChangeMulticaster.ModelChangeMulticaster.RunNextTask | Resource/CoreDataStack/Classes/Core/Notifier/ModelChangeMulticaster.swift:14-48 | a delivery dispatches the event to exactly the live registered observers, in registration order, and prunes the dead ones; a queued append or remove updates the registry; the received history never changes, and only a delivery adds to the processed one; the invariants hold |
| ModelChangeMulticaster.ModelChangeMulticaster.RunDeliver | Resource/CoreDataStack/Classes/Core/Notifier/ModelChangeMulticaster.swift:20-24 | the notifier's handler: the event is processed, every live registered observer gets one dispatch in order, and the dead entries are pruned; the received history stays; the invariants are restored |
| ModelChangeMulticaster.ModelChangeMulticaster.RunAppend | Resource/CoreDataStack/Classes/Core/Notifier/ModelChangeMulticaster.swift:38-42 | a queued append registers its observer at the end, still with no duplicate |
| ModelChangeMulticaster.ModelChangeMulticaster.RunRemove | Resource/CoreDataStack/Classes/Core/Notifier/ModelChangeMulticaster.swift:44-48 | a queued remove unregisters its observer, which its closure keeps alive |
| ModelChangeMulticaster.Cancel | Resource/CoreDataStack/Classes/Core/Notifier/ModelChangeMulticaster.swift:44-77 | an observation token queues the removal of its observer while its multicaster is alive; otherwise, and for an empty token, nothing happens |
| CoreDataConfig.PersistentStoreType | Resource/CoreDataStack/Classes/Core/Stack/CoreDataConfig.swift:18-25 | in-memory maps to the in-memory store type and persistent to SQLite, never binary |
| CoreDataConfig.StoreTypeIgnoresPath | Resource/CoreDataStack/Classes/Core/Stack/CoreDataConfig.swift:21-22 | the store type of a persistent configuration does not depend on its path |
| CoreDataDelegate.DefaultShouldReset | Resource/CoreDataStack/Classes/Core/Stack/CoreDataDelegate.swift:24-42 | the default delegate terminates exactly on a "recoverable" error and otherwise answers reset; it never answers "no reset" |
| CoreDataDelegate.IsProtected | Resource/CoreDataStack/Classes/Core/Stack/CoreDataDelegate.swift:56-68 | every protected-file error is also "recoverable", so the protected-file branch of the default delegate never runs |
| CoreDataDelegate.IsRecoverable | Resource/CoreDataStack/Classes/Core/Stack/CoreDataDelegate.swift:70-94 | an error outside the Cocoa and SQLite domains always counts as recoverable |
| CoreDataDelegate.DefaultResetsExactlyOnCorruptFiles | Resource/CoreDataStack/Classes/Core/Stack/CoreDataDelegate.swift:24-94 | the default delegate answers "reset" exactly for Cocoa codes 259 and 263 and SQLite codes 11, 22, 26 and 523; a protected-file error ends the process |
| CoreDataUtil.StoreURL | Resource/CoreDataStack/Classes/Core/Stack/CoreDataUtil.swift:17-19 | the file URL of the given path |
| CoreDataUtil.LastSlash | Resource/CoreDataStack/Classes/Core/Stack/CoreDataUtil.swift:78-88 | the index of the last `/`, or none when there is none |
| CoreDataUtil.DirectoryOf | Resource/CoreDataStack/Classes/Core/Stack/CoreDataUtil.swift:78-88 | the directory of a store path is the path up to its last `/`, the root when that `/` is the first character, and empty when there is no `/` |
| CoreDataUtil.FileSystem.RemoveItem | Resource/CoreDataStack/Classes/Core/Stack/CoreDataUtil.swift:21-28 | the item is gone afterwards; removal fails exactly when nothing was there |
| CoreDataUtil.DeleteStore | Resource/CoreDataStack/Classes/Core/Stack/CoreDataUtil.swift:21-28 | removes the store file and swallows a failure |
| CoreDataUtil.CreateDirectoryIfNeeded | Resource/CoreDataStack/Classes/Core/Stack/CoreDataUtil.swift:78-88 | an existing directory is left alone; otherwise the store's directory is created |
| CoreDataUtil.Coordinator.AddPersistentStore | Resource/CoreDataStack/Classes/Core/Stack/CoreDataUtil.swift:35-76 | a successful attempt adds one store, a failed one adds nothing and reports the error |
| CoreDataUtil.CreatePersistentStoreCoordinator | Resource/CoreDataStack/Classes/Core/Stack/CoreDataUtil.swift:35-76 | the steps taken are the open trace; the process exits exactly when the delegate says terminate; the coordinator holds a store exactly when an attempt succeeded; only the store file of an allowed reset is removed |
| CoreDataUtil.WillOpenOnceFirst | Resource/CoreDataStack/Classes/Core/Stack/CoreDataUtil.swift:35-40 | the will-open hook runs exactly once, before the first attempt |
| CoreDataUtil.ConsultIffFirstFails | Resource/CoreDataStack/Classes/Core/Stack/CoreDataUtil.swift:40-60 | the delegate is consulted exactly when the first attempt fails, once, with that error |
| CoreDataUtil.RetryOnlyAfterReset | Resource/CoreDataStack/Classes/Core/Stack/CoreDataUtil.swift:40-76 | two attempts exactly when the delegate allowed the reset, else one; the file is removed exactly then; exit exactly on terminate |
| CoreDataUtil.StoreIffLastAttemptSucceeds | Resource/CoreDataStack/Classes/Core/Stack/CoreDataUtil.swift:35-76 | the coordinator holds the store exactly when the last attempt the trace makes succeeded (the retry when there are two, else the first); the files removed are exactly those the trace's removal step names |
| ManagedObjectContext.ManagedObjectContext.constructor | Resource/CoreDataStack/Classes/Core/Stack/ManagedObjectContext.swift:14-17 | a new context allows saving and uses the overwrite merge policy |
| ManagedObjectContext.ManagedObjectContext.Edit | Resource/CoreDataStack/Classes/Core/Stack/CoreData.swift:119 | a block's inserts, updates and deletes are added after the pending ones; nothing else changes |
| ManagedObjectContext.ManagedObjectContext.Rollback | Resource/CoreDataStack/Classes/Core/Stack/CoreData.swift:124 | `rollback()` discards every pending change and nothing else |
| ManagedObjectContext.ManagedObjectContext.Reset | Resource/CoreDataStack/Classes/Core/Stack/CoreData.swift:58 | `reset()` clears the pending changes and nothing else; registered objects are not modelled, so this is the effect of `Rollback` |
| ManagedObjectContext.ManagedObjectContext.MergeChanges | Resource/CoreDataStack/Classes/Core/Stack/CoreDataStack.swift:68 | a merged did-save notification is recorded after the earlier ones; the pending changes stay |
| ManagedObjectContext.ManagedObjectContext.Save | Resource/CoreDataStack/Classes/Core/Stack/ManagedObjectContext.swift:23-28 | saving must be allowed and there must be changes; a success posts the did-save notification of the pending changes and clears them; a failure keeps them and rethrows |
| ManagedObjectContext.ManagedObjectContext.SaveIfNeeded | Resource/CoreDataStack/Classes/Core/Stack/ManagedObjectContext.swift:32-40 | with no changes nothing happens; otherwise it is `save()`, with its error passed on |
| CoreDataStack.ParamsFor | Resource/CoreDataStack/Classes/Core/Stack/CoreDataStack.swift:86-94 | the store type follows the configuration; the URL is absent exactly for in-memory stores and is the configured path otherwise |
| CoreDataStack.SeparateWriteCoordinatorIffPersistent | Resource/CoreDataStack/Classes/Core/Stack/CoreDataStack.swift:53-61 | the write context gets its own coordinator exactly for persistent configurations |
| CoreDataStack.Open | Resource/CoreDataStack/Classes/Core/Stack/CoreDataStack.swift:34-74 | creates the store directory; opens the read coordinator, then a separate write coordinator for SQLite/binary stores or shares the read one; read never saves, write may; the process exits exactly when an opening does |
| CoreDataStack.CoreDataStack.WriteContextDidSave | Resource/CoreDataStack/Classes/Core/Stack/CoreDataStack.swift:65-73 | the notification is merged into the read context, and the event built from it goes to the merge handler when one is set |
| CoreDataStack.CoreDataStack.DeletePersistentStoreFile | Resource/CoreDataStack/Classes/Core/Stack/CoreDataStack.swift:97-101 | an in-memory store deletes nothing; otherwise the store file is removed |
| CoreData.SelectDelegate | Resource/CoreDataStack/Classes/Core/Stack/CoreData.swift:39-48 | a given delegate is used and not retained; without one a default delegate is created and retained |
| CoreData.PerformAndWaitResult | Resource/CoreDataStack/Classes/Core/Stack/CoreData.swift:139-161 | returns the block's value unless the block threw or returned a managed object or a non-empty array of them, which throws `invalidAccess` |
| CoreData.PerformResult | Resource/CoreDataStack/Classes/Core/Stack/CoreData.swift:117-130 | the completion gets the block's value or its error, with no escape check |
| CoreData.PerformAndWaitIsPerformWithEscapeCheck | Resource/CoreDataStack/Classes/Core/Stack/CoreData.swift:112-162 | the two differ exactly on escaping values, and `unexpectedNil` never arises unless the block throws it |
| CoreData.CoreData.Context | Resource/CoreDataStack/Classes/Core/Stack/CoreData.swift:101-106 | `context(of:)` is one of the stack's two contexts, and the write context is the one that may save |
| CoreData.CoreData.PerformAndWait | Resource/CoreDataStack/Classes/Core/Stack/CoreData.swift:133-162 | the result is the one above; any failure rolls the context back, and a success keeps the block's work pending; the coordinator, merge policy, saving permission and save/merge history stay |
| CoreData.CoreData.Perform | Resource/CoreDataStack/Classes/Core/Stack/CoreData.swift:112-131 | the completion is the one above; a thrown error rolls the context back; the coordinator, merge policy, saving permission and save/merge history stay |
| CoreData.CoreData.ResetAndDeletePersistentStore | Resource/CoreDataStack/Classes/Core/Stack/CoreData.swift:55-72 | resets both contexts, detaches all stores of both coordinators, then deletes the store file; both contexts keep their merge policy and save/merge history |
| CoreData.CoreData.WriteContextDidSave | Resource/CoreDataStack/Classes/Core/Stack/CoreData.swift:50-52 | saving the write context merges into the read context, whose pending changes and posted saves stay, and queues the event for the observers unless it is empty |
| CoreData.CoreData.ObserveModelChanges | Resource/CoreDataStack/Classes/Core/Stack/CoreData.swift:74-77 | delegates to the multicaster: the next observer id is bound to the given block and queue, its registration is queued and its token returned; nothing is dispatched |
| CoreData.Open | Resource/CoreDataStack/Classes/Core/Stack/CoreData.swift:35-53 | the process ends exactly when opening the read coordinator, or the separate write one, ends it; otherwise the stack is opened with the chosen delegate, its coordinators' stores and the file-system effect are those of that opening, and the multicaster is wired to it with no observers; stack, contexts, notifier, registry and queue are new, both contexts have no pending changes, and every history and the observe queue start empty |
| SchemaVersionedEntity.UpdatedVersions | Resource/CoreDataStack/Classes/Core/Schema/CoreDataSchemaVersionedEntityProtocol.swift:30-38 | the version never decreases and becomes at least the target; the schema version becomes current |
| SchemaVersionedEntity.IsSchemaVersionOutdated | Resource/CoreDataStack/Classes/Core/Schema/CoreDataSchemaVersionedEntityProtocol.swift:40-42 | the schema version is outdated exactly when `updateVersion(to:)` would rewrite it, whatever the target |
| SchemaVersionedEntity.IsVersionOutdated | Resource/CoreDataStack/Classes/Core/Schema/CoreDataSchemaVersionedEntityProtocol.swift:22-28 | `isVersionOutdated(againstVersion: v)` holds exactly when `updateVersion(to: v)` would change the stored versions |
| SchemaVersionedEntity.UpdateVersionSettles | Resource/CoreDataStack/Classes/Core/Schema/CoreDataSchemaVersionedEntityProtocol.swift:22-42 | after updating to `v`, no version up to `v` is outdated, and updating again changes nothing |
| SchemaVersionedEntity.UpdateVersionMonotone | Resource/CoreDataStack/Classes/Core/Schema/CoreDataSchemaVersionedEntityProtocol.swift:30-38 | updating to `v` then `w` is one update to the larger of the two |
| SchemaVersionedEntity.VersionedEntity.UpdateVersion | Resource/CoreDataStack/Classes/Core/Schema/CoreDataSchemaVersionedEntityProtocol.swift:30-38 | the stored versions become the updated versions of the old ones |

## Left out

- `NSPredicate` evaluation and fetch execution: a compiled predicate is a format string with arguments, `Holds` takes the meaning of simple parts as a parameter, and `FetchRequestBuilder.Fetch` takes the context's fetch as a function.
- QueryDSL: one value type per compiled tree, standing for Swift's `Value` parameter; mixing `Value` types across `&&` operands needs a sum type. The `numVal` convenience is not modelled.
- ModelChangeEvent: the cast in `filter(_:)` is modelled as a match on entity name. The `description` string is not modelled.
- Sets of managed objects are given in their iteration order, since Swift's order for `Set` is unspecified.
- Thread hops are collapsed. A caller's `context.perform`/`performAndWait` hop becomes a sequential call. The `changesNotifierQueue` in CoreDataStack.swift also becomes a direct call. No ordering is claimed between events of concurrent commits. Only the serial observe queue is modelled, as a FIFO.
- Multicast: liveness is a snapshot taken when an operation starts. An object deallocated during `invoke` is not modelled.
- ModelChangeMulticaster: each observer's own dispatch queue is recorded as a `Dispatch` and never run. Observer blocks are ids.
- The `[weak self]` captures of the stack's observer and of the multicaster's closures are treated as live. Only the token's weak multicaster is a parameter, `multicasterAlive`.
- CoreDataUtil.StoreURL: store paths are taken as absolute and already standardised. `URL(fileURLWithPath:)` resolving a relative path against the working directory, and dropping a trailing `/`, is not modelled, so a relative path's directory is `""` rather than the working directory.
- CoreDataUtil: removing stores and creating directories never fail. Intermediate directories are not tracked. `DirectoryOf` assumes a path with no trailing `/`.
- CoreDataUtil.CreatePersistentStoreCoordinator: the `assertionFailure` after a failed retry has no effect in release builds, so the model returns the coordinator without a store.
- CoreData.CoreData.ResetAndDeletePersistentStore: does not model a store removal that throws, which in the source would skip the remaining steps.
- ChangesType.Contains and ChangesType.Filter: `contains(where:)` and `filter(_:)` take throwing predicates and rethrow; the model's predicates are total `T -> bool`, so a predicate that throws, and the error that then propagates, are not modelled. The predicates of ModelChangeEvent's `filter(_:where:)` and `hasChanges(for:where:)` do not throw, so these two carry no such gap.
- ManagedObjectContext.ManagedObjectContext.Reset: a context's registered objects are not modelled, so `reset()` forgetting them is not captured and `Reset` has the same effect as `Rollback`.
- `shouldAssert` and `assertionFailure` are not modelled, so dev-build traps are left out.
- Delegate retention is only recorded as a flag, and weakly held delegates are treated as alive.
- `createManagedObjectModel`, `logEntityRowCounts` and Core Data's own persistence and merge algorithms are left out, as are save conflicts beyond an oracle error.
- The Reactive and concurrency helpers and `SafeTimer`: these files are not part of this model.
- SchemaVersionedEntity: Swift's `Comparable` version types are modelled as integers.

## Findings

| source | as written | input that shows it | evidently intended | confidence | as-written member | corrected member |
|---|---|---|---|---|---|---|
| Resource/CoreDataStack/Classes/Core/Common/ChangesType.swift:58 | the sum's `updated` is `lhs.created + rhs.created` | `init(updated: [x]) + init()` is empty, so the update is lost | `updated: lhs.updated + rhs.updated` | not executed | ChangesType.PlusLosesUpdates | ChangesType.PlusIntended |
