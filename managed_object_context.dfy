/**
 * ManagedObjectContext.swift: a context over abstract Core Data state. Its
 * unsaved work is a pending change set; a save turns it into a did-save
 * notification.
 */
module ManagedObjectContext {
  import opened Wrappers
  import E = ModelChangeEvent
  import Util = CoreDataUtil
  import opened CoreDataError

  datatype MergePolicy =
    | ErrorMergePolicy
    | MergeByPropertyStoreTrumpMergePolicy
    | MergeByPropertyObjectTrumpMergePolicy
    | OverwriteMergePolicy
    | RollbackMergePolicy

  /** The objects inserted, updated and deleted since the last save, rollback or reset. */
  datatype PendingChanges = PendingChanges(
    inserted: seq<E.ManagedObject>,
    updated: seq<E.ManagedObject>,
    deleted: seq<E.ManagedObject>)

  function NoPendingChanges(): PendingChanges {
    PendingChanges([], [], [])
  }

  /** `hasChanges`. */
  predicate HasChanges(p: PendingChanges) {
    p.inserted != [] || p.updated != [] || p.deleted != []
  }

  /** More work done on the context after `p`. */
  function Then(p: PendingChanges, q: PendingChanges): PendingChanges {
    PendingChanges(p.inserted + q.inserted, p.updated + q.updated, p.deleted + q.deleted)
  }

  /** The `NSManagedObjectContextDidSave` notification of saving `p`. */
  function DidSaveNotification(p: PendingChanges): E.Notification {
    E.Notification(Some(p.inserted), Some(p.updated), Some(p.deleted))
  }

  class ManagedObjectContext {
    var isSavingAllowed: bool
    var mergePolicy: MergePolicy
    var pending: PendingChanges
    /** The did-save notifications this context has posted, oldest first. */
    var saved: seq<E.Notification>
    /** The did-save notifications merged into this context, oldest first. */
    var merged: seq<E.Notification>
    var persistentStoreCoordinator: Option<Util.Coordinator>

    /** `init(concurrencyType:)`. */
    constructor()
      ensures isSavingAllowed && mergePolicy == OverwriteMergePolicy
      ensures pending == NoPendingChanges() && saved == [] && merged == []
      ensures persistentStoreCoordinator == None
    {
      isSavingAllowed := true;
      mergePolicy := OverwriteMergePolicy;
      pending := NoPendingChanges();
      saved := [];
      merged := [];
      persistentStoreCoordinator := None;
    }

    predicate HasPendingChanges()
      reads this
    {
      HasChanges(pending)
    }

    /** Work done by a block on the context: inserting, updating and deleting objects. */
    method Edit(work: PendingChanges)
      modifies this
      ensures pending == Then(old(pending), work)
      ensures isSavingAllowed == old(isSavingAllowed) && mergePolicy == old(mergePolicy)
      ensures saved == old(saved) && merged == old(merged) && persistentStoreCoordinator == old(persistentStoreCoordinator)
    {
      pending := Then(pending, work);
    }

    /** `rollback()`: discards the pending changes. */
    method Rollback()
      modifies this
      ensures pending == NoPendingChanges()
      ensures isSavingAllowed == old(isSavingAllowed) && mergePolicy == old(mergePolicy)
      ensures saved == old(saved) && merged == old(merged) && persistentStoreCoordinator == old(persistentStoreCoordinator)
    {
      pending := NoPendingChanges();
    }

    /** `reset()`: the pending changes are dropped; registered objects are not modelled. */
    method Reset()
      modifies this
      ensures pending == NoPendingChanges()
      ensures isSavingAllowed == old(isSavingAllowed) && mergePolicy == old(mergePolicy)
      ensures saved == old(saved) && merged == old(merged) && persistentStoreCoordinator == old(persistentStoreCoordinator)
    {
      pending := NoPendingChanges();
    }

    /**
     * `save()`. Saving must be allowed and there must be changes. `failure` is
     * the error Core Data reports, if any; a failed save keeps the changes.
     */
    method Save(failure: Option<Error>) returns (r: Result<E.Notification, Error>)
      requires isSavingAllowed && HasPendingChanges()
      modifies this
      ensures isSavingAllowed == old(isSavingAllowed) && mergePolicy == old(mergePolicy)
      ensures merged == old(merged) && persistentStoreCoordinator == old(persistentStoreCoordinator)
      ensures failure.Some? ==> r == Failure(failure.value) && pending == old(pending) && saved == old(saved)
      ensures failure.None? ==>
        (r == Success(DidSaveNotification(old(pending))) && pending == NoPendingChanges() && saved == old(saved) + [r.value])
    {
      if failure.Some? {
        return Failure(failure.value);
      }
      var note := DidSaveNotification(pending);
      pending := NoPendingChanges();
      saved := saved + [note];
      r := Success(note);
    }

    /** `saveIfNeeded()`: saves only when there are changes, and passes the save's error on unchanged. */
    method SaveIfNeeded(failure: Option<Error>) returns (r: Result<Option<E.Notification>, Error>)
      requires HasPendingChanges() ==> isSavingAllowed
      modifies this
      ensures isSavingAllowed == old(isSavingAllowed) && mergePolicy == old(mergePolicy)
      ensures merged == old(merged) && persistentStoreCoordinator == old(persistentStoreCoordinator)
      ensures !old(HasPendingChanges()) ==> r == Success(None) && pending == old(pending) && saved == old(saved)
      ensures old(HasPendingChanges()) && failure.Some? ==>
        (r == Failure(failure.value) && pending == old(pending) && saved == old(saved))
      ensures old(HasPendingChanges()) && failure.None? ==>
        (r == Success(Some(DidSaveNotification(old(pending)))) && pending == NoPendingChanges() &&
         saved == old(saved) + [DidSaveNotification(old(pending))])
    {
      if HasPendingChanges() {
        var saveResult := Save(failure);
        match saveResult
        case Success(note) => r := Success(Some(note));
        case Failure(error) => r := Failure(error);
      } else {
        r := Success(None);
      }
    }

    /** `mergeChanges(fromContextDidSave:)`. */
    method MergeChanges(note: E.Notification)
      modifies this
      ensures merged == old(merged) + [note]
      ensures pending == old(pending) && saved == old(saved)
      ensures isSavingAllowed == old(isSavingAllowed) && mergePolicy == old(mergePolicy)
      ensures persistentStoreCoordinator == old(persistentStoreCoordinator)
    {
      merged := merged + [note];
    }
  }
}
