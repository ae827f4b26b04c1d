/**
 * Multicast.swift: a list of weakly held subscribers. A weak reference is an
 * object identity together with a liveness map, passed in at call time, that
 * says which objects are still alive.
 */
module Multicast {
  import Sequences

  /** The identity of a subscriber object (`===`). */
  type ObjectId = nat

  /** Which objects are still alive; an object missing from the map has been released. */
  type Liveness = map<ObjectId, bool>

  /** Whether the weak reference to `x` still resolves (`weakObject.object != nil`). */
  predicate IsLive(alive: Liveness, x: ObjectId) {
    x in alive && alive[x]
  }

  function Live(alive: Liveness): ObjectId -> bool {
    (x: ObjectId) => IsLive(alive, x)
  }

  /** `$0.object !== object`: a released entry resolves to nil and is never identical to `x`. */
  function NotIdentical(x: ObjectId, alive: Liveness): ObjectId -> bool {
    (e: ObjectId) => !(IsLive(alive, e) && e == x)
  }

  /** The entries left by `remove(x)`. */
  function Removed(entries: seq<ObjectId>, x: ObjectId, alive: Liveness): seq<ObjectId> {
    Sequences.Filter(entries, NotIdentical(x, alive))
  }

  /** The entries whose object is still alive, in order. */
  function LiveEntries(entries: seq<ObjectId>, alive: Liveness): seq<ObjectId> {
    Sequences.Filter(entries, Live(alive))
  }

  class Multicast {
    var weakObjects: seq<ObjectId>

    constructor()
      ensures weakObjects == []
    {
      weakObjects := [];
    }

    /** `append(_:)`: one new entry at the end. */
    method Append(x: ObjectId)
      modifies this
      ensures weakObjects == old(weakObjects) + [x]
    {
      weakObjects := weakObjects + [x];
    }

    /** `remove(_:)`: drops every entry identical to `x`. */
    method Remove(x: ObjectId, alive: Liveness)
      modifies this
      ensures weakObjects == Removed(old(weakObjects), x, alive)
    {
      weakObjects := Sequences.Filter(weakObjects, NotIdentical(x, alive));
    }

    /**
     * `invoke(_:)`: calls the function on each live entry, in order, and then
     * prunes the released entries. `called` lists the objects the function was
     * called on.
     */
    method Invoke(alive: Liveness) returns (called: seq<ObjectId>)
      modifies this
      ensures called == LiveEntries(old(weakObjects), alive)
      ensures weakObjects == LiveEntries(old(weakObjects), alive)
    {
      called := [];
      var i := 0;
      while i < |weakObjects|
        invariant weakObjects == old(weakObjects)
        invariant 0 <= i <= |weakObjects|
        invariant called == LiveEntries(weakObjects[..i], alive)
      {
        var weakObject := weakObjects[i];
        Sequences.FilterSnoc(weakObjects[..i], weakObject, Live(alive));
        assert weakObjects[..i + 1] == weakObjects[..i] + [weakObject];
        if IsLive(alive, weakObject) {
          called := called + [weakObject];
        }
        i := i + 1;
      }
      assert weakObjects[..i] == weakObjects;
      weakObjects := Sequences.Filter(weakObjects, Live(alive));
    }
  }

  /** Removing an object that was never appended leaves the list unchanged. */
  lemma RemoveAbsent(entries: seq<ObjectId>, x: ObjectId, alive: Liveness)
    requires x !in entries
    ensures Removed(entries, x, alive) == entries
  {
    Sequences.FilterKeepsAll(entries, NotIdentical(x, alive));
  }

  /** `remove(x)` keeps every other entry and leaves no live entry for `x`. */
  lemma RemoveKeepsOthers(entries: seq<ObjectId>, x: ObjectId, alive: Liveness)
    ensures forall y :: y in Removed(entries, x, alive) <==> y in entries && !(IsLive(alive, y) && y == x)
  {
    forall y | y in entries && !(IsLive(alive, y) && y == x) ensures y in Removed(entries, x, alive) {
      assert NotIdentical(x, alive)(y);
    }
  }

  /** Appending the same live object twice gives two entries, and one `remove` drops both. */
  lemma AppendTwiceRemoveOnce(entries: seq<ObjectId>, x: ObjectId, alive: Liveness)
    requires IsLive(alive, x)
    ensures |Sequences.Filter(entries + [x] + [x], (e: ObjectId) => e == x)| ==
            |Sequences.Filter(entries, (e: ObjectId) => e == x)| + 2
    ensures Removed(entries + [x] + [x], x, alive) == Removed(entries, x, alive)
  {
    Sequences.FilterSnoc(entries, x, (e: ObjectId) => e == x);
    Sequences.FilterSnoc(entries + [x], x, (e: ObjectId) => e == x);
    Sequences.FilterSnoc(entries, x, NotIdentical(x, alive));
    Sequences.FilterSnoc(entries + [x], x, NotIdentical(x, alive));
    assert Sequences.Filter(entries, NotIdentical(x, alive)) + [] == Sequences.Filter(entries, NotIdentical(x, alive));
  }

  /** After `invoke`, exactly the live entries remain and no released one. */
  lemma PrunedHasNoDeadEntries(entries: seq<ObjectId>, alive: Liveness)
    ensures forall y :: y in LiveEntries(entries, alive) <==> y in entries && IsLive(alive, y)
    ensures LiveEntries(LiveEntries(entries, alive), alive) == LiveEntries(entries, alive)
  {
    forall y | y in entries && IsLive(alive, y) ensures y in LiveEntries(entries, alive) {
      assert Live(alive)(y);
    }
    Sequences.FilterIdempotent(entries, Live(alive));
  }

  /** A duplicate-free list calls each live object exactly once. */
  lemma InvokeCallsEachOnce(entries: seq<ObjectId>, alive: Liveness)
    requires Sequences.NoDuplicates(entries)
    ensures Sequences.NoDuplicates(LiveEntries(entries, alive))
  {
    Sequences.FilterNoDuplicates(entries, Live(alive));
  }
}
