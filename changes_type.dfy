/**
 * ChangesType.swift: a change set, the created, updated and deleted lists of
 * one commit, with its convenience initialisers and queries.
 */
module ChangesType {
  import Sequences

  datatype Changes<T> = Changes(created: seq<T>, updated: seq<T>, deleted: seq<T>)

  /** `init()`. */
  function NoChanges<T>(): Changes<T> {
    Changes([], [], [])
  }

  /** `init(created:)`. */
  function OnlyCreated<T>(created: seq<T>): Changes<T> {
    Changes(created, [], [])
  }

  /** `init(updated:)`. */
  function OnlyUpdated<T>(updated: seq<T>): Changes<T> {
    Changes([], updated, [])
  }

  /** `init(deleted:)`. */
  function OnlyDeleted<T>(deleted: seq<T>): Changes<T> {
    Changes([], [], deleted)
  }

  /** `all()`: the created, then the updated, then the deleted elements. */
  function All<T>(c: Changes<T>): (r: seq<T>)
    ensures |r| == |c.created| + |c.updated| + |c.deleted|
  {
    c.created + c.updated + c.deleted
  }

  /** `isEmpty`: no element at all. */
  function IsEmpty<T>(c: Changes<T>): (r: bool)
    ensures r <==> All(c) == []
  {
    c.created == [] && c.updated == [] && c.deleted == []
  }

  /** `contains(where:)`: some element of some list satisfies `p`. */
  function Contains<T>(c: Changes<T>, p: T -> bool): (r: bool)
    ensures r <==> exists x :: x in All(c) && p(x)
  {
    (exists i :: 0 <= i < |c.created| && p(c.created[i])) ||
    (exists i :: 0 <= i < |c.updated| && p(c.updated[i])) ||
    (exists i :: 0 <= i < |c.deleted| && p(c.deleted[i]))
  }

  /** `filter(_:)`: each list keeps exactly its elements that satisfy `p`. */
  function Filter<T>(c: Changes<T>, p: T -> bool): (r: Changes<T>)
    ensures forall x :: x in r.created ==> x in c.created && p(x)
    ensures forall x :: x in c.created && p(x) ==> x in r.created
    ensures forall x :: x in r.updated ==> x in c.updated && p(x)
    ensures forall x :: x in c.updated && p(x) ==> x in r.updated
    ensures forall x :: x in r.deleted ==> x in c.deleted && p(x)
    ensures forall x :: x in c.deleted && p(x) ==> x in r.deleted
  {
    Changes(Sequences.Filter(c.created, p), Sequences.Filter(c.updated, p), Sequences.Filter(c.deleted, p))
  }

  /**
   * `+`, as written: the sum agrees with the intended one on its created and
   * deleted lists, but its updated list repeats the created one.
   */
  function Plus<T>(lhs: Changes<T>, rhs: Changes<T>): (r: Changes<T>)
    ensures r.created == PlusIntended(lhs, rhs).created && r.deleted == PlusIntended(lhs, rhs).deleted
    ensures r.updated == r.created
  {
    Changes(lhs.created + rhs.created, lhs.created + rhs.created, lhs.deleted + rhs.deleted)
  }

  /** `+` as evidently intended: every element of either side, and empty only when both sides are. */
  function PlusIntended<T>(lhs: Changes<T>, rhs: Changes<T>): (r: Changes<T>)
    ensures IsEmpty(r) <==> IsEmpty(lhs) && IsEmpty(rhs)
    ensures multiset(All(r)) == multiset(All(lhs)) + multiset(All(rhs))
  {
    Changes(lhs.created + rhs.created, lhs.updated + rhs.updated, lhs.deleted + rhs.deleted)
  }

  // ---------------------------------------------------------------------------

  /** The convenience initialisers fill exactly their own list. */
  lemma ConvenienceInits<T>(xs: seq<T>)
    ensures IsEmpty(NoChanges<T>())
    ensures All(OnlyCreated(xs)) == xs && OnlyCreated(xs).updated == [] && OnlyCreated(xs).deleted == []
    ensures All(OnlyUpdated(xs)) == xs && OnlyUpdated(xs).created == [] && OnlyUpdated(xs).deleted == []
    ensures All(OnlyDeleted(xs)) == xs && OnlyDeleted(xs).created == [] && OnlyDeleted(xs).updated == []
  {
    assert xs + [] + [] == xs;
    assert [] + xs + [] == xs;
    assert [] + [] + xs == xs;
  }

  /** `all()` of a filtered change set is the filtered `all()`. */
  lemma AllOfFilter<T>(c: Changes<T>, p: T -> bool)
    ensures All(Filter(c, p)) == Sequences.Filter(All(c), p)
  {
    Sequences.FilterConcat(c.created, c.updated, p);
    Sequences.FilterConcat(c.created + c.updated, c.deleted, p);
  }

  /** Filtering twice with the same predicate is filtering once. */
  lemma FilterIdempotent<T>(c: Changes<T>, p: T -> bool)
    ensures Filter(Filter(c, p), p) == Filter(c, p)
  {
    Sequences.FilterIdempotent(c.created, p);
    Sequences.FilterIdempotent(c.updated, p);
    Sequences.FilterIdempotent(c.deleted, p);
  }

  /** A filtered change set is empty exactly when no element satisfies the predicate. */
  lemma FilterEmptyIffNotContains<T>(c: Changes<T>, p: T -> bool)
    ensures IsEmpty(Filter(c, p)) <==> !Contains(c, p)
  {
    AllOfFilter(c, p);
    if !IsEmpty(Filter(c, p)) {
      var x := All(Filter(c, p))[0];
      assert x in All(Filter(c, p));
    }
  }

  /**
   * As written, `+` never reads an updated list, and it agrees with the intended
   * sum exactly when the two updated lists together equal the two created lists.
   */
  lemma PlusIgnoresUpdates<T>(lhs: Changes<T>, rhs: Changes<T>)
    ensures Plus(lhs, rhs) == Plus(lhs.(updated := []), rhs.(updated := []))
    ensures Plus(lhs, rhs) == PlusIntended(lhs, rhs) <==> lhs.updated + rhs.updated == lhs.created + rhs.created
  {
  }

  /** A concrete sum that shows the defect: one update is lost and the sum is empty. */
  lemma PlusLosesUpdates()
    ensures var lhs := OnlyUpdated([1]);
      !IsEmpty(lhs) && IsEmpty(Plus(lhs, NoChanges())) && Plus(lhs, NoChanges()).updated != lhs.updated
  {
  }

  /** `init()` is an identity of the intended sum, on either side. */
  lemma PlusIntendedIdentity<T>(lhs: Changes<T>, rhs: Changes<T>)
    ensures PlusIntended(lhs, NoChanges()) == lhs && PlusIntended(NoChanges(), rhs) == rhs
  {
    assert lhs.created + [] == lhs.created;
    assert lhs.updated + [] == lhs.updated;
    assert lhs.deleted + [] == lhs.deleted;
    assert [] + rhs.created == rhs.created;
    assert [] + rhs.updated == rhs.updated;
    assert [] + rhs.deleted == rhs.deleted;
  }

  /** The intended sum is associative. */
  lemma PlusIntendedAssociative<T>(a: Changes<T>, b: Changes<T>, c: Changes<T>)
    ensures PlusIntended(PlusIntended(a, b), c) == PlusIntended(a, PlusIntended(b, c))
  {
    assert a.created + b.created + c.created == a.created + (b.created + c.created);
    assert a.updated + b.updated + c.updated == a.updated + (b.updated + c.updated);
    assert a.deleted + b.deleted + c.deleted == a.deleted + (b.deleted + c.deleted);
  }

  /** Filtering distributes over the intended sum. */
  lemma FilterPlusIntended<T>(lhs: Changes<T>, rhs: Changes<T>, p: T -> bool)
    ensures Filter(PlusIntended(lhs, rhs), p) == PlusIntended(Filter(lhs, p), Filter(rhs, p))
  {
    Sequences.FilterConcat(lhs.created, rhs.created, p);
    Sequences.FilterConcat(lhs.updated, rhs.updated, p);
    Sequences.FilterConcat(lhs.deleted, rhs.deleted, p);
  }
}
