/**
 * ModelChangeEvent.swift: the change event of one commit, the fragments of the
 * inserted, updated and deleted objects grouped by entity name.
 */
module ModelChangeEvent {
  import opened Wrappers
  import Sequences
  import ChangesType

  type Changes = ChangesType.Changes<Fragment>

  /** A detached snapshot of one changed record: its entity name and its field values. */
  datatype Fragment = Fragment(entityName: string, fields: map<string, string>)

  /** An NSManagedObject of a notification; `fragment` is its `modelFragment` when it is fragmentable. */
  datatype ManagedObject = ManagedObject(fragment: Option<Fragment>)

  /**
   * The userInfo of a did-save notification. Each entry is absent (`None`) when
   * the key is missing or not a set of managed objects; a set is given in its
   * iteration order.
   */
  datatype Notification = Notification(
    inserted: Option<seq<ManagedObject>>,
    updated: Option<seq<ManagedObject>>,
    deleted: Option<seq<ManagedObject>>)

  type ChangeMap = map<string, Changes>

  datatype ModelChangeEvent = ModelChangeEvent(changeMap: ChangeMap)

  datatype ChangeType = Created | Updated | Deleted

  /** The objects of a userInfo entry; an absent entry has none. */
  function Objects(entry: Option<seq<ManagedObject>>): seq<ManagedObject> {
    entry.GetOr([])
  }

  /** `compactMap { ($0 as? CoreDataFragmentableEntityProtocol)?.modelFragment }`. */
  function FragmentsOf(objs: seq<ManagedObject>): (r: seq<Fragment>)
    ensures forall f :: f in r <==> ManagedObject(Some(f)) in objs
    decreases |objs|
  {
    if objs == [] then []
    else
      var last := objs[|objs| - 1];
      FragmentsOf(objs[..|objs| - 1]) + (if last.fragment.Some? then [last.fragment.value] else [])
  }

  /** Whether a fragment belongs to entity `e`. */
  function Named(e: string): Fragment -> bool {
    (f: Fragment) => f.entityName == e
  }

  function NamesOf(frags: seq<Fragment>): set<string> {
    set f | f in frags :: f.entityName
  }

  /** The entry for `e`, or an empty `ChangeInfo()` when there is none. */
  function Lookup(m: ChangeMap, e: string): Changes {
    if e in m then m[e] else ChangesType.NoChanges()
  }

  /** `fs` appended to the list of kind `kind`. */
  function AppendAll(c: Changes, kind: ChangeType, fs: seq<Fragment>): Changes {
    match kind
    case Created => c.(created := c.created + fs)
    case Updated => c.(updated := c.updated + fs)
    case Deleted => c.(deleted := c.deleted + fs)
  }

  /**
   * The change map `m` after the loop of `addObjects(with:of:)` has run over
   * `frags`: each fragment appended, in order, to its entity's list of kind `kind`.
   */
  function Extended(m: ChangeMap, frags: seq<Fragment>, kind: ChangeType): ChangeMap
    decreases |frags|
  {
    if frags == [] then m
    else
      var before := Extended(m, frags[..|frags| - 1], kind);
      var f := frags[|frags| - 1];
      before[f.entityName := AppendAll(Lookup(before, f.entityName), kind, [f])]
  }

  function InsertedFragments(note: Notification): seq<Fragment> { FragmentsOf(Objects(note.inserted)) }
  function UpdatedFragments(note: Notification): seq<Fragment> { FragmentsOf(Objects(note.updated)) }
  function DeletedFragments(note: Notification): seq<Fragment> { FragmentsOf(Objects(note.deleted)) }

  /**
   * The change map of a notification, stated directly: one entry per entity name
   * that occurs, holding that entity's inserted, updated and deleted fragments in order.
   */
  function Grouped(note: Notification): ChangeMap {
    GroupBy(InsertedFragments(note), UpdatedFragments(note), DeletedFragments(note))
  }

  /** One entry per entity name of the three lists, holding that entity's fragments of each, in order. */
  function GroupBy(ins: seq<Fragment>, upd: seq<Fragment>, del: seq<Fragment>): ChangeMap {
    map e | e in NamesOf(ins) + NamesOf(upd) + NamesOf(del) ::
      ChangesType.Changes(
        Sequences.Filter(ins, Named(e)),
        Sequences.Filter(upd, Named(e)),
        Sequences.Filter(del, Named(e)))
  }

  // ---------------------------------------------------------------------------
  // Building the event

  /** The nested `addObjects(with:of:)`: adds one userInfo entry's fragments to `changeMap`. */
  method AddObjects(changeMap: ChangeMap, entry: Option<seq<ManagedObject>>, kind: ChangeType) returns (m: ChangeMap)
    ensures m == Extended(changeMap, FragmentsOf(Objects(entry)), kind)
  {
    m := changeMap;
    if entry.None? || |entry.value| == 0 {
      return;
    }
    var fragments := FragmentsOf(entry.value);
    var i := 0;
    while i < |fragments|
      invariant 0 <= i <= |fragments|
      invariant m == Extended(changeMap, fragments[..i], kind)
    {
      var fragment := fragments[i];
      var entityName := fragment.entityName;
      var changes := if entityName in m then m[entityName] else ChangesType.NoChanges();
      match kind {
        case Created => changes := changes.(created := changes.created + [fragment]);
        case Updated => changes := changes.(updated := changes.updated + [fragment]);
        case Deleted => changes := changes.(deleted := changes.deleted + [fragment]);
      }
      assert fragments[..i + 1][..i] == fragments[..i];
      m := m[entityName := changes];
      i := i + 1;
    }
    assert fragments[..i] == fragments;
  }

  /** `init(notification:)`: inserted, then updated, then deleted objects. */
  method FromNotification(note: Notification) returns (event: ModelChangeEvent)
    ensures event.changeMap == Grouped(note)
  {
    var changeMap: ChangeMap := map[];
    changeMap := AddObjects(changeMap, note.inserted, Created);
    changeMap := AddObjects(changeMap, note.updated, Updated);
    changeMap := AddObjects(changeMap, note.deleted, Deleted);
    GroupedIsThreeExtensions(note);
    event := ModelChangeEvent(changeMap);
  }

  /** `Extended` keeps the old entries and adds one per entity name of `frags`. */
  lemma {:induction false} KeysExtended(m: ChangeMap, frags: seq<Fragment>, kind: ChangeType)
    ensures Extended(m, frags, kind).Keys == m.Keys + NamesOf(frags)
    decreases |frags|
  {
    if frags != [] {
      var init := frags[..|frags| - 1];
      var f := frags[|frags| - 1];
      KeysExtended(m, init, kind);
      assert NamesOf(frags) == NamesOf(init) + {f.entityName} by {
        assert frags == init + [f];
        forall x | x in frags ensures x in init || x == f {}
      }
    }
  }

  /** Each entry of `Extended` is the old entry with that entity's fragments of `frags` appended. */
  lemma {:induction false} LookupExtended(m: ChangeMap, frags: seq<Fragment>, kind: ChangeType, e: string)
    ensures Lookup(Extended(m, frags, kind), e) == AppendAll(Lookup(m, e), kind, Sequences.Filter(frags, Named(e)))
    decreases |frags|
  {
    if frags == [] {
      AppendAllConcat(Lookup(m, e), kind, [], []);
    } else {
      var init := frags[..|frags| - 1];
      var f := frags[|frags| - 1];
      var before := Extended(m, init, kind);
      var kept := Sequences.Filter(init, Named(e));
      LookupExtended(m, init, kind, e);
      assert Lookup(before, e) == AppendAll(Lookup(m, e), kind, kept);
      assert frags == init + [f];
      Sequences.FilterSnoc(init, f, Named(e));
      if e == f.entityName {
        assert Named(e)(f);
        assert Sequences.Filter(frags, Named(e)) == kept + [f];
        assert Lookup(Extended(m, frags, kind), e) == AppendAll(Lookup(before, e), kind, [f]);
        AppendAllConcat(Lookup(m, e), kind, kept, [f]);
      } else {
        assert !Named(e)(f);
        assert Sequences.Filter(frags, Named(e)) == kept + [];
        assert kept + [] == kept;
        assert Lookup(Extended(m, frags, kind), e) == Lookup(before, e);
      }
    }
  }

  lemma AppendAllConcat(c: Changes, kind: ChangeType, fs: seq<Fragment>, gs: seq<Fragment>)
    ensures AppendAll(AppendAll(c, kind, fs), kind, gs) == AppendAll(c, kind, fs + gs)
    ensures AppendAll(c, kind, []) == c
  {
    assert c.created + [] == c.created && c.updated + [] == c.updated && c.deleted + [] == c.deleted;
    match kind
    case Created => assert c.created + fs + gs == c.created + (fs + gs);
    case Updated => assert c.updated + fs + gs == c.updated + (fs + gs);
    case Deleted => assert c.deleted + fs + gs == c.deleted + (fs + gs);
  }

  lemma GroupedIsThreeExtensions(note: Notification)
    ensures Extended(Extended(Extended(map[], InsertedFragments(note), Created),
                              UpdatedFragments(note), Updated),
                     DeletedFragments(note), Deleted) == Grouped(note)
  {
    GroupByIsThreeExtensions(InsertedFragments(note), UpdatedFragments(note), DeletedFragments(note));
  }

  lemma GroupByIsThreeExtensions(ins: seq<Fragment>, upd: seq<Fragment>, del: seq<Fragment>)
    ensures Extended(Extended(Extended(map[], ins, Created), upd, Updated), del, Deleted) == GroupBy(ins, upd, del)
  {
    var m1 := Extended(map[], ins, Created);
    var m2 := Extended(m1, upd, Updated);
    var m3 := Extended(m2, del, Deleted);
    var g := GroupBy(ins, upd, del);
    KeysExtended(map[], ins, Created);
    KeysExtended(m1, upd, Updated);
    KeysExtended(m2, del, Deleted);
    assert m3.Keys == g.Keys;
    forall e | e in g ensures m3[e] == g[e] {
      GroupByEntry(ins, upd, del, e);
    }
  }

  lemma GroupByEntry(ins: seq<Fragment>, upd: seq<Fragment>, del: seq<Fragment>, e: string)
    ensures Lookup(Extended(Extended(Extended(map[], ins, Created), upd, Updated), del, Deleted), e) ==
      ChangesType.Changes(Sequences.Filter(ins, Named(e)), Sequences.Filter(upd, Named(e)), Sequences.Filter(del, Named(e)))
  {
    var m1 := Extended(map[], ins, Created);
    var m2 := Extended(m1, upd, Updated);
    LookupExtended(map[], ins, Created, e);
    LookupExtended(m1, upd, Updated, e);
    LookupExtended(m2, del, Deleted, e);
    var fi := Sequences.Filter(ins, Named(e));
    assert [] + fi == fi;
  }

  // ---------------------------------------------------------------------------
  // Queries on an event

  /** `isEmpty`: no entity has changes. */
  predicate IsEmpty(ev: ModelChangeEvent): (r: bool)
    ensures r <==> forall e :: !HasChanges(ev, e)
  {
    assert ev.changeMap.Keys != {} ==> exists e :: HasChanges(ev, e) by {
      if ev.changeMap.Keys != {} {
        var e :| e in ev.changeMap.Keys;
        assert HasChanges(ev, e);
      }
    }
    ev.changeMap.Keys == {}
  }

  /** `hasChanges(for:)`: on a well-formed event, exactly when `filter(_:)` gives a non-empty change set. */
  predicate HasChanges(ev: ModelChangeEvent, e: string): (r: bool)
    ensures WellFormed(ev) ==> (r <==> !ChangesType.IsEmpty(Filter(ev, e)))
  {
    e in ev.changeMap
  }

  /**
   * `filter(_:)` for the fragment type of entity `e`: the entry's lists with
   * every fragment cast to that type (`compactMap { $0 as? T }`). Only that
   * entity's fragments come out; an absent entity gives `init()`; on a
   * well-formed event the casts keep every fragment, so the source's count
   * assertions and its non-empty assertion hold.
   */
  function Filter(ev: ModelChangeEvent, e: string): (r: Changes)
    ensures e !in ev.changeMap ==> r == ChangesType.NoChanges()
    ensures forall f :: f in ChangesType.All(r) ==> f.entityName == e
    ensures WellFormed(ev) && e in ev.changeMap ==> r == ev.changeMap[e] && !ChangesType.IsEmpty(r)
  {
    if e !in ev.changeMap then ChangesType.NoChanges()
    else
      var info := ev.changeMap[e];
      var r := ChangesType.Changes(
        Sequences.Filter(info.created, Named(e)),
        Sequences.Filter(info.updated, Named(e)),
        Sequences.Filter(info.deleted, Named(e)));
      assert forall f :: f in ChangesType.All(r) ==> f.entityName == e by {
        forall f | f in ChangesType.All(r) ensures f.entityName == e {
          assert f in r.created || f in r.updated || f in r.deleted;
          assert Named(e)(f);
        }
      }
      assert WellFormed(ev) ==> r == info by {
        if WellFormed(ev) {
          assert forall f :: f in info.created ==> f in ChangesType.All(info);
          assert forall f :: f in info.updated ==> f in ChangesType.All(info);
          assert forall f :: f in info.deleted ==> f in ChangesType.All(info);
          Sequences.FilterKeepsAll(info.created, Named(e));
          Sequences.FilterKeepsAll(info.updated, Named(e));
          Sequences.FilterKeepsAll(info.deleted, Named(e));
        }
      }
      r
  }

  /** `filter(_:where:)`: `filter(_:)` followed by the change set's own `filter`, also on `all()`. */
  function FilterWhere(ev: ModelChangeEvent, e: string, p: Fragment -> bool): (r: Changes)
    ensures r == ChangesType.Filter(Filter(ev, e), p)
    ensures ChangesType.All(r) == Sequences.Filter(ChangesType.All(Filter(ev, e)), p)
  {
    var filteredByType := Filter(ev, e);
    ChangesType.AllOfFilter(filteredByType, p);
    ChangesType.Changes(
      Sequences.Filter(filteredByType.created, p),
      Sequences.Filter(filteredByType.updated, p),
      Sequences.Filter(filteredByType.deleted, p))
  }

  /** `hasChanges(for:where:)`: exactly when `filter(_:where:)` is not empty; it implies `hasChanges(for:)`. */
  predicate HasChangesWhere(ev: ModelChangeEvent, e: string, p: Fragment -> bool): (r: bool)
    ensures r <==> !ChangesType.IsEmpty(FilterWhere(ev, e, p))
    ensures r ==> HasChanges(ev, e)
  {
    ChangesType.FilterEmptyIffNotContains(Filter(ev, e), p);
    ChangesType.Contains(Filter(ev, e), p)
  }

  /** Every entry is non-empty and holds only fragments of its own entity. */
  ghost predicate WellFormed(ev: ModelChangeEvent) {
    forall e :: e in ev.changeMap ==>
      && !ChangesType.IsEmpty(ev.changeMap[e])
      && forall f :: f in ChangesType.All(ev.changeMap[e]) ==> f.entityName == e
  }

  // ---------------------------------------------------------------------------
  // Properties

  /** An entity has an entry exactly when some inserted, updated or deleted object has a fragment of it. */
  lemma GroupedKeys(note: Notification, e: string)
    ensures HasChanges(ModelChangeEvent(Grouped(note)), e) <==>
      exists f: Fragment :: f.entityName == e &&
        (ManagedObject(Some(f)) in Objects(note.inserted) ||
         ManagedObject(Some(f)) in Objects(note.updated) ||
         ManagedObject(Some(f)) in Objects(note.deleted))
  {
    var ins, upd, del := InsertedFragments(note), UpdatedFragments(note), DeletedFragments(note);
    assert Grouped(note).Keys == NamesOf(ins) + NamesOf(upd) + NamesOf(del);
    if e in Grouped(note) {
      var f: Fragment :| f.entityName == e && (f in ins || f in upd || f in del);
      assert ManagedObject(Some(f)) in Objects(note.inserted) ||
             ManagedObject(Some(f)) in Objects(note.updated) ||
             ManagedObject(Some(f)) in Objects(note.deleted);
    }
    forall f: Fragment | f.entityName == e &&
        (ManagedObject(Some(f)) in Objects(note.inserted) ||
         ManagedObject(Some(f)) in Objects(note.updated) ||
         ManagedObject(Some(f)) in Objects(note.deleted))
      ensures e in Grouped(note)
    {
      assert f in ins || f in upd || f in del;
    }
  }

  /** Each fragment of an inserted, updated or deleted object is in its entity's matching list. */
  lemma GroupedHoldsEveryFragment(note: Notification, f: Fragment)
    ensures ManagedObject(Some(f)) in Objects(note.inserted) ==> f in Grouped(note)[f.entityName].created
    ensures ManagedObject(Some(f)) in Objects(note.updated) ==> f in Grouped(note)[f.entityName].updated
    ensures ManagedObject(Some(f)) in Objects(note.deleted) ==> f in Grouped(note)[f.entityName].deleted
  {
    assert Named(f.entityName)(f);
  }

  /** An event built from a notification is well formed: no empty entry, no foreign fragment. */
  lemma GroupedWellFormed(note: Notification)
    ensures WellFormed(ModelChangeEvent(Grouped(note)))
  {
    var ins, upd, del := InsertedFragments(note), UpdatedFragments(note), DeletedFragments(note);
    forall e | e in Grouped(note)
      ensures !ChangesType.IsEmpty(Grouped(note)[e])
      ensures forall f :: f in ChangesType.All(Grouped(note)[e]) ==> f.entityName == e
    {
      GroupByEntryWellFormed(ins, upd, del, e);
    }
  }

  /** The entry `GroupBy` makes for an entity that occurs is non-empty and holds only that entity's fragments. */
  lemma GroupByEntryWellFormed(ins: seq<Fragment>, upd: seq<Fragment>, del: seq<Fragment>, e: string)
    requires e in NamesOf(ins) + NamesOf(upd) + NamesOf(del)
    ensures var c := ChangesType.Changes(
              Sequences.Filter(ins, Named(e)), Sequences.Filter(upd, Named(e)), Sequences.Filter(del, Named(e)));
      !ChangesType.IsEmpty(c) && forall f :: f in ChangesType.All(c) ==> f.entityName == e
  {
    var fi, fu, fd := Sequences.Filter(ins, Named(e)), Sequences.Filter(upd, Named(e)), Sequences.Filter(del, Named(e));
    var c := ChangesType.Changes(fi, fu, fd);
    assert ChangesType.All(c) == fi + fu + fd;
    if e in NamesOf(ins) {
      var f :| f in ins && f.entityName == e;
      assert Named(e)(f);
      assert f in fi;
    } else if e in NamesOf(upd) {
      var f :| f in upd && f.entityName == e;
      assert Named(e)(f);
      assert f in fu;
    } else {
      var f :| f in del && f.entityName == e;
      assert Named(e)(f);
      assert f in fd;
    }
    forall f | f in ChangesType.All(c) ensures f.entityName == e {
      assert f in fi || f in fu || f in fd;
      assert Named(e)(f);
    }
  }

  /** The fragments of two runs of objects are those of the first run, then those of the second. */
  lemma {:induction false} FragmentsOfConcat(x: seq<ManagedObject>, y: seq<ManagedObject>)
    ensures FragmentsOf(x + y) == FragmentsOf(x) + FragmentsOf(y)
    decreases |y|
  {
    if y == [] {
      assert x + y == x;
      assert FragmentsOf(x) + [] == FragmentsOf(x);
    } else {
      var xy := x + y;
      var init, last := y[..|y| - 1], y[|y| - 1];
      var tail := if last.fragment.Some? then [last.fragment.value] else [];
      assert xy[..|xy| - 1] == x + init;
      assert xy[|xy| - 1] == last;
      FragmentsOfConcat(x, init);
      assert FragmentsOf(x) + FragmentsOf(init) + tail == FragmentsOf(x) + (FragmentsOf(init) + tail);
    }
  }

  /**
   * An object that is not fragmentable contributes nothing, wherever it sits in
   * the iteration order of any of the three entries.
   */
  lemma UnfragmentableObjectsIgnored(note: Notification, a: seq<ManagedObject>, b: seq<ManagedObject>)
    ensures var objs, objs' := a + b, a + [ManagedObject(None)] + b;
      && Grouped(note.(inserted := Some(objs'))) == Grouped(note.(inserted := Some(objs)))
      && Grouped(note.(updated := Some(objs'))) == Grouped(note.(updated := Some(objs)))
      && Grouped(note.(deleted := Some(objs'))) == Grouped(note.(deleted := Some(objs)))
  {
    var none := [ManagedObject(None)];
    assert FragmentsOf(none) == [] by {
      assert none[..0] == [];
    }
    FragmentsOfConcat(a, none);
    FragmentsOfConcat(a + none, b);
    FragmentsOfConcat(a, b);
    assert FragmentsOf(a) + [] == FragmentsOf(a);
    assert FragmentsOf(a + none + b) == FragmentsOf(a + b);
  }

  /** An event is empty exactly when the notification carries no fragment at all. */
  lemma EventEmptyIffNoFragments(note: Notification)
    ensures IsEmpty(ModelChangeEvent(Grouped(note))) <==>
      InsertedFragments(note) == [] && UpdatedFragments(note) == [] && DeletedFragments(note) == []
  {
    var ins, upd, del := InsertedFragments(note), UpdatedFragments(note), DeletedFragments(note);
    assert Grouped(note).Keys == NamesOf(ins) + NamesOf(upd) + NamesOf(del);
    if ins != [] {
      assert ins[0].entityName in NamesOf(ins);
    }
    if upd != [] {
      assert upd[0].entityName in NamesOf(upd);
    }
    if del != [] {
      assert del[0].entityName in NamesOf(del);
    }
  }
}
