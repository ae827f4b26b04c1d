/**
 * The typed query compiler of QueryDSL.swift: a `Query` tree over key paths and
 * values compiles to a predicate format string with positional arguments, and
 * `CompoundQuery` combines compiled items with AND, OR and NOT.
 *
 * The value type `V` stands for the Swift `Value` type parameter; one compiled
 * tree uses one value type (a caller needing several picks a sum type).
 */
module QueryDSL {
  import opened Wrappers

  /** A Swift key path; `kvc` is its key-value-coding string, absent when it has none. */
  datatype KeyPath = KeyPath(kvc: Option<string>)

  /** `Model.string(from:)`: the key path's KVC string, or the empty string when it has none. */
  function KeyPathString(k: KeyPath): (r: string)
    ensures k.kvc.Some? ==> r == k.kvc.value
    ensures k.kvc.None? ==> r == ""
  {
    k.kvc.GetOr("")
  }

  datatype Query<V> =
    | Path(path: KeyPath)
    | Val(value: V)
    | PresentIn(path: KeyPath, coll: seq<V>)
    | NotPresentIn(path: KeyPath, coll: seq<V>)
    | Equal(lhs: Query<V>, rhs: Query<V>)
    | NotEqual(lhs: Query<V>, rhs: Query<V>)
    | Lt(lhs: Query<V>, rhs: Query<V>)
    | Lte(lhs: Query<V>, rhs: Query<V>)
    | Gt(lhs: Query<V>, rhs: Query<V>)
    | Gte(lhs: Query<V>, rhs: Query<V>)
    | BitwiseAnd(lhs: Query<V>, rhs: Query<V>)

  datatype QueryError = InvalidLiteral | InvalidFormat | InvalidPredicate

  /** One entry of an NSPredicate argument array. */
  datatype Arg<V> = KeyArg(key: string) | ValueArg(value: V) | CollectionArg(values: seq<V>)

  /** A compiled predicate: a format string with its arguments, or a compound of predicates. */
  datatype Predicate<V> =
    | Simple(format: string, args: seq<Arg<V>>)
    | AndP(subs: seq<Predicate<V>>)
    | OrP(subs: seq<Predicate<V>>)
    | NotP(sub: Predicate<V>)

  predicate IsLeaf<V>(q: Query<V>) {
    q.Path? || q.Val?
  }

  predicate IsBinary<V>(q: Query<V>) {
    q.Equal? || q.NotEqual? || q.Lt? || q.Lte? || q.Gt? || q.Gte? || q.BitwiseAnd?
  }

  /** The placeholder a leaf contributes to a format string: `%K` for a key, `%@` for a value. */
  function Placeholder<V>(q: Query<V>): string
    requires IsLeaf(q)
  {
    if q.Path? then "%K" else "%@"
  }

  /** The argument a leaf binds: the key path's string, or the value itself. */
  function Bound<V>(q: Query<V>): Arg<V>
    requires IsLeaf(q)
  {
    if q.Path? then KeyArg(KeyPathString(q.path)) else ValueArg(q.value)
  }

  /** `formatted()`: only leaves can be formatted. */
  function Formatted<V>(q: Query<V>): (r: Result<string, QueryError>)
    ensures r.Success? <==> IsLeaf(q)
    ensures r.Success? ==> r.value == Placeholder(q)
    ensures r.Failure? ==> r.error == InvalidFormat
  {
    match q
    case Path(_) => Success("%K")
    case Val(_) => Success("%@")
    case _ => Failure(InvalidFormat)
  }

  /** `literal()`: only leaves have a literal. */
  function Literal<V>(q: Query<V>): (r: Result<Arg<V>, QueryError>)
    ensures r.Success? <==> IsLeaf(q)
    ensures r.Success? ==> r.value == Bound(q)
    ensures r.Failure? ==> r.error == InvalidLiteral
  {
    match q
    case Path(p) => Success(KeyArg(KeyPathString(p)))
    case Val(v) => Success(ValueArg(v))
    case _ => Failure(InvalidLiteral)
  }

  /** The format string of a binary node, given its operands' formatted parts. */
  function Render<V>(q: Query<V>, l: string, r: string): string
    requires IsBinary(q)
  {
    match q
    case Equal(_, _) => l + " == " + r
    case NotEqual(_, _) => l + " != " + r
    case Lt(_, _) => l + " < " + r
    case Lte(_, _) => l + " <= " + r
    case Gt(_, _) => l + " > " + r
    case Gte(_, _) => l + " >= " + r
    case BitwiseAnd(_, _) => "(" + l + " & " + r + ") > 0"
  }

  /**
   * A binary node, in Swift's evaluation order: the format string (left operand's
   * `formatted()`, then the right's) is built before the argument array (left
   * operand's `literal()`, then the right's).
   */
  function CompileBinary<V>(q: Query<V>): (r: Result<Predicate<V>, QueryError>)
    requires IsBinary(q)
    ensures IsLeaf(q.lhs) && IsLeaf(q.rhs) ==>
      r == Success(Simple(Render(q, Placeholder(q.lhs), Placeholder(q.rhs)), [Bound(q.lhs), Bound(q.rhs)]))
    ensures !(IsLeaf(q.lhs) && IsLeaf(q.rhs)) ==> r == Failure(InvalidFormat)
  {
    var lf :- Formatted(q.lhs);
    var rf :- Formatted(q.rhs);
    var ll, rl := Literal(q.lhs), Literal(q.rhs);
    if ll.Failure? || rl.Failure? then Failure(InvalidLiteral)
    else Success(Simple(Render(q, lf, rf), [ll.value, rl.value]))
  }

  /** `Query.toNSPredicate()`. */
  function ToNSPredicate<V>(q: Query<V>): (r: Result<Predicate<V>, QueryError>)
    // a bare leaf is not a predicate
    ensures IsLeaf(q) ==> r == Failure(InvalidPredicate)
    // membership always compiles, binding the key string and the collection
    ensures q.PresentIn? ==>
      r == Success(Simple("%K IN %@", [KeyArg(KeyPathString(q.path)), CollectionArg(q.coll)]))
    ensures q.NotPresentIn? ==>
      r == Success(Simple("NOT (%K IN %@)", [KeyArg(KeyPathString(q.path)), CollectionArg(q.coll)]))
    // a binary node compiles exactly when both operands are leaves ...
    ensures IsBinary(q) && IsLeaf(q.lhs) && IsLeaf(q.rhs) ==>
      r == Success(Simple(Render(q, Placeholder(q.lhs), Placeholder(q.rhs)), [Bound(q.lhs), Bound(q.rhs)]))
    // ... and otherwise fails in formatted(), before any literal() is asked for
    ensures IsBinary(q) && !(IsLeaf(q.lhs) && IsLeaf(q.rhs)) ==> r == Failure(InvalidFormat)
  {
    match q
    case Path(_) => Failure(InvalidPredicate)
    case Val(_) => Failure(InvalidPredicate)
    case PresentIn(path, coll) =>
      var wrapped := Path(path);
      assert "%K" + " IN %@" == "%K IN %@";
      Success(Simple(Formatted(wrapped).value + " IN %@", [Literal(wrapped).value, CollectionArg(coll)]))
    case NotPresentIn(path, coll) =>
      var wrapped := Path(path);
      assert "NOT (" + "%K" + " IN %@)" == "NOT (%K IN %@)";
      Success(Simple("NOT (" + Formatted(wrapped).value + " IN %@)", [Literal(wrapped).value, CollectionArg(coll)]))
    case _ => CompileBinary(q)
  }

  /** The error `invalidLiteral` is never raised: every compile fails, if at all, earlier. */
  lemma NeverInvalidLiteral<V>(q: Query<V>)
    ensures ToNSPredicate(q) != Failure(InvalidLiteral)
  {
  }

  /** A compiled simple query is a single format string with exactly two arguments. */
  lemma CompiledQueryShape<V>(q: Query<V>)
    requires ToNSPredicate(q).Success?
    ensures ToNSPredicate(q).value.Simple? && |ToNSPredicate(q).value.args| == 2
  {
  }

  // ---------------------------------------------------------------------------
  // Compound queries

  /** A `PredicateConvertible`: a `Query` or a `CompoundQuery`. */
  datatype Convertible<V> = QueryItem(query: Query<V>) | CompoundItem(compound: CompoundQuery<V>)

  datatype CompoundQuery<V> =
    | And(items: seq<Convertible<V>>)
    | Or(items: seq<Convertible<V>>)
    | Not(item: Convertible<V>)

  /**
   * `toNSPredicate()` on a `PredicateConvertible`. No item, however deeply
   * nested, fails with `invalidLiteral`, and only a plain query compiles to a
   * simple predicate.
   */
  function Compile<V>(c: Convertible<V>): (r: Result<Predicate<V>, QueryError>)
    ensures r != Failure(InvalidLiteral)
    ensures r.Success? ==> (r.value.Simple? <==> c.QueryItem?)
    decreases c
  {
    match c
    case QueryItem(q) => ToNSPredicate(q)
    case CompoundItem(cq) => CompileCompound(cq)
  }

  /**
   * `CompoundQuery.toNSPredicate()`: an `and` or `or` compiles exactly when all
   * of its items do, to the matching compound of their predicates in order; a
   * `not` compiles exactly when its item does.
   */
  function CompileCompound<V>(cq: CompoundQuery<V>): (r: Result<Predicate<V>, QueryError>)
    ensures r != Failure(InvalidLiteral)
    ensures !cq.Not? ==> (r.Success? <==> forall i :: 0 <= i < |cq.items| ==> Compile(cq.items[i]).Success?)
    ensures cq.Not? ==> (r.Success? <==> Compile(cq.item).Success?)
    ensures r.Success? && cq.And? ==> r.value.AndP? && CompiledEach(cq.items, r.value.subs)
    ensures r.Success? && cq.Or? ==> r.value.OrP? && CompiledEach(cq.items, r.value.subs)
    ensures r.Success? && cq.Not? ==> r.value == NotP(Compile(cq.item).value)
    decreases cq
  {
    match cq
    case And(items) =>
      var ps :- CompileAll(items);
      Success(AndP(ps))
    case Or(items) =>
      var ps :- CompileAll(items);
      Success(OrP(ps))
    case Not(item) =>
      var p :- Compile(item);
      Success(NotP(p))
  }

  /**
   * `try items.map { try $0.toNSPredicate() }`: every item compiles, in order,
   * or the result is the error of the first item that does not.
   */
  function CompileAll<V>(items: seq<Convertible<V>>): (r: Result<seq<Predicate<V>>, QueryError>)
    ensures r.Success? ==> CompiledEach(items, r.value)
    ensures r.Failure? ==>
      exists k :: 0 <= k < |items| && Compile(items[k]) == Failure(r.error) &&
        forall j :: 0 <= j < k ==> Compile(items[j]).Success?
    ensures r != Failure(InvalidLiteral)
    decreases items
  {
    if items == [] then Success([])
    else
      var head :- Compile(items[0]);
      var tail :- CompileAll(items[1..]);
      assert forall i :: 1 <= i < |items| ==> items[i] == items[1..][i - 1];
      Success([head] + tail)
  }

  /** `ps` holds the predicates of `items`, one each and in order. */
  ghost predicate CompiledEach<V>(items: seq<Convertible<V>>, ps: seq<Predicate<V>>) {
    |ps| == |items| && forall i :: 0 <= i < |items| ==> Compile(items[i]) == Success(ps[i])
  }

  /** How two compilation outcomes combine when their items are compiled one after the other. */
  function Then<V>(a: Result<seq<Predicate<V>>, QueryError>, b: Result<seq<Predicate<V>>, QueryError>): Result<seq<Predicate<V>>, QueryError> {
    match a
    case Failure(e) => Failure(e)
    case Success(pa) =>
      match b
      case Failure(e) => Failure(e)
      case Success(pb) => Success(pa + pb)
  }

  /** The outcome of compiling one item, as a one-element list. */
  function Single<V>(r: Result<Predicate<V>, QueryError>): Result<seq<Predicate<V>>, QueryError> {
    match r
    case Failure(e) => Failure(e)
    case Success(p) => Success([p])
  }

  lemma ThenAssociative<V>(a: Result<seq<Predicate<V>>, QueryError>, b: Result<seq<Predicate<V>>, QueryError>,
                           c: Result<seq<Predicate<V>>, QueryError>)
    ensures Then(Then(a, b), c) == Then(a, Then(b, c))
  {
    if a.Success? && b.Success? && c.Success? {
      assert a.value + b.value + c.value == a.value + (b.value + c.value);
    }
  }

  /** Compiling a non-empty list: its first item, then the rest. */
  lemma CompileAllCons<V>(items: seq<Convertible<V>>)
    requires items != []
    ensures CompileAll(items) == Then(Single(Compile(items[0])), CompileAll(items[1..]))
  {
  }

  /** Compiling a one-item list. */
  lemma CompileAllSingleton<V>(x: Convertible<V>)
    ensures CompileAll([x]) == Single(Compile(x))
  {
    assert [x][1..] == [];
    CompileAllCons([x]);
    match Compile(x)
    case Failure(e) =>
    case Success(p) => assert [p] + [] == [p];
  }

  /** Compiling a concatenation: the left part first, then the right part. */
  lemma {:induction false} CompileAllConcat<V>(a: seq<Convertible<V>>, b: seq<Convertible<V>>)
    ensures CompileAll(a + b) == Then(CompileAll(a), CompileAll(b))
    decreases |a|
  {
    if a == [] {
      assert a + b == b;
      match CompileAll(b)
      case Failure(e) =>
      case Success(pb) => assert [] + pb == pb;
    } else {
      var ab := a + b;
      assert ab[0] == a[0];
      assert ab[1..] == a[1..] + b;
      CompileAllCons(ab);
      CompileAllCons(a);
      CompileAllConcat(a[1..], b);
      ThenAssociative(Single(Compile(a[0])), CompileAll(a[1..]), CompileAll(b));
    }
  }

  // ---------------------------------------------------------------------------
  // The `&&` and `&` operators

  /** `Query & Query`: compiles to `(lhs & rhs) > 0` when both operands are leaves. */
  function BitAnd<V>(lhs: Query<V>, rhs: Query<V>): (r: Query<V>)
    ensures IsLeaf(lhs) && IsLeaf(rhs) ==>
      ToNSPredicate(r) == Success(Simple("(" + Placeholder(lhs) + " & " + Placeholder(rhs) + ") > 0", [Bound(lhs), Bound(rhs)]))
    ensures !(IsLeaf(lhs) && IsLeaf(rhs)) ==> ToNSPredicate(r) == Failure(InvalidFormat)
  {
    BitwiseAnd(lhs, rhs)
  }

  /**
   * `r` is what a conjunction of `a` and `b` compiles to: the left error first,
   * then the right one, and otherwise an AND predicate.
   */
  ghost predicate CompilesLikeConjunction<V>(r: Result<Predicate<V>, QueryError>,
                                             a: Result<Predicate<V>, QueryError>, b: Result<Predicate<V>, QueryError>) {
    && (a.Failure? ==> r == Failure(a.error))
    && (a.Success? && b.Failure? ==> r == Failure(b.error))
    && (a.Success? && b.Success? ==> r.Success? && r.value.AndP?)
  }

  /** A compiled `r` holds exactly when both compiled operands hold, when the simple parts mean `leaf`. */
  ghost predicate MeansConjunction<V>(r: Result<Predicate<V>, QueryError>,
                                      a: Result<Predicate<V>, QueryError>, b: Result<Predicate<V>, QueryError>,
                                      leaf: (string, seq<Arg<V>>) -> bool) {
    a.Success? && b.Success? && r.Success? ==>
      (Holds(r.value, leaf) <==> Holds(a.value, leaf) && Holds(b.value, leaf))
  }

  /** `Query && Query`. */
  function AndQueries<V>(lhs: Query<V>, rhs: Query<V>): (r: CompoundQuery<V>)
    ensures r.And? && |r.items| == 2
    ensures CompilesLikeConjunction(CompileCompound(r), ToNSPredicate(lhs), ToNSPredicate(rhs))
  {
    PairMeansConjunction(QueryItem(lhs), QueryItem(rhs));
    And([QueryItem(lhs), QueryItem(rhs)])
  }

  /** `Query && CompoundQuery`: widens a right-hand `and`, otherwise pairs. */
  function AndQueryCompound<V>(lhs: Query<V>, rhs: CompoundQuery<V>): (r: CompoundQuery<V>)
    ensures r.And? && |r.items| == if rhs.And? then 1 + |rhs.items| else 2
    ensures CompilesLikeConjunction(CompileCompound(r), ToNSPredicate(lhs), CompileCompound(rhs))
  {
    match rhs
    case And(ps) =>
      WidenLeftMeansConjunction(lhs, ps);
      And([QueryItem(lhs)] + ps)
    case _ =>
      PairMeansConjunction(QueryItem(lhs), CompoundItem(rhs));
      And([QueryItem(lhs), CompoundItem(rhs)])
  }

  /** `CompoundQuery && CompoundQuery`: always pairs, never widens. */
  function AndCompounds<V>(lhs: CompoundQuery<V>, rhs: CompoundQuery<V>): (r: CompoundQuery<V>)
    ensures r.And? && |r.items| == 2
    ensures CompilesLikeConjunction(CompileCompound(r), CompileCompound(lhs), CompileCompound(rhs))
  {
    PairMeansConjunction(CompoundItem(lhs), CompoundItem(rhs));
    And([CompoundItem(lhs), CompoundItem(rhs)])
  }

  /** `CompoundQuery && Query`: widens a left-hand `and`, otherwise pairs. */
  function AndCompoundQuery<V>(lhs: CompoundQuery<V>, rhs: Query<V>): (r: CompoundQuery<V>)
    ensures r.And? && |r.items| == if lhs.And? then |lhs.items| + 1 else 2
    ensures CompilesLikeConjunction(CompileCompound(r), CompileCompound(lhs), ToNSPredicate(rhs))
  {
    match lhs
    case And(ps) =>
      WidenRightMeansConjunction(ps, rhs);
      And(ps + [QueryItem(rhs)])
    case _ =>
      PairMeansConjunction(CompoundItem(lhs), QueryItem(rhs));
      And([CompoundItem(lhs), QueryItem(rhs)])
  }

  lemma PairMeansConjunction<V>(x: Convertible<V>, y: Convertible<V>)
    ensures CompilesLikeConjunction(CompileCompound(And([x, y])), Compile(x), Compile(y))
    ensures forall leaf :: MeansConjunction(CompileCompound(And([x, y])), Compile(x), Compile(y), leaf)
  {
    assert [x, y] == [x] + [y];
    CompileAllConcat([x], [y]);
    CompileAllSingleton(x);
    CompileAllSingleton(y);
    if Compile(x).Success? && Compile(y).Success? {
      var p, q := Compile(x).value, Compile(y).value;
      assert [p] + [q] == [p, q];
      forall leaf ensures Holds(AndP([p, q]), leaf) <==> Holds(p, leaf) && Holds(q, leaf) {
        AndOfConcat([p], [q], leaf);
        AndOfOne(p, leaf);
        AndOfOne(q, leaf);
      }
    }
  }

  lemma WidenLeftMeansConjunction<V>(q: Query<V>, ps: seq<Convertible<V>>)
    ensures CompilesLikeConjunction(CompileCompound(And([QueryItem(q)] + ps)), ToNSPredicate(q), CompileCompound(And(ps)))
    ensures forall leaf :: MeansConjunction(CompileCompound(And([QueryItem(q)] + ps)), ToNSPredicate(q), CompileCompound(And(ps)), leaf)
  {
    CompileAllConcat([QueryItem(q)], ps);
    CompileAllSingleton(QueryItem(q));
    if ToNSPredicate(q).Success? && CompileAll(ps).Success? {
      var head, pb := ToNSPredicate(q).value, CompileAll(ps).value;
      forall leaf ensures Holds(AndP([head] + pb), leaf) <==> Holds(head, leaf) && Holds(AndP(pb), leaf) {
        AndOfConcat([head], pb, leaf);
        AndOfOne(head, leaf);
      }
    }
  }

  lemma WidenRightMeansConjunction<V>(ps: seq<Convertible<V>>, q: Query<V>)
    ensures CompilesLikeConjunction(CompileCompound(And(ps + [QueryItem(q)])), CompileCompound(And(ps)), ToNSPredicate(q))
    ensures forall leaf :: MeansConjunction(CompileCompound(And(ps + [QueryItem(q)])), CompileCompound(And(ps)), ToNSPredicate(q), leaf)
  {
    CompileAllConcat(ps, [QueryItem(q)]);
    CompileAllSingleton(QueryItem(q));
    if ToNSPredicate(q).Success? && CompileAll(ps).Success? {
      var pa, last := CompileAll(ps).value, ToNSPredicate(q).value;
      forall leaf ensures Holds(AndP(pa + [last]), leaf) <==> Holds(AndP(pa), leaf) && Holds(last, leaf) {
        AndOfConcat(pa, [last], leaf);
        AndOfOne(last, leaf);
      }
    }
  }

  /** Whichever overload builds it, a compiled `&&` holds exactly when both compiled operands hold. */
  lemma AndMeansConjunction<V>(q: Query<V>, r: Query<V>, c: CompoundQuery<V>, d: CompoundQuery<V>,
                               leaf: (string, seq<Arg<V>>) -> bool)
    ensures MeansConjunction(CompileCompound(AndQueries(q, r)), ToNSPredicate(q), ToNSPredicate(r), leaf)
    ensures MeansConjunction(CompileCompound(AndQueryCompound(q, c)), ToNSPredicate(q), CompileCompound(c), leaf)
    ensures MeansConjunction(CompileCompound(AndCompounds(c, d)), CompileCompound(c), CompileCompound(d), leaf)
    ensures MeansConjunction(CompileCompound(AndCompoundQuery(c, q)), CompileCompound(c), ToNSPredicate(q), leaf)
  {
    PairMeansConjunction(QueryItem(q), QueryItem(r));
    PairMeansConjunction(CompoundItem(c), CompoundItem(d));
    if c.And? {
      WidenLeftMeansConjunction(q, c.items);
      WidenRightMeansConjunction(c.items, q);
    } else {
      PairMeansConjunction(QueryItem(q), CompoundItem(c));
      PairMeansConjunction(CompoundItem(c), QueryItem(q));
    }
  }

  // ---------------------------------------------------------------------------
  // Meaning of compiled predicates, relative to what their simple parts mean

  /**
   * Whether a compiled predicate holds, given what each simple format-and-arguments
   * part means (`leaf`): NSCompoundPredicate's AND, OR and NOT.
   */
  predicate Holds<V>(p: Predicate<V>, leaf: (string, seq<Arg<V>>) -> bool)
    decreases p
  {
    match p
    case Simple(f, args) => leaf(f, args)
    case AndP(ps) => forall i :: 0 <= i < |ps| ==> Holds(ps[i], leaf)
    case OrP(ps) => exists i :: 0 <= i < |ps| && Holds(ps[i], leaf)
    case NotP(q) => !Holds(q, leaf)
  }

  lemma AndOfConcat<V>(pa: seq<Predicate<V>>, pb: seq<Predicate<V>>, leaf: (string, seq<Arg<V>>) -> bool)
    ensures Holds(AndP(pa + pb), leaf) == (Holds(AndP(pa), leaf) && Holds(AndP(pb), leaf))
  {
    if Holds(AndP(pa), leaf) && Holds(AndP(pb), leaf) {
      forall i | 0 <= i < |pa + pb| ensures Holds((pa + pb)[i], leaf) {
        if i >= |pa| { assert (pa + pb)[i] == pb[i - |pa|]; }
      }
    }
    if Holds(AndP(pa + pb), leaf) {
      forall i | 0 <= i < |pb| ensures Holds(pb[i], leaf) {
        assert (pa + pb)[|pa| + i] == pb[i];
      }
      forall i | 0 <= i < |pa| ensures Holds(pa[i], leaf) {
        assert (pa + pb)[i] == pa[i];
      }
    }
  }

  /** A conjunction led by `head` means the same flat as with the rest nested. */
  lemma AndConsMeansNested<V>(head: Predicate<V>, pb: seq<Predicate<V>>, leaf: (string, seq<Arg<V>>) -> bool)
    ensures Holds(AndP([head] + pb), leaf) == Holds(AndP([head] + [AndP(pb)]), leaf)
  {
    AndOfConcat([head], pb, leaf);
    AndOfConcat([head], [AndP(pb)], leaf);
    AndOfOne(AndP(pb), leaf);
  }

  /** A conjunction ended by `last` means the same flat as with the rest nested. */
  lemma AndSnocMeansNested<V>(pa: seq<Predicate<V>>, last: Predicate<V>, leaf: (string, seq<Arg<V>>) -> bool)
    ensures Holds(AndP(pa + [last]), leaf) == Holds(AndP([AndP(pa)] + [last]), leaf)
  {
    AndOfConcat(pa, [last], leaf);
    AndOfConcat([AndP(pa)], [last], leaf);
    AndOfOne(AndP(pa), leaf);
  }

  lemma AndOfOne<V>(p: Predicate<V>, leaf: (string, seq<Arg<V>>) -> bool)
    ensures Holds(AndP([p]), leaf) == Holds(p, leaf)
  {
    assert [p][0] == p;
  }

  /**
   * `q && c` widens a right-hand `and` instead of nesting it; the widened query
   * compiles to the same error, or to a predicate that means the same, as the nested one.
   */
  lemma QueryAndCompoundMeansNested<V>(q: Query<V>, c: CompoundQuery<V>)
    ensures var flat, nested := CompileCompound(AndQueryCompound(q, c)),
                                CompileCompound(And([QueryItem(q), CompoundItem(c)]));
      && (flat.Failure? <==> nested.Failure?)
      && (flat.Failure? ==> flat.error == nested.error)
      && (flat.Success? ==> forall leaf :: Holds(flat.value, leaf) == Holds(nested.value, leaf))
  {
    if c.And? {
      var ps := c.items;
      CompileAllConcat([QueryItem(q)], ps);
      CompileAllConcat([QueryItem(q)], [CompoundItem(c)]);
      CompileAllSingleton(QueryItem(q));
      CompileAllSingleton(CompoundItem(c));
      var flat := CompileCompound(AndQueryCompound(q, c));
      var nested := CompileCompound(And([QueryItem(q), CompoundItem(c)]));
      if flat.Success? {
        var head := ToNSPredicate(q).value;
        var pb := CompileAll(ps).value;
        assert flat.value == AndP([head] + pb);
        assert nested.value == AndP([head] + [AndP(pb)]);
        forall leaf ensures Holds(flat.value, leaf) == Holds(nested.value, leaf) {
          AndConsMeansNested(head, pb, leaf);
        }
      }
    }
  }

  /**
   * `c && q` widens a left-hand `and` instead of nesting it; the widened query
   * compiles to the same error, or to a predicate that means the same, as the nested one.
   */
  lemma CompoundAndQueryMeansNested<V>(c: CompoundQuery<V>, q: Query<V>)
    ensures var flat, nested := CompileCompound(AndCompoundQuery(c, q)),
                                CompileCompound(And([CompoundItem(c), QueryItem(q)]));
      && (flat.Failure? <==> nested.Failure?)
      && (flat.Failure? ==> flat.error == nested.error)
      && (flat.Success? ==> forall leaf :: Holds(flat.value, leaf) == Holds(nested.value, leaf))
  {
    if c.And? {
      var ps := c.items;
      CompileAllConcat(ps, [QueryItem(q)]);
      CompileAllConcat([CompoundItem(c)], [QueryItem(q)]);
      CompileAllSingleton(QueryItem(q));
      CompileAllSingleton(CompoundItem(c));
      var flat := CompileCompound(AndCompoundQuery(c, q));
      var nested := CompileCompound(And([CompoundItem(c), QueryItem(q)]));
      if flat.Success? {
        var last := ToNSPredicate(q).value;
        var pa := CompileAll(ps).value;
        assert flat.value == AndP(pa + [last]);
        assert nested.value == AndP([AndP(pa)] + [last]);
        forall leaf ensures Holds(flat.value, leaf) == Holds(nested.value, leaf) {
          AndSnocMeansNested(pa, last, leaf);
        }
      }
    }
  }

  /** A compound fails with the error of its first failing item, and compiles only if all do. */
  lemma CompoundFailsWithFirstError<V>(items: seq<Convertible<V>>, k: nat)
    requires k < |items| && Compile(items[k]).Failure?
    requires forall j :: 0 <= j < k ==> Compile(items[j]).Success?
    ensures CompileCompound(And(items)) == Failure(Compile(items[k]).error)
    ensures CompileCompound(Or(items)) == Failure(Compile(items[k]).error)
  {
    var r := CompileAll(items);
    if r.Failure? {
      var k' :| 0 <= k' < |items| && Compile(items[k']) == Failure(r.error) &&
        forall j :: 0 <= j < k' ==> Compile(items[j]).Success?;
      assert k' == k;
    }
  }
}
