/** FetchRequestBuilder.swift: a fetch request for one entity, with the query's compiled predicate. */
module FetchRequestBuilder {
  import opened Wrappers
  import opened QueryDSL

  /** An NSFetchRequest reduced to what the builder sets: the entity name and the predicate. */
  datatype FetchRequest<V> = FetchRequest(entityName: string, nsPredicate: Option<Predicate<V>>)

  datatype FetchRequestBuilder<V> = FetchRequestBuilder(query: Option<Convertible<V>>, request: FetchRequest<V>)

  /**
   * `FetchRequestBuilder.init(query:)` for a model type whose `entityName()` is
   * `entityName`. A compile error is swallowed and leaves the predicate unset.
   */
  function NewBuilder<V>(entityName: string, query: Option<Convertible<V>>): (b: FetchRequestBuilder<V>)
    ensures b.query == query
    ensures b.request.entityName == entityName
    ensures query.None? ==> b.request.nsPredicate.None?
    ensures query.Some? && Compile(query.value).Failure? ==> b.request.nsPredicate.None?
    ensures query.Some? && Compile(query.value).Success? ==>
      b.request.nsPredicate == Some(Compile(query.value).value)
  {
    var nsPredicate :=
      match query
      case None => None
      case Some(q) =>
        match Compile(q)
        case Success(p) => Some(p)
        case Failure(_) => None;
    FetchRequestBuilder(query, FetchRequest(entityName, nsPredicate))
  }

  /**
   * `fetch(builder:)`: the context executes the builder's request; `execute` stands
   * for the context's `fetch` on a request.
   */
  function Fetch<V, R>(b: FetchRequestBuilder<V>, execute: FetchRequest<V> -> R): R {
    execute(b.request)
  }

  /**
   * Fetching with a builder runs one request for the entity, filtered by the
   * compiled query; a query that fails to compile fetches as if there were no
   * query at all, because the builder swallows the error.
   */
  lemma FetchFiltersByQuery<V, R>(entityName: string, q: Convertible<V>, execute: FetchRequest<V> -> R)
    ensures Fetch(NewBuilder<V>(entityName, None), execute) == execute(FetchRequest(entityName, None))
    ensures Compile(q).Success? ==>
      Fetch(NewBuilder(entityName, Some(q)), execute) == execute(FetchRequest(entityName, Some(Compile(q).value)))
    ensures Compile(q).Failure? ==>
      Fetch(NewBuilder(entityName, Some(q)), execute) == Fetch(NewBuilder<V>(entityName, None), execute)
  {
  }
}
