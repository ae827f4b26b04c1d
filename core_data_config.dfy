/** CoreDataConfig.swift: where the store lives, and the Core Data store type that follows from it. */
module CoreDataConfig {

  /** The persistent store type names of Core Data. */
  const NSInMemoryStoreType: string := "InMemory"
  const NSSQLiteStoreType: string := "SQLite"
  const NSBinaryStoreType: string := "Binary"

  datatype Config =
    | InMemory
    | Persistent(path: string)   // an absolute path to a SQLite file

  /** `persistentStoreType`. */
  function PersistentStoreType(config: Config): (r: string)
    ensures r == NSInMemoryStoreType <==> config.InMemory?
    ensures r == NSSQLiteStoreType <==> config.Persistent?
    ensures r != NSBinaryStoreType
  {
    match config
    case InMemory => NSInMemoryStoreType
    case Persistent(_) => NSSQLiteStoreType
  }

  /** The store type of a persistent configuration never depends on its path. */
  lemma StoreTypeIgnoresPath(p: string, q: string)
    ensures PersistentStoreType(Persistent(p)) == PersistentStoreType(Persistent(q))
  {
  }
}
