/**
 * CoreDataDelegate.swift: how an error from opening the store is classified,
 * and the default decision between resetting the store and terminating.
 */
module CoreDataDelegate {
  import opened Wrappers

  const NSCocoaErrorDomain: string := "NSCocoaErrorDomain"
  const NSSQLiteErrorDomain: string := "NSSQLiteErrorDomain"

  /** Foundation file-reading error codes. */
  const NSFileReadUnknownError: int := 256
  const NSFileReadCorruptFileError: int := 259
  const NSFileReadTooLargeError: int := 263

  /** SQLite result codes (sqlite.org, "Result and Error Codes"). */
  const AuthError: int := 23              // SQLITE_AUTH
  const IoErrorWrite: int := 778          // SQLITE_IOERR_WRITE = SQLITE_IOERR | (3 << 8)
  const DbCorrupted: int := 11            // SQLITE_CORRUPT
  const NoLFS: int := 22                  // SQLITE_NOLFS
  const InvalidDBFile: int := 26          // SQLITE_NOTADB
  const DbSequenceCorrupted: int := 523   // SQLITE_CORRUPT_SEQUENCE = SQLITE_CORRUPT | (2 << 8)

  /** An NSError: `sqliteCode` is `userInfo[NSSQLiteErrorDomain] as? Int`. */
  datatype NSError = NSError(domain: string, code: int, sqliteCode: Option<int>)

  /**
   * `isCoreDataDBFileProtectedError`. Every protected-file error is also
   * "recoverable", so the default delegate's protected-file branch never runs.
   */
  predicate IsProtected(e: NSError): (r: bool)
    ensures r ==> IsRecoverable(e)
  {
    if e.domain == NSCocoaErrorDomain && e.code == NSFileReadUnknownError
       && e.sqliteCode.Some? && e.sqliteCode.value == AuthError then true
    else if e.domain == NSSQLiteErrorDomain && e.code == IoErrorWrite then true
    else false
  }

  /** `isCoreDataFileRecoverableError`: an error outside the Cocoa and SQLite domains always counts as recoverable. */
  predicate IsRecoverable(e: NSError): (r: bool)
    ensures e.domain != NSCocoaErrorDomain && e.domain != NSSQLiteErrorDomain ==> r
  {
    if e.domain == NSCocoaErrorDomain then
      !(e.code == NSFileReadCorruptFileError || e.code == NSFileReadTooLargeError)
    else if e.domain == NSSQLiteErrorDomain then
      !(e.code == DbCorrupted || e.code == NoLFS || e.code == InvalidDBFile || e.code == DbSequenceCorrupted)
    else true
  }

  /** What `coreDataShouldResetPersistenceStore(onError:)` does: `exit` the process, or answer. */
  datatype Decision = Terminate | ShouldReset(reset: bool)

  /** `DefaultCoreDataDelegate.coreDataShouldResetPersistenceStore(onError:)`. */
  function DefaultShouldReset(e: NSError): (d: Decision)
    ensures d == Terminate <==> IsRecoverable(e)
    ensures d != ShouldReset(false)
  {
    if IsRecoverable(e) then Terminate
    else if IsProtected(e) then Terminate
    else ShouldReset(true)
  }

  /**
   * The default delegate answers "reset" exactly for the corrupt-file errors:
   * Cocoa codes 259 and 263, and SQLite codes 11, 22, 26 and 523. On every
   * other error, protected-file errors included, it ends the process.
   */
  lemma DefaultResetsExactlyOnCorruptFiles(e: NSError)
    ensures DefaultShouldReset(e) == ShouldReset(true) <==>
      (e.domain == NSCocoaErrorDomain && (e.code == 259 || e.code == 263)) ||
      (e.domain == NSSQLiteErrorDomain && (e.code == 11 || e.code == 22 || e.code == 26 || e.code == 523))
    ensures IsProtected(e) ==> DefaultShouldReset(e) == Terminate
  {
  }

  /**
   * A store-opening delegate. The default one does nothing when a connection is
   * about to open; a custom one answers the reset question with `shouldReset`.
   */
  datatype Delegate =
    | DefaultDelegate
    | CustomDelegate(shouldReset: NSError -> bool)

  /** The delegate's answer to an error from adding the store. */
  function ShouldResetPersistenceStore(delegate: Delegate, e: NSError): Decision {
    match delegate
    case DefaultDelegate => DefaultShouldReset(e)
    case CustomDelegate(shouldReset) => ShouldReset(shouldReset(e))
  }
}
