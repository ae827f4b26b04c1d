/** CoreDataError.swift, and the other errors the stack passes along. */
module CoreDataError {

  datatype Code = Deallocated | InvalidAccess | UnexpectedNil | MigrationRequired

  datatype Error =
    | CoreDataError(code: Code)
    | Thrown(description: string)   // any other error, from a block or from Core Data
}
