/** The exceptions the catalog raises, and the Python built-in ones its code lets through. */
module Errors {

  datatype Error =
    | NotPortable      // PygrDataNotPortableError: a local data dependency found while pickling
    | NotFound         // PygrDataNotFoundError, a subclass of KeyError
    | Mismatch         // PygrDataMismatchError: _persistent_id no longer matches the saved ID
    | Empty            // PygrDataEmptyError: commit or rollback with nothing queued
    | ReadOnly         // PygrDataReadOnlyError: no writeable metabase
    | SchemaViolation  // PygrDataSchemaError: direct assignment to a graph mapping
    | NoModule         // PygrDataNoModuleError: pickling a class defined in __main__
    | Unpickling       // pickle.UnpicklingError: a persistent ID not in PYGR_ID: form
    | MissingDoc       // the ValueError of check_docstring
    | KeyError
    | AttributeError
    | TypeError
    | IndexError
    | IOError
    | UnpackError      // the ValueError of unpacking an iterable of the wrong length
    | ConnectFailed    // any error raised while opening a metabase
    | RecursionLimit   // Python's RuntimeError on exceeding the recursion depth

  /** True of the errors an `except KeyError` clause catches. */
  predicate IsKeyError(e: Error) {
    e == KeyError || e == NotFound
  }
}
