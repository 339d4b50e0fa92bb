/** Failure values of the local publish driver: the exceptions it raises and
    lets propagate, and the wrappers that carry them. */
module Errors {
  import opened Paths

  /** The three exception kinds the driver raises (none is caught). */
  datatype Error =
    | DirectoryNotFound(path: Path)   // DirectoryNotFoundException
    | IOError(path: Path)             // IOException
    | PlatformNotSupported            // PlatformNotSupportedException

  datatype Option<+T> = None | Some(value: T)

  datatype Result<+T> = Success(value: T) | Failure(error: Error)

  /** The outcome of a stage that returns nothing: it completes or it throws. */
  datatype Outcome = Pass | Fail(error: Error)
}
