/** Failure-carrying results, and the gRPC status the service reports on failure. */
module Wrappers {

  datatype Option<+T> = None | Some(value: T) {
    /** Rust's `unwrap_or_default` for the types used here: the default is given explicitly. */
    function UnwrapOr(default: T): T
    {
      match this
      case Some(v) => v
      case None => default
    }
  }

  /** A `tonic::Status`; only the codes the core produces are listed. */
  datatype Status = DataLoss(message: string)

  /** Message of the status produced when the cache has no entry for a document. */
  const DOCUMENT_NOT_FOUND: string := "Document not found"
  /** Message of the status produced when an insert offset is out of range. */
  const INVALID_INSERT_POSITION: string := "Invalid insert position"
  /** Stands for the database driver's own error text (`e.to_string()`), which is not modelled. */
  const STORAGE_ERROR: string := "storage error"

  datatype Result<+T> = Ok(value: T) | Err(error: Status) {
    predicate IsFailure() { Err? }

    function PropagateFailure<U>(): Result<U>
      requires Err?
    {
      Err(error)
    }

    function Extract(): T
      requires Ok?
    {
      value
    }
  }
}
