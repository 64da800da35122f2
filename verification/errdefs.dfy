/**
 * Error classes shared by the whole model.
 *
 * Go code wraps sentinel errors with context (`fmt.Errorf("...: %w", errdefs.ErrNotFound)`);
 * callers only ever test the class of an error (`errdefs.IsNotFound`), so the model keeps
 * the class and drops the message.
 */
module Errdefs {

  datatype Error =
    | NotFound
    | AlreadyExists
    | FailedPrecondition
    | InvalidArgument
    | NotImplemented
      // core/snapshots/storage: no bolt transaction in the context
    | NoTransaction
      // bbolt: a write in a read-only transaction, a bucket with an empty name
    | TxNotWritable
    | BucketNameRequired
      // core/images handler sentinels
    | StopHandler
    | SkipDesc
    | EmptyWalk
      // a Go runtime panic (failed type assertion, index out of range)
    | Panic
      // any other error, produced by code outside the model
    | Other(msg: string)

  datatype Option<T> = None | Some(value: T)

  datatype Result<T> = Ok(value: T) | Err(error: Error)

  /** The error a Go call returned, or `None` for a nil error. */
  type MaybeError = Option<Error>
}
