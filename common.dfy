/** Shared value types: optional values, results, identifiers and store errors. */
module Common {

  /** A value that may be absent (JavaScript `undefined` or `null`). */
  datatype Option<+T> = None | Some(value: T) {
    function GetOr(default: T): T {
      match this
      case Some(v) => v
      case None => default
    }
  }

  /** The outcome of an operation that can fail with an error of type `E`. */
  datatype Result<+T, +E> = Ok(value: T) | Err(error: E) {
    predicate IsFailure() {
      Err?
    }

    function PropagateFailure<U>(): Result<U, E>
      requires Err?
    {
      Err(error)
    }

    function Extract(): T
      requires Ok?
    {
      value
    }
  }

  /** The store-assigned identifier of a document (`_id`). */
  type Id = nat

  /** A point in time as the store keeps it for `createdAt`/`updatedAt`. */
  type Instant = nat

  /** Why the document store rejects a write: a field that fails its schema
      check (a required field missing or a value that does not cast), or a
      value already held by another document under a unique index. */
  datatype SaveError = Invalid(path: string) | Duplicate(path: string)

  /** A status code and the `message` of a JSON reply. */
  datatype Reply = Reply(status: int, message: string)

  /** The outcome of a `PUT /:id` handler: the updated record, no record
      under that id, or a rejected write. */
  datatype UpdateOutcome<+R> = Updated(record: R) | NotFound | ServerError(error: SaveError)
  {
    function Status(): int
    {
      match this
      case Updated(_) => 200
      case NotFound => 404
      case ServerError(_) => 500
    }
  }
}
