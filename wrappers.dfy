/** Values standing for JavaScript's nullable fields and for the outcome of
    a call to the hosted data service. */
module Wrappers {

  /** A nullable value: `null` (or `undefined`) is None. */
  datatype Option<T> = None | Some(value: T) {
    function GetOr(default: T): T {
      match this
      case Some(v) => v
      case None => default
    }
  }

  /** The `{ data, error }` pair a query resolves to: on error the service
      returns no data; without error the data may still be `null`. */
  datatype Reply<T> = Ok(data: Option<T>) | Err {
    /** What `const { data } = await ...` yields when the error is ignored. */
    function Data(): Option<T> {
      match this
      case Ok(d) => d
      case Err => None
    }
  }

  /** The outcome of a call whose data is not used (`const { error } = ...`). */
  datatype Status = Done | Failed

  /** A `.single()` insert: the stored row, or an error. */
  datatype Result<T> = Success(value: T) | Failure
}
