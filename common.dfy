/**
 * Identifiers, optional values and the errors raised by the persistence
 * layer, shared by every module of the annotation backend model.
 */
module Common {

  /** A MongoDB ObjectId, abstracted to a natural number. */
  type Id = nat

  /** A socket.io connection, standing for its `socket.id`. */
  type Conn = nat

  /** A request or payload field that may be absent (`undefined`). */
  datatype Option<+T> = None | Some(value: T)

  /** The errors that reach a handler's `catch` block. */
  datatype DbError =
    | ValidationFailed(paths: set<string>)  // Mongoose ValidationError naming the offending paths
    | DuplicateKey                          // MongoServerError with code 11000 (a unique index)
    | NullUser                              // TypeError from reading `username` of a missing user
    | NegativeSkip                          // the server refuses a query with a negative skip
    | ContentUnreadable                     // reading or extracting the uploaded file failed

  datatype Result<+T> = Ok(value: T) | Err(error: DbError)

  /** Mongoose's `required` check on a String path: present and not the empty string. */
  predicate Present(v: Option<string>)
  {
    v.Some? && v.value != ""
  }
}
