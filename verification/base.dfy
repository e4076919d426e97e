/** Failure-compatible wrappers shared by every module of the model. */
module Base {

  /** A user's email address, the key of carts, users and subscribers. */
  type Email = string

  /** An optional value: a query parameter that may be missing, a lookup that may fail. */
  datatype Option<+T> = None | Some(value: T) {
    function GetOr(default: T): T {
      match this
      case Some(v) => v
      case None => default
    }
  }

  /** The outcome of a request handler: a new state (or reply) or the error it answers with. */
  datatype Result<+T, +E> = Ok(value: T) | Err(error: E)

  /** JavaScript truthiness of a string-valued request field: present and non-empty. */
  predicate Truthy(s: Option<string>) {
    s.Some? && |s.value| > 0
  }
}
