/** Values shared by every resolver: optional values, results, and the
    error codes the resolvers put in a GraphQL error's `extensions.code`. */
module Base {

  datatype Option<+T> = None | Some(value: T)

  /** The machine-readable error codes raised by the resolvers. */
  datatype Code =
    | Unauthenticated
    | Forbidden
    | NotFound
    | BadUserInput
    | TooManyRequests
    | EmailDeliveryFailed
    | InternalServerError

  /** The string a code is written as in `extensions.code`. */
  function CodeName(c: Code): string {
    match c
    case Unauthenticated => "UNAUTHENTICATED"
    case Forbidden => "FORBIDDEN"
    case NotFound => "NOT_FOUND"
    case BadUserInput => "BAD_USER_INPUT"
    case TooManyRequests => "TOO_MANY_REQUESTS"
    case EmailDeliveryFailed => "EMAIL_DELIVERY_FAILED"
    case InternalServerError => "INTERNAL_SERVER_ERROR"
  }

  /** A thrown `GraphQLError`: its code and its message. */
  datatype Error = Error(code: Code, message: string)

  /** What a resolver produces: a value, or the error it throws. */
  datatype Result<+T> = Ok(value: T) | Err(error: Error)

  /** What the todo and chat resolvers throw for an anonymous caller. */
  const AUTH_REQUIRED: Error := Error(Unauthenticated, "Authentication required")

  /** What `me`, the account resolvers and the admin resolvers throw for a
      missing user row. */
  const USER_NOT_FOUND: Error := Error(NotFound, "User not found")

  /** A write the database refuses (a `connect` to a missing row, a null
      for a non-nullable column); it surfaces as an internal error whose
      text is the database client's. */
  const WRITE_REJECTED: Error := Error(InternalServerError, "")

  /** JavaScript truthiness of a string that may be `undefined` or `null`:
      those two and the empty string are falsy. */
  predicate Truthy(s: Option<string>) {
    s.Some? && s.value != ""
  }

  /** `a || fallback` for a string that may be missing. */
  function OrElse(a: Option<string>, fallback: string): string {
    if Truthy(a) then a.value else fallback
  }

  /** The resolvers' `if (!userId)` test, inverted: `undefined` and `0` are falsy. */
  predicate LoggedIn(userId: Option<int>) {
    userId.Some? && userId.value != 0
  }
}
