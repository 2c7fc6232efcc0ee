/** The server's error formatter: authentication and authorization failures
    are rewritten to fixed messages with an HTTP status, and in production
    every other error is reduced to its message and code. */
module ErrorFormatting {
  import opened Base
  import opened Strings

  const AUTH_PATTERN_1: string := "Authentication required"
  const AUTH_PATTERN_2: string := "Not authenticated"
  const DENIED_PATTERN_1: string := "access denied"
  const DENIED_PATTERN_2: string := "not authorized"
  const LOGIN_MESSAGE: string := "You must be logged in to perform this action"
  const PERMISSION_MESSAGE: string := "You do not have permission to perform this action"
  const PRODUCTION: string := "production"

  /** The parts of a formatted GraphQL error the formatter reads or writes:
      the message and, under `extensions`, the code, the HTTP status and the
      stack trace. */
  datatype FormattedError = FormattedError(
    message: string,
    code: Option<string>,
    httpStatus: Option<int>,
    stacktrace: Option<seq<string>>)

  /** How a thrown resolver error arrives at the formatter. */
  function FromError(e: Error, stacktrace: Option<seq<string>>): (f: FormattedError)
    ensures f.message == e.message && f.code == Some(CodeName(e.code)) && f.httpStatus.None?
  {
    FormattedError(e.message, Some(CodeName(e.code)), None, stacktrace)
  }

  predicate IsAuthFailure(message: string) {
    Contains(message, AUTH_PATTERN_1) || Contains(message, AUTH_PATTERN_2)
  }

  predicate IsPermissionFailure(message: string) {
    Contains(message, DENIED_PATTERN_1) || Contains(message, DENIED_PATTERN_2)
  }

  /** `formatError`, with `NODE_ENV` as a parameter. The substring tests
      are case-sensitive and the authentication test comes first. */
  function FormatError(f: FormattedError, nodeEnv: Option<string>): (r: FormattedError)
    ensures IsAuthFailure(f.message) ==>
      r == FormattedError(LOGIN_MESSAGE, Some("UNAUTHENTICATED"), Some(401), None)
    ensures !IsAuthFailure(f.message) && IsPermissionFailure(f.message) ==>
      r == FormattedError(PERMISSION_MESSAGE, Some("FORBIDDEN"), Some(403), None)
    ensures !IsAuthFailure(f.message) && !IsPermissionFailure(f.message) && nodeEnv == Some(PRODUCTION) ==>
      && r.message == f.message
      && r.code == Some(if Truthy(f.code) then f.code.value else "INTERNAL_SERVER_ERROR")
      && r.httpStatus.None? && r.stacktrace.None?
    ensures !IsAuthFailure(f.message) && !IsPermissionFailure(f.message) && nodeEnv != Some(PRODUCTION) ==>
      r == f
    ensures nodeEnv == Some(PRODUCTION) ==> r.stacktrace.None? && r.code.Some? && r.code.value != ""
  {
    if IsAuthFailure(f.message) then
      FormattedError(LOGIN_MESSAGE, Some(CodeName(Unauthenticated)), Some(401), None)
    else if IsPermissionFailure(f.message) then
      FormattedError(PERMISSION_MESSAGE, Some(CodeName(Forbidden)), Some(403), None)
    else if nodeEnv == Some(PRODUCTION) then
      FormattedError(f.message, Some(OrElse(f.code, CodeName(InternalServerError))), None, None)
    else f
  }

  /** The error every todo and chat resolver throws for an anonymous caller
      reaches the client as the fixed 401 error, in every environment. */
  lemma AuthRequiredIs401(stacktrace: Option<seq<string>>, nodeEnv: Option<string>)
    ensures FormatError(FromError(AUTH_REQUIRED, stacktrace), nodeEnv) ==
      FormattedError(LOGIN_MESSAGE, Some("UNAUTHENTICATED"), Some(401), None)
  {
    ContainsSelf(AUTH_PATTERN_1);
  }

  /** Any message that mentions "Not authenticated" anywhere, whatever its
      code, is rewritten to the 401 error, even one that also mentions
      "access denied". */
  lemma NotAuthenticatedAnywhere(pre: string, post: string, f: FormattedError, nodeEnv: Option<string>)
    requires f.message == pre + AUTH_PATTERN_2 + post
    ensures FormatError(f, nodeEnv).httpStatus == Some(401)
    ensures FormatError(f, nodeEnv).code == Some("UNAUTHENTICATED")
  {
    ContainsAffix(pre, AUTH_PATTERN_2, post);
  }

  /** Any message that mentions "access denied" and neither authentication
      pattern is rewritten to the 403 error. */
  lemma AccessDeniedAnywhere(pre: string, post: string, f: FormattedError, nodeEnv: Option<string>)
    requires f.message == pre + DENIED_PATTERN_1 + post && !IsAuthFailure(f.message)
    ensures FormatError(f, nodeEnv) == FormattedError(PERMISSION_MESSAGE, Some("FORBIDDEN"), Some(403), None)
  {
    ContainsAffix(pre, DENIED_PATTERN_1, post);
  }

  /** A formatted error of any other kind keeps its message; in production
      it keeps its code, and loses only its stack trace and status. */
  lemma OtherErrorsKeepCode(e: Error, stacktrace: Option<seq<string>>, nodeEnv: Option<string>)
    requires !IsAuthFailure(e.message) && !IsPermissionFailure(e.message)
    ensures FormatError(FromError(e, stacktrace), nodeEnv).message == e.message
    ensures FormatError(FromError(e, stacktrace), nodeEnv).code == Some(CodeName(e.code))
  {
  }
}
