/** The controller advice that turns exceptions into error responses. The
    runtime-exception handler inspects the message text, in a fixed order. */
module ExceptionHandler {
  import opened Wrappers
  import opened Messages
  import opened Http
  import opened Text

  /** A status together with a JSON object of string fields. */
  datatype ErrorResponse = ErrorResponse(status: Status, body: map<string, string>)

  /** `handleRuntimeException`: a message naming a duplicate email is a
      conflict; otherwise one naming a missing user is "not found"; anything
      else is an internal server error. The body always holds exactly the keys
      "error" and "message", and "message" echoes the exception's text. */
  function HandleRuntimeException(message: string): (r: ErrorResponse)
    ensures r.body.Keys == {"error", "message"} && r.body["message"] == message
    ensures r.status == Conflict <==> Contains(message, EmailAlreadyExists)
    ensures r.status == NotFound <==> !Contains(message, EmailAlreadyExists) && Contains(message, UserNotFound)
    ensures r.status == InternalServerError <==> !Contains(message, EmailAlreadyExists) && !Contains(message, UserNotFound)
    ensures r.status == Conflict ==> r.body["error"] == "Email already exists"
    ensures r.status == NotFound ==> r.body["error"] == "User not found"
    ensures r.status == InternalServerError ==> r.body["error"] == "Internal server error"
  {
    if Contains(message, EmailAlreadyExists) then
      ErrorResponse(Conflict, map["error" := "Email already exists", "message" := message])
    else if Contains(message, UserNotFound) then
      ErrorResponse(NotFound, map["error" := "User not found", "message" := message])
    else
      ErrorResponse(InternalServerError, map["error" := "Internal server error", "message" := message])
  }

  const AuthenticationFailedBody: map<string, string> :=
    map["error" := "Authentication failed", "message" := "Invalid credentials or user not found"]

  /** `handleAuthenticationException`: always 401 with the same body, so the
      answer never says whether the account exists. */
  function HandleAuthenticationException(): (r: ErrorResponse)
    ensures r.status == Unauthorized && r.status.Code() == 401
    ensures r.body == AuthenticationFailedBody
    ensures r.body.Keys == {"error", "message"}
    ensures r.body["error"] == "Authentication failed"
    ensures r.body["message"] == "Invalid credentials or user not found"
  {
    ErrorResponse(Unauthorized, AuthenticationFailedBody)
  }

  /** Spring's dispatch: the authentication handler is the more specific one. */
  function Handle(e: Error): (r: ErrorResponse)
    ensures e.AuthenticationError? ==> r == HandleAuthenticationException() && r.status == Unauthorized
    ensures e.RuntimeError? ==> r == HandleRuntimeException(e.message)
    ensures e.RuntimeError? ==> r.status != Unauthorized && "message" in r.body && r.body["message"] == e.message
  {
    match e
    case RuntimeError(message) => HandleRuntimeException(message)
    case AuthenticationError => HandleAuthenticationException()
  }

  /** The email check comes first: a message naming both a duplicate email and
      a missing user is a conflict. */
  lemma EmailCheckTakesPrecedence(message: string)
    requires Contains(message, EmailAlreadyExists) && Contains(message, UserNotFound)
    ensures HandleRuntimeException(message).status == Conflict
  {
  }

  /** A duplicate email surfaces as 409 and a missing user as 404. */
  lemma ConflictAndNotFoundMessages()
    ensures HandleRuntimeException(EmailAlreadyExists).status.Code() == 409
    ensures HandleRuntimeException(UserNotFound).status.Code() == 404
  {
    ContainsItself(EmailAlreadyExists);
    ContainsItself(UserNotFound);
    NotContainsWithoutFirstChar(UserNotFound, EmailAlreadyExists);
  }

  /** A missing recipe surfaces as 500, not 404. */
  lemma RecipeNotFoundIsServerError()
    ensures HandleRuntimeException(RecipeNotFound).status.Code() == 500
  {
    NotContainsWithoutFirstChar(RecipeNotFound, EmailAlreadyExists);
    NotContainsWithoutFirstChar(RecipeNotFound, UserNotFound);
  }

  /** A non-owner's update or delete surfaces as 500, not 403. */
  lemma NotOwnerIsServerError()
    ensures HandleRuntimeException(UnauthorizedUpdate).status.Code() == 500
    ensures HandleRuntimeException(UnauthorizedDelete).status.Code() == 500
  {
    UnauthorizedMessagesNameNeither();
  }

  /** A wrong old password and a NOT NULL violation surface as 500. */
  lemma PasswordAndConstraintErrorsAreServerErrors()
    ensures HandleRuntimeException(InvalidOldPassword).status.Code() == 500
    ensures HandleRuntimeException(NotNullViolation).status.Code() == 500
  {
    OtherMessagesNameNeither();
  }

  lemma UnauthorizedMessagesNameNeither()
    ensures !Contains(UnauthorizedUpdate, EmailAlreadyExists) && !Contains(UnauthorizedUpdate, UserNotFound)
    ensures !Contains(UnauthorizedDelete, EmailAlreadyExists) && !Contains(UnauthorizedDelete, UserNotFound)
  {
    NoEmailMessage(UnauthorizedUpdate);
    NoEmailMessage(UnauthorizedDelete);
    UnauthorizedUpdateNamesNoUser();
    UnauthorizedDeleteNamesNoUser();
  }

  lemma NoEmailMessage(m: string)
    requires m == UnauthorizedUpdate || m == UnauthorizedDelete
    ensures !Contains(m, EmailAlreadyExists)
  {
    assert 'E' !in m;
    NotContainsWithoutFirstChar(m, EmailAlreadyExists);
  }

  lemma UnauthorizedUpdateNamesNoUser()
    ensures !Contains(UnauthorizedUpdate, UserNotFound)
  {
    assert 'U' !in UnauthorizedUpdate[1..];
    NotPrefixAt(UnauthorizedUpdate, UserNotFound, 1);
    NotContainsFirstOnlyAtStart(UnauthorizedUpdate, UserNotFound);
  }

  lemma UnauthorizedDeleteNamesNoUser()
    ensures !Contains(UnauthorizedDelete, UserNotFound)
  {
    assert 'U' !in UnauthorizedDelete[1..];
    NotPrefixAt(UnauthorizedDelete, UserNotFound, 1);
    NotContainsFirstOnlyAtStart(UnauthorizedDelete, UserNotFound);
  }

  /** `s` does not begin with `sub` when they differ at position `k`. */
  lemma NotPrefixAt(s: string, sub: string, k: nat)
    requires k < |sub| <= |s| && s[k] != sub[k]
    ensures !IsPrefix(sub, s)
  {
  }

  lemma OtherMessagesNameNeither()
    ensures !Contains(InvalidOldPassword, EmailAlreadyExists) && !Contains(InvalidOldPassword, UserNotFound)
    ensures !Contains(NotNullViolation, EmailAlreadyExists) && !Contains(NotNullViolation, UserNotFound)
  {
    assert 'E' !in InvalidOldPassword && 'U' !in InvalidOldPassword;
    NotContainsWithoutFirstChar(InvalidOldPassword, EmailAlreadyExists);
    NotContainsWithoutFirstChar(InvalidOldPassword, UserNotFound);
    assert 'E' !in NotNullViolation && 'U' !in NotNullViolation;
    NotContainsWithoutFirstChar(NotNullViolation, EmailAlreadyExists);
    NotContainsWithoutFirstChar(NotNullViolation, UserNotFound);
  }

  /** `sub` cannot occur in `s` when its first character appears in `s` only at
      the start and `s` does not begin with `sub`. */
  lemma NotContainsFirstOnlyAtStart(s: string, sub: string)
    requires s != [] && sub != [] && sub[0] !in s[1..] && !IsPrefix(sub, s)
    ensures !Contains(s, sub)
  {
  }
}
