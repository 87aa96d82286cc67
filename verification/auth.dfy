/** Request gates and the error envelope:
    backend/middlewares/authMiddleware.js and
    backend/middlewares/errorHandler.js.

    Verifying a JWT is not computed: a parameter maps a token to its
    outcome, as `jwt.verify` either yields the signed user id or throws one
    of its errors. */
module Auth {
  import opened Wrappers
  import Text
  import Users

  /** The Authorization header's token: read only when the header starts
      with "Bearer", and then the second space-separated word. This is
      looser than section 2.1 of RFC 6750: "BearerX t" is accepted too, and
      two spaces leave an empty second word, which counts as no token. */
  function BearerToken(header: Option<string>): (r: Option<string>)
    ensures r.Some? ==> header.Some? && Text.StartsWith(header.value, "Bearer")
    ensures r.Some? ==> r.value != "" && ' ' !in r.value
    ensures r.Some? ==> |Text.Split(header.value, ' ')| >= 2 && Text.Split(header.value, ' ')[1] == r.value
  {
    if header.None? || !Text.StartsWith(header.value, "Bearer") then None
    else
      var words := Text.Split(header.value, ' ');
      if |words| >= 2 && words[1] != "" then Some(words[1]) else None
  }

  /** A well-formed `Bearer <token>` header yields its token. */
  lemma BearerTokenOfHeader(token: string)
    requires token != "" && ' ' !in token
    ensures BearerToken(Some("Bearer " + token)) == Some(token)
  {
    var parts := ["Bearer", token];
    assert Text.Join(parts, ' ') == "Bearer" + [' '] + token;
    assert "Bearer" + [' '] + token == "Bearer " + token;
    Text.SplitJoin(parts, ' ');
    assert ("Bearer " + token)[..6] == "Bearer";
  }

  /** A header that does not start with "Bearer" yields no token. */
  lemma NoTokenWithoutBearer(header: string)
    requires !Text.StartsWith(header, "Bearer")
    ensures BearerToken(Some(header)).None?
  {
  }

  /** What `jwt.verify` does with a token: it yields the user id, or throws
      `JsonWebTokenError`, `TokenExpiredError`, or some other error. */
  datatype TokenCheck = Signed(id: Id) | Malformed | Expired | Failed

  /** `protect`: the user the token names, or the rejection. */
  function Protect(header: Option<string>, verify: string -> TokenCheck, users: seq<Users.User>): (r: Result<Users.User, HttpError>)
    ensures BearerToken(header).None? ==> r == Err(HttpError(401, "Not authorized, token missing"))
    ensures r.Ok? <==> BearerToken(header).Some? && verify(BearerToken(header).value).Signed?
                       && Users.FindById(users, verify(BearerToken(header).value).id).Some?
    ensures r.Ok? ==> r.value in users && r.value.id == verify(BearerToken(header).value).id
    ensures r.Err? ==> (r.error.status == 500 <==> BearerToken(header).Some? && verify(BearerToken(header).value).Failed?)
    ensures r.Err? ==> r.error.status in {401, 500}
  {
    match BearerToken(header)
    case None => Err(HttpError(401, "Not authorized, token missing"))
    case Some(token) =>
      match verify(token)
      case Malformed => Err(HttpError(401, "Invalid token"))
      case Expired => Err(HttpError(401, "Token expired"))
      case Failed => Err(HttpError(500, "Server error"))
      case Signed(id) =>
        match Users.FindById(users, id)
        case None => Err(HttpError(401, "User not found"))
        case Some(k) => Ok(users[k])
  }

  /** `organizerOnly`, after `protect` has set the user (or not). */
  function OrganizerOnly(user: Option<Users.User>): (r: Result<Users.User, HttpError>)
    ensures user.None? ==> r == Err(HttpError(401, "Not authorized"))
    ensures user.Some? && user.value.role != Users.OrganizerRole ==> r == Err(HttpError(403, "Access denied, organizer only"))
    ensures r.Ok? <==> user.Some? && user.value.role == Users.OrganizerRole
    ensures r.Ok? ==> r.value == user.value
  {
    match user
    case None => Err(HttpError(401, "Not authorized"))
    case Some(u) =>
      if u.role != Users.OrganizerRole then Err(HttpError(403, "Access denied, organizer only"))
      else Ok(u)
  }

  /** `optionalProtect`: never rejects; the request continues as a guest
      (`None`) for a missing token, a token error or an unknown user. */
  function OptionalProtect(header: Option<string>, verify: string -> TokenCheck, users: seq<Users.User>): (r: Option<Users.User>)
    ensures r.Some? ==> r.value in users
  {
    match BearerToken(header)
    case None => None
    case Some(token) =>
      match verify(token)
      case Signed(id) =>
        (match Users.FindById(users, id)
         case None => None
         case Some(k) => Some(users[k]))
      case _ => None
  }

  /** The optional gate lets a user through exactly when the strict gate
      would, and as the same user; every rejection becomes a guest. */
  lemma OptionalAgreesWithProtect(header: Option<string>, verify: string -> TokenCheck, users: seq<Users.User>)
    ensures OptionalProtect(header, verify, users).Some? <==> Protect(header, verify, users).Ok?
    ensures Protect(header, verify, users).Ok? ==> OptionalProtect(header, verify, users) == Some(Protect(header, verify, users).value)
  {
  }

  /** An error as handlers pass it to `next`: its `status`, `message` and
      `details`, each possibly absent. */
  datatype AppError = AppError(status: Option<nat>, message: string, details: Option<seq<string>>)

  /** The JSON body and status the error handler sends. */
  datatype Envelope = Envelope(status: nat, success: bool, message: string, errors: Option<seq<string>>)

  const DefaultMessage: string := "Internal Server Error"

  /** `errorHandler`: `err.status || 500`, `err.message || 'Internal
      Server Error'`, and `errors` exactly when `details` is given. */
  function ErrorHandler(err: AppError): (r: Envelope)
    ensures !r.success
    ensures r.status != 0
    ensures r.status == 500 || (err.status.Some? && r.status == err.status.value)
    ensures err.status.Some? && err.status.value != 0 ==> r.status == err.status.value
    ensures r.message != ""
    ensures err.message != "" ==> r.message == err.message
    ensures r.errors.Some? <==> err.details.Some?
    ensures r.errors.Some? ==> r.errors == err.details
  {
    Envelope(
      if err.status.Some? && err.status.value != 0 then err.status.value else 500,
      false,
      if err.message != "" then err.message else DefaultMessage,
      err.details)
  }

  /** An error raised with a status and a message comes back out with that
      status and message. */
  lemma ErrorHandlerKeepsHttpError(e: HttpError)
    requires e.status != 0 && e.message != ""
    ensures var r := ErrorHandler(AppError(Some(e.status), e.message, None));
      HttpError(r.status, r.message) == e && r.errors.None?
  {
  }

  /** An error with neither status nor message is a 500 with the default message. */
  lemma ErrorHandlerDefaults(details: Option<seq<string>>)
    ensures ErrorHandler(AppError(None, "", details)) == Envelope(500, false, DefaultMessage, details)
  {
  }
}
