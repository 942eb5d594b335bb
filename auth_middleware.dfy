/** The backend's authentication middleware: the decision each of
    `authenticate`, `requireAdmin` and `optionalAuth` takes on a request,
    with token verification left as a parameter. */
module AuthMiddleware {
  import opened Wrappers
  import opened JsString
  import opened Models

  /** What a verified token carries. */
  datatype AuthPayload = AuthPayload(userId: UserId, username: string, isAdmin: bool)

  /** `verifyToken`: the payload of a valid, unexpired token, or `None` where
      it throws. */
  type Verify = string -> Option<AuthPayload>

  /** A middleware's decision: call `next()` with `req.user` set to `user`,
      or answer with a status and an error message. */
  datatype Decision = Continue(user: Option<AuthPayload>) | Reject(status: nat, error: string)

  /** The token of an `Authorization` header of the form `Bearer <token>`:
      split on ' ', exactly two parts, the first of them `Bearer`. */
  function BearerToken(header: string): (token: Option<string>)
    ensures token.Some? ==> header == "Bearer" + [' '] + token.value && ' ' !in token.value
  {
    var parts := Split(header, ' ');
    if |parts| == 2 && parts[0] == "Bearer" then
      JoinSplit(header, ' ');
      assert Join(parts, [' ']) == parts[0] + [' '] + Join(parts[1..], [' ']);
      assert parts[1..] == [parts[1]];
      Some(parts[1])
    else None
  }

  /** Every `Bearer <token>` header whose token holds no space is accepted
      with exactly that token. */
  lemma BearerTokenOf(token: string)
    requires ' ' !in token
    ensures BearerToken("Bearer" + [' '] + token) == Some(token)
  {
    SplitAfterFirst("Bearer", token, ' ');
    SplitNoSep(token, ' ');
  }

  /** `authenticate`. */
  function Authenticate(header: Option<string>, verify: Verify): (d: Decision)
    ensures !Truthy(header) ==> d == Reject(401, "No authorization header")
    ensures Truthy(header) && BearerToken(header.value).None? ==> d == Reject(401, "Invalid authorization format")
    ensures d.Continue? <==> Truthy(header) && BearerToken(header.value).Some? && verify(BearerToken(header.value).value).Some?
    ensures d.Continue? ==> d.user == verify(BearerToken(header.value).value) && d.user.Some?
    ensures d.Reject? ==> d.status == 401
  {
    if !Truthy(header) then Reject(401, "No authorization header")
    else match BearerToken(header.value) {
      case None => Reject(401, "Invalid authorization format")
      case Some(token) =>
        match verify(token) {
          case None => Reject(401, "Invalid or expired token")
          case Some(payload) => Continue(Some(payload))
        }
    }
  }

  /** `authenticate` lets a request through exactly when it carries
      `Bearer <token>` with a token that verifies. */
  lemma AuthenticateBearer(token: string, verify: Verify)
    requires ' ' !in token
    ensures Authenticate(Some("Bearer" + [' '] + token), verify).Continue? <==> verify(token).Some?
    ensures verify(token).None? ==> Authenticate(Some("Bearer" + [' '] + token), verify) == Reject(401, "Invalid or expired token")
  {
    BearerTokenOf(token);
  }

  /** `requireAdmin`, after `authenticate` has set (or not set) the user. */
  function RequireAdmin(user: Option<AuthPayload>): (d: Decision)
    ensures user.None? ==> d == Reject(401, "Authentication required")
    ensures user.Some? && !user.value.isAdmin ==> d == Reject(403, "Admin privileges required")
    ensures d.Continue? <==> user.Some? && user.value.isAdmin
    ensures d.Continue? ==> d.user == user
  {
    if user.None? then Reject(401, "Authentication required")
    else if !user.value.isAdmin then Reject(403, "Admin privileges required")
    else Continue(user)
  }

  /** `authenticate` followed by `requireAdmin`: an admin route is reached
      only with a verified admin token, and a verified non-admin gets 403. */
  lemma AdminRoute(header: Option<string>, verify: Verify)
    ensures var a := Authenticate(header, verify);
      (a.Continue? && RequireAdmin(a.user).Continue?) <==>
        Truthy(header) && BearerToken(header.value).Some? &&
        verify(BearerToken(header.value).value).Some? && verify(BearerToken(header.value).value).value.isAdmin
    ensures var a := Authenticate(header, verify);
      a.Continue? && !a.user.value.isAdmin ==> RequireAdmin(a.user).status == 403
  {
  }

  /** `optionalAuth`: always continues; the user is attached only for a
      well-formed header whose token verifies. */
  function OptionalAuth(header: Option<string>, verify: Verify): (d: Decision)
    ensures d.Continue?
  {
    if Truthy(header) then
      match BearerToken(header.value) {
        case Some(token) => Continue(verify(token))
        case None => Continue(None)
      }
    else Continue(None)
  }

  /** `optionalAuth` attaches exactly the user `authenticate` would have
      accepted, and nobody where `authenticate` would have refused. */
  lemma OptionalAuthAgrees(header: Option<string>, verify: Verify)
    ensures OptionalAuth(header, verify).user == (if Authenticate(header, verify).Continue? then Authenticate(header, verify).user else None)
  {
  }
}
