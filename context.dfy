/** How each request's context is built: the bearer credential is taken
    from the request, resolved to a user row (or to nobody), and the
    caller's network origin is recorded. Building a context never fails. */
module RequestContext {
  import opened Base
  import opened Strings
  import opened Db
  import opened Tokens

  const BEARER: string := "Bearer "
  const UNKNOWN: string := "unknown"

  /** `user?.id`: the caller's id, absent exactly when there is no user. */
  function IdOf(user: Option<User>): (id: Option<int>)
    ensures id.Some? <==> user.Some?
    ensures user.Some? ==> id.value == user.value.id
  {
    if user.Some? then Some(user.value.id) else None
  }

  /** The parts of an HTTP request the core reads: the `authorization` and
      `x-forwarded-for` headers and the socket's remote address. */
  datatype Request = Request(
    authorization: Option<string>,
    forwardedFor: Option<string>,
    remoteAddress: Option<string>)

  /** The context every HTTP resolver receives. */
  datatype Context = Context(user: Option<User>, req: Option<Request>, clientIp: string) {
    function UserId(): Option<int> {
      IdOf(user)
    }
  }

  /** What a WebSocket connection offers: `connectionParams.authToken`, the
      socket address and the `user-agent` header of the upgrade request. */
  datatype ConnectionInit = ConnectionInit(
    authToken: Option<string>,
    socketAddress: Option<string>,
    userAgent: Option<string>)

  datatype ConnectionInfo = ConnectionInfo(ip: string, userAgent: string)

  /** The context every subscription resolver receives. */
  datatype SubscriptionContext = SubscriptionContext(user: Option<User>, connectionInfo: ConnectionInfo) {
    function UserId(): Option<int> {
      IdOf(user)
    }
  }

  /** The caller's origin, the rate limiter's key: `x-forwarded-for` if set
      and non-empty, else the remote address if set and non-empty, else
      "unknown". It is never empty. */
  function ClientIp(req: Option<Request>): (ip: string)
    ensures ip != ""
    ensures req.Some? && Truthy(req.value.forwardedFor) ==> ip == req.value.forwardedFor.value
    ensures req.Some? && !Truthy(req.value.forwardedFor) && Truthy(req.value.remoteAddress) ==>
      ip == req.value.remoteAddress.value
    ensures req.None? || (!Truthy(req.value.forwardedFor) && !Truthy(req.value.remoteAddress)) ==>
      ip == UNKNOWN
  {
    if req.None? then UNKNOWN
    else OrElse(req.value.forwardedFor, OrElse(req.value.remoteAddress, UNKNOWN))
  }

  /** `req.headers.authorization?.replace('Bearer ', '')`: no header, no
      token; otherwise the header with the first "Bearer " removed, wherever
      it stands, and a header without one passed through whole. */
  function BearerToken(req: Request): (token: Option<string>)
    ensures req.authorization.None? <==> token.None?
    ensures forall i :: req.authorization.Some? && FirstOccurrence(req.authorization.value, BEARER, i) ==>
      token == Some(req.authorization.value[..i] + req.authorization.value[i + |BEARER|..])
    ensures req.authorization.Some? && (forall j :: !OccursAt(req.authorization.value, BEARER, j)) ==>
      token == req.authorization
  {
    if req.authorization.None? then None
    else
      var h := req.authorization.value;
      var r := ReplaceFirst(h, BEARER, "");
      assert forall i :: FirstOccurrence(h, BEARER, i) ==> r == h[..i] + h[i + |BEARER|..] by {
        forall i | FirstOccurrence(h, BEARER, i)
          ensures r == h[..i] + h[i + |BEARER|..]
        {
          assert h[..i] + "" == h[..i];
        }
      }
      Some(r)
  }

  /** The header a client writes, "Bearer " followed by its token, yields
      exactly that token. */
  lemma BearerRoundTrip(req: Request, t: string)
    requires req.authorization == Some(BEARER + t)
    ensures BearerToken(req) == Some(t)
  {
    ReplaceLeading(BEARER, t, "");
    assert "" + t == t;
  }

  /** `getUserFromToken`: no user for a missing or empty token, for a token
      whose verification throws, or for claims without a `userId`;
      otherwise the user row with the decoded id, if there is one. */
  function GetUserFromToken(token: Option<string>, verify: string -> Option<Claims>, users: seq<User>): (r: Option<User>)
    ensures !Truthy(token) ==> r.None?
    ensures Truthy(token) && verify(token.value).None? ==> r.None?
    ensures r.Some? ==> r.value in users && Truthy(token) && verify(token.value) == Some(Claims(Some(r.value.id)))
    ensures forall id :: Truthy(token) && verify(token.value) == Some(Claims(Some(id))) && UserExists(users, id) ==>
      r.Some?
  {
    if !Truthy(token) then None
    else
      match verify(token.value)
      case None => None
      case Some(claims) =>
        if claims.userId.None? then None else FindUser(users, claims.userId.value)
  }

  /** `createContext({ req })`. */
  function CreateContext(req: Request, verify: string -> Option<Claims>, users: seq<User>): (ctx: Context)
    ensures ctx.user == GetUserFromToken(BearerToken(req), verify, users)
    ensures ctx.UserId().Some? ==> UserExists(users, ctx.UserId().value)
    ensures ctx.req == Some(req)
    ensures ctx.clientIp == ClientIp(Some(req)) && ctx.clientIp != ""
  {
    Context(GetUserFromToken(BearerToken(req), verify, users), Some(req), ClientIp(Some(req)))
  }

  /** `createSubscriptionContext(ctx)`: the token comes from the connection
      payload; ip and user agent fall back to "unknown". */
  function CreateSubscriptionContext(init: ConnectionInit, verify: string -> Option<Claims>, users: seq<User>): (ctx: SubscriptionContext)
    ensures ctx.user == GetUserFromToken(init.authToken, verify, users)
    ensures ctx.connectionInfo.ip == OrElse(init.socketAddress, UNKNOWN) && ctx.connectionInfo.ip != ""
    ensures ctx.connectionInfo.userAgent == OrElse(init.userAgent, UNKNOWN) && ctx.connectionInfo.userAgent != ""
  {
    SubscriptionContext(
      GetUserFromToken(init.authToken, verify, users),
      ConnectionInfo(OrElse(init.socketAddress, UNKNOWN), OrElse(init.userAgent, UNKNOWN)))
  }

  /** A request carrying "Bearer <token>" for a session credential that
      verifies resolves to the credential's user while that row exists,
      and to nobody once it is gone. */
  lemma SessionResolves(req: Request, t: string, verify: string -> Option<Claims>, users: seq<User>, userId: int)
    requires req.authorization == Some(BEARER + t) && t != ""
    requires verify(t) == Some(ClaimsOf(GenerateToken(userId)))
    ensures CreateContext(req, verify, users).UserId() == (if UserExists(users, userId) then Some(userId) else None)
  {
    BearerRoundTrip(req, t);
  }

  /** An administrator credential carries no `userId`, so a request bearing
      one resolves to an anonymous context. */
  lemma AdminCredentialIsAnonymous(req: Request, t: string, verify: string -> Option<Claims>, users: seq<User>, name: string)
    requires req.authorization == Some(BEARER + t)
    requires verify(t) == Some(ClaimsOf(AdminSession(name, ADMIN_TTL)))
    ensures CreateContext(req, verify, users).user.None?
  {
    BearerRoundTrip(req, t);
  }
}
