/**
 * Session tokens of the backend (backend/server.js): the claims login signs,
 * the signature-and-expiry check of `jwt.verify`, and `tokenMiddleware`, which
 * reads the `Authorization` header and answers 401, 403 or lets the route run.
 */
module Auth {
  import opened Wrappers
  import opened Strings

  /** `expiresIn: '7d'`, in seconds. */
  const TokenLifetime: int := 604800

  /** The decoded payload of a bearer token: the `user_id` and `email` login
      signs, and the issue and expiry times jsonwebtoken adds (in seconds). */
  datatype Claims = Claims(userId: string, email: string, iat: int, exp: int)

  /** The user a successful password sign-in reports. */
  datatype SessionUser = SessionUser(id: string, email: string)

  /** The claims of the token login signs at time `now`: the user's id and
      email, valid for seven days from `now`. */
  function Mint(user: SessionUser, now: int): Claims
  {
    Claims(user.id, user.email, now, now + TokenLifetime)
  }

  /** The reply of `POST /api/auth/login`: a token (shown by its claims) or
      401 "Invalid credentials". */
  datatype LoginReply = LoginToken(claims: Claims) | InvalidCredentials

  /** `POST /api/auth/login`, given what the credential store's password
      sign-in produced (`None` when it reported an error or no session). */
  function Login(session: Option<SessionUser>, now: int): (r: LoginReply)
    ensures r.InvalidCredentials? <==> session.None?
    ensures r.LoginToken? ==> r.claims.userId == session.value.id && r.claims.email == session.value.email
    ensures r.LoginToken? ==> r.claims.exp == now + TokenLifetime
  {
    match session
    case None => InvalidCredentials
    case Some(u) => LoginToken(Mint(u, now))
  }

  /** `jwt.verify(token, secret)` at time `now`: `decode` stands for the
      signature check of the library (it yields the payload of a token whose
      signature verifies); a token whose expiry time has been reached is refused. */
  function Verify(decode: string -> Option<Claims>, token: string, now: int): (r: Option<Claims>)
    ensures r.Some? <==> decode(token).Some? && now < decode(token).value.exp
    ensures r.Some? ==> r == decode(token)
  {
    match decode(token)
    case None => None
    case Some(c) => if now < c.exp then Some(c) else None
  }

  /** `req.headers.authorization?.split(' ')[1]`, with the falsy outcomes
      (no header, no second field, an empty second field) as `None`. */
  function BearerToken(header: Option<string>): (t: Option<string>)
    ensures t.Some? ==> t.value != "" && ' ' !in t.value
  {
    match header
    case None => None
    case Some(h) =>
      var fields := Split(h, ' ');
      if |fields| >= 2 && fields[1] != "" then Some(fields[1]) else None
  }

  /** What `tokenMiddleware` does with a request. */
  datatype Gate = Unauthorized | InvalidToken | Proceed(user: Claims)

  /** `tokenMiddleware`: 401 without a token, 403 when it does not verify,
      otherwise `req.user` is the decoded claims and the route runs. */
  function Middleware(header: Option<string>, decode: string -> Option<Claims>, now: int): (g: Gate)
    ensures g.Unauthorized? <==> BearerToken(header).None?
    ensures g.InvalidToken? <==> BearerToken(header).Some? && Verify(decode, BearerToken(header).value, now).None?
    ensures g.Proceed? ==> Some(g.user) == Verify(decode, BearerToken(header).value, now)
  {
    match BearerToken(header)
    case None => Unauthorized
    case Some(token) =>
      match Verify(decode, token, now)
      case None => InvalidToken
      case Some(c) => Proceed(c)
  }

  /** The HTTP status of a refused request. */
  function GateStatus(g: Gate): int
    requires !g.Proceed?
  {
    if g.Unauthorized? then 401 else 403
  }

  /** The three ways of carrying no token all answer 401: no header, a header
      with no second space-separated field, and an empty second field. */
  lemma MissingTokenCases(header: Option<string>, decode: string -> Option<Claims>, now: int)
    requires header.None? ||
             |Split(header.value, ' ')| < 2 ||
             Split(header.value, ' ')[1] == ""
    ensures Middleware(header, decode, now) == Unauthorized
  {
  }

  /** The field before the space is never looked at: any scheme word (not only
      `Bearer`) passes the token after it along. */
  lemma {:induction false} SchemeIgnored(scheme: string, token: string)
    requires ' ' !in scheme && ' ' !in token && token != ""
    ensures BearerToken(Some(scheme + " " + token)) == Some(token)
  {
    SplitFirstPiece(scheme, ' ', token);
    SplitSepFree(token, ' ');
    assert scheme + " " + token == scheme + [' '] + token;
  }

  /** Only the second space-separated field is taken: whatever follows a
      further space is ignored, so `Bearer abc def` carries the token `abc`. */
  lemma {:induction false} LaterFieldsIgnored(scheme: string, token: string, rest: string)
    requires ' ' !in scheme && ' ' !in token && token != ""
    ensures BearerToken(Some(scheme + " " + token + " " + rest)) == Some(token)
  {
    SplitFirstPiece(token, ' ', rest);
    SplitFirstPiece(scheme, ' ', token + [' '] + rest);
    assert scheme + " " + token + " " + rest == scheme + [' '] + (token + [' '] + rest);
  }

  /** `"Token abc"` is accepted as carrying the token `abc`. */
  lemma TokenSchemeExample()
    ensures BearerToken(Some("Token abc")) == Some("abc")
  {
    var h := "Token" + " " + "abc";
    assert h == "Token abc";
    SchemeIgnored("Token", "abc");
    assert BearerToken(Some(h)) == Some("abc");
  }

  /** The header the editor page sends, `Bearer <token>`, gets through the
      middleware exactly when the token verifies, and then with its claims. */
  lemma BearerHeaderVerdict(token: string, decode: string -> Option<Claims>, now: int)
    requires ' ' !in token && token != ""
    ensures Middleware(Some("Bearer " + token), decode, now) ==
      match Verify(decode, token, now)
      case None => InvalidToken
      case Some(c) => Proceed(c)
  {
    SchemeIgnored("Bearer", token);
    assert "Bearer" + " " + token == "Bearer " + token;
  }

  /** A token minted by login at time `issued` is accepted exactly while
      `now < issued + 604800`; once seven days have passed it answers 403. */
  lemma {:induction false} LoginTokenLifetime(token: string, user: SessionUser, issued: int,
                                               decode: string -> Option<Claims>, now: int)
    requires ' ' !in token && token != ""
    requires decode(token) == Some(Mint(user, issued))
    ensures Middleware(Some("Bearer " + token), decode, now) ==
      if now < issued + TokenLifetime then Proceed(Mint(user, issued)) else InvalidToken
  {
    BearerHeaderVerdict(token, decode, now);
  }
}
