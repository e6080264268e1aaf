/**
 * server/middlewares/authenticateToken.ts: take the token from the
 * Authorization header, answer 401 when there is none and 403 when it does
 * not verify, and otherwise pass the decoded claims on to the route.
 */
module AuthMiddleware {
  import opened Wrappers
  import opened Text
  import opened Jwt
  import opened Http

  /** `req.headers['authorization']`. */
  function AuthorizationHeader(req: Request): Option<string> {
    if "authorization" in req.headers then Some(req.headers["authorization"]) else None
  }

  /**
   * `authHeader && authHeader.split(' ')[1]`, kept only when it is a non-empty
   * string: the second space-separated field. The first word is not looked at.
   */
  function BearerToken(authorization: Option<string>): (token: Option<string>)
    ensures token.Some? ==> token.value != "" && ' ' !in token.value
    ensures token.Some? ==> authorization.Some? && ' ' in authorization.value
  {
    match authorization
    case None => None
    case Some(header) =>
      var fields := Split(header, ' ');
      if |fields| >= 2 && fields[1] != "" then
        assert ' ' in header by {
          assert Join(fields, ' ') == fields[0] + [' '] + Join(fields[1..], ' ');
          assert (fields[0] + [' '] + Join(fields[1..], ' '))[|fields[0]|] == ' ';
        }
        Some(fields[1])
      else None
  }

  /** Any first word, one space, and a token without spaces: the token is read back. */
  lemma BearerTokenOf(scheme: string, token: string)
    requires ' ' !in scheme && ' ' !in token && token != ""
    ensures BearerToken(Some(scheme + " " + token)) == Some(token)
  {
    SplitFirstField(scheme, ' ', token);
    SplitWithoutSep(token, ' ');
  }

  /** Two spaces after the first word leave the second field empty: no token, even if one follows. */
  lemma DoubleSpaceIsMissing(scheme: string, rest: string)
    requires ' ' !in scheme
    ensures BearerToken(Some(scheme + " " + " " + rest)) == None
  {
    assert scheme + " " + " " + rest == scheme + [' '] + ("" + [' '] + rest);
    SplitFirstField(scheme, ' ', "" + [' '] + rest);
    SplitFirstField("", ' ', rest);
  }

  /** A first word followed only by a space carries no token. */
  lemma TrailingSpaceIsMissing(scheme: string)
    requires ' ' !in scheme
    ensures BearerToken(Some(scheme + " ")) == None
  {
    assert scheme + " " == scheme + [' '] + "";
    SplitFirstField(scheme, ' ', "");
  }

  /** With three or more fields the second one is the token; the rest of the header is ignored. */
  lemma SecondOfMany(scheme: string, token: string, rest: string)
    requires ' ' !in scheme && ' ' !in token && token != ""
    ensures BearerToken(Some(scheme + " " + token + " " + rest)) == Some(token)
  {
    assert scheme + " " + token + " " + rest == scheme + [' '] + (token + [' '] + rest);
    SplitFirstField(scheme, ' ', token + [' '] + rest);
    SplitFirstField(token, ' ', rest);
  }

  /** Where the route goes on: it either answers at once, or calls `next()` with `req.user` set. */
  datatype Gate = Respond(response: Response) | Next(user: Payload)

  const MissingTokenError := "Login Invalid or Token missing"

  /**
   * `authenticateToken(req, res, next)` with the server's secret and clock.
   * `req.userId` is `user.claims.id` of the `Next` outcome.
   */
  function AuthenticateToken(req: Request, secret: string, now: int): (g: Gate)
    ensures BearerToken(AuthorizationHeader(req)).None? <==>
              g == Respond(Reply(401, ErrorJson(MissingTokenError)))
    ensures forall e :: (BearerToken(AuthorizationHeader(req)).Some? &&
                         Verify(BearerToken(AuthorizationHeader(req)).value, secret, now) == Invalid(e)) <==>
                        g == Respond(Reply(403, ErrorDetailJson("Unauthorized", e)))
    ensures forall p :: (BearerToken(AuthorizationHeader(req)).Some? &&
                         Verify(BearerToken(AuthorizationHeader(req)).value, secret, now) == Valid(p)) <==>
                        g == Next(p)
  {
    match BearerToken(AuthorizationHeader(req))
    case None => Respond(Reply(401, ErrorJson(MissingTokenError)))
    case Some(token) =>
      match Verify(token, secret, now)
      case Invalid(e) => Respond(Reply(403, ErrorDetailJson("Unauthorized", e)))
      case Valid(p) => Next(p)
  }

  /** Only the Authorization header is read: a token carried in a cookie alone gives 401. */
  lemma CookieOnlyIsMissing(req: Request, secret: string, now: int)
    requires "authorization" !in req.headers
    ensures AuthenticateToken(req, secret, now).Respond?
    ensures AuthenticateToken(req, secret, now).response.status == 401
  {
  }

  /** A header with no space in it carries no token, whatever it says. */
  lemma NoSpaceIsMissing(req: Request, secret: string, now: int)
    requires "authorization" in req.headers && ' ' !in req.headers["authorization"]
    ensures AuthenticateToken(req, secret, now) == Respond(Reply(401, ErrorJson(MissingTokenError)))
  {
  }

  /** A request bearing a freshly signed token reaches the route with exactly the signed claims. */
  lemma SignedTokenPasses(req: Request, scheme: string, claims: Claims, secret: string, iat: int, expiresIn: int, now: int)
    requires ' ' !in scheme
    requires "authorization" in req.headers
    requires req.headers["authorization"] == scheme + " " + Sign(claims, secret, iat, expiresIn)
    requires now < iat + expiresIn
    ensures AuthenticateToken(req, secret, now) == Next(Payload(claims, iat, iat + expiresIn))
  {
    BearerTokenOf(scheme, Sign(claims, secret, iat, expiresIn));
    VerifySign(claims, secret, iat, expiresIn, now);
  }

  /** The same request once the token has expired: 403, never 401. */
  lemma ExpiredTokenForbidden(req: Request, scheme: string, claims: Claims, secret: string, iat: int, expiresIn: int, now: int)
    requires ' ' !in scheme
    requires "authorization" in req.headers
    requires req.headers["authorization"] == scheme + " " + Sign(claims, secret, iat, expiresIn)
    requires now >= iat + expiresIn
    ensures AuthenticateToken(req, secret, now) == Respond(Reply(403, ErrorDetailJson("Unauthorized", Expired)))
  {
    BearerTokenOf(scheme, Sign(claims, secret, iat, expiresIn));
    VerifyExpired(claims, secret, iat, expiresIn, now);
  }
}
