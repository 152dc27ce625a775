/** Session tokens: issuing, verifying, and the three-stage check every protected route runs first. */
module Auth {
  import opened Wrappers

  /** Name of the session cookie. */
  const CookieName: string := "bank_token"

  /** `expiresIn: '7d'`, in seconds. */
  const TokenLifetime: int := 7 * 24 * 60 * 60

  /** The claims of a session token. */
  datatype Payload = Payload(userId: nat, iat: int, nonce: string, exp: int)

  /** The JSON Web Token library keyed with the server secret, as an opaque pair: `sign`, and the
      signature check of `verify`, which yields the claims of a token the secret signed. */
  datatype Jwt = Jwt(sign: Payload -> string, decode: string -> Option<Payload>)

  /** A signed token is never the empty string, and the signature check accepts what `sign`
      produced and gives back its claims. */
  ghost predicate Sound(jwt: Jwt) {
    forall p :: jwt.sign(p) != "" && jwt.decode(jwt.sign(p)) == Some(p)
  }

  /** `Math.floor(Date.now() / 1000)` for a millisecond clock reading. */
  function Seconds(nowMs: nat): int {
    nowMs / 1000
  }

  /** `generateToken`: the user id, the issue time in seconds and a random nonce, expiring seven days later. */
  function GenerateToken(jwt: Jwt, userId: nat, nowMs: nat, nonce: string): (token: string)
    ensures Sound(jwt) ==> token != ""
    ensures Sound(jwt) ==> jwt.decode(token) == Some(Payload(userId, nowMs / 1000, nonce, nowMs / 1000 + TokenLifetime))
  {
    jwt.sign(Payload(userId, Seconds(nowMs), nonce, Seconds(nowMs) + TokenLifetime))
  }

  /** `verifyToken`: the claims of a correctly signed, unexpired token; `None` instead of any error. */
  function VerifyToken(jwt: Jwt, token: string, nowMs: nat): (r: Option<Payload>)
    ensures r.Some? <==> jwt.decode(token).Some? && nowMs / 1000 < jwt.decode(token).value.exp
    ensures r.Some? ==> jwt.decode(token) == r
  {
    match jwt.decode(token)
    case None => None
    case Some(p) => if Seconds(nowMs) < p.exp then Some(p) else None
  }

  /** `findTokenInDb`: the owner stored for a token, if any. */
  function FindTokenInDb(tokens: map<string, nat>, token: string): (r: Option<nat>)
    ensures r.Some? <==> token in tokens
    ensures r.Some? ==> tokens[token] == r.value
  {
    if token in tokens then Some(tokens[token]) else None
  }

  /** What the middleware does with a request: hand it on with `req.userId` set (`next()` is called
      once), or answer it itself. */
  datatype Outcome = Next(userId: nat) | Reject(status: nat, error: string)

  /** `authMiddleware`: cookie present, then signature and expiry, then the stored owner. */
  function AuthMiddleware(cookies: map<string, string>, jwt: Jwt, tokens: map<string, nat>, nowMs: nat): (o: Outcome)
    ensures o.Reject? ==> o.status == 401
    ensures o.Next? ==> CookieName in cookies && FindTokenInDb(tokens, cookies[CookieName]) == Some(o.userId)
  {
    if CookieName !in cookies || cookies[CookieName] == "" then Reject(401, "Not authenticated")
    else
      var token := cookies[CookieName];
      match VerifyToken(jwt, token, nowMs)
      case None => Reject(401, "Invalid or expired token")
      case Some(payload) =>
        if FindTokenInDb(tokens, token) != Some(payload.userId) then Reject(401, "Token not found")
        else Next(payload.userId)
  }

  /** Each stage of the middleware rejects with its own message, in order. */
  lemma MiddlewareStages(cookies: map<string, string>, jwt: Jwt, tokens: map<string, nat>, nowMs: nat)
    ensures CookieName !in cookies || cookies[CookieName] == ""
            ==> AuthMiddleware(cookies, jwt, tokens, nowMs) == Reject(401, "Not authenticated")
    ensures CookieName in cookies && cookies[CookieName] != "" && VerifyToken(jwt, cookies[CookieName], nowMs).None?
            ==> AuthMiddleware(cookies, jwt, tokens, nowMs) == Reject(401, "Invalid or expired token")
    ensures CookieName in cookies && cookies[CookieName] != "" && VerifyToken(jwt, cookies[CookieName], nowMs).Some?
            && cookies[CookieName] !in tokens
            ==> AuthMiddleware(cookies, jwt, tokens, nowMs) == Reject(401, "Token not found")
    ensures CookieName in cookies && cookies[CookieName] != "" && cookies[CookieName] in tokens
            && VerifyToken(jwt, cookies[CookieName], nowMs).Some?
            && tokens[cookies[CookieName]] != VerifyToken(jwt, cookies[CookieName], nowMs).value.userId
            ==> AuthMiddleware(cookies, jwt, tokens, nowMs) == Reject(401, "Token not found")
  {
  }

  /** A request passes only with a signed, unexpired token whose stored owner is the id it claims,
      and that id is what the handler sees. */
  lemma MiddlewareAccepts(cookies: map<string, string>, jwt: Jwt, tokens: map<string, nat>, nowMs: nat)
    ensures AuthMiddleware(cookies, jwt, tokens, nowMs).Next? <==>
            && CookieName in cookies && cookies[CookieName] != ""
            && VerifyToken(jwt, cookies[CookieName], nowMs).Some?
            && cookies[CookieName] in tokens
            && tokens[cookies[CookieName]] == VerifyToken(jwt, cookies[CookieName], nowMs).value.userId
    ensures AuthMiddleware(cookies, jwt, tokens, nowMs).Next? ==>
            && FindTokenInDb(tokens, cookies[CookieName]) == Some(AuthMiddleware(cookies, jwt, tokens, nowMs).userId)
            && VerifyToken(jwt, cookies[CookieName], nowMs).value.userId == AuthMiddleware(cookies, jwt, tokens, nowMs).userId
  {
  }

  /** `storeToken` then `findTokenInDb`: a newly stored token resolves to its owner and no other
      token's owner changes. */
  lemma StoreThenFind(tokens: map<string, nat>, token: string, userId: nat, other: string)
    requires token !in tokens
    ensures FindTokenInDb(tokens[token := userId], token) == Some(userId)
    ensures other != token ==> FindTokenInDb(tokens[token := userId], other) == FindTokenInDb(tokens, other)
  {
  }

  /** A stored token issued to `userId` is accepted for `userId` until it expires and rejected as
      expired afterwards, whatever else happened to the session meanwhile. */
  lemma IssuedTokenLifetime(jwt: Jwt, tokens: map<string, nat>, userId: nat, issuedMs: nat, nonce: string,
                            cookies: map<string, string>, nowMs: nat)
    requires Sound(jwt)
    requires CookieName in cookies && cookies[CookieName] == GenerateToken(jwt, userId, issuedMs, nonce)
    requires FindTokenInDb(tokens, cookies[CookieName]) == Some(userId)
    ensures Seconds(nowMs) < Seconds(issuedMs) + TokenLifetime ==> AuthMiddleware(cookies, jwt, tokens, nowMs) == Next(userId)
    ensures Seconds(nowMs) >= Seconds(issuedMs) + TokenLifetime ==> AuthMiddleware(cookies, jwt, tokens, nowMs) == Reject(401, "Invalid or expired token")
  {
  }
}
