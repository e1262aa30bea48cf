/** backend/middleware/auth.js: bearer-token extraction, the verifyToken gate
    and the two token issuers. The JSON Web Token library is a pair of functions
    handed in from outside (`Jwt`); nothing here depends on how it signs. */
module AuthMiddleware {
  import opened Wrappers
  import opened Strings
  import opened Http

  /** The payload of a token: `{ userId, email }` for an access token and
      `{ userId }` for a refresh token. */
  datatype Claims = Claims(userId: string, email: Option<string>)

  /** One call of `jwt.sign(payload, secret, { expiresIn })` at instant issuedAt;
      the secret is `process.env.JWT_SECRET`, which may be unset. */
  datatype SignCall = SignCall(claims: Claims, secret: Field, expiresIn: string, issuedAt: int)

  /** The token library: `sign` and `verify(token, secret, now)`. Each answers
      None where the library throws: `sign` when the secret is unset or empty or
      the `expiresIn` text is not a duration it reads, `verify` on a missing
      secret, a bad signature, a malformed or an expired token. */
  datatype Jwt = Jwt(sign: SignCall -> Option<string>, verify: (string, Field, int) -> Option<Claims>)

  /** JWT_SECRET, JWT_EXPIRY and REFRESH_TOKEN_EXPIRY from the environment. */
  datatype Config = Config(jwtSecret: Field, jwtExpiry: Field, refreshTokenExpiry: Field)

  const DefaultAccessExpiry := "24h"
  const DefaultRefreshExpiry := "7d"

  /** `value || fallback` on an environment string. */
  function SettingOr(value: Field, fallback: string): (r: string)
    ensures Present(value) ==> r == value.value
    ensures !Present(value) ==> r == fallback
  {
    if Present(value) then value.value else fallback
  }

  /** The sign call behind `generateToken(userId, email)`. */
  function AccessTokenCall(cfg: Config, userId: string, email: string, now: int): (c: SignCall)
    ensures c.claims.userId == userId && c.claims.email == Some(email)
    ensures c.secret == cfg.jwtSecret && c.issuedAt == now
    ensures c.expiresIn != ""
    ensures Present(cfg.jwtExpiry) ==> c.expiresIn == cfg.jwtExpiry.value
    ensures !Present(cfg.jwtExpiry) ==> c.expiresIn == DefaultAccessExpiry
  {
    SignCall(Claims(userId, Some(email)), cfg.jwtSecret, SettingOr(cfg.jwtExpiry, DefaultAccessExpiry), now)
  }

  /** The sign call behind `generateRefreshToken(userId)`: the same secret and no
      email claim. */
  function RefreshTokenCall(cfg: Config, userId: string, now: int): (c: SignCall)
    ensures c.claims.userId == userId && c.claims.email == None
    ensures c.secret == cfg.jwtSecret && c.issuedAt == now
    ensures c.expiresIn != ""
    ensures Present(cfg.refreshTokenExpiry) ==> c.expiresIn == cfg.refreshTokenExpiry.value
    ensures !Present(cfg.refreshTokenExpiry) ==> c.expiresIn == DefaultRefreshExpiry
  {
    SignCall(Claims(userId, None), cfg.jwtSecret, SettingOr(cfg.refreshTokenExpiry, DefaultRefreshExpiry), now)
  }

  /** `generateToken(userId, email)`; None where `jwt.sign` throws. */
  function GenerateToken(jwt: Jwt, cfg: Config, userId: string, email: string, now: int): (t: Option<string>)
    ensures t == jwt.sign(SignCall(Claims(userId, Some(email)), cfg.jwtSecret,
                                   if Present(cfg.jwtExpiry) then cfg.jwtExpiry.value else DefaultAccessExpiry, now))
  {
    jwt.sign(AccessTokenCall(cfg, userId, email, now))
  }

  /** `generateRefreshToken(userId)`; None where `jwt.sign` throws. */
  function GenerateRefreshToken(jwt: Jwt, cfg: Config, userId: string, now: int): (t: Option<string>)
    ensures t == jwt.sign(SignCall(Claims(userId, None), cfg.jwtSecret,
                                   if Present(cfg.refreshTokenExpiry) then cfg.refreshTokenExpiry.value else DefaultRefreshExpiry, now))
  {
    jwt.sign(RefreshTokenCall(cfg, userId, now))
  }

  /** `req.headers.authorization?.split(' ')[1]`, kept only when truthy. */
  function ExtractToken(authorization: Field): (token: Field)
    ensures token.Some? ==> token.value != "" && ' ' !in token.value
  {
    match authorization
    case None => None
    case Some(h) =>
      var parts := Split(h, ' ');
      JoinSplit(h, ' ');
      if |parts| >= 2 && parts[1] != "" then Some(parts[1]) else None
  }

  /** The token is the second space-separated word: whatever comes before the
      first space (normally "Bearer") is not looked at. */
  lemma SecondWordExtracted(w: string, token: string, rest: string)
    requires ' ' !in w && ' ' !in token && token != ""
    requires rest == [] || rest[0] == ' '
    ensures ExtractToken(Some(w + [' '] + token + rest)) == Some(token)
  {
    assert w + [' '] + token + rest == w + [' '] + (token + rest);
    SplitHead(w, token + rest, ' ');
    if rest == [] {
      assert token + rest == token;
      SplitWhole(token, ' ');
    } else {
      assert token + rest == token + [' '] + rest[1..];
      SplitHead(token, rest[1..], ' ');
    }
  }

  /** Conversely, an extracted token is such a second word of the header. */
  lemma ExtractedIsSecondWord(h: string) returns (w: string, rest: string)
    requires ExtractToken(Some(h)).Some?
    ensures ' ' !in w
    ensures rest == [] || rest[0] == ' '
    ensures h == w + [' '] + ExtractToken(Some(h)).value + rest
  {
    var parts := Split(h, ' ');
    JoinSplit(h, ' ');
    w := parts[0];
    var t := parts[1];
    assert ' ' !in w;
    assert Join(parts, ' ') == w + [' '] + Join(parts[1..], ' ');
    if |parts| == 2 {
      rest := [];
      assert Join(parts[1..], ' ') == t;
    } else {
      rest := [' '] + Join(parts[2..], ' ');
      assert parts[1..][1..] == parts[2..];
      assert Join(parts[1..], ' ') == t + [' '] + Join(parts[2..], ' ');
    }
    assert h == w + [' '] + t + rest;
  }

  /** A header with no space, or nothing after the first space, carries no token. */
  lemma NoSpaceNoToken(h: string)
    requires ' ' !in h
    ensures ExtractToken(Some(h)) == None
  {
    SplitWhole(h, ' ');
  }

  /** What verifyToken does with a request: let it through with the decoded
      claims, or answer it. */
  datatype GateResult = Admit(claims: Claims) | Reject(response: Response)

  function NoToken(): Response {
    Fail(401, "No token provided", "UNAUTHORIZED")
  }

  function BadToken(): Response {
    Fail(401, "Invalid or expired token", "UNAUTHORIZED")
  }

  /** The decision of `verifyToken` (auth.js lines 3-25). */
  function Gate(jwt: Jwt, cfg: Config, authorization: Field, now: int): (g: GateResult)
    ensures g.Reject? ==> g.response == NoToken() || g.response == BadToken()
    ensures g.Reject? && g.response == NoToken() <==> ExtractToken(authorization).None?
    ensures g.Admit? <==>
      ExtractToken(authorization).Some? && jwt.verify(ExtractToken(authorization).value, cfg.jwtSecret, now).Some?
  {
    match ExtractToken(authorization)
    case None => Reject(NoToken())
    case Some(token) =>
      match jwt.verify(token, cfg.jwtSecret, now)
      case None => Reject(BadToken())
      case Some(claims) => Admit(claims)
  }

  /** The one law the model asks of the token library where it is used: the call
      signs, and the token is one word that verifies, with the same secret, to
      the claims it was signed with. */
  predicate SoundAt(jwt: Jwt, call: SignCall, now: int) {
    jwt.sign(call).Some?
    && var token := jwt.sign(call).value;
    token != "" && ' ' !in token && jwt.verify(token, call.secret, now) == Some(call.claims)
  }

  /** A freshly issued access token, sent as `Bearer <token>`, is let through
      with exactly the claims it was issued for. */
  lemma AccessTokenAdmitted(jwt: Jwt, cfg: Config, userId: string, email: string, issued: int, now: int)
    requires SoundAt(jwt, AccessTokenCall(cfg, userId, email, issued), now)
    ensures Gate(jwt, cfg, Some("Bearer " + GenerateToken(jwt, cfg, userId, email, issued).value), now)
            == Admit(Claims(userId, Some(email)))
  {
    var t := GenerateToken(jwt, cfg, userId, email, issued).value;
    assert "Bearer " + t == "Bearer" + [' '] + t + [];
    SecondWordExtracted("Bearer", t, []);
  }

  /** Both kinds of token are signed with the same secret and carry no type
      claim, so a refresh token opens every protected route as well; the
      handler then sees no email. */
  lemma RefreshTokenAdmitted(jwt: Jwt, cfg: Config, userId: string, issued: int, now: int)
    requires SoundAt(jwt, RefreshTokenCall(cfg, userId, issued), now)
    ensures Gate(jwt, cfg, Some("Bearer " + GenerateRefreshToken(jwt, cfg, userId, issued).value), now)
            == Admit(Claims(userId, None))
  {
    var t := GenerateRefreshToken(jwt, cfg, userId, issued).value;
    assert "Bearer " + t == "Bearer" + [' '] + t + [];
    SecondWordExtracted("Bearer", t, []);
  }

  /** The scheme word is never checked: any one word in front gives the same
      decision as "Bearer". */
  lemma SchemeIgnored(jwt: Jwt, cfg: Config, w: string, token: string, now: int)
    requires ' ' !in w && ' ' !in token && token != ""
    ensures Gate(jwt, cfg, Some(w + " " + token), now) == Gate(jwt, cfg, Some("Bearer " + token), now)
  {
    assert w + " " + token == w + [' '] + token + [];
    assert "Bearer " + token == "Bearer" + [' '] + token + [];
    SecondWordExtracted(w, token, []);
    SecondWordExtracted("Bearer", token, []);
  }

  /** The request and response objects the middleware touches: `req.user`,
      whether `next()` was called, and the answer sent, if any. */
  class Exchange {
    var user: Option<Claims>
    var proceeded: bool
    var sent: Option<Response>

    constructor ()
      ensures user == None && !proceeded && sent == None
    {
      user := None;
      proceeded := false;
      sent := None;
    }
  }

  /** `verifyToken(req, res, next)`: on a good token sets `req.user` and calls
      `next()`; otherwise sends the 401 answer and stops the chain. */
  method VerifyToken(ex: Exchange, jwt: Jwt, cfg: Config, authorization: Field, now: int)
    modifies ex
    ensures Gate(jwt, cfg, authorization, now).Admit? ==>
      ex.user == Some(Gate(jwt, cfg, authorization, now).claims) && ex.proceeded && ex.sent == old(ex.sent)
    ensures Gate(jwt, cfg, authorization, now).Reject? ==>
      ex.sent == Some(Gate(jwt, cfg, authorization, now).response)
      && ex.proceeded == old(ex.proceeded) && ex.user == old(ex.user)
  {
    var token := ExtractToken(authorization);
    if token.None? {
      ex.sent := Some(NoToken());
      return;
    }
    var decoded := jwt.verify(token.value, cfg.jwtSecret, now);
    if decoded.None? {
      ex.sent := Some(BadToken());
      return;
    }
    ex.user := decoded;
    ex.proceeded := true;
  }
}
