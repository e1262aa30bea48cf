/** backend/controllers/authController.js: the OTP login over the cache and the
    users table, login by e-mail, logout and token refresh. */
module AuthController {
  import opened Wrappers
  import opened Strings
  import opened Validators
  import opened Kv
  import opened Schema
  import opened Tables
  import opened Http
  import opened AuthMiddleware
  import opened Backend

  /** Both cache entries of a login live for 300 seconds. */
  const OtpTtlSeconds: nat := 300

  /** `'session_' + Date.now() + '_' + Math.random().toString(36).substr(2, 9)`. */
  function SessionId(now: nat, rand: string): (sid: string)
    ensures StartsWith(sid, "session_")
  {
    GenerateId("session_", now, rand)
  }

  /** The two cache writes of requestOTP: the code under the phone and the phone
      under the session, both readable until the TTL runs out and gone after. */
  function IssueOtp(kv: Cache, phone: string, code: string, sid: string, now: int): (r: Cache)
    ensures forall t :: Get(r, OtpKey(phone), t) == (if t < now + OtpTtlSeconds * MsPerSecond then Some(code) else None)
    ensures forall t :: Get(r, SessionKey(sid), t) == (if t < now + OtpTtlSeconds * MsPerSecond then Some(phone) else None)
    ensures forall k, t | k != OtpKey(phone) && k != SessionKey(sid) :: Get(r, k, t) == Get(kv, k, t)
    ensures ValidatePhone(phone) && SessionsHoldPhones(kv) ==> SessionsHoldPhones(r)
  {
    CacheKeysApart(phone, phone, sid, sid);
    SetEx(SetEx(kv, OtpKey(phone), OtpTtlSeconds, code, now), SessionKey(sid), OtpTtlSeconds, phone, now)
  }

  /** The two deletions at the end of a successful verifyOTP. */
  function ConsumeOtp(kv: Cache, phone: string, sid: string): (r: Cache)
    ensures forall t :: Get(r, OtpKey(phone), t) == None && Get(r, SessionKey(sid), t) == None
    ensures forall k, t | k != OtpKey(phone) && k != SessionKey(sid) :: Get(r, k, t) == Get(kv, k, t)
    ensures SessionsHoldPhones(kv) ==> SessionsHoldPhones(r)
  {
    Del(Del(kv, OtpKey(phone)), SessionKey(sid))
  }

  /** `requestOTP` (lines 8-44). A phone that is missing or not of the accepted
      format is refused with 422 and nothing is written; otherwise the code and
      the session are stored for 300 seconds and the session id, never the code,
      is answered. */
  method RequestOtp(s: Store, phone: Field, draw: nat, rand: string, now: nat) returns (r: Response)
    requires s.Valid() && draw < 900000
    modifies s
    ensures s.Valid()
    ensures s.Tables() == old(s.Tables())
    ensures !(Present(phone) && ValidatePhone(phone.value)) ==>
      r == Fail(422, "Invalid phone number format", "INVALID_PHONE") && s.kv == old(s.kv)
    ensures Present(phone) && ValidatePhone(phone.value) ==>
      r == Ok(200, OtpSent("OTP sent to your phone", OtpTtlSeconds, SessionId(now, rand)))
      && s.kv == IssueOtp(old(s.kv), phone.value, GenerateOtp(draw), SessionId(now, rand), now)
  {
    if !Present(phone) || !ValidatePhone(phone.value) {
      return Fail(422, "Invalid phone number format", "INVALID_PHONE");
    }
    var otp := GenerateOtp(draw);
    var sessionId := SessionId(now, rand);
    s.kv := IssueOtp(s.kv, phone.value, otp, sessionId, now);
    r := Ok(200, OtpSent("OTP sent to your phone", OtpTtlSeconds, sessionId));
  }

  function InvalidSession(): Response {
    Fail(401, "Invalid session", "INVALID_SESSION")
  }

  function InvalidOtp(): Response {
    Fail(401, "Invalid or expired OTP", "INVALID_OTP")
  }

  /** The three refusals of verifyOTP (lines 51-77), checked in this order, or
      None when the request gets through to the users table. */
  function OtpCheck(kv: Cache, phone: Field, otp: Field, sessionId: Field, now: int): (g: Option<Response>)
    ensures g == Some(Fail(422, "Missing required fields", "INVALID_REQUEST")) <==>
      !(Present(phone) && Present(otp) && Present(sessionId))
    ensures g == Some(InvalidSession()) <==>
      Present(phone) && Present(otp) && Present(sessionId) && Get(kv, SessionKey(sessionId.value), now) != Some(phone.value)
    ensures g == Some(InvalidOtp()) <==>
      Present(phone) && Present(otp) && Present(sessionId) && Get(kv, SessionKey(sessionId.value), now) == Some(phone.value)
      && Get(kv, OtpKey(phone.value), now) != Some(otp.value)
    ensures g.None? <==>
      Present(phone) && Present(otp) && Present(sessionId)
      && Get(kv, SessionKey(sessionId.value), now) == Some(phone.value)
      && Get(kv, OtpKey(phone.value), now) == Some(otp.value)
  {
    if !Present(phone) || !Present(otp) || !Present(sessionId) then
      Some(Fail(422, "Missing required fields", "INVALID_REQUEST"))
    else
      var sessionPhone := Get(kv, SessionKey(sessionId.value), now);
      if !Present(sessionPhone) || sessionPhone.value != phone.value then Some(InvalidSession())
      else
        var storedOtp := Get(kv, OtpKey(phone.value), now);
        if !Present(storedOtp) || storedOtp.value != otp.value then Some(InvalidOtp())
        else None
  }

  /** A session that got through the check names a phone of the accepted format,
      because only requestOTP writes session keys. */
  lemma CheckedPhoneValid(kv: Cache, phone: Field, otp: Field, sessionId: Field, now: int)
    requires SessionsHoldPhones(kv)
    requires OtpCheck(kv, phone, otp, sessionId, now).None?
    ensures ValidatePhone(phone.value)
  {
    assert SessionKey(sessionId.value) in kv;
  }

  /** The e-mail a user supplied is used only when it is of the accepted format. */
  predicate UsesGivenEmail(email: Field) {
    Present(email) && ValidateEmail(email.value)
  }

  /** `user_{phone}@carqr.app` */
  function FallbackEmail(phone: string): string {
    "user_" + phone + "@carqr.app"
  }

  /** `email && validateEmail(email) ? email : ...` (line 80): the result is always
      of the accepted format when the phone is. */
  function LoginEmail(phone: string, email: Field): (e: string)
    ensures UsesGivenEmail(email) ==> e == email.value
    ensures !UsesGivenEmail(email) ==> e == FallbackEmail(phone)
    ensures ValidatePhone(phone) ==> ValidateEmail(e)
  {
    if UsesGivenEmail(email) then email.value
    else
      FallbackEmailValid(phone);
      FallbackEmail(phone)
  }

  /** The generated address `user_{phone}@carqr.app` passes validateEmail. */
  lemma FallbackEmailValid(phone: string)
    ensures ValidatePhone(phone) ==> ValidateEmail(FallbackEmail(phone))
  {
    if !ValidatePhone(phone) {
      return;
    }
    PhoneFormat(phone);
    var e := FallbackEmail(phone);
    assert |e| == 25;
    assert e[..15] == "user_" + phone;
    assert e[15] == '@';
    assert e[16..21] == "carqr";
    assert e[21] == '.';
    assert e[22..] == "app";
    assert forall k | 0 <= k < 10 :: EmailChar(phone[k]);
    assert forall k | 0 <= k < 15 :: EmailChar(e[k]) by {
      forall k | 0 <= k < 15 ensures EmailChar(e[k]) {
        if k >= 5 { assert e[k] == phone[k - 5]; }
      }
    }
    assert EmailRun(e[..15]);
    assert EmailMatchAt(e, 15, 21);
  }

  /** The row verifyOTP inserts for a phone seen for the first time (lines 101-105). */
  function NewUser(id: string, email: string, phone: string, now: int): (u: User)
    ensures u.id == id && u.email == email && u.phone == phone
    ensures !u.isPremium && u.plan == "basic" && !u.hasCarInfo && u.selectedTemplate == "modern"
    ensures u.premiumExpiryDate == None && u.createdAt == now
  {
    User(id, email, phone, false, "basic", false, "modern", None, now, now)
  }

  /** The users table after the login's write: a new row for a phone seen for
      the first time, the supplied e-mail on the existing row when it is valid,
      no change otherwise; None when the database refuses the write. The write
      keeps the table's constraints and loses no row, and rows written for a
      phone of the accepted format are well formed. */
  function LoginWrite(users: Users, phone: string, email: Field, newId: string, now: int): (w: Option<Users>)
    requires UsersOk(users)
    ensures w.Some? ==> UsersOk(w.value) && users.Keys <= w.value.Keys
    ensures w.Some? && UsersWellFormed(users) && ValidatePhone(phone) ==> UsersWellFormed(w.value)
    ensures HasPhone(users, phone) && !UsesGivenEmail(email) ==> w == Some(users)
  {
    var found := UserByPhone(users, phone);
    if found.None? then AddUser(users, NewUser(newId, LoginEmail(phone, email), phone, now))
    else if UsesGivenEmail(email) then SetEmail(users, found.value.id, email.value)
    else Some(users)
  }

  /** Both tokens of a login answer could be issued for that user. */
  predicate IssuesPair(jwt: Jwt, cfg: Config, id: string, email: string, now: int) {
    GenerateToken(jwt, cfg, id, email, now).Some? && GenerateRefreshToken(jwt, cfg, id, now).Some?
  }

  /** The answer of both logins: the user object and a fresh token pair issued
      for the id and e-mail of that object. When `jwt.sign` throws (an unset
      JWT_SECRET, say) the catch answers 500 instead, after every write the
      handler has already made. */
  function LoginAnswer(jwt: Jwt, cfg: Config, user: UserView, now: int): (r: Response)
    ensures r.status == 200 <==> IssuesPair(jwt, cfg, user.id, user.email, now)
    ensures r.status != 200 ==> r == ServerError()
    ensures r.status == 200 ==>
      r == Ok(200, LoggedIn(user, GenerateToken(jwt, cfg, user.id, user.email, now).value,
                            GenerateRefreshToken(jwt, cfg, user.id, now).value))
  {
    match (GenerateToken(jwt, cfg, user.id, user.email, now), GenerateRefreshToken(jwt, cfg, user.id, now))
    case (Some(token), Some(refresh)) => Ok(200, LoggedIn(user, token, refresh))
    case _ => ServerError()
  }

  /** The part of `verifyOTP` after the checks (lines 79-150), for a phone of
      the accepted format: the user's row is found, updated or inserted, both
      cache keys are deleted and the login is answered. A write the database
      refuses answers 500 and leaves the store as it was. */
  method CompleteLogin(s: Store, jwt: Jwt, cfg: Config, p: string, email: Field, sid: string,
                       userSuffix: string, now: nat) returns (r: Response)
    requires s.Valid() && ValidatePhone(p)
    modifies s
    ensures s.Valid()
    ensures s.cars == old(s.cars) && s.scans == old(s.scans)
    ensures s.qrCodes == old(s.qrCodes) && s.payments == old(s.payments)
    ensures var found := UserByPhone(old(s.users), p);
      var newId := GenerateUserId(now, userSuffix);
      var written := LoginWrite(old(s.users), p, email, newId, now);
      var user := if found.Some? then found.value else NewUser(newId, LoginEmail(p, email), p, now);
      if written.None? then
        r == ServerError() && s.users == old(s.users) && s.kv == old(s.kv)
      else
        r == LoginAnswer(jwt, cfg, ViewOfUser(user), now)
        && s.users == written.value
        && s.kv == ConsumeOtp(old(s.kv), p, sid)
  {
    var userEmail := LoginEmail(p, email);
    var existing := UserByPhone(s.users, p);
    var written := LoginWrite(s.users, p, email, GenerateUserId(now, userSuffix), now);
    var user: User;
    if existing.Some? {
      if UsesGivenEmail(email) {
        var updated := SetEmail(s.users, existing.value.id, userEmail);
        if updated.None? {
          return ServerError();
        }
        assert updated == written;
        UsersChangeKeepsConsistent(s.users, updated.value, s.cars, s.scans, s.qrCodes, s.payments);
        s.users := updated.value;
      }
      user := existing.value;
    } else {
      var row := NewUser(GenerateUserId(now, userSuffix), userEmail, p, now);
      var added := AddUser(s.users, row);
      if added.None? {
        return ServerError();
      }
      assert added == written;
      UsersChangeKeepsConsistent(s.users, added.value, s.cars, s.scans, s.qrCodes, s.payments);
      s.users := added.value;
      user := row;
    }
    s.kv := ConsumeOtp(s.kv, p, sid);
    r := LoginAnswer(jwt, cfg, ViewOfUser(user), now);
  }

  /** `verifyOTP` (lines 47-153). A refused request changes nothing. An accepted
      one finds the user by phone: an existing user gets the supplied e-mail only
      when it is valid (and is answered with the row as read before that update);
      a new phone gets a new user. Then both cache keys are deleted. A write the
      database refuses answers 500 and leaves the store, cache included, as it
      was. */
  method VerifyOtp(s: Store, jwt: Jwt, cfg: Config, phone: Field, otp: Field, email: Field,
                   sessionId: Field, userSuffix: string, now: nat) returns (r: Response)
    requires s.Valid()
    modifies s
    ensures s.Valid()
    ensures s.cars == old(s.cars) && s.scans == old(s.scans)
    ensures s.qrCodes == old(s.qrCodes) && s.payments == old(s.payments)
    ensures OtpCheck(old(s.kv), phone, otp, sessionId, now).Some? ==>
      r == OtpCheck(old(s.kv), phone, otp, sessionId, now).value
      && s.users == old(s.users) && s.kv == old(s.kv)
    ensures OtpCheck(old(s.kv), phone, otp, sessionId, now).None? ==>
      var found := UserByPhone(old(s.users), phone.value);
      var newId := GenerateUserId(now, userSuffix);
      var written := LoginWrite(old(s.users), phone.value, email, newId, now);
      var user := if found.Some? then found.value else NewUser(newId, LoginEmail(phone.value, email), phone.value, now);
      if written.None? then
        r == ServerError() && s.users == old(s.users) && s.kv == old(s.kv)
      else
        r == LoginAnswer(jwt, cfg, ViewOfUser(user), now)
        && s.users == written.value
        && s.kv == ConsumeOtp(old(s.kv), phone.value, sessionId.value)
  {
    var refusal := OtpCheck(s.kv, phone, otp, sessionId, now);
    if refusal.Some? {
      return refusal.value;
    }
    CheckedPhoneValid(s.kv, phone, otp, sessionId, now);
    r := CompleteLogin(s, jwt, cfg, phone.value, email, sessionId.value, userSuffix, now);
  }

  /** A code just issued is accepted with its session until the TTL runs out and
      refused as an invalid session from then on. */
  lemma IssuedOtpAccepted(kv: Cache, phone: string, code: string, sid: string, issued: int, now: int)
    requires phone != "" && code != "" && sid != ""
    ensures now < issued + OtpTtlSeconds * MsPerSecond ==>
      OtpCheck(IssueOtp(kv, phone, code, sid, issued), Some(phone), Some(code), Some(sid), now).None?
    ensures now >= issued + OtpTtlSeconds * MsPerSecond ==>
      OtpCheck(IssueOtp(kv, phone, code, sid, issued), Some(phone), Some(code), Some(sid), now) == Some(InvalidSession())
  {
  }

  /** Codes are single use: once a login has consumed the keys, the same phone,
      code and session are refused as an invalid session. */
  lemma ReplayRefused(kv: Cache, phone: string, code: string, sid: string, now: int)
    requires phone != "" && code != "" && sid != ""
    ensures OtpCheck(ConsumeOtp(kv, phone, sid), Some(phone), Some(code), Some(sid), now) == Some(InvalidSession())
  {
  }

  /** Asking twice for the same phone: the second code replaces the first, and
      the first session still works, with the second code only. */
  lemma LatestCodeWins(kv: Cache, phone: string, code1: string, sid1: string, t1: int,
                       code2: string, sid2: string, t2: int, now: int)
    requires phone != "" && code1 != "" && code2 != "" && sid1 != "" && sid2 != "" && sid1 != sid2
    requires now < t1 + OtpTtlSeconds * MsPerSecond && now < t2 + OtpTtlSeconds * MsPerSecond
    ensures var kv2 := IssueOtp(IssueOtp(kv, phone, code1, sid1, t1), phone, code2, sid2, t2);
      OtpCheck(kv2, Some(phone), Some(code2), Some(sid1), now).None?
      && (code1 != code2 ==> OtpCheck(kv2, Some(phone), Some(code1), Some(sid1), now) == Some(InvalidOtp()))
  {
    CacheKeysApart(phone, phone, sid1, sid2);
  }

  /** A refused code leaves both keys in place, so the user may try again. */
  lemma WrongCodeKeepsKeys(kv: Cache, phone: string, code: string, guess: string, sid: string, issued: int, now: int)
    requires phone != "" && code != "" && guess != "" && sid != "" && guess != code
    requires now < issued + OtpTtlSeconds * MsPerSecond
    ensures OtpCheck(IssueOtp(kv, phone, code, sid, issued), Some(phone), Some(guess), Some(sid), now) == Some(InvalidOtp())
    ensures OtpCheck(IssueOtp(kv, phone, code, sid, issued), Some(phone), Some(code), Some(sid), now).None?
  {
  }

  /** `emailLogin` (lines 156-211): a valid address that belongs to a user logs
      that user in; nothing is written. */
  function EmailLogin(users: Users, jwt: Jwt, cfg: Config, email: Field, now: int): (r: Response)
    requires UsersOk(users)
    ensures r == Fail(422, "Invalid email format", "INVALID_EMAIL") <==> !(Present(email) && ValidateEmail(email.value))
    ensures r == Fail(404, "User not found", "USER_NOT_FOUND") <==>
      Present(email) && ValidateEmail(email.value) && !HasEmail(users, email.value)
    ensures Present(email) && ValidateEmail(email.value) && HasEmail(users, email.value) ==>
      exists id | id in users :: users[id].email == email.value && r == LoginAnswer(jwt, cfg, ViewOfUser(users[id]), now)
    ensures r.status in {200, 404, 422, 500}
  {
    if !Present(email) || !ValidateEmail(email.value) then Fail(422, "Invalid email format", "INVALID_EMAIL")
    else
      match UserByEmail(users, email.value)
      case None => Fail(404, "User not found", "USER_NOT_FOUND")
      case Some(u) => LoginAnswer(jwt, cfg, ViewOfUser(u), now)
  }

  /** `logout` (lines 214-229): a fixed answer; no token is revoked and the route
      does not even ask for one. */
  function Logout(): (r: Response)
    ensures r.status == 200 && r.body == Success(Message("Logged out successfully"))
  {
    Ok(200, Message("Logged out successfully"))
  }

  function RefreshRefused(): Response {
    Fail(401, "Invalid refresh token", "UNAUTHORIZED")
  }

  /** `refreshToken` as it evidently was meant to work (lines 232-277): verify the
      token, look its user up and issue a new pair. Any failure inside the `try`,
      a token that does not verify or a `jwt.sign` that throws, ends in the 401
      of the catch. */
  function RefreshToken(users: Users, jwt: Jwt, cfg: Config, token: Field, now: int): (r: Response)
    requires UsersKeyed(users)
    ensures !Present(token) ==> r == Fail(401, "No refresh token provided", "UNAUTHORIZED")
    ensures Present(token) && jwt.verify(token.value, cfg.jwtSecret, now).None? ==> r == RefreshRefused()
    ensures r.status == 404 <==>
      Present(token) && jwt.verify(token.value, cfg.jwtSecret, now).Some?
      && jwt.verify(token.value, cfg.jwtSecret, now).value.userId !in users
    ensures r.status == 200 <==>
      Present(token) && jwt.verify(token.value, cfg.jwtSecret, now).Some?
      && jwt.verify(token.value, cfg.jwtSecret, now).value.userId in users
      && var u := users[jwt.verify(token.value, cfg.jwtSecret, now).value.userId];
      IssuesPair(jwt, cfg, u.id, u.email, now)
    ensures r.status == 200 ==>
      var u := users[jwt.verify(token.value, cfg.jwtSecret, now).value.userId];
      r == Ok(200, Tokens(GenerateToken(jwt, cfg, u.id, u.email, now).value, GenerateRefreshToken(jwt, cfg, u.id, now).value))
    ensures r.status !in {200, 404} ==> r.status == 401
  {
    if !Present(token) then Fail(401, "No refresh token provided", "UNAUTHORIZED")
    else
      match jwt.verify(token.value, cfg.jwtSecret, now)
      case None => RefreshRefused()
      case Some(decoded) =>
        match UserById(users, decoded.userId)
        case None => Fail(404, "User not found", "USER_NOT_FOUND")
        case Some(u) =>
          match (GenerateToken(jwt, cfg, u.id, u.email, now), GenerateRefreshToken(jwt, cfg, u.id, now))
          case (Some(t), Some(rt)) => Ok(200, Tokens(t, rt))
          case _ => RefreshRefused()
  }

  /** `refreshToken` as written: `jwt` is used at line 244 but never imported
      (lines 1-5), so every supplied token raises a ReferenceError that the catch
      turns into 401. */
  function RefreshTokenAsWritten(token: Field): (r: Response)
    ensures !Present(token) ==> r == Fail(401, "No refresh token provided", "UNAUTHORIZED")
    ensures Present(token) ==> r == RefreshRefused()
  {
    if !Present(token) then Fail(401, "No refresh token provided", "UNAUTHORIZED")
    else RefreshRefused()
  }

  /** The discrepancy: a refresh token that was issued to an existing user is
      exchanged for a new pair by the intended handler and refused by the one
      written. */
  lemma RefreshAsWrittenRefusesIssuedToken(users: Users, jwt: Jwt, cfg: Config, userId: string, issued: int, now: int)
    requires UsersKeyed(users) && userId in users
    requires SoundAt(jwt, RefreshTokenCall(cfg, userId, issued), now)
    requires IssuesPair(jwt, cfg, userId, users[userId].email, now)
    ensures RefreshToken(users, jwt, cfg, GenerateRefreshToken(jwt, cfg, userId, issued), now).status == 200
    ensures RefreshTokenAsWritten(GenerateRefreshToken(jwt, cfg, userId, issued)) == RefreshRefused()
  {
  }

  /** The intended handler also exchanges an access token: it looks only at the
      userId claim. */
  lemma RefreshAcceptsAccessToken(users: Users, jwt: Jwt, cfg: Config, userId: string, email: string, issued: int, now: int)
    requires UsersKeyed(users) && userId in users
    requires SoundAt(jwt, AccessTokenCall(cfg, userId, email, issued), now)
    requires IssuesPair(jwt, cfg, userId, users[userId].email, now)
    ensures RefreshToken(users, jwt, cfg, GenerateToken(jwt, cfg, userId, email, issued), now).status == 200
  {
  }
}
