/** Request sequences across the handlers, each proved from the handlers'
    contracts alone: what a client sees when it repeats or chains calls. */
module Scenarios {
  import opened Wrappers
  import opened Strings
  import opened Validators
  import opened Schema
  import opened Tables
  import opened Http
  import opened AuthMiddleware
  import opened Kv
  import opened Backend
  import opened AuthController
  import opened CarController
  import opened ScanController
  import opened PaymentController
  import opened UserController

  /** A code is good for one login: requesting it, logging in with it inside
      the TTL and then sending the same phone, code and session again gets the
      second attempt refused as an invalid session. */
  method OtpSingleUse(s: Store, jwt: Jwt, cfg: Config, phone: string, draw: nat, rand: string,
                      email: Field, userSuffix: string, t0: nat, t1: nat, t2: nat)
    returns (sent: Response, first: Response, second: Response)
    requires s.Valid() && ValidatePhone(phone) && draw < 900000
    requires t0 <= t1 < t0 + OtpTtlSeconds * MsPerSecond
    modifies s
    ensures sent == Ok(200, OtpSent("OTP sent to your phone", OtpTtlSeconds, SessionId(t0, rand)))
    ensures first.status == 200 || first == ServerError()
    ensures first.status == 200 ==> second == Fail(401, "Invalid session", "INVALID_SESSION")
  {
    PhoneFormat(phone);
    sent := RequestOtp(s, Some(phone), draw, rand, t0);
    var code := GenerateOtp(draw);
    var sid := SessionId(t0, rand);
    IssuedOtpAccepted(old(s.kv), phone, code, sid, t0, t1);
    first := VerifyOtp(s, jwt, cfg, Some(phone), Some(code), email, Some(sid), userSuffix, t1);
    ghost var afterFirst := s.kv;
    second := VerifyOtp(s, jwt, cfg, Some(phone), Some(code), email, Some(sid), userSuffix, t2);
    if first.status == 200 {
      ReplayRefused(afterFirst, phone, code, sid, t2);
    }
  }

  /** The scan log does not deduplicate: the same sighting logged twice adds
      two rows, in order. */
  method LogTwice(s: Store, carId: string, phone: string, email: string, notes: Field,
                  suffix1: string, suffix2: string, t1: nat, t2: nat) returns (r1: Response, r2: Response)
    requires s.Valid() && carId != "" && phone != "" && email != ""
    modifies s
    ensures r1.status == 201 && r2.status == 201 ==>
      |s.scans| == |old(s.scans)| + 2
      && r1 == Ok(201, Activity(s.scans[|s.scans| - 2])) && r2 == Ok(201, Activity(s.scans[|s.scans| - 1]))
      && s.scans[|s.scans| - 2].carId == s.scans[|s.scans| - 1].carId == carId
  {
    r1 := LogScan(s, Some(carId), Some(phone), Some(email), notes, suffix1, t1);
    r2 := LogScan(s, Some(carId), Some(phone), Some(email), notes, suffix2, t2);
  }

  /** Upgrading and then reading the profile shows the premium plan. */
  method UpgradeThenProfile(s: Store, userId: string, days: int, now: nat) returns (up: Response, profile: Response)
    requires s.Valid() && userId in s.users && DateInRange(AddDays(now, days))
    modifies s
    ensures up == Ok(200, Premium(Some(PremiumView(userId, true, "premium", Some(AddDays(now, days)), now))))
    ensures profile == Ok(200, Profile(ViewOfUser(old(s.users)[userId]).(isPremium := true, plan := "premium",
                                                                          premiumExpiryDate := Some(AddDays(now, days)))))
  {
    up := UpgradeToPremium(s, userId, Some(days), now);
    profile := GetUserProfile(s.users, userId);
    assert s.users == SetPremium(old(s.users), userId, AddDays(now, days), now);
    PremiumShownInProfile(old(s.users), userId, AddDays(now, days), now);
  }

  /** A car saved without custom fields, or with an object, cannot be read back
      by getUserCar as written: the save answers 201 and the read 500. */
  method SaveThenReadAsWritten(s: Store, userId: string, body: CarFields, idSuffix: string, now: nat,
                               parse: string -> Option<Json>) returns (saved: Response, read: Response)
    requires s.Valid()
    requires body.customFields.None? || !Truthy(body.customFields.value) || body.customFields.value.JObj?
    modifies s
    ensures saved.status == 201 ==> read == ServerError()
  {
    saved := SaveCar(s, userId, body, idSuffix, now);
    read := GetUserCarAsWritten(s.cars, userId, parse);
    if saved.status == 201 {
      SavedFieldsNotReparsed(body.customFields, parse);
    }
  }
}
