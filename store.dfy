/** The state the handlers work on: the five database tables and the Redis
    cache, held together in one mutable store. The clock is not part of it;
    every handler is handed the instant it runs at. */
module Backend {
  import opened Strings
  import opened Validators
  import opened Schema
  import opened Kv

  /** The database part of the store, as one value. */
  datatype Db = Db(users: Users, cars: Cars, scans: Scans, qrCodes: QrCodes, payments: Payments)

  class Store {
    var users: Users
    var cars: Cars
    var scans: Scans
    var qrCodes: QrCodes
    var payments: Payments
    var kv: Cache

    /** Every constraint the schema declares holds of the tables; besides, every
        user row and every login session carries a phone number of the accepted
        format, and every user an accepted e-mail address. */
    predicate Valid()
      reads this
    {
      && Consistent(users, cars, scans, qrCodes, payments)
      && UsersWellFormed(users)
      && SessionsHoldPhones(kv)
    }

    function Tables(): Db
      reads this
    {
      Db(users, cars, scans, qrCodes, payments)
    }

    /** A freshly created database and an empty cache. */
    constructor ()
      ensures Valid()
      ensures users == map[] && cars == map[] && scans == [] && qrCodes == map[] && payments == map[]
      ensures kv == map[]
    {
      users := map[];
      cars := map[];
      scans := [];
      qrCodes := map[];
      payments := map[];
      kv := map[];
    }
  }

  /** The cache keys of the OTP login: `otp:{phone}` and `session:{sessionId}`. */
  const OtpPrefix := "otp:"
  const SessionPrefix := "session:"

  function OtpKey(phone: string): (k: string)
    ensures StartsWith(k, OtpPrefix) && !StartsWith(k, SessionPrefix)
  {
    assert (OtpPrefix + phone)[0] == 'o';
    OtpPrefix + phone
  }

  function SessionKey(sessionId: string): (k: string)
    ensures StartsWith(k, SessionPrefix) && !StartsWith(k, OtpPrefix)
  {
    assert (SessionPrefix + sessionId)[0] == 's';
    SessionPrefix + sessionId
  }

  /** The two kinds of key never collide, and each determines what it was made from. */
  lemma CacheKeysApart(phone: string, phone': string, sessionId: string, sessionId': string)
    ensures OtpKey(phone) != SessionKey(sessionId)
    ensures OtpKey(phone) == OtpKey(phone') <==> phone == phone'
    ensures SessionKey(sessionId) == SessionKey(sessionId') <==> sessionId == sessionId'
  {
    if OtpKey(phone) == OtpKey(phone') {
      assert phone == OtpKey(phone)[|OtpPrefix|..];
      assert phone' == OtpKey(phone')[|OtpPrefix|..];
    }
    if SessionKey(sessionId) == SessionKey(sessionId') {
      assert sessionId == SessionKey(sessionId)[|SessionPrefix|..];
      assert sessionId' == SessionKey(sessionId')[|SessionPrefix|..];
    }
  }

  predicate UsersWellFormed(users: Users) {
    forall id | id in users :: ValidatePhone(users[id].phone) && ValidateEmail(users[id].email)
  }

  predicate SessionsHoldPhones(kv: Cache) {
    forall k | k in kv && StartsWith(k, SessionPrefix) :: ValidatePhone(kv[k].value)
  }

  /** The instants a JavaScript `Date` can hold: at most 8.64e15 ms either side
      of the epoch; outside it the value is an Invalid Date. */
  const MaxDateMs: int := 8_640_000_000_000_000

  predicate DateInRange(t: int) {
    -MaxDateMs <= t <= MaxDateMs
  }

  const MsPerDay: int := 86_400_000

  /** `d.setDate(d.getDate() + days)` on a date at instant t, ignoring
      daylight-saving shifts. */
  function AddDays(t: int, days: int): (r: int)
    ensures days >= 0 ==> r >= t
    ensures r - t == days * MsPerDay
  {
    t + days * MsPerDay
  }
}
