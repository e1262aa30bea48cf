# carqr backend — a Dafny model

carqr is the backend of a mobile app.
- A user logs in with a one-time code sent to their phone and owns one car profile.
- They print a QR code that links to the car's public page.
- Anyone who scans the code can see the car and its owner's contact details, and can log the sighting.
- A payment through Razorpay makes the account premium.

This project models the Express/Postgres/Redis backend that does all of this. It covers the request handlers of the six controllers, the bearer-token gate, the input validators, the SQL placeholder rewriting, and the CORS and 404 handling of the server.

## Structure of the model

- **State.** `Backend.Store` (store.dfy) is one mutable object.
  - It holds the five tables as finite maps keyed by primary key (the scan log as a sequence, in insertion order) and the Redis cache as a map from key to value and expiry instant.
  - `Store.Valid()` holds every constraint the schema declares: primary keys, the UNIQUE columns and the foreign keys (schema.dfy). It also requires every user row and login session to carry a phone of the accepted format.
  - Every handler keeps `Valid()` and says in its `ensures` what its new state is.
- **Failures.** A write the database would refuse is modelled by the functions of tables.dfy, which answer `None`. Examples: a duplicate e-mail, a car for a user that already has one, a foreign key to a missing row, an `INT` out of range, a text longer than its `VARCHAR` column (`Tables.Fits`). The handler then answers the 500 of its catch block with the store unchanged. A transaction is "all updates or none".
- **Time.** There is no clock in the store. Each handler is given `now`, in milliseconds: `Date.now()` and the database's `NOW()` within one request are the same instant. Cache entries are live while `now` is before their expiry.
- **Randomness and outside libraries.** These are parameters:
  - the OTP draw, an integer in [0, 900000);
  - the base-36 suffix of every generated id;
  - jsonwebtoken's `sign`/`verify` (`AuthMiddleware.Jwt`), each `None` where the library throws: `sign` for an unset secret, say;
  - HMAC-SHA256;
  - Razorpay's order call;
  - `QRCode.toDataURL`;
  - the parsing of `new Date(from)`.
- **Request fields.** A string field is `Option<string>`, where `None` is `undefined`. JavaScript truthiness is `Http.Present`, and a destructuring default is `Option.GetOr`.
- **Answers.** A `Http.Response` holds the status and either `{error, code}` or a success payload.
- **Scenarios.** scenarios.dfy chains handlers the way a client would: an OTP used twice, a scan logged twice, an upgrade followed by a profile read, and a car saved and read back. These results come from the handlers' contracts alone.

Behaviour worth noting:
- The QR image width depends on the format, not on the requested size (`QrController.RenderWidth`).
- A payment is looked up without checking its status, so an already completed payment verifies again (`PaymentController.ReverifyResetsExpiry`).
- `emailLogin` writes nothing.
- updateCar without new custom fields sends the old ones back as the driver returned them, so a car whose custom fields are a non-empty array can no longer be updated (`CarController.StoredArrayWrittenBack`).
- `refreshToken` cannot work as written, and neither can the three car readers (see Findings).

## Model

| member | source | states |
|---|---|---|
| Validators.PhoneFormat | backend/utils/validators.js:1-5 | validatePhone accepts exactly the ten-character strings whose first character is 6-9 and whose other nine are ASCII digits |
| Validators.ValidatePhone | backend/utils/validators.js:1-5 | `/^[6-9]\d{9}$/.test(phone)` as an anchored match of counted character classes; PhoneFormat states which strings it accepts |
| Validators.CarNumberFormat | backend/utils/validators.js:12-16 | validateCarNumber accepts exactly ten characters: two upper-case letters, two digits, two upper-case letters, four digits |
| Validators.ValidateCarNumber | backend/utils/validators.js:12-16 | `/^[A-Z]{2}\d{2}[A-Z]{2}\d{4}$/.test(carNumber)` in the same form; CarNumberFormat states which strings it accepts |
| Validators.CarNumberRejectsLowercase | backend/utils/validators.js:14 | a lower-case letter anywhere makes a car number invalid |
| Validators.EmailFormat | backend/utils/validators.js:7-10 | validateEmail (a backtracking match of the pattern) accepts exactly the strings with no whitespace, one '@' with something before it, and a '.' after the '@' that is neither first nor last there |
| Validators.ValidateEmail | backend/utils/validators.js:7-10 | `/^[^\s@]+@[^\s@]+\.[^\s@]+$/.test(email)`: some placement of the '@' and the '.' matches; EmailFormat states which strings that accepts |
| Validators.MatchesCons | backend/utils/validators.js:3 | an anchored pattern of counted character classes matches when its first piece matches the front and the rest matches what follows |
| Validators.SingleOccurrence | backend/utils/validators.js:8 | a character occurs exactly once when it occurs at i and nowhere before or after i |
| Validators.MatchHasShape | backend/utils/validators.js:8 | every placement of '@' and '.' that satisfies the pattern yields the stated shape |
| Validators.ShapeHasMatch | backend/utils/validators.js:8 | every string of the stated shape has a placement of '@' and '.' that satisfies the pattern |
| Validators.GenerateOtp | backend/utils/validators.js:18-20 | the code is six digits with no leading zero and reads back as 100000 + draw, so it lies in [100000, 999999] |
| Validators.GenerateIdInjective | backend/utils/validators.js:22-40 | two ids with the same prefix are equal exactly when clock reading and random suffix are equal |
| Validators.GenerateId | backend/utils/validators.js:22-40 | `prefix + Date.now() + '_' + suffix`: the id starts with the prefix, then the clock digits, and ends with the suffix |
| Validators.FirstSeparator | backend/utils/validators.js:23 | in a generated id the first '_' after the prefix is the one following the clock digits |
| Validators.GenerateUserId | backend/utils/validators.js:22-24 | user ids start with `user_` |
| Validators.GenerateCarId | backend/utils/validators.js:26-28 | car ids start with `car_` |
| Validators.GenerateQrId | backend/utils/validators.js:30-32 | QR ids start with `qr_` |
| Validators.GenerateScanId | backend/utils/validators.js:34-36 | scan ids start with `scan_` |
| Validators.GeneratePaymentId | backend/utils/validators.js:38-40 | payment ids start with `pay_` |
| Strings.DigitChar | backend/utils/validators.js:19 | the digit character of a number below ten, with that value |
| Strings.NatToStringDigits | backend/utils/validators.js:19 | `String(n)` of a non-negative integer is a non-empty string of digits |
| Strings.NatToStringNoLeadingZero | backend/utils/validators.js:19 | `String(n)` starts with '0' only for n = 0 |
| Strings.ParseNatToString | backend/utils/validators.js:19 | reading `String(n)` back as a decimal gives n |
| Strings.NatToStringInjective | backend/utils/validators.js:23 | `String(m) == String(n)` exactly when m == n |
| Strings.Pow10 | backend/utils/validators.js:19 | powers of ten are positive |
| Strings.NatToStringLength | backend/utils/validators.js:19 | `String(n)` has k digits when 10^(k-1) <= n < 10^k |
| Strings.CountChar | backend/config/database.js:17 | the number of occurrences of a character is at most the length |
| Strings.CountCharZero | backend/config/database.js:17 | the count is zero exactly when the character does not occur |
| Strings.CountCharAppend | backend/config/database.js:17 | counts add up over a concatenation |
| Strings.Split | backend/server.js:20 | `split` on a one-character separator always gives at least one piece |
| Strings.SplitHead | backend/middleware/auth.js:4 | splitting `w + sep + rest` peels off the word w |
| Strings.SplitWhole | backend/middleware/auth.js:4 | a string without the separator splits into itself alone |
| Strings.JoinSplit | backend/server.js:20 | joining the pieces of a split gives the string back, and no piece holds the separator |
| Strings.SplitJoin | backend/server.js:20 | splitting the join of separator-free pieces gives the pieces back |
| Database.ConvertPlaceholders | backend/config/database.js:15-21 | the loop with its counter computes the rewriting with the first '?' numbered 1, on every call |
| Database.RewriteStep | backend/config/database.js:17-20 | one step of the rewriting at a position |
| Database.RewriteAppend | backend/config/database.js:16-20 | rewriting a concatenation numbers the second part on from where the first stopped |
| Database.PlaceholderNumbering | backend/config/database.js:16-20 | the k-th '?' from the left becomes `$k` |
| Database.OtherCharactersKept | backend/config/database.js:17-20 | every character other than '?' stays, in order |
| Database.NoPlaceholderUnchanged | backend/config/database.js:17 | a text without '?' is returned unchanged |
| Database.NoPlaceholderLeft | backend/config/database.js:17 | the output holds no '?' |
| Database.DollarCount | backend/config/database.js:17-20 | the output holds one more '$' per placeholder and no other new '$' |
| Database.QuotedPlaceholderRewritten | backend/config/database.js:17 | a '?' inside an SQL string literal is rewritten too, because the pattern ignores quoting |
| Database.Execute | backend/config/database.js:28-32 | the parameters go to the driver untouched and the text is rewritten with no '?' left |
| Kv.SetEx | backend/controllers/authController.js:24-25 | SETEX makes the key read as the value until the TTL has run out and as absent after, and touches no other key |
| Kv.Get | backend/controllers/authController.js:60-70 | GET answers a key's value exactly while the key is present and its expiry has not come, and nothing otherwise |
| Kv.Del | backend/controllers/authController.js:122-123 | DEL makes the key absent at every instant and touches no other key |
| Kv.LastWriteWins | backend/controllers/authController.js:24 | writing a key twice leaves what the second write alone leaves |
| AuthMiddleware.SettingOr | backend/middleware/auth.js:30 | `value \|\| fallback`: the setting when truthy, the fallback otherwise |
| AuthMiddleware.AccessTokenCall | backend/middleware/auth.js:27-33 | an access token carries {userId, email}, JWT_SECRET and JWT_EXPIRY, or 24h when that is unset |
| AuthMiddleware.RefreshTokenCall | backend/middleware/auth.js:35-41 | a refresh token carries {userId} only, the same secret, and REFRESH_TOKEN_EXPIRY or 7d |
| AuthMiddleware.GenerateToken | backend/middleware/auth.js:27-33 | `jwt.sign({userId, email}, JWT_SECRET, {expiresIn: JWT_EXPIRY \|\| '24h'})`, with None where sign throws |
| AuthMiddleware.GenerateRefreshToken | backend/middleware/auth.js:35-41 | `jwt.sign({userId}, JWT_SECRET, {expiresIn: REFRESH_TOKEN_EXPIRY \|\| '7d'})`, with None where sign throws |
| AuthMiddleware.ExtractToken | backend/middleware/auth.js:4 | an extracted token is non-empty and holds no space |
| AuthMiddleware.SecondWordExtracted | backend/middleware/auth.js:4 | the token is the second space-separated word of the header |
| AuthMiddleware.ExtractedIsSecondWord | backend/middleware/auth.js:4 | conversely, every extracted token is the second word of the header |
| AuthMiddleware.NoSpaceNoToken | backend/middleware/auth.js:4-12 | a header without a space carries no token |
| AuthMiddleware.Gate | backend/middleware/auth.js:3-25 | 401 'No token provided' exactly when no token is extracted; admitted exactly when the token verifies; 401 'Invalid or expired token' otherwise |
| AuthMiddleware.AccessTokenAdmitted | backend/middleware/auth.js:14-17 | a freshly issued access token sent as `Bearer <token>` is admitted with exactly its claims |
| AuthMiddleware.RefreshTokenAdmitted | backend/middleware/auth.js:14-41 | a refresh token opens protected routes too, since both kinds share the secret and have no type claim |
| AuthMiddleware.SchemeIgnored | backend/middleware/auth.js:4 | any word in front of the token gives the same decision as "Bearer" |
| AuthMiddleware.Exchange.constructor | backend/middleware/auth.js:3 | a request starts with no user, no `next()` call and no answer |
| AuthMiddleware.VerifyToken | backend/middleware/auth.js:3-25 | on admission `req.user` is set to the claims and `next()` is called with nothing sent; on a refusal the 401 is sent, with `req.user` untouched and no `next()` |
| Backend.Store.constructor | backend/database.sql.js:40-124 | a fresh database has empty tables and the cache is empty, and it satisfies every constraint |
| Backend.OtpKey | backend/controllers/authController.js:24 | `otp:{phone}` starts with its prefix and not with the session prefix |
| Backend.SessionKey | backend/controllers/authController.js:25 | `session:{id}` starts with its prefix and not with the OTP prefix |
| Backend.CacheKeysApart | backend/controllers/authController.js:24-25 | an OTP key never equals a session key, and each key determines the phone or session it was made from |
| Backend.AddDays | backend/controllers/paymentController.js:124-125 | `setDate(getDate() + days)` moves the instant by exactly `days` days |
| Tables.UserByPhone | backend/controllers/authController.js:84-87 | finds the user with that phone exactly when one exists |
| Tables.UserByEmail | backend/controllers/authController.js:169-172 | finds the user with that e-mail exactly when one exists |
| Tables.UserById | backend/controllers/userController.js:9-12 | finds the row exactly when the id is a key |
| Tables.CarOfUser | backend/controllers/carController.js:25-28 | finds the user's car, the only one by the UNIQUE constraint, exactly when one exists |
| Tables.AddUser | backend/controllers/authController.js:102-105 | inserts exactly when id, e-mail and phone are all unused and e-mail and phone fit their columns (255 and 10 characters), adding that row alone and keeping the constraints |
| Tables.SetEmail | backend/controllers/authController.js:93-96 | updates the e-mail exactly when no other row holds it and it fits its 255 characters, keeping the constraints |
| Tables.AddCar | backend/controllers/carController.js:38-41 | inserts exactly when the id is unused, the owner exists and has no car, and number, model and template fit their columns (50, 100, 50 characters), keeping one car per user |
| Tables.AddScan | backend/controllers/scanController.js:20-23 | appends exactly when the id is unused, the car exists and phone and e-mail fit their columns (10 and 255 characters), keeping ids distinct and references valid |
| Tables.AddQr | backend/controllers/qrController.js:51-54 | inserts exactly when the id is unused, the car exists and size and format fit their 10 characters |
| Tables.AddPayment | backend/controllers/paymentController.js:36-39 | inserts exactly when the id is unused, the user exists, order id, currency and status fit their columns (100, 3, 20 characters) and amount and planDuration fit an INT column |
| Tables.CompletePayment | backend/controllers/paymentController.js:118-121 | the payment becomes 'completed' with verifiedAt now; every other row and every owner stays |
| Tables.SetPremium | backend/controllers/paymentController.js:128-131 | the user becomes premium with the given expiry and update time; no other row and no e-mail or phone changes |
| Tables.SetTemplate | backend/controllers/userController.js:65-68 | only that user's template and update time change |
| Tables.UsersGrowKeepsReferences | backend/database.sql.js:71-122 | cars and payments keep their owners when the users table only grows or changes in place |
| Tables.CarsGrowKeepsReferences | backend/database.sql.js:87-103 | scans and QR records keep their cars when the cars table only grows or changes in place |
| Tables.CarsChangeKeepsConsistent | backend/database.sql.js:61-122 | a change to the cars table that keeps its constraints and loses no row keeps the database consistent |
| Tables.UsersChangeKeepsConsistent | backend/database.sql.js:41-122 | likewise for the users table |
| Tables.ReplaceCarKeepsCarsOk | backend/database.sql.js:61-72 | replacing a car by a row with the same id and owner keeps the cars table's constraints |
| AuthController.SessionId | backend/controllers/authController.js:21 | session ids start with `session_` |
| AuthController.IssueOtp | backend/controllers/authController.js:24-25 | the code under `otp:{phone}` and the phone under `session:{id}` read back for 300 s and are gone after; no other key changes |
| AuthController.ConsumeOtp | backend/controllers/authController.js:122-123 | both keys are gone at every instant; no other key changes |
| AuthController.RequestOtp | backend/controllers/authController.js:8-44 | 422 INVALID_PHONE with nothing written for a missing or malformed phone; otherwise both keys are written for 300 s and the session id and TTL are answered, never the code |
| AuthController.OtpCheck | backend/controllers/authController.js:51-77 | 422 exactly when a field is missing, 401 INVALID_SESSION exactly when the session does not name the phone, 401 INVALID_OTP exactly when the stored code differs; otherwise through |
| AuthController.CheckedPhoneValid | backend/controllers/authController.js:60-61 | a phone that got through the session check is of the accepted format |
| AuthController.LoginEmail | backend/controllers/authController.js:80 | the supplied e-mail when valid, else `user_{phone}@carqr.app`, which is valid for a valid phone |
| AuthController.FallbackEmailValid | backend/controllers/authController.js:80 | the generated address passes validateEmail |
| AuthController.NewUser | backend/controllers/authController.js:101-116 | a new user is basic, not premium, without car info, template 'modern', no expiry |
| AuthController.LoginAnswer | backend/controllers/authController.js:125-144 | 200 with the user and a token pair issued for its id and e-mail exactly when both tokens can be signed, otherwise the 500 of the catch |
| AuthController.LoginWrite | backend/controllers/authController.js:84-117 | the users write of a login keeps the constraints and never loses a row; an existing user without a valid new e-mail is left alone |
| AuthController.CompleteLogin | backend/controllers/authController.js:79-144 | the row is found, updated or inserted, both keys are deleted and the login answer is given for the user as read before the update; a refused write answers 500 and leaves users and cache unchanged |
| AuthController.VerifyOtp | backend/controllers/authController.js:47-153 | a refused check is answered with nothing changed; an accepted one does what CompleteLogin states |
| AuthController.IssuedOtpAccepted | backend/controllers/authController.js:24-25 | an issued code and session pass the check until 300 s have passed and fail as an invalid session from then on |
| AuthController.ReplayRefused | backend/controllers/authController.js:122-123 | after a login the same phone, code and session fail as an invalid session |
| AuthController.LatestCodeWins | backend/controllers/authController.js:24-25 | after a second request for the same phone the first session still passes, with the second code only |
| AuthController.WrongCodeKeepsKeys | backend/controllers/authController.js:69-77 | a wrong code is refused and the right one still passes afterwards |
| AuthController.EmailLogin | backend/controllers/authController.js:156-211 | 422 exactly for a missing or malformed e-mail, 404 exactly when no user has it, otherwise the login answer of a user with it |
| AuthController.Logout | backend/controllers/authController.js:214-229 | always 200 'Logged out successfully'; nothing is revoked |
| AuthController.RefreshToken | backend/controllers/authController.js:232-277 | 401 without a token or when it does not verify, 404 exactly when its user is gone, 200 with a new pair for that user exactly when both tokens can be signed, and 401 in every other case |
| AuthController.RefreshTokenAsWritten | backend/controllers/authController.js:232-277 | as written, a missing token gives 401 'No refresh token provided' and every present token gives 401 'Invalid refresh token' |
| AuthController.RefreshAsWrittenRefusesIssuedToken | backend/controllers/authController.js:244 | a refresh token issued to an existing user, for whom a new pair can be signed, is exchanged by the intended handler and refused by the written one |
| AuthController.RefreshAcceptsAccessToken | backend/controllers/authController.js:244-248 | the refresh handler also exchanges an access token, since it reads only the userId claim |
| CarController.FieldsOrEmpty | backend/controllers/carController.js:34 | `customFields \|\| {}` is the value when truthy, `{}` otherwise, and always truthy |
| CarController.SavedCar | backend/controllers/carController.js:30-42 | an existing car keeps id, owner and creation time with every other field overwritten; otherwise a new row under the fresh id; omitted message '', template 'modern', custom fields `{}` |
| CarController.SaveTwiceSameRow | backend/controllers/carController.js:30-42 | saving the same fields twice gives the first row with only its update time moved |
| CarController.StoreCar | backend/controllers/carController.js:19-75 | the user's car is replaced in place or inserted and answered with 201; a row too wide for its columns or a refused insert gives 500 and no change |
| CarController.SaveCar | backend/controllers/carController.js:5-88 | 422 with no change unless number and model are present; otherwise what StoreCar states, so the user ends with exactly the saved car |
| CarController.GetUserCar | backend/controllers/carController.js:91-133 | 404 CAR_NOT_FOUND exactly when the user has no car, otherwise 200 with that car |
| CarController.SavedCarReadBack | backend/controllers/carController.js:46-51 | the row saveCar stored is what getUserCar answers |
| CarController.PublicView | backend/controllers/carController.js:157-171 | the public object shows owner name 'Car Owner' and the owner's phone and e-mail |
| CarController.GetCarByQr | backend/controllers/carController.js:136-181 | 404 exactly when no car has the code as id or plate; otherwise some matching car with its owner's contact details; the car with that id when no other car has it as plate |
| CarController.MergeCar | backend/controllers/carController.js:208-218 | number, model and template change only to truthy values, the message whenever it is given, the custom fields when truthy; id, owner and creation time never change |
| CarController.MergeIdempotent | backend/controllers/carController.js:208-218 | applying the same patch twice is applying it once |
| CarController.EmptyPatchKeepsCar | backend/controllers/carController.js:211-215 | an empty or all-falsy patch changes only the update time |
| CarController.EmptyMessageClears | backend/controllers/carController.js:211-213 | an empty message clears the message, but an empty number keeps the number |
| CarController.WrittenBack | backend/controllers/carController.js:215 | the old custom fields sent back unchanged: kept for an object, number, boolean or null; an empty array becomes `{}`; a non-empty array is refused; a string is read as JSON text |
| CarController.UpdatedRow | backend/controllers/carController.js:208-218 | the row the UPDATE stores is the merge with the custom fields as written back; refused exactly when a field is too wide or the write-back is refused |
| CarController.KeptFieldsWrittenBack | backend/controllers/carController.js:215 | stored object, number or boolean fields survive an update that does not replace them: the row is the merge |
| CarController.StoredArrayWrittenBack | backend/controllers/carController.js:215 | stored non-empty array fields make every update that does not replace them fail; an empty array comes back as `{}` |
| CarController.ReplaceCar | backend/controllers/carController.js:208-218 | the UPDATE replaces exactly that row, keeps every other table and the store valid |
| CarController.UpdateCar | backend/controllers/carController.js:184-248 | 404 and no change unless the car has that id and the caller as owner; 500 and no change when the database refuses UpdatedRow; otherwise exactly that row is replaced by UpdatedRow and answered |
| CarController.ObjectTextIsNotJson | backend/controllers/carController.js:121 | `String` of an object, `[object Object]`, is not JSON text: `[` is followed by a character no JSON value starts with |
| CarController.JsText | backend/controllers/carController.js:121 | `String(v)`: `[object Object]` for an object, the string itself, `true`/`false`, for a number a text parseInt reads back as that number, `""` for an empty array |
| CarController.ReparseFields | backend/controllers/carController.js:121 | `JSON.parse(v \|\| '{}')` of a driver-parsed value: `{}` for a falsy value, a throw for an object, otherwise the parse of its `String` text |
| CarController.SavedFieldsNotReparsed | backend/controllers/carController.js:34-121 | the custom fields saveCar stores for a request without them, with falsy ones or with an object cannot be parsed again |
| CarController.GetUserCarAsWritten | backend/controllers/carController.js:91-133 | as written: 404 exactly when the user has no car, 500 exactly when its custom fields do not parse again, so always for an object, otherwise 200 with the re-parsed fields |
| CarController.OwnCarAnswer | backend/controllers/carController.js:112-131 | the answer for the car found: 500 exactly when the custom fields do not parse again, always for an object, otherwise 200 with the re-parsed fields |
| CarController.SavedCarRefusedAsWritten | backend/controllers/carController.js:34-121 | a car saved without custom fields or with an object is answered 200 by the intended getUserCar and 500 by the written one |
| CarController.GetCarByQrAsWritten | backend/controllers/carController.js:136-181 | as written: 404 exactly when no car matches, otherwise the answer for some matching car, 500 when its fields do not parse again; 404 or 500 whenever every match holds an object |
| CarController.PublicCarAnswer | backend/controllers/carController.js:157-180 | the public answer for the car found: 500 exactly when its custom fields do not parse again, always for an object, otherwise 200 with the re-parsed fields |
| CarController.UpdateCarAsWritten | backend/controllers/carController.js:184-248 | as written: the same writes as UpdateCar, then 500 when the stored fields do not parse again, otherwise 200 with the re-parsed fields |
| QrController.QrValue | backend/controllers/qrController.js:48 | the value is `https://carqr.app/cars/` + the car id, and the id reads back from it |
| QrController.QrValueInjective | backend/controllers/qrController.js:48 | different cars get different values |
| QrController.DownloadUrl | backend/controllers/qrController.js:83 | `https://cdn.carqr.app/qr/{id}.{format}`, with the format after its last '.' |
| QrController.DownloadUrlInjective | backend/controllers/qrController.js:83 | for the accepted formats the address determines the record id and the format |
| QrController.RenderWidth | backend/controllers/qrController.js:62 | 500 for pdf and 300 for every other format |
| QrController.InsertQr | backend/controllers/qrController.js:51-54 | the row is added exactly when the database accepts it; nothing else changes |
| QrController.GenerateQr | backend/controllers/qrController.js:6-95 | 422 for a missing car id or an unknown size or format (defaults 3x3, pdf), 404 for a car the caller does not own, otherwise exactly one row inserted and 200 even when rendering fails |
| QrController.GetQrCode | backend/controllers/qrController.js:98-139 | 404 QR_NOT_FOUND exactly when no record has the id, otherwise 200 with it |
| QrController.GeneratedThenFetched | backend/controllers/qrController.js:76-129 | getQRCode answers a stored record with the fields and download address generateQR gave |
| ScanController.LogScan | backend/controllers/scanController.js:5-46 | 422 with nothing inserted unless car id, phone and e-mail are present; 500 with nothing inserted for a taken id, a missing car, a phone over 10 or an e-mail over 255 characters; otherwise exactly one row appended, notes null when falsy, 201 with that row |
| ScanController.QueryInt | backend/controllers/scanController.js:53-87 | an omitted limit or offset takes its default, a given one is `parseInt` of it |
| ScanController.Selection | backend/controllers/scanController.js:73-84 | the selected rows are exactly the car's scans inside the inclusive bounds, with their multiplicities |
| ScanController.ConsNewestFirst | backend/controllers/scanController.js:86 | a row no older than the head of a newest-first list can go in front |
| ScanController.InsertByTime | backend/controllers/scanController.js:86 | inserting into a newest-first list keeps it newest-first and adds exactly that row |
| ScanController.SortNewestFirst | backend/controllers/scanController.js:86 | some newest-first permutation of the selection exists |
| ScanController.Window | backend/controllers/scanController.js:86-89 | `LIMIT OFFSET` yields min(limit, max(0, n - offset)) rows, the ones from position offset on |
| ScanController.ConsecutivePages | backend/controllers/scanController.js:86-89 | two consecutive pages make the page that spans both |
| ScanController.WindowKeepsOrder | backend/controllers/scanController.js:86-89 | a page of a newest-first list is newest-first |
| ScanController.GetScanHistory | backend/controllers/scanController.js:49-132 | 404 unless the caller owns the car; 500 for a NaN or negative limit or offset or an invalid date; otherwise a page of a newest-first ordering of the selection, the size of the whole selection as total, and limit and offset echoed |
| ScanController.PageBounds | backend/controllers/scanController.js:86-105 | a page holds at most limit rows, never reaches past the total, is newest-first and holds selected rows only |
| ScanController.NewestComesFirst | backend/controllers/scanController.js:86 | two newest-first orderings of rows with distinct timestamps start with the same row |
| ScanController.SameHeadTails | backend/controllers/scanController.js:86 | removing the same first row from two permutations leaves permutations |
| ScanController.OrderingUnique | backend/controllers/scanController.js:86 | with distinct timestamps the newest-first order is unique |
| ScanController.LoggedScanSelected | backend/controllers/scanController.js:20-84 | a logged scan is selected by a history request for its car whose bounds contain its instant |
| ScanQueries.AppendPlaceholder | backend/controllers/scanController.js:77-83 | appending a filter piece adds exactly one placeholder and no '$' |
| ScanQueries.FilterStatement | backend/controllers/scanController.js:73-103 | the filter holds one '?' per parameter: the car id, then the lower and upper bound when set |
| ScanQueries.AppendPaging | backend/controllers/scanController.js:86-87 | `ORDER BY ... LIMIT ? OFFSET ?` adds two placeholders, and the limit and offset as parameters |
| ScanQueries.Prepare | backend/config/database.js:28-32 | a statement with one parameter per '?' reaches the driver with one `$k` per parameter |
| ScanQueries.HistoryStatements | backend/controllers/scanController.js:73-105 | page and count statements carry the same filter parameters, the page two more, and each has one `$k` per parameter |
| PaymentController.Receipt | backend/controllers/paymentController.js:23 | `receipt_{userId}_{now}`, from which the user id and time read back |
| PaymentController.PendingPayment | backend/controllers/paymentController.js:36-39 | the inserted row is 'pending', unverified, with the gateway's order id |
| PaymentController.InsertPayment | backend/controllers/paymentController.js:36-39 | the row is added exactly when the database accepts it; nothing else changes |
| PaymentController.CreatePayment | backend/controllers/paymentController.js:12-62 | amount 49900, INR and 365 days by default, amount unchecked; a failed order or refused insert gives 500 PAYMENT_ERROR and no change; otherwise exactly one pending row and the order answer |
| PaymentController.SignedText | backend/controllers/paymentController.js:79 | the signed text is the order id, '\|', the payment id |
| PaymentController.SignedTextInjective | backend/controllers/paymentController.js:79 | for order ids without '\|' the signed text determines both ids |
| PaymentController.SignatureCheck | backend/controllers/paymentController.js:70-91 | 422 exactly for a missing field, 500 exactly when the secret is unset, 400 INVALID_SIGNATURE exactly when the HMAC differs, through otherwise |
| PaymentController.CommitVerification | backend/controllers/paymentController.js:117-133 | both updates of the transaction: the payment completed, the user premium until the expiry |
| PaymentController.VerifyPayment | backend/controllers/paymentController.js:65-169 | a failed check changes nothing; no row for (user, order) gives 404 and no change; otherwise a matching row is completed and its user made premium for its planDuration days, or with an unrepresentable expiry both are rolled back with 500 |
| PaymentController.CreatedPaymentFound | backend/controllers/paymentController.js:36-102 | a payment createPayment inserted is found by verifyPayment for its user and order, and the insert does not change what another user finds |
| PaymentController.PremiumTwice | backend/controllers/paymentController.js:128-131 | making a user premium twice leaves what the second write alone leaves |
| PaymentController.CompleteTwice | backend/controllers/paymentController.js:118-121 | completing a payment twice leaves what the second completion alone leaves |
| PaymentController.ReverifyResetsExpiry | backend/controllers/paymentController.js:99-131 | re-verifying a completed payment later resets the expiry to that later instant plus the plan; it is not extended |
| PaymentController.VerifiedState | backend/controllers/paymentController.js:115-131 | after verification the user is premium until now + planDuration days and the payment is completed now, same amount |
| UserController.GetUserProfile | backend/controllers/userController.js:4-47 | 404 USER_NOT_FOUND exactly when no user has the id, otherwise 200 with the row without `updatedAt` |
| UserController.WriteUsers | backend/controllers/userController.js:65-68 | an in-place users update that keeps e-mails and phones keeps the store valid |
| UserController.UpdateTemplate | backend/controllers/userController.js:50-96 | 422 with no write unless the template is modern, classic or minimal; 404 without a row; otherwise only that user's template and update time change |
| UserController.UpgradeToPremium | backend/controllers/userController.js:99-134 | with no payment check the user becomes premium until now + planDuration (365 by default) days; 200 with no user object when the row is missing; 500 and no write for an unrepresentable expiry |
| UserController.TemplateShownInProfile | backend/controllers/userController.js:65-68 | the stored template is the one the profile shows, and nothing else in it changes |
| UserController.PremiumShownInProfile | backend/controllers/userController.js:111-114 | after an upgrade the profile shows the premium plan and its expiry, and nothing else in it changes |
| UserController.OthersUnaffected | backend/controllers/userController.js:65-114 | another user's profile is untouched by either update |
| Server.AllowedOrigins | backend/server.js:20 | the comma-split CORS_ORIGIN, read back exactly, or the two local defaults when it is unset |
| Server.CorsAllows | backend/server.js:19-30 | allowed when there is no origin or it contains 'localhost' or '127.0.0.1'; otherwise exactly when it equals a list entry |
| Server.CorsGate | backend/server.js:18-32 | a refused origin goes to the error handler and is answered 500 |
| Server.RouteNotFound | backend/server.js:50-56 | an unmatched route is answered 404 NOT_FOUND |
| Server.ListedOriginAllowed | backend/server.js:25-26 | every non-empty entry of a configured list is allowed |
| Server.UnlistedOriginRefused | backend/server.js:27-28 | an origin that is neither local-looking nor an exact entry is refused, even one that extends an entry |
| Server.LocalLookingAlwaysAllowed | backend/server.js:23 | any origin that merely mentions localhost is allowed, whatever the list |
| Server.DefaultListAddsNothing | backend/server.js:20-26 | with CORS_ORIGIN unset exactly the local-looking origins and requests without an origin get through |
| Server.EmptySettingListsNothing | backend/server.js:20-26 | an empty CORS_ORIGIN lists only "", so again only local-looking origins get through |
| JsNumbers.TrimStart | backend/controllers/scanController.js:87 | `parseInt` first drops the leading white space |
| JsNumbers.DigitPrefix | backend/controllers/scanController.js:87 | the longest run of decimal digits at the front |
| JsNumbers.HexValue | backend/controllers/scanController.js:87 | a hexadecimal digit's value is below 16 |
| JsNumbers.HexPrefix | backend/controllers/scanController.js:87 | the longest run of hexadecimal digits at the front |
| JsNumbers.Magnitude | backend/controllers/scanController.js:87 | NaN exactly when no digit follows, decimal or after a `0x` marker |
| JsNumbers.Signed | backend/controllers/scanController.js:87 | a leading '-' gives a non-positive result, otherwise it is non-negative |
| JsNumbers.ParseInt | backend/controllers/scanController.js:87 | `parseInt` of blank text is NaN, and the sign of the result follows the sign character |
| JsNumbers.TrimStartStops | backend/controllers/scanController.js:87 | nothing is trimmed from text that does not start with white space |
| JsNumbers.ParseIntNoSpace | backend/controllers/scanController.js:87 | without leading white space parsing starts at the sign |
| JsNumbers.DigitPrefixOfDigits | backend/controllers/scanController.js:87 | the digit run of digits followed by a non-digit is exactly those digits |
| JsNumbers.MagnitudeOfDigits | backend/controllers/scanController.js:87 | such digits give their decimal value |
| JsNumbers.SignedMagnitude | backend/controllers/scanController.js:87 | with no sign the magnitude is kept, and a '-' in front negates it |
| JsNumbers.NegatedParse | backend/controllers/scanController.js:87 | `parseInt("-" + u)` negates the magnitude of u |
| JsNumbers.UnsignedTrailingText | backend/controllers/scanController.js:87 | `parseInt("10abc")` is 10: text after the digits is ignored |
| JsNumbers.NegativeTrailingText | backend/controllers/scanController.js:87 | `parseInt("-10abc")` is -10 |
| JsNumbers.TrailingTextIgnored | backend/controllers/scanController.js:87 | both signs together |
| JsNumbers.ParseIntNatToString | backend/controllers/scanController.js:87 | `parseInt(String(n))` is n, so the default limit 50 and offset 0 come through as numbers |
| JsNumbers.ParseIntNegatedNatToString | backend/controllers/scanController.js:87 | `parseInt("-" + String(n))` is -n |
| JsNumbers.LeadingSpaceIgnored | backend/controllers/scanController.js:87 | a leading space makes no difference |
| JsNumbers.ParseIntHexExample | backend/controllers/scanController.js:87 | `parseInt("0x1A")` is 26 |
| JsNumbers.HexPrefixOfHex | backend/controllers/scanController.js:87 | the hexadecimal run of hex digits followed by a non-hex character is exactly those digits |
| JsNumbers.MagnitudeOfHex | backend/controllers/scanController.js:87 | after a `0x` or `0X` marker such digits give their hexadecimal value |
| JsNumbers.HexTrailingText | backend/controllers/scanController.js:87 | `parseInt` of `0x` or `0X`, hex digits and then any text not starting with a hex digit is the hexadecimal value, and with a '-' in front its negation |
| JsNumbers.NoDigitIsNaN | backend/controllers/scanController.js:87 | text that starts with neither space, sign nor digit is NaN |
| JsNumbers.ParseIntOfLetters | backend/controllers/scanController.js:87 | `parseInt("abc")` is NaN |
| JsNumbers.ParseIntOfSignOnly | backend/controllers/scanController.js:87 | `parseInt("-")` is NaN |
| JsNumbers.ParseIntOfEmpty | backend/controllers/scanController.js:87 | `parseInt("")` is NaN |
| Scenarios.OtpSingleUse | backend/controllers/authController.js:8-153 | request, login and a replay of the same code: the replay is refused as an invalid session |
| Scenarios.LogTwice | backend/controllers/scanController.js:5-46 | logging the same sighting twice appends two rows, in order: no deduplication |
| Scenarios.UpgradeThenProfile | backend/controllers/userController.js:4-134 | after an upgrade the profile shows the premium plan with the new expiry |
| Scenarios.SaveThenReadAsWritten | backend/controllers/carController.js:5-133 | a car saved with no custom fields or with an object is answered 201 and then, by getUserCar as written, 500 |

## Left out

- The pg pool, `getConnection`, BEGIN/COMMIT/ROLLBACK and connection release (backend/config/database.js): these are I/O. Each handler's writes are modelled as applied together or not at all.
- The Redis client (backend/config/redis.js): the cache is the in-memory map, and TTLs are compared against the instant given.
- Console logging and the SMS stub in requestOTP: these are side effects only.
- jsonwebtoken, HMAC-SHA256, Razorpay's order call and `QRCode.toDataURL`: these are parameters. A throwing `jwt.sign` or `jwt.verify` is an answer of `None`.
- The Razorpay client built when the module loads (paymentController.js lines 6-9): a client that cannot be built is treated like an order call that fails.
- `Math.random()` and `Date.now()`: both are inputs, the random draw and the clock reading.
- SQL identifier case folding: several queries name camel-case columns without quotes, while the schema creates them quoted. Against that schema Postgres would fold the names to lower case and fail to find the columns. The model looks columns up by field name.
- The widths of the id columns (`VARCHAR(100)`): not checked. A generated id is a short prefix, a 13-digit clock reading and a 9-character suffix, far below the width, and the reference columns copy existing ids. The model takes the suffix as an unbounded parameter. users.plan and users.selectedTemplate are not checked either: only fixed or validated short values are written there.
- Request body values that are not strings (numbers, arrays, null) in string fields: not modelled. Likewise non-integer values for `amount` and `planDuration`. A JSON `null` is not given the destructuring default.
- `JSON.stringify` of `customFields` on write and the driver's parse of the JSON column on read: treated as inverse to each other. `JSON.parse` on text, and the JSON column reading text, is the parameter `parse`. updateCar's write-back of the unchanged value is modelled (`CarController.WrittenBack`); the escaping inside node-postgres's array literal is not, only that a non-empty array's literal is not JSON text.
- Fractional numbers in JSON values: the model's `Json` numbers are integers, so a custom field such as 1.5 is not represented.
- CarController.SaveCar: when the saved custom fields are a JSON string, saveCar as written parses that string once more (carController.js lines 54-61), answering `{}` when it is not JSON text. The model answers the stored value.
- CarController.GetUserCar: models the reader as evidently intended, answering the stored custom fields. As written it answers 500 for every stored object; that reader is GetUserCarAsWritten (see Findings).
- CarController.GetCarByQr: models the intended reader in the same way; as written it is GetCarByQrAsWritten.
- CarController.UpdateCar: models the intended answer in the same way; as written the answer is the one of UpdateCarAsWritten, after the same write.
- CarController.SavedCarReadBack: is about the intended reader; SavedCarRefusedAsWritten states what the written one answers.
- The pg type conversions: `COUNT(*)` comes back from pg as a string, and is modelled as a number; json columns are parsed by the driver.
- `parseInt` on values beyond exact double precision: not modelled.
- Dates: `setDate` across daylight-saving changes is treated as adding whole days of 86 400 000 ms. TIMESTAMP bounds narrower than a JavaScript Date's are not modelled.
- getScanHistory's `new Date(from)`: a parameter that yields an instant or an Invalid Date.
- The health endpoint, express routing and body parsing, `app.listen`: these are wiring. Which handlers are public and which receive an authenticated user id follows backend/routes.
- Concurrency between requests, such as the check-then-act upsert in saveCar: the model runs one request at a time.
- backend/database.sql.js and backend/test-db.js: only the constraints of the DDL are used, as store invariants.
- CarController.GetCarByQr: when several cars match the code, the contract says only that one of them is answered, because the query fixes no order.
- ScanController.GetScanHistory: rows with equal timestamps may come in any order, so the contract allows any newest-first ordering. OrderingUnique shows the page is fixed when timestamps differ.
- PaymentController.VerifyPayment: when several payment rows match the user and order, the contract says only that one of them is used.
- The `SELECT` of the user after the verifyPayment commit (paymentController.js lines 135-142): its result is never used in the answer, so it is not modelled.

## Findings

| source | as written | input that shows it | evidently intended | confidence | as-written member | corrected member |
|---|---|---|---|---|---|---|
| backend/controllers/authController.js:244 | `jwt.verify` is called, but the file never imports `jwt` (lines 1-5), so every request with a refresh token throws a ReferenceError and is answered 401 'Invalid refresh token' | any non-empty `refreshToken`, such as one just issued by `generateRefreshToken` to an existing user | verify the token and issue a new token pair for its user, or 404 when the user is gone | high, not executed | AuthController.RefreshTokenAsWritten, AuthController.RefreshAsWrittenRefusesIssuedToken | AuthController.RefreshToken |
| backend/controllers/carController.js:121 | `JSON.parse(car.customFields \|\| '{}')` is applied to the JSON column, which pg already returns parsed. An object becomes the text `[object Object]` first, which is not JSON, so the parse throws into the 500 of the catch. The same happens at lines 164 and 236 | `POST /cars` with `{carNumber, carModel}` and no custom fields stores `{}`; the following `GET /cars/me` is answered 500 | answer the stored custom fields as they come from the driver, as saveCar does (lines 54-61) | high, not executed | CarController.GetUserCarAsWritten, CarController.GetCarByQrAsWritten, CarController.UpdateCarAsWritten, CarController.SavedCarRefusedAsWritten, Scenarios.SaveThenReadAsWritten | CarController.GetUserCar, CarController.GetCarByQr, CarController.UpdateCar |
