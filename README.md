# Vahan Tag backend: QR resolution, contact throttle and OTP state machine in Dafny

Vahan Tag is a vehicle-tag emergency-contact service. A QR code on a vehicle resolves to
the owner's emergency profile, subject to the tag's activation status and subscription
expiry. Contact actions (view, scan, call, sms) are logged, and contact requests are
throttled per caller address. Mobile numbers are confirmed by a one-time password (OTP).

This project models the request handlers of that backend over the five tables they read
and write: `qr_tags`, `vehicle_profiles`, `emergency_logs`, `otp_verifications` and
`masked_calls`. It proves what each handler answers and how it changes the tables.

* `wrappers.dfy` (`Wrappers`): `Option`, and JavaScript truthiness of an optional string.
* `text.dfy` (`Text`): ECMAScript `trim`, upper-casing, UTF-16 length and decimal numerals.
* `tables.dfy` (`Tables`): the row types and the `Store` class, which holds the tables as
  sequences plus one serial-id counter per table. Every SQL statement the handlers run is
  either a `Store` method (the inserts and updates) or a function on the tables (the
  selects, the join and the `COUNT(*)` of the throttle). The one exception is the OTP
  verify's `ORDER BY created_at DESC LIMIT 1`, which is the method
  `OtpRoutes.MostRecentLive`.
* `qr_routes.dfy` (`QrRoutes`): `normalize`, `getClientIP`, and the create, resolve and
  contact handlers.
* `emergency_routes.dfy` (`EmergencyRoutes`): the status/expiry gate, and the scan, call
  and SMS handlers.
* `masked_routes.dfy` (`MaskedRoutes`): the masked call handler.
* `otp_service.dfy` (`OtpService`): code generation and expiry.
* `otp_routes.dfy` (`OtpRoutes`): send and verify, plus a model of request sequences
  (`Step`, `Run`) for the properties that span several requests.
* `admin_auth.dfy` (`AdminAuth`): the admin-key middleware.

Each handler is a method over the injected `Store`. Time is a parameter `now`, in
milliseconds. The handler returns the HTTP status and an outcome tag that names the
response body. Its `modifies` clause names the only table it may write, and its
postcondition gives the whole answer ladder, branch by branch.

The code and the system's specification disagree in several places. This model follows
the code:

* `generateOTP` draws from 100000 to 999999. A code therefore never has a leading zero,
  although the specification promises six-digit codes with leading zeros.
* `POST /qr` is not behind the admin middleware. Neither `qr.routes.js` nor `server.js`
  mounts `adminAuth` on it, although the specification calls the route admin-gated.
* The specification says resolution normalises codes. The emergency and masked routers look
  codes up raw, so only `/qr` normalises.
* The specification answers an unknown code with NotFound. `GET /qr/:code` and
  `POST /qr/:code/contact` answer 403 for it, the same answer as for a known tag that does
  not resolve.
* The specification tells an inactive tag and an expired tag apart. `/qr` answers both
  with one and the same 403.
* The specification answers an active tag without a profile with NotFound. `GET /qr/:code`
  left-joins the profile and answers 200 with the profile absent.

## Model

| member | source | states |
|---|---|---|
| `Text.Trim` | backend/routes/qr.routes.js:24 | The result starts and ends with a non-space character, and the input is the result surrounded only by ECMAScript white space. |
| `Text.TrimIdempotent` | backend/routes/qr.routes.js:24 | Trimming twice is trimming once. |
| `Text.ToUpper` | backend/routes/qr.routes.js:24 | Upper-casing keeps the length and maps each character independently (ASCII letters only). |
| `Text.ToUpperIdempotent` | backend/routes/qr.routes.js:24 | After upper-casing no lower-case ASCII letter is left, and upper-casing again changes nothing. |
| `Text.ToUpperKeepsTrimmed` | backend/routes/qr.routes.js:24 | Upper-casing a trimmed string leaves it trimmed, and leaves it empty exactly when it was empty. |
| `Text.Utf16Length` | backend/routes/emergency.routes.js:150 | `.length` counts UTF-16 units: between the number of code points and twice that. |
| `Text.Utf16LengthBmp` | backend/routes/emergency.routes.js:150 | For text inside the Basic Multilingual Plane, `.length` is the code point count. |
| `Text.DecimalString` | backend/services/otp.service.js:7 | `toString()` of a non-negative integer is at least one digit long, all digits, and has no leading zero. |
| `Text.DecimalRoundTrip` | backend/services/otp.service.js:7 | Reading back the numeral of `n` gives `n`. |
| `Text.DecimalLength` | backend/services/otp.service.js:7 | A number in [10^k, 10^(k+1)) has a numeral of k + 1 digits. |
| `QrRoutes.Normalize` | backend/routes/qr.routes.js:23-25 | The result is null exactly for an absent code or one that is blank after trimming. Otherwise it is the trimmed code upper-cased: non-empty, trimmed, with no lower-case ASCII letter. |
| `QrRoutes.NormalizeIdempotent` | backend/routes/qr.routes.js:23-25 | Normalising a normalised code gives the same code. |
| `QrRoutes.NormalizeExample` | backend/routes/qr.routes.js:45 | The code "abc123" is stored as "ABC123". |
| `QrRoutes.FirstListEntry` | backend/routes/qr.routes.js:13 | `split(",")[0]` is the prefix of the header before its first comma, and contains no comma. |
| `QrRoutes.ClientIp` | backend/routes/qr.routes.js:11-18 | The address is the trimmed first `x-forwarded-for` entry when that is non-empty. Otherwise it is the non-empty socket address, else the non-empty `req.ip`, else "unknown". It is never empty. |
| `QrRoutes.CreateQr` | backend/routes/qr.routes.js:37-70 | A missing or empty `qr_code` or `type` gives 400 and no insert. A blank code gives 500 and no insert. A code already stored gives 400 "already exists" and leaves `qr_tags` unchanged. Otherwise one inactive row with the normalised code and a fresh id is appended, with 201. |
| `QrRoutes.GetQr` | backend/routes/qr.routes.js:75-127 | A segment that spells "test" in any case is answered 200 by the test route registered before `/:code`, and nothing is logged. Otherwise a blank code gives 400. An unknown, inactive or expired code gives the same 403. Each of these leaves the log unchanged. Otherwise the tag and its left-joined profile come back with 200, and exactly one 'view' row with the tag id, client address and now is appended. |
| `QrRoutes.Contact` | backend/routes/qr.routes.js:132-194 | A blank code or an action other than sms/call gives 400 before any lookup. A tag that does not resolve gives 403. Five or more rows of the caller in the window give 429. None of these writes the log. Otherwise exactly one row with the action is appended, with 200. |
| `QrRoutes.TestPathShadowsTestCode` | backend/routes/qr.routes.js:30-32 | Every segment the test route takes normalises to "TEST". |
| `QrRoutes.TestCodeNeedsSpace` | backend/routes/qr.routes.js:30-32 | With segments taken decoded and ASCII upper-casing, a segment that reaches the lookup and still normalises to "TEST" has white space at one of its ends. |
| `QrRoutes.CreatedTagDoesNotResolve` | backend/routes/qr.routes.js:98-100 | Appending a freshly created (inactive) tag changes no `/qr` lookup result. In particular its own new code is refused until it is activated. |
| `Tables.Store.InsertTag` | backend/routes/qr.routes.js:48-55 | The insert appends one row with the next serial id and keeps the tables valid. |
| `Tables.Store.InsertLog` | backend/routes/qr.routes.js:180-186 | The log insert appends one row with the next id, stamped with now; nothing else changes. |
| `Tables.Store.CloseOpenOtps` | backend/routes/otp.routes.js:38-46 | The update closes every open row of the mobile and changes nothing else. |
| `Tables.Store.InsertOtp` | backend/routes/otp.routes.js:49-56 | The insert appends one unverified row with the next id, the code and the expiry. |
| `Tables.Store.MarkVerified` | backend/routes/otp.routes.js:105-112 | Updating by primary key changes exactly one row, whose `verified` becomes true. |
| `Tables.Store.InsertMaskedCall` | backend/routes/masked.routes.js:44-49 | The insert appends one `masked_calls` row with the next id. |
| `Tables.FindTag` | backend/routes/emergency.routes.js:13-19 | The lookup by code finds a row carrying the code, and finds nothing exactly when no row carries it. |
| `Tables.FindResolvable` | backend/routes/qr.routes.js:95-103 | The combined filter finds a row with the code that is active and unexpired (`expires_at` null or later than now), and finds nothing exactly when no such row exists. |
| `Tables.FindResolvableIsLookupThenCheck` | backend/routes/qr.routes.js:98-100 | Under the unique constraint, the combined filter finds a row exactly when the code is known and its tag is resolvable. It then finds the same row as the plain lookup. |
| `Tables.FindProfile` | backend/routes/masked.routes.js:30-39 | The profile lookup finds a profile of the tag, and finds nothing exactly when the tag has none. |
| `Tables.FindJoined` | backend/routes/emergency.routes.js:93-101 | The inner join finds a tag with the code that has a profile, and finds nothing exactly when no tag with the code has one. |
| `Tables.FindJoinedIsLookupThenProfile` | backend/routes/emergency.routes.js:93-105 | Under the unique constraint, the join is empty exactly when the code is unknown or its tag has no profile. Both cases look the same to the caller. |
| `Tables.CountRecent` | backend/routes/qr.routes.js:165-173 | The throttle count is at most the number of rows, and is zero when no row of the caller is in the window. Its exact value is stated by `Tables.CountRecentIsNumberOfRecentRows`. |
| `Tables.CountRecentAppend` | backend/routes/qr.routes.js:165-173 | Appending a row adds one to the count exactly when that row is the caller's and is in the window. This holds for view rows as well. |
| `Tables.CountRecentSplit` | backend/routes/qr.routes.js:165-173 | The count over two stretches of the log is the sum of their counts. |
| `Tables.CountRecentCountsSuffix` | backend/routes/qr.routes.js:165-173 | A trailing block of the caller's rows inside the window adds its length to the count, whatever comes before it. |
| `Tables.CountRecentIsNumberOfRecentRows` | backend/routes/qr.routes.js:165-173 | The count equals the number of positions in the log holding a row of the caller inside the window, however those rows are interleaved with others. |
| `Tables.ThrottleCloses` | backend/routes/qr.routes.js:164-178 | Five rows of the caller inside the window, anywhere in the log, bring the count to the limit, so the next contact from that address gets 429. |
| `Tables.ThrottleReopens` | backend/routes/qr.routes.js:170 | Once every row of the caller is two minutes old, the count is zero. |
| `EmergencyRoutes.CheckTag` | backend/routes/emergency.routes.js:28-40 | Status is checked before expiry. A tag is lapsed exactly when it is active, has an expiry, and that expiry is strictly before now. |
| `EmergencyRoutes.GateWiderThanResolvable` | backend/routes/emergency.routes.js:33 | Every tag that `/qr` resolves passes this gate. The gate also lets through one case that `/qr` refuses: an active tag expiring exactly now. |
| `EmergencyRoutes.Scan` | backend/routes/emergency.routes.js:9-84 | The answers are ordered: unknown raw code 404, not active 403, lapsed 403 with call and sms disallowed, non-vehicle or missing profile 404. None of these writes the log. Otherwise the profile's vehicle number, blood group and model come back (never the owner's mobile), with call and sms allowed, and exactly one 'scan' row for `req.ip` is appended. |
| `EmergencyRoutes.ContactOwner` | backend/routes/emergency.routes.js:93-130 | The shared join-then-gate ladder appends exactly one row of the given action when the joined tag passes the gate, and nothing otherwise. |
| `EmergencyRoutes.Call` | backend/routes/emergency.routes.js:89-141 | A code that is unknown or has no profile gives 404 "QR not found". Not active gives 403, lapsed gives 403 "expired". None of these writes the log. Otherwise exactly one 'call' row is appended and the status is "processing". |
| `EmergencyRoutes.ValidMessage` | backend/routes/emergency.routes.js:150 | The SMS body passes when it is present, non-empty and at least 5 UTF-16 units long; its properties are stated by `EmergencyRoutes.ValidMessageLength`. |
| `EmergencyRoutes.ValidMessageLength` | backend/routes/emergency.routes.js:150 | The message check counts UTF-16 units. Five characters always pass and fewer than three never do. Within the Basic Multilingual Plane a message passes exactly when it has at least five characters. |
| `EmergencyRoutes.Sms` | backend/routes/emergency.routes.js:146-203 | A missing message, or one under 5 UTF-16 units, gives 400 whatever the code. After that the answers follow the same ladder as the call, with one 'sms' row on success. |
| `EmergencyRoutes.RawCodeMissesNormalisedTags` | backend/routes/emergency.routes.js:13-19 | A raw code containing a lower-case letter never finds a tag stored under an upper-cased code. |
| `MaskedRoutes.MaskedCall` | backend/routes/masked.routes.js:7-61 | The answers are ordered: unknown code 404, not active 403, no profile 404, with no expiry check at all. Success inserts one `masked_calls` row (caller `req.ip`, status "initiated") and returns the owner's mobile and the new id. Nothing else is written, in particular not `emergency_logs`. |
| `OtpService.GenerateOtp` | backend/services/otp.service.js:6-8 | The code is six digits with a non-zero first digit, and its value is the draw from [100000, 999999]. |
| `OtpService.GenerateOtpInjective` | backend/services/otp.service.js:7 | Different draws give different codes. |
| `OtpService.OtpExpiry` | backend/services/otp.service.js:13-15 | The expiry is strictly later than now, by exactly 300000 ms. |
| `OtpRoutes.MostRecentLive` | backend/routes/otp.routes.js:84-96 | The query finds nothing exactly when no row has the mobile, the code, `verified` false and an expiry after now. Otherwise it returns such a row whose `created_at` is no earlier than any other such row's. |
| `OtpRoutes.ValidMobile` | backend/routes/otp.routes.js:31 | `^[6-9]\d{9}$`: exactly ten ASCII digits, the first from 6 to 9; its consequence for the stored number is stated by `OtpRoutes.ValidMobileIsTrimmed`. |
| `OtpRoutes.ValidMobileIsTrimmed` | backend/routes/otp.routes.js:28-31 | A mobile that passes `^[6-9]\d{9}$` has no white space to trim. The number stored and looked up is therefore exactly the validated one. |
| `OtpRoutes.Send` | backend/routes/otp.routes.js:22-68 | A missing mobile gives 400, and so does a trimmed mobile outside `^[6-9]\d{9}$`; neither changes the table. Otherwise every open row of the mobile is closed and one unverified row (code, expiry now + 5 min, created now) is appended, with 200. |
| `OtpRoutes.Verify` | backend/routes/otp.routes.js:73-122 | A missing mobile or otp gives 400. So does the case where no row matches the trimmed mobile and code while unverified and unexpired. Neither changes the table. Otherwise exactly one row is closed, and it is the most recent matching row, with 200. |
| `OtpRoutes.SendLeavesOneOpenRow` | backend/routes/otp.routes.js:37-56 | After a send the table has grown by one, ending in the new row. That row is the only open row of the mobile. Rows of other mobiles are untouched, and no row is removed or changed except in its flag. |
| `OtpRoutes.RunKeepsOpenRows` | backend/routes/otp.routes.js:38-46 | Requests that do not send to a mobile open none of its rows. No request removes a row or changes anything but the flag. |
| `OtpRoutes.SupersededCodeNeverVerifies` | backend/routes/otp.routes.js:84-96 | After a later send to the same mobile, an earlier code that differs from the new one never matches again at any time, through any requests until the next send to that mobile. |
| `OtpRoutes.SpentCodeNeverVerifies` | backend/routes/otp.routes.js:104-112 | Once the verify after a send has closed a matching row, no code of that mobile matches again until the next send. |
| `OtpRoutes.OtpLiveWindow` | backend/routes/otp.routes.js:90 | A row from a send at time t, while still open, matches exactly at times before t + 300000 ms. |
| `AdminAuth.Authorize` | backend/middleware/adminAuth.js:1-13 | A missing or empty header gives 401. A header different from the configured key gives 403. Otherwise the request goes on to `next`, and no response is sent. |
| `AdminAuth.UnsetKeyRejectsAll` | backend/middleware/adminAuth.js:8 | With the key unset (or empty), nobody passes, and every request that carries a key gets 403. |

## Left out

- Express wiring, CORS, the body-size limit, the 404 and error handlers and `listen`
  (`backend/server.js`). This is framework plumbing with no policy of its own.
- The connection pool and the process exit on a pool error (`backend/db.js`). This is I/O
  and process control.
- The `express-rate-limit` limiters: the global one, the admin one, and the 5-per-10-minutes
  limiter on `/otp/send`. This is library behaviour.
- Randomness. `crypto.randomInt` is a parameter `draw`, and `Send` requires it to lie in the
  generator's range [100000, 999999].
- Clocks. `NOW()`, `Date.now()` and `new Date()` are all one parameter `now`. Skew between
  the database clock and the JavaScript clock, and the parsing of `expires_at`, are not modelled.
- Concurrency. Each handler runs to completion alone, so the check-then-act races of the
  throttle and of OTP close-then-insert are not modelled. The fire-and-forget view-log
  insert of `GET /qr` is modelled as a synchronous append that cannot fail.
- Store failures. The model's store never fails, except in one modelled case: a `POST /qr`
  whose code is blank after trimming. That request reaches the INSERT with a NULL code. The
  schema is not part of this model, so the model takes the store's rejection (500,
  nothing inserted). Unique violation 23505 is modelled as the duplicate-code check.
- JSON bodies carrying non-string values. `.trim()` on a number throws and Express answers
  500, but bodies are modelled as optional strings only.
- Text.ToUpper: upper-cases ASCII letters only. JavaScript's full Unicode case mapping
  (for example 'ß' to "SS", which changes the length, or 'ſ' to 'S', through which a
  segment such as "teſt" misses the test route but normalises to "TEST") is not modelled.
- EmergencyRoutes.Scan, EmergencyRoutes.Call, EmergencyRoutes.Sms, MaskedRoutes.MaskedCall:
  `req.ip` is taken as a defined string. When Express leaves it undefined, the source
  writes NULL.
- QrRoutes.GetQr: the segment is taken already percent-decoded. Express matches the test
  route against the raw path, so an encoded spelling such as `%74est` reaches the lookup
  in the source, while the model sends it to the test route.
- Response bodies. A response is reduced to its status and an outcome tag carrying the
  fields the handlers' decisions depend on. Console logging is not modelled. The
  SMS/telephony integration is only a stub comment in the source and is not modelled.
- `activated_at` is only echoed back to clients and is not a column of the model.
- The admin routes that activate or revoke tags and create profiles are not part of this
  model. The tables start in any state that satisfies `Store.Valid()`.
