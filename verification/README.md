# SpotMaps email-code authentication, modelled in Dafny

SpotMaps signs users in with a one-time code sent by email. `POST /postEmail`
draws a 4-digit code, stores it against the email in the `Users` table and
mails it. `POST /postCode` checks a submitted code against the table. If it
matches, the handler signs a JSON Web Token over the email and an expiry 14
days ahead, stores the token in place of the code and returns it.
`POST /authMe` checks a bearer token against an email.

This project models that flow. It covers the four table operations of
`src/sqlite.js` and the decision logic of the three routes in `server.js`. The
model behaves as the code is written, including two behaviours the authors
evidently did not intend. Both are proved as properties of the model:

- **A cleared code accepts `"0"`.** After a token is issued, the stored code
  is the empty text `''`. `verifyCode` compares `Number('')`, which is 0, with
  `Number(submitted)`, so submitting `"0"` earns a new token. The mailed code
  is refused at that point. See `UserStore.ClearedCodeAcceptsZero` and
  `AuthProperties.ZeroCodeAfterLogin`.
- **The expiry test never fires.** The expiry `Date` travels through the
  token as JSON, so it is decoded as ISO 8601 text. `text < new Date()`
  converts the text with `Number`, and any text ending in `Z` becomes NaN. A
  comparison with NaN is always false, so a token the server issued is
  accepted at every clock reading. Acceptance is decided by the signature and
  the email alone. See `AuthProperties.ExpiryNeverFires` and
  `AuthProperties.IssuedTokenAcceptance`.

## Layout

| file | module | models |
|---|---|---|
| `wrappers.dfy` | `Wrappers` | `Option` and `Result` |
| `js_values.dfy` | `JsValues` | JavaScript semantics the code relies on: truthiness, `Number(...)` on strings (the StringNumericLiteral grammar of ECMA-262), `===`, `<` against a `Date`, and integer-to-text |
| `iso_dates.dfy` | `IsoDates` | `Date.prototype.toISOString` of ECMA-262, the JSON form of a `Date` |
| `user_store.dfy` | `UserStore` | the `Users` table and `getUser`, `insertUserCode`, `verifyCode`, `insertUserToken` |
| `auth_server.dfy` | `AuthServer` | the `/postEmail`, `/postCode` and `/authMe` handlers |
| `auth_properties.dfy` | `AuthProperties` | properties that span several requests |

The table is a sequence of rows in insertion order. The schema does not make
`email` unique. A lookup returns the first matching row, and an `UPDATE`
rewrites every matching row. "At most one row per email" is therefore proved
as an invariant of the operations. `GetUser` gives the per-email view of the
table, which is the email → record map.

A write that returns an `Error` is a `Failure` and carries no table.
`Written` keeps the old table in that case.

Each handler is a pure function. Its inputs are the table, the parsed request
fields and the answers of its collaborators:

- `Math.random()` is a real in [0, 1).
- The mail service answers delivered or not.
- The clock is a time value in milliseconds.
- `jwt.sign` is a function from claims to token text.
- `jwt.verify` is a function from token text to a decoded payload. It gives
  `None` when the library throws.

## Model

| member | source | states |
|---|---|---|
| `UserStore.UpdateWhere` | src/sqlite.js:74-107 | `UPDATE Users SET code, token WHERE email = …`: every row with the email gets the new code and token, every other row is unchanged, and the row count and the emails are kept |
| `UserStore.GetUser` | src/sqlite.js:57-64 | the lookup finds a row exactly when some row has the email, and the row it returns has that email |
| `UserStore.InsertUserCode` | src/sqlite.js:66-90 | an empty email or a zero code is an error with no write. For an existing user, the code is overwritten, the token becomes `''` and the row count is unchanged. A new email gets one appended row with a NULL token. No other email's row changes, and one-row-per-email is kept |
| `UserStore.CellToNumber` | src/sqlite.js:95 | `Number(user.code)`: a NULL cell and the cleared code `''` both read as 0 |
| `UserStore.VerifyCode` | src/sqlite.js:92-96 | true only for an email that has a row and a submitted value whose `Number` is not NaN |
| `UserStore.InsertUserToken` | src/sqlite.js:98-114 | an empty email or token is an error, and so is an unknown email. Otherwise the code becomes `''` and the token is stored. No other row changes, the row count is kept and one-row-per-email is kept |
| `UserStore.RunKeepsUniqueEmails` | src/sqlite.js:66-114 | any sequence of `insertUserCode` and `insertUserToken` calls keeps at most one row per email, because a row is appended only when `getUser` finds none |
| `UserStore.RunKeepsUsers` | src/sqlite.js:66-114 | no sequence of writes removes a user's row |
| `UserStore.VerifyAfterInsertCode` | src/sqlite.js:66-96 | after `insertUserCode(e, c)`, `verifyCode(e, x)` holds exactly when `Number(x)` is `c` |
| `UserStore.VerifyCodeText` | src/sqlite.js:83-95 | the decimal text of the stored code, as a number input submits it, verifies |
| `UserStore.VerifyAfterInsertToken` | src/sqlite.js:92-107 | after `insertUserToken`, `verifyCode(e, x)` holds exactly when `Number(x)` is 0 |
| `UserStore.ClearedCodeAcceptsZero` | src/sqlite.js:95-107 | once a token is stored, the code that verified before is refused and `"0"` verifies |
| `JsValues.Truthy` | server.js:76 | the truthiness behind every `!x` (server.js:76, 128-129, 150, 159; src/sqlite.js:67, 99): `undefined`, `null`, `false`, `0` and `''` are falsy (a JSON value is never NaN). It has no ensures: it is a definition the reader must trust. Its partner is `FromOption` |
| `JsValues.NumberEquals` | src/sqlite.js:95 | `===` on numbers: NaN equals nothing, and infinities equal only themselves. It has no ensures: it is a definition the reader must trust. Its partner is `VerifyAfterInsertCode` |
| `JsValues.StrictEquals` | server.js:159 | `===` and `!==` on values: same type and same value (a parsed JSON value is never NaN). It has no ensures: it is a definition the reader must trust. Its partner is `IssuedPayloadRejection` |
| `JsValues.ToNumber` | src/sqlite.js:95 | `Number(code)` on a request value: `undefined` is NaN, `null` and `false` are 0, `true` is 1, and a string goes through `StringToNumber`. It has no ensures: it is a definition the reader must trust. Its partners are `VerifyAfterInsertCode` and `VerifyAfterInsertToken` |
| `JsValues.LessThanDate` | server.js:159 | `value < new Date()`: the `Date` becomes its time value, the value goes through `Number`, and a NaN on either side makes the comparison false. It has no ensures: it is a definition the reader must trust. Its partners are `NaNIsNeverEarlier` (through `ExpiryNeverFires`) and `NumericExpiryIsEnforced` |
| `JsValues.IntegerText` | server.js:97 | `${code}` for a non-negative integer: non-empty decimal digits. `NumberOfIntegerText` reads it back as the integer |
| `JsValues.StringToNumber` | src/sqlite.js:95 | `Number(text)` by the StringNumericLiteral grammar (also used at server.js:159). It has no ensures: it is a definition the reader must trust. Its partners are `NumberOfIntegerText`, `NonNaNIsNumericText` and `NonNumericEndIsNaN` |
| `JsValues.FromOption` | server.js:76 | an optional string field is truthy exactly when present and non-empty |
| `JsValues.NumberOfIntegerText` | src/sqlite.js:95 | `Number` reads the decimal text of a non-negative integer back as that integer |
| `JsValues.NonNaNIsNumericText` | server.js:159 | a string `Number` does not map to NaN consists, once trimmed, only of digits, signs, `.`, exponent and radix letters and the letters of `Infinity` |
| `JsValues.NonNumericEndIsNaN` | server.js:159 | a string whose last character is neither white space nor in that alphabet is NaN to `Number` |
| `IsoDates.IsoText` | server.js:134-136 | the JSON text of the expiry `Date`, `toISOString`, always ends in `Z` |
| `IsoDates.IsoTextIsNaN` | server.js:136 | the JSON text of any `Date` is NaN to `Number` |
| `AuthServer.GenerateCode` | server.js:82 | `Math.floor(1000 + r * 9000)` for `r` in [0, 1) lies in [1000, 9999] |
| `AuthServer.PostEmail` | server.js:73-117 | the HTTP status is always 200, and 403 and 500 appear only in the body. A missing or empty email gives 403 with no write and no mail. Otherwise the drawn code is stored for the email and mailed to it, with no other row touched. The body says 500 exactly when delivery failed and 200 exactly when it succeeded |
| `AuthServer.PostCode` | server.js:124-147 | a missing email or code gives 403 with the table unchanged. A code that fails `verifyCode` gives 401 with the table unchanged. A verifying code gives 200 with a token signed over the email and an expiry 336 hours ahead. A non-empty token is stored for the email with the code cleared, and no other row changes |
| `AuthServer.PayloadOf` | server.js:136 | the payload `jwt.verify` returns for signed claims: the email as a string and the expiry `Date` as its JSON text. It has no ensures: it is a definition the reader must trust, and `ExpiryNeverFires` and `IssuedTokenAcceptance` rest on it |
| `AuthServer.BearerToken` | server.js:155 | `substring(7)`: empty for a header of at most 7 characters, otherwise the header is its first 7 characters followed by the result |
| `AuthServer.BearerTokenOfHeader` | server.js:155 | `substring(7)` of `Bearer <token>` is the token |
| `AuthServer.RejectsToken` | server.js:159 | the rejection test: decoded email falsy or not `===` the body email, decoded expiry falsy, or `expirationDate < new Date()`. It has no ensures: it is a definition the reader must trust |
| `AuthServer.AuthMe` | server.js:149-164 | a missing header gives 403. A token the verifier refuses makes the handler throw. For a payload the verifier returns, the reply is 200 exactly when the body names a non-empty email equal to the decoded one, the decoded expiry is truthy and the expiry comparison is false; every other reply is 401 |
| `AuthProperties.DeliveryDoesNotAffectStore` | server.js:83-110 | the table and the mail handed over are the same whether or not the mail is delivered |
| `AuthProperties.FailedDeliveryKeepsCode` | server.js:82-110 | after a failed delivery, the reply says 500 and the drawn code still verifies |
| `AuthProperties.IssuedCodeVerifies` | server.js:82-83 | the code `/postEmail` mails verifies for that email |
| `AuthProperties.NewCodeClearsToken` | src/sqlite.js:70-74 | a new code for a user holding a token clears the token and keeps the row count |
| `AuthProperties.ExpiryNeverFires` | server.js:134-136 | `expirationDate < new Date()` is false for every payload the server signs, at every clock reading |
| `AuthProperties.IssuedPayloadRejection` | server.js:159 | `/authMe` rejects a payload the server signed exactly when the body does not name the same non-empty email |
| `AuthProperties.IssuedTokenAcceptance` | server.js:155-163 | a token the server issued gets 200 from `/authMe` exactly when the body names its email, however late it is presented |
| `AuthProperties.NumericExpiryIsEnforced` | server.js:159-161 | for a non-zero numeric expiry, the comparison does work: 401 exactly when the clock has passed it |
| `AuthProperties.RefusedTokenThrows` | server.js:158 | a token `jwt.verify` refuses ends in a throw, not a reply |
| `AuthProperties.LoginFlow` | server.js:124-163 | mailed code → `/postCode` gives 200 and stores the token with the code cleared → `/authMe` accepts the token at any later time |
| `AuthProperties.WrongCodeRefused` | server.js:132-146 | any other natural number, submitted as its decimal text, gives 401 and leaves the table as `/postEmail` wrote it (`UserStore.VerifyAfterInsertCode` gives the general case: a value verifies exactly when `Number` maps it to the stored code) |
| `AuthProperties.ZeroCodeAfterLogin` | server.js:128-142 | once a token is stored, `"0"` earns a fresh token |
| `AuthProperties.UsedCodeRefused` | server.js:132-146 | the mailed code is refused once it has been traded for a token |

## Left out

- Opening the database and creating the schema (src/sqlite.js:10-55) are start-up I/O. The `Spots` and `Analytics` tables are not used by this flow.
- SQL text is not modelled. The queries interpolate the email and token into the statement text, so quoting and injection are left out: the model compares emails as plain strings. A query that fails is caught and logged, and its caller then sees `undefined`; the model treats every query as succeeding. The visible consequence: an email containing `'` breaks the SELECT of `getUser` (src/sqlite.js:60), so `getUser` returns `undefined`, every `insertUserCode` for that email appends another row (src/sqlite.js:83) and `verifyCode` never holds. `UserStore.RunKeepsUniqueEmails`, `AuthProperties.LoginFlow` and the other store and login properties hold only for emails the SQL text does not break.
- The `id` column and SQLite type affinity are not modelled beyond two cases: an integer code stays an integer, and `''` stays text.
- Concurrency is left out. `insertUserCode` and `insertUserToken` are not awaited by the handlers, and each of them reads and then writes. Each handler is modelled as one atomic step.
- The mail service call (server.js:87-104) is an external network call. The model reduces it to a delivered / not delivered answer and the `Mail` it is handed. The mail's body template (server.js:97) is not modelled beyond the code it carries.
- `jwt.sign` and `jwt.verify` are a foreign library and are taken as function parameters. The `iat` claim the library adds is not read by the handlers and is left out. HMAC is not modelled.
- `Math.random` is a floating-point source. It is taken as an exact real in [0, 1), so rounding of `random * 9000` is not modelled.
- Wall-clock time is taken as a time value in milliseconds. `setHours(getHours() + 336)` is modelled as adding 336 hours, so local-time and daylight-saving effects are ignored. The two separate `new Date()` readings are taken as one. For a time value beyond ±8.64e15 ms, which no clock produces, `Date.prototype.toJSON` gives `null` instead of text (the decoded expiry would then be `null` and `/authMe` would answer 401); the model ignores that case.
- `JsValues.StringToNumber`: numbers are exact reals, so rounding to binary64 and overflow to Infinity are not modelled. For example, text with more than 17 significant digits can compare equal in JavaScript and unequal here.
- `JSON.parse` of the request body is taken as already done. A body that does not parse throws. In `/postEmail` and `/postCode` that happens before any of the modelled logic runs. In `/authMe` the parse (server.js:156) comes after the header test and `substring(7)` (server.js:150-155), so a missing header still sends 403 before the throw. A JSON number too large for binary64, which `JSON.parse` reads as `Infinity`, is not modelled. An email that is not a JSON string (a number or a boolean) is not modelled. Arrays and objects as `code` are not modelled either.
- `/authMe`'s missing-header path (server.js:150-155) sends 403 and then carries on to dereference the missing header. The model stops at the 403.
- `/logs`, `/reset`, the home route, static files, templates and the SEO data (server.js:11-66, server.js:166-237) are framework plumbing. `/logs` and `/reset` call `getLogs` and `clearHistory`, which `src/sqlite.js` does not export.
- The browser code under `public/tray-app` and the mail transport in `src/nodemailer.js` are not part of this model.
