# Authentication core of a Go web service, modelled in Dafny

The service registers users, logs them in with a bearer token (a JWT whose subject
is the user id in decimal), and serves a profile route behind a token-checking
middleware. This project models the decision logic of that core and proves what it
promises:

- `toStr` (auth.go) writes the token subject. It fills a 20-byte buffer from the
  right. `Decimal.ToStr` keeps that array and loop and is proved equal to the
  reference `Decimal.Format`. The lemmas show that the buffer index never falls
  below 1, that the output is canonical decimal text, and that `strconv.Atoi`
  reads it back. The minimum `int64` is the one exception, proved separately.
- `AuthMiddleware` (middleware.go) is the pure function `Middleware.Authorize`.
  Its inputs are the `Authorization` header, a token-validation oracle and the
  request context. It either rejects with the one 401 response or forwards a
  context that binds a positive user id. `GetUserIDFromContext` is
  `Middleware.GetUserID`.
- handlers.go has two halves:
  - The request side is in module `Requests`. `requireJSON` is a predicate. The
    two validators are methods of the classes `RegisterRequest` and
    `LoginRequest`, which overwrite their fields in place as the Go code does
    through a pointer. `parseJSONStrict` is a method of a `Request` class whose
    `body` it replaces. Each method is proved against a pure specification
    function: `NormalizeRegister`/`RegisterVerdict`, `NormalizeLogin`/`LoginVerdict`,
    `StrictDecode`/`BodyAfterParse`.
  - The handlers are pure decision functions in module `Handlers`. Their inputs
    are the method, the Content-Type, the body, a JSON-decoder oracle and a
    record of store and crypto oracles (`Store.Services`). Each returns the
    response it writes and the list of store and crypto calls it made, in order.
    Every lemma about call order or "not attempted" is stated over that list.

Helpers in module `Text` model the parts of Go's `strings` package that the code
uses: `TrimSpace` with Go's `unicode.IsSpace` set, ASCII `ToLower`, `HasPrefix`,
`TrimPrefix`, and `len` as the UTF-8 byte length.

The code and the design description disagree in three places. The model follows
the code:
- The minimum password length is 6 *bytes* (`len(req.Password)`), not 6
  characters. `Requests.PasswordLengthInBytes` shows a three-letter Cyrillic
  password being accepted.
- A failing `CreateUser` gives 500 "db error", not the "already exists" outcome,
  even when the store's uniqueness constraint is what failed it
  (`Handlers.RegisterInsertFailure`).
- Login answers *every* failure of `GetUserByEmail` with 401 "Invalid email or
  password", database errors included, and not only "not found".

Files: `text.dfy`, `decimal.dfy`, `middleware.dfy`, `http.dfy` (response values,
and the store and crypto oracles), `requests.dfy`, `handlers.dfy`.

## Model

| member | source | states |
|---|---|---|
| `Decimal.ToStr` | auth.go:55-73 | The right-to-left buffer loop returns exactly `Format(v)`. Its invariants keep the write index in 1..20 and the digits still to write shorter than that index, and the loop ends because `v` drops by `v /= 10`. |
| `Decimal.Int64Digits` | auth.go:65-69 | A positive `int64` has at most 19 decimal digits, so the 20-byte buffer always has room to spare. |
| `Decimal.LoopStep` | auth.go:67-71 | One loop turn keeps the invariant: the digit written in front plus the digits of `v/10` give the same full text, with one digit fewer left to write. |
| `Decimal.FormatZero` | auth.go:57-59 | `toStr(0)` is exactly "0". |
| `Decimal.FormatPositive` | auth.go:65-72 | For `v > 0` the result is non-empty, all ASCII digits, and has no leading zero. |
| `Decimal.DigitsCanonical` | auth.go:65-71 | The digits the loop writes for `n > 0` are non-empty, canonical, and have the value `n`. |
| `Decimal.FormatNegative` | auth.go:60-72 | For a negative `v` other than the minimum, the result is "-" followed by `toStr(-v)`. |
| `Decimal.Neg64Cases` | auth.go:63 | Go's `-v` on an `int64` is exact, except that the minimum wraps back onto itself. |
| `Decimal.FormatMinInt64` | auth.go:60-72 | For −2^63, `-v` wraps, the loop never runs, and the result is "-". |
| `Decimal.Atoi` | middleware.go:41 | The `strconv.Atoi` model, including which error it reports first. A parsed value is an `int64`, and the string begins with a digit or a sign. |
| `Decimal.AtoiSyntax` | middleware.go:41-45 | `Atoi` gives a syntax error exactly on an empty string or a bare sign, or when a non-digit follows the optional sign and the digits before it still fit a `uint64`. |
| `Decimal.AtoiOverflowBeforeSyntaxError` | middleware.go:41 | Digits whose value exceeds 2^64 − 1, followed by a non-digit, give a range error, not a syntax error, because `strconv.ParseUint` stops at the overflowing digit. |
| `Decimal.AtoiFormat` | auth.go:55-73 | Round trip: for every `int64` other than the minimum, `Atoi(toStr(v))` parses back to `v`. |
| `Decimal.AtoiFormatMinInt64` | auth.go:60-72 | The round trip fails at the minimum: `Atoi` rejects the bare "-". |
| `Middleware.Authorize` | middleware.go:15-50 | Every rejection is the same response, 401 "Unauthorized". A forwarded context makes `GetUserIDFromContext` return a positive id, and it is the caller's context with only `userIDKey` rebound. |
| `Middleware.AuthorizeForwardsContext` | middleware.go:47-48 | The context passed to `next` is exactly `ctx` with the id it reports bound under `userIDKey`. Together with `AuthorizeForwardsIff`, this means every forward passes all the checks. |
| `Middleware.AuthorizeForwardsIff` | middleware.go:17-48 | Both directions: the request is forwarded with `id` bound exactly when all of these hold: the prefix is there, the trimmed token is non-empty, validation succeeds, the subject is non-empty, and `Atoi(subject)` is `id`, with `id > 0`. |
| `Middleware.AuthorizeNeedsPrefix` | middleware.go:17-21 | A header without the exact, case-sensitive "Bearer " prefix is rejected. |
| `Middleware.AuthorizeMissingToken` | middleware.go:23-27 | A missing header, "Bearer " followed by nothing or only blanks, and "bearer abc" all get the same 401, whatever the validator says. |
| `Middleware.AuthorizeDependsOnToken` | middleware.go:23-29 | The validator is consulted only on the trimmed token: two validators that agree on it give the same outcome. |
| `Middleware.AuthorizeBadSubject` | middleware.go:41-45 | A subject that does not parse, or parses to a value ≤ 0, is rejected. |
| `Middleware.AuthorizeIssuedToken` | auth.go:29 | Assume validation returns the subject `GenerateToken` wrote, `toStr(n)` for `0 < n`, and the token carries no surrounding blanks. Then `"Bearer " + token` is forwarded with `n` bound, and `GetUserIDFromContext` reads `n` back. |
| `Middleware.GetUserID` | middleware.go:53-60 | `GetUserIDFromContext`: `ok` holds exactly when the id returned is positive, and then that id is the `int` stored under the package's key. |
| `Middleware.GetUserIDBound` | middleware.go:53-60 | After a bind of `id`, the lookup returns `(id, true)` when `id > 0`. It returns `(0, false)` when `id ≤ 0`, when the value is not an `int`, or when nothing is bound. |
| `Requests.RequireJSON` | handlers.go:16-23 | `requireJSON` as a predicate on the Content-Type. `RequireJSONPrefix` and the lemmas after it state what it accepts. |
| `Requests.RequireJSONPrefix` | handlers.go:16-23 | The request is accepted exactly when its first 16 characters, lower-cased, are "application/json". |
| `Requests.RequireJSONCaseInsensitive` | handlers.go:18 | The gate gives the same answer for a Content-Type and its lower-cased form. |
| `Requests.RequireJSONParameters` | handlers.go:18 | Text appended after an accepted media type does not change the verdict, parameters such as "; charset=utf-8" included. |
| `Requests.RequireJSONAcceptsParameters` | handlers.go:18-22 | "application/json; charset=utf-8" is accepted. |
| `Requests.RequireJSONAcceptsUpperCase` | handlers.go:18-22 | "Application/JSON" is accepted. |
| `Requests.RequireJSONRejects` | handlers.go:18-21 | "text/plain" and the empty (missing) Content-Type are refused. |
| `Requests.RegisterRequest.Validate` | handlers.go:65-82 | In place: the email becomes `TrimSpace(ToLower(email))` and the username `TrimSpace(username)`, while the password is unchanged. The error returned is `RegisterVerdict` of the new fields. |
| `Requests.LoginRequest.Validate` | handlers.go:84-94 | In place: only the email is normalised. The error returned is `LoginVerdict` of the new fields. |
| `Requests.RegisterVerdict` | handlers.go:69-81 | No error exactly when all of these hold: the email is non-empty, the username is non-empty, the password is not all white space, and the password is at least 6 UTF-8 bytes. |
| `Requests.RegisterVerdictOrder` | handlers.go:65-82 | Failures are reported in check order: email, then username, then blank password, then short password, each with its own message. |
| `Requests.LoginVerdict` | handlers.go:87-93 | No error exactly when the email is non-empty and the password is not blank. There is no length minimum. |
| `Requests.NormalizeEmailIdempotent` | handlers.go:66 | A normalised email is lower-case and trimmed, and normalising it again changes nothing. |
| `Requests.NormalizeRegisterIdempotent` | handlers.go:66-67 | Register normalisation is idempotent and leaves the password unchanged. |
| `Requests.NormalizeLoginIdempotent` | handlers.go:85 | Login normalisation is idempotent and leaves the password unchanged. |
| `Requests.ValidateRegisterTwice` | handlers.go:65-82 | Running `validateRegisterRequest` twice leaves the request as the first run left it, and gives the same verdict both times. |
| `Requests.ValidateLoginTwice` | handlers.go:84-94 | The same holds for `validateLoginRequest`. |
| `Requests.PasswordLengthInBytes` | handlers.go:78-80 | The minimum counts bytes: the three-character password "абв" (6 bytes) passes. |
| `Requests.PasswordTooShort` | handlers.go:78-80 | The five-byte password "abcde" gets "password too short". |
| `Requests.StrictDecode` | handlers.go:34-63 | A nil body is an error. Success happens exactly when the read succeeds, the first value decodes and only JSON white space follows. The value returned is the decoded one. |
| `Requests.BodyAfterParse` | handlers.go:40-45 | After a successful read, the body yields exactly the bytes that were read. |
| `Requests.Request.ParseJSONStrict` | handlers.go:34-63 | The result is `StrictDecode` of the old body, and `r.Body` becomes `BodyAfterParse` of it. Reading drains the reader, so the body holds its bytes afterwards only because it is restored. |
| `Requests.StrictDecodeRepeatable` | handlers.go:44-47 | Parsing the restored body again gives the same answer, unless the reader failed. Restoring a restored body changes nothing. |
| `Requests.StrictDecodeTrailingValue` | handlers.go:54-60 | Anything other than white space after the first value, a second value included, is an error. |
| `Text.TrimSpaceIdempotent` | handlers.go:67 | `strings.TrimSpace` is idempotent. |
| `Text.ToLowerTrimSpace` | handlers.go:66 | Lower-casing commutes with trimming. |
| `Text.Utf8Len` | handlers.go:78 | Go's `len` of a string is between 1 and 4 bytes per character. It equals the character count exactly when the string is ASCII. |
| `Handlers.Issue` | handlers.go:138-152 | The token step shared by register and login (the latter at handlers.go:187-201). `RegisterTokenFailure`, `LoginTokenFailure`, `RegisterSuccess` and `LoginSuccess` state what it answers. |
| `Handlers.RegisterHandler` | handlers.go:97-153 | The status is always one of 405, 415, 400, 409, 500 or 201, and every non-201 answer is a plain message. |
| `Handlers.RegisterStore` | handlers.go:116-152 | After validation the status is one of 409, 500 or 201, and the first call is always the existence check on the normalised email. |
| `Handlers.RegisterMethodFirst` | handlers.go:98-101 | A non-POST request gets 405 with no call, whatever its Content-Type or body. The same holds for login. |
| `Handlers.ContentTypeBeforeBody` | handlers.go:102-104 | A POST whose Content-Type is not JSON gets 415 with no call, whatever its body. The same holds for login (handlers.go:161-163). |
| `Handlers.RegisterInvalidJson` | handlers.go:106-110 | A body that strict decoding rejects gets 400 "invalid json", with no call. |
| `Handlers.RegisterValidationMessage` | handlers.go:111-114 | A validation failure gets 400 with the validator's own message, before any store call. |
| `Handlers.RegisterReachesStore` | handlers.go:111-116 | A valid request reaches the store with the normalised fields. |
| `Handlers.RegisterConflict` | handlers.go:121-124 | An existing email gets 409, and the only call made is the existence check: no hashing and no `CreateUser`. |
| `Handlers.RegisterInsertFailure` | handlers.go:132-136 | An insert error gets 500 "db error", not 409. |
| `Handlers.RegisterTokenFailure` | handlers.go:138-142 | When signing fails after a successful insert, the answer is 500 "failed to generate token", after the calls exists, hash, create, token. |
| `Handlers.RegisterSuccess` | handlers.go:126-152 | Both directions: the answer is 201 exactly when every step succeeds. The user is then stored under the normalised email and username with the hash. The response carries the new row and the token, and the calls are exists, hash, create, token, in that order. |
| `Handlers.LoginHandler` | handlers.go:156-202 | The status is always one of 405, 415, 400, 401, 500 or 200, and every 401 is the same "Invalid email or password". |
| `Handlers.LoginStore` | handlers.go:175-201 | After validation the status is one of 401, 500 or 200, and the first call is the lookup of the normalised email. |
| `Handlers.LoginInvalidJson` | handlers.go:166-169 | A body that strict decoding rejects gets 400 "invalid json", with no call. |
| `Handlers.LoginValidationMessage` | handlers.go:170-173 | A validation failure gets 400 with the validator's own message, before any store call. |
| `Handlers.LoginReachesStore` | handlers.go:165-175 | A valid login reaches the store with the normalised email. |
| `Handlers.LoginSameFailure` | handlers.go:175-185 | An unknown email and a wrong password get the identical response. |
| `Handlers.LoginTokenFailure` | handlers.go:187-191 | When signing fails after a good password check, the answer is 500 "failed to generate token", after the calls lookup, check, token. |
| `Handlers.LoginSuccess` | handlers.go:182-201 | Both directions: the answer is 200 exactly when the user is found, the password matches the stored hash and a token is issued. The response then carries that token and the stored user, and the calls are lookup, check, token. |
| `Handlers.ProfileHandler` | handlers.go:205-233 | The status is always one of 405, 401, 404, 500 or 200. A 200 means a bound id was found, and the only call was the lookup of that id. |
| `Handlers.ProfileRoute` | main.go:33 | `AuthMiddleware(ProfileHandler)`: the gate's answer, or the handler run on the context it forwards. The three lemmas below state what it does. |
| `Handlers.ProfileRouteGateFirst` | main.go:33 | On /profile the gate runs before the method check: a rejected token gets 401 "Unauthorized" for every method, with no lookup. |
| `Handlers.ProfileRouteLooksUpSubject` | handlers.go:211-225 | Behind a gate that forwarded `id`, the handler's own 401 cannot happen, it looks up exactly `id`, and a missing row gets 404. |
| `Handlers.ProfileRouteWrongMethod` | handlers.go:206-209 | Behind a gate that forwarded, a method other than GET gets 405, with no lookup. |
| `Handlers.ProfileRouteDbError` | handlers.go:217-224 | A lookup error other than a missing row gets 500 "db error", not 404, after the single lookup of the bound id. |
| `Handlers.ProfileRouteIssuedToken` | handlers.go:205-232 | A token issued for user `n` gets 200 with the profile of user `n`. |

## Left out

- bcrypt (`HashPassword`, `CheckPassword`, auth.go:18-25) is foreign crypto. Both appear as oracles in `Store.Services`.
- JWT signing and parsing (`GenerateToken`, `ValidateToken`, auth.go:27-53) are library calls that read the clock. They are left out, and so are the HS256 pin at auth.go:40 and the 24-hour expiry. The gate takes validation as an oracle instead (`Middleware.Validation`). Token issuance appears only as the `generateToken` oracle and as the subject `toStr(id)` in `Middleware.AuthorizeIssuedToken`.
- `InitAuth` and the process-wide secret are startup I/O.
- JSON decoding itself (`encoding/json`, `DisallowUnknownFields`) is an oracle (`Requests.Decoded`). Unknown fields and type errors are among its `DecodeError` answers.
- `writeJSON` and `http.Error` do the response writing, which is I/O. A response is modelled as status plus payload. The newline and headers that `http.Error` adds are not modelled.
- database.go (SQL, the global `*sql.DB`, the driver) is I/O. Its answers are the oracles in `Store.Services`.
- main.go is process plumbing, except the composition `AuthMiddleware(ProfileHandler)` at main.go:33, which is `Handlers.ProfileRoute`.
- `HealthHandler` (handlers.go:236-248) is a database ping.
- The check-then-insert race between `UserExistsByEmail` and `CreateUser` needs concurrency, which a sequential model cannot show. The model only proves that an insert failure maps to 500.
- Request headers are passed in as the values that `Header.Get` returns. Header-name canonicalisation and multi-valued headers are not modelled.
- Request contexts model only the value stored under the package's own key.
- Go's `int` is taken to be 64 bits wide, as on the platforms the service targets.
- `Text.ToLower`: only ASCII letters are lower-cased. Go's `strings.ToLower` follows Unicode, and a few non-ASCII letters (U+0130 and the Kelvin sign U+212A) map onto ASCII `i` and `k`. So e-mails with non-ASCII capitals, and Content-Types built from such letters, are not modelled.
- Strings are sequences of Unicode scalar values. Invalid UTF-8 in a Go string is not modelled: JSON decoding replaces it with U+FFFD.
- `Requests.Request.ParseJSONStrict`: `r.Body` is a value, not a shared `io.ReadCloser`. Reading it leaves a drained reader (`Reader([], fails)`), and that is what `r.Body` holds after a read error, because the Go code returns without restoring it. What a real failing reader still yields, and other holders of the same reader, are not modelled.
