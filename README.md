# Request decisions of the media upload backend

This project models the request-decision logic of `backend/app.js`. That file is an Express
service that sits between an nginx reverse proxy, a JWT library and a MinIO object store.
The modelled decisions are:

- bearer-token extraction from the `authorization` header (`verifyTokenFromHeader`);
- the nginx `auth_request` decision of `GET /authz/media`. It checks the credential, then the
  `X-Original-Uri` path pattern `^/v1/audio/.+`, then the method allow-list. Each check ends
  the request when it fails;
- the demo login of `POST /auth/login`;
- the storage key `year/MM/filename` and the download path `/v1/audio/<key>` of
  `POST /media/upload`, with that endpoint's status mapping;
- the per-object entry mapping of `GET /media/list`, written as a loop that appends one entry
  per streamed object, in arrival order.

Foreign code is passed in as function-typed parameters ("oracles"):

- `jwt.verify` is an `Auth.Verifier`. It returns the claims, or `None` where the library throws.
- `jwt.sign` is a `Login.Signer`.
- MinIO's `putObject` is a `Media.ObjectStore`. It returns whether the write succeeded.
- The `listObjects` stream is a `Media.ObjectListing`: the objects it emits in order, and
  whether it ended with `'error'`.

The clock is a parameter: `nowMs` stands for `Date.now()`, and `CalendarDate` for the year
and month of `new Date()`. Nothing in the model has state. The authorization decision is a
function, so repeated calls give identical results and change nothing.

Modules: `Wrappers` (Option, Result), `Text` (JavaScript `split`, `join`, `String(n)`,
`padStart`, line terminators), `Auth`, `MediaAuthz`, `Login` and `Media`.

Facts about the code that a reader might expect otherwise:

- There is no handle registry, no uuid-based key and no `X-Media-Key` or `X-Media-Filename`
  header. The storage key embeds the original file name, and the download path is the key
  itself behind `/v1/audio/`.
- Authorization answers only 200, 401 or 403, never 400 or 404. A failed credential is
  always 401, whatever the method, and the path is checked before the method.
- The list response carries `success` and `files`, without a count.
- Every log line that formats the `username` (app.js:81, 96, 139, 185) throws a TypeError
  for a JSON object that cannot be converted to a string, such as `{"toString": 1}`. The
  model follows each handler's reaction: 500 at login, 401 at authorization and upload,
  and no reply at all from the list endpoint, where the line sits in a stream callback
  outside the `try`.

## Model

| member | source | states |
|---|---|---|
| `Text.Split` | backend/app.js:52 | `split(' ')` yields at least one field, no field contains the separator, and joining the fields with the separator gives back the input |
| `Text.SplitWithoutSeparator` | backend/app.js:52 | a string without the separator splits into exactly itself |
| `Text.SplitAfterField` | backend/app.js:52 | the first field ends at the first separator; the rest is split independently |
| `Text.NatToDecimal` | backend/app.js:137 | `String(n)` is a non-empty digit string without a leading zero whose decimal value is `n`; JavaScript switches to exponent notation only from 10^21, far above the months and `Date` years the handler formats |
| `Text.IntToDecimal` | backend/app.js:137 | `String(year)` is non-empty, starts with a digit or `-`, contains no `/`, and is canonical: no leading zero and no `-0` |
| `Text.ParseIntCanonical` | backend/app.js:137 | every text the integer parser accepts is exactly `String` of its value, so a year numeral is fixed by its value |
| `Text.IntToDecimalRoundTrip` | backend/app.js:137 | parsing `String(n)` gives back `n`, negative years included |
| `Text.PadStart` | backend/app.js:137 | `padStart(width, c)` has length `max(len, width)`, ends with the input and holds only `c` before it |
| `Auth.Truthy` | backend/app.js:62 | JavaScript truthiness of a body member; its effect is stated by `Login.HandleLogin` and `Login.MissingFieldIsBadRequest` (absent, empty, `null`, `0` and `false` are missing fields) |
| `Auth.Printable` | backend/app.js:96 | whether a value can be put into a template literal without a TypeError (lines 81, 96, 139 and 185); its effect is stated by `Login.HandleLogin`, `MediaAuthz.UnprintableUserUnauthorized`, `Media.Upload` and `Media.ListMedia` |
| `Auth.ExtractToken` | backend/app.js:49-53 | every failure is 'missing token'; an extracted token is non-empty and space-free and needs a present header |
| `Auth.ExtractTokenComplete` | backend/app.js:52-53 | for any scheme word, the non-empty token between the first space and the next space or the end is the one extracted |
| `Auth.ExtractTokenSound` | backend/app.js:52-53 | every extracted token comes from a header `scheme + " " + token + rest`, where `rest` is empty or starts with a space |
| `Auth.MissingTokenCases` | backend/app.js:50-53 | no header, a header without a space, `"Bearer "` and `"Bearer  x"` all throw 'missing token' |
| `Auth.VerifyTokenFromHeader` | backend/app.js:49-55 | it succeeds exactly when a token is extracted and the verifier accepts it, with the verifier's claims; 'missing token' exactly when extraction fails |
| `Auth.SchemeIgnored` | backend/app.js:52-54 | the scheme word is never checked: any two space-free scheme words give the same result, which succeeds iff the verifier accepts the token |
| `MediaAuthz.Status` | backend/app.js:99-120 | the status each decision is answered with (200, 401, 403 at lines 101, 106, 116 and 120); stated for the endpoint by `MediaAuthz.AuthorizeStatus` |
| `MediaAuthz.HeaderOr` | backend/app.js:93-94 | the `x-original-uri` and `x-original-method` defaults for absent or empty headers; stated by `MediaAuthz.MissingUriForbidden` and `MediaAuthz.MissingMethodMeansGet` |
| `MediaAuthz.PathMatches` | backend/app.js:99 | the regex holds iff the URI is `/v1/audio/` followed by a non-empty rest whose first character is not a line terminator |
| `MediaAuthz.StripAudioPrefix` | backend/app.js:110 | removing the prefix leaves what follows it; a URI without the prefix is unchanged |
| `MediaAuthz.Authorize` | backend/app.js:90-122 | allow iff the token verifies with a printable `username`, the path matches and the method is allowed; the allowed file path is the URI minus the prefix and is non-empty; 401 iff the credential is not accepted |
| `MediaAuthz.AuthorizeStatus` | backend/app.js:90-122 | the endpoint answers only 200, 401 or 403; 200 iff token, path and method all pass; 401 iff the credential is not accepted |
| `MediaAuthz.TokenFailureFirst` | backend/app.js:91-120 | a failed credential gives 401 whatever the URI and the method |
| `MediaAuthz.UnprintableUserUnauthorized` | backend/app.js:92-120 | a verified token whose `username` claim throws in the log line at line 96 gives 401 whatever the URI and the method |
| `MediaAuthz.PathCheckedBeforeMethod` | backend/app.js:99-107 | with an accepted credential, a non-matching path gives 403 'invalid path' whatever the method |
| `MediaAuthz.MissingUriForbidden` | backend/app.js:93-102 | an absent or empty `x-original-uri` reads as '' and gives 403 'invalid path' |
| `MediaAuthz.PrefixAloneForbidden` | backend/app.js:99-102 | the bare prefix, or the prefix followed by a line terminator, gives 403 'invalid path' |
| `MediaAuthz.MethodOutsideAllowList` | backend/app.js:104-107 | with an accepted credential and path, any non-empty method outside GET/HEAD/OPTIONS gives 403 'method not allowed', including `POST` and `get` |
| `MediaAuthz.MissingMethodMeansGet` | backend/app.js:94 | an absent or empty `x-original-method` is decided exactly as GET |
| `MediaAuthz.AuthorizePrefixedPath` | backend/app.js:99-116 | an accepted token, an allowed method and `/v1/audio/` + path, where path is non-empty and does not start with a line terminator, give allow with exactly that path |
| `Login.IssuedAt` | backend/app.js:75 | `iat` is `Date.now()` in whole seconds, rounded down |
| `Login.TokenRequest` | backend/app.js:71-79 | the signed payload has `sub` and `username` both equal to the user name, `iat` the current second, and `expiresIn '24h'` |
| `Login.HandleLogin` | backend/app.js:58-87 | a falsy field gives 400; a password other than `'demo123'` gives 401; a signing failure gives 500, and so does a user name that throws in the log line at line 81; a token is issued iff the user name is truthy and printable, the password is `'demo123'` and signing succeeds, and it is the signer's token for `sub = username = username`, `expiresIn '24h'` |
| `Login.DemoPasswordIssuesToken` | backend/app.js:67-82 | any non-empty user name with `'demo123'` gets the token signed for that name, with `expiresIn '24h'` |
| `Login.OtherPasswordRefused` | backend/app.js:67-69 | for a non-empty string user name, any truthy password other than the string `'demo123'`, including `"demo123 "` and a number, gets 401 |
| `Login.MissingFieldIsBadRequest` | backend/app.js:60-64 | an absent or empty user name or password gives 400 whatever the other field holds |
| `Media.MonthField` | backend/app.js:137 | `String(month + 1).padStart(2, '0')` is exactly two digits with value month + 1 |
| `Media.StorageKey` | backend/app.js:136-137 | year, month (1 to 12) and file name are read back out of the key, whatever the file name holds, and with `Media.ParseStorageKeyInjective` this fixes the key's text; the key has at least two `/` separators; it starts with a year digit or minus sign, never a line terminator |
| `Media.ParseStorageKeyInjective` | backend/app.js:137 | two keys that parse to the same year, month and file name are the same text |
| `Media.StorageKeyDeterminedByParts` | backend/app.js:137 | the key of an upload is the only text that parses to its year, month and file name |
| `Media.StorageKeyExample` | backend/app.js:137 | an upload of `sample.wav` in January 2025 is stored under `2025/01/sample.wav` |
| `Media.DownloadPath` | backend/app.js:154 | the path starts with `/v1/audio/` and stripping that prefix returns the key, so it is exactly `/v1/audio/` + key; it passes the path pattern iff the key is non-empty and does not start with a line terminator |
| `Media.Upload` | backend/app.js:125-160 | a bad token gives 401, then a missing file gives 400, then an unprintable `username` gives 401; success iff the write of the key, the buffer, its length and the mimetype succeeds; a failed write gives 401; the returned key is the written `StorageKey` and the download path is `/v1/audio/` + key |
| `Media.UploadedPathAuthorizes` | backend/app.js:134-154 | the returned download path, presented to `/authz/media` with the same token and any allowed method, is granted with file path equal to the key |
| `Media.EntryOf` | backend/app.js:171-176 | the list entry of one streamed object; stated by `Media.ListMedia` (name, size, date, download path) and `Media.ListedEntryAuthorizes` |
| `Media.ListedEntryAuthorizes` | backend/app.js:175 | for an object name that is non-empty and does not start with a line terminator, the entry's download path is granted to an accepted token and allowed method, with the name as file path |
| `Media.ListMedia` | backend/app.js:163-193 | a bad token gives 401, a stream error gives 500, an unprintable `username` gives no reply; otherwise one entry per streamed object in arrival order, each with the object's name, size and date and download path `/v1/audio/` + name |

## Left out

- JWT signing and verification: a foreign library, modelled as oracles. Expiry is part of the verifier's failure, and the server secret is inside the oracles.
- The MinIO client: the startup bucket check (backend/app.js:26-38) is network I/O with no effect on any decision. The `PassThrough` stream of `putObject` is reduced to a succeeds/fails oracle over key, data, size and content type.
- Express routing, `express.json`, multer parsing and its `fileSize` limit (backend/app.js:41-44), and `listen`: framework behaviour. A multer rejection never reaches the handler.
- Environment defaults and `parseInt` of ports and limits (backend/app.js:9-23, 43): configuration.
- Logging output is not modelled. Where a log line can throw, which is the conversion of a `username` to a string, its effect on the response is modelled (`Auth.Printable`). The other interpolated values are strings or numbers.
- `Date.now()` and `new Date()` are parameters, because they are nondeterministic.
- The `req.headers['Authorization']` fallback is not modelled. Node lowercases incoming header names, so only the lower-case lookup can find a header.
- `Media.ListMedia` does not model a stream that emits `'end'` after `'error'` (a second reply would throw). An `'error'` anywhere answers 500.
- `Media.ListMedia`: when the `'end'` listener throws, the model says only that no reply is sent. What the process does with the uncaught exception (by default Node terminates) is not modelled.
- The `details` member of the upload error response is not modelled: it is the text of a library exception.
- `Login.HandleLogin`: a JSON body member that is not a string is modelled only by its truthiness and printability. Its other content reaches the signer unchanged, but the model does not state it.
