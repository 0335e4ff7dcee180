# Identity layer of the Express backend, in Dafny

This project models the identity layer of the backend in Dafny:

- **The user model** (`src/models/user.model.js`):
  - the schema's validators, defaults and unique indexes;
  - the two string validators;
  - the `toPublic` and `toJSON` projections;
  - the statics that change stored users: `findOrCreateFromGoogle`, `createPendingGoogleLink`, `confirmPendingGoogleLink`, `incrementTokenVersion` and `updateLastLogin`.
- **The authentication handlers** (`src/controllers/auth.controller.js`):
  - the OAuth `state` check, the CSRF defence of section 10.12 of RFC 6749;
  - the callback's outcome mapping and token delivery;
  - login's status mapping;
  - signUp's gating and record construction;
  - logout, getProfile and refreshToken.
- **The rate-limiter configuration** (`src/middleware/rateLimiter.middleware.js`).

Files:

- `wrappers.dfy`: `Option`, `Result` and JavaScript string truthiness.
- `units.dfy`: the milliseconds in a minute, used by the link expiry and the limiter window.
- `validators.dfy`: `validatePassword` and `validateEmail`.
  - Each is written as a matcher that follows its regular expression: a greedy character-class run, then the literal that must follow it.
  - Each also has a declarative character-class statement.
  - Lemmas prove that each matcher accepts exactly the strings its statement describes.
- `module_load.dfy`: the module's top-level evaluation order, and the temporal-dead-zone error it hits (see Findings).
- `user_model.dfy`:
  - the `User` record and the plain object given to `create`;
  - `SchemaErrors`, the validators' verdict;
  - `Materialize`, which fills in the defaults;
  - the unique indexes as explicit predicates;
  - the projections;
  - class `UserStore`, a map from id to record. Its methods are the statics.
- `http.dfy`: the responses: cookies set or cleared, then a JSON reply, a redirect or no reply.
- `auth_controller.dfy`:
  - each handler's decision as a pure function of the request, the stored users and the values obtained from outside;
  - the handlers that write to the store (`GoogleCallback`, `Logout`, `SignUp`) also as methods that take a `UserStore`.
- `rate_limiter.dfy`: `generalRateLimit`'s configuration and its 429 reply, with the pluralised `retryAfter` text and its inverse; `speedLimiter`'s values.

Some values come from outside the model and are parameters: the clock, the random tokens, the signed JWT, the bcrypt hash, and the outcome of a passport strategy. The store is one `map`. A `findOne` that could match several records picks any one of them.

Behaviour the proofs bring out:

- The OAuth state check only runs when a non-empty state cookie is present. Without the cookie, any `state` is accepted (`StateCheckNeedsCookie`).
- The Google find-or-create overwrites `authProvider` with `google` on an existing local account and keeps its password (`ApplyGoogleProfile`). It never sets `googleId`. A record gets one only from a confirmed pending link, or from a signUp body that carries a `googleId` key, which `create` stores as given (`Materialize`).
- A Google profile without a display name, a given name or a family name cannot be stored as a new record. Those fields become `''`, and `required` refuses them (`GoogleCreateOutcome`).
- The `toJSON` transform keeps the password hash (`SerializedUserKeepsPassword`).
- signUp stores the bcrypt hash, and the schema applies the plain-password strength check to the hash. Any hash containing `.` or `/` from bcrypt's alphabet is refused (`SignUpRejectsHashWithForeignChar`, `SampleHashRefused`).
- Login answers 401 when the local strategy reports "Invalid credentials" and 404 for any other refusal (`LoginTellsWrongPasswordFromUnknownUser`). The strategy's configuration is not part of this model. So a wrong password and an unknown account get different statuses only if the strategy reports "Invalid credentials" for the first and another message for the second.
- The login limiter allows 2 requests a minute. The comment above it at `src/routes/auth.routes.js:18` speaks of 10 (`LoginLimitInstance`).

Further facts about the code that the model records:

- login does not refresh `lastLogin`; of the handlers modelled, only the Google callback does;
- login's status depends on the strategy's message (401 for "Invalid credentials", 404 otherwise);
- in signUp, conflicts and validation failures reach `next(err)`; the handler itself sends no 400 or 409 reply;
- a provider error in the Google callback answers 500.

## Model

| member | source | states |
|---|---|---|
| Validators.Span | src/models/user.model.js:93 | a greedy `[cls]*` run consumes exactly the longest prefix inside the class |
| Validators.HasSome | src/models/user.model.js:99 | a `(?=.*[cls])` look-ahead succeeds iff a character of the class occurs before the first line terminator (`\n`, `\r`, U+2028, U+2029), which `.` does not cross |
| Validators.HasSomeWithoutLineBreaks | src/models/user.model.js:99 | on a string without line terminators the look-ahead succeeds iff some character is in the class |
| Validators.LookAheadStopsAtLineBreak | src/models/user.model.js:99 | `(?=.*[a-z])` fails on a newline followed by `a` and succeeds on `a` followed by a newline |
| Validators.ValidatePassword | src/models/user.model.js:97-101 | validatePassword accepts exactly the strings of length at least 8 over `[A-Za-z0-9@$!%*?&]` with a lower-case letter, an upper-case letter, a digit and a special character |
| Validators.PasswordRefusesForeignChar | src/models/user.model.js:99 | any string holding a character outside `[A-Za-z\d@$!%*?&]` is refused |
| Validators.MatchGroupsIff | src/models/user.model.js:93 | the `([\w-]+\.)*[\w-]{2,4}$` tail matches exactly when every `.`-separated label is non-empty over `[\w-]` and the last has 2 to 4 characters |
| Validators.MatchDomainIff | src/models/user.model.js:93 | the domain part matches exactly the domains of at least two such labels |
| Validators.MatchEmailShape | src/models/user.model.js:92-95 | a string the email matcher accepts has exactly one `@`, a non-empty local part over `[\w.-]`, and a well-formed domain |
| Validators.EmailShapeMatches | src/models/user.model.js:92-95 | every string of that shape is accepted by the email matcher |
| Validators.MatchEmailIff | src/models/user.model.js:92-95 | the email matcher accepts exactly the strings of the character-class statement |
| Validators.ValidateEmail | src/models/user.model.js:92-95 | validateEmail returns true exactly for the strings with one `@`, a non-empty local part over `[\w.-]` and a domain of at least two non-empty `[\w-]` labels, the last of 2 to 4 characters |
| ModuleLoad.LoadSucceedsIff | src/models/user.model.js:5-101 | evaluating the module's top-level steps in order succeeds iff no step reads a `const` before its declaration has run |
| ModuleLoad.AsWrittenLoadFails | src/models/user.model.js:5-97 | as written, building the schema reads `validateEmail` (line 17) before its declaration (line 92) runs, so loading throws for `validateEmail` |
| ModuleLoad.CorrectedOrderLoads | src/models/user.model.js:92-101 | with the validators declared before the schema, the module loads and every binding is initialised |
| UserModel.ParseProvider | src/models/user.model.js:53-58 | `authProvider` is `local` when absent or `'local'`, `google` for `'google'`, and any other value fails the enum |
| UserModel.SchemaErrors | src/models/user.model.js:11-58 | the paths that fail validation: email must be non-empty and pass validateEmail; name, firstName and lastName must be non-empty; authProvider must be in the enum; a password is required iff the provider is local and must pass validatePassword when present |
| UserModel.Materialize | src/models/user.model.js:49-77 | a valid object is stored with every given field passed through, tokenVersion, isActive, lastLogin and pendingGoogleLink included, `'local'` and `'google'` mapped to their providers; absent fields take the defaults tokenVersion 0, provider local, isActive true, lastLogin now and no pending link; createdAt is now; the record has a password whenever it is local, and its email and password pass the validators |
| UserModel.Unique | src/models/user.model.js:6-27 | the unique indexes hold exactly when no two records share an email, a name or a present googleId |
| UserModel.Clashes | src/models/user.model.js:6-27 | a record clashes exactly when another record has its email, its name or its present googleId |
| UserModel.WriteKeepsUnique | src/models/user.model.js:6-27 | writing a record that clashes with no other keeps email, name and present googleId unique |
| UserModel.CreateResult | src/models/user.model.js:5-80 | `create` fails with the validation error set when a validator fails, otherwise with a duplicate key when a unique index clashes, and otherwise succeeds with the materialised record |
| UserModel.GoogleData | src/models/user.model.js:142-149 | the data built from a Google profile: email as given, missing names and photo become `''`, provider `google`, no password |
| UserModel.GoogleCreateOutcome | src/models/user.model.js:139-152 | a record created from a Google profile is a Google account with no password, no googleId and tokenVersion 0; a profile lacking any of the three names fails validation |
| UserModel.ApplyGoogleProfile | src/models/user.model.js:153-156 | an existing record gets the profile's name, firstName, lastName, picture and provider `google`; password, tokenVersion, googleId, email and the pending link are unchanged |
| UserModel.LinkExpiry | src/models/user.model.js:162-164 | a pending link expires `ttlMinutes` minutes after now, 15 minutes when no ttl is given |
| UserModel.ConfirmLink | src/models/user.model.js:174-183 | a link is accepted iff `now <= expiresAt`, so expiry is strict; the pending link is cleared either way; googleId becomes the link's googleId only when accepted; nothing else changes |
| UserModel.ClearingReleasesToken | src/models/user.model.js:180-183 | once the only holder of a token has its pending link cleared, no record holds that token |
| UserModel.Lookup | src/controllers/auth.controller.js:88 | findById returns the record with that id, or null when the id is absent or unknown |
| UserModel.ToPublic | src/models/user.model.js:105-118 | toPublic returns exactly id, the three names, picture, provider, isActive, createdAt and lastLogin, plus the email iff showEmail |
| UserModel.ToPublicHidesSecrets | src/models/user.model.js:105-118 | toPublic never depends on the password, tokenVersion, googleId or pending link |
| UserModel.Document | src/models/user.model.js:121-136 | the object Mongoose hands to the `toJSON` transform for a stored user: `_id` is the record's id, and a `password` key is present iff the record has a password |
| UserModel.ToJsonTransform | src/models/user.model.js:121-136 | the transform removes `__v`, `pendingGoogleLink`, `tokenVersion` and `googleId`, renames a truthy `_id` to `id`, and keeps every other key, the password included |
| UserModel.SerializedUserKeepsPassword | src/models/user.model.js:121-136 | a serialised user carries its password hash iff it has one, and never its token version, googleId, pending link, `__v` or `_id` |
| UserModel.UserStore.Create | src/models/user.model.js:152 | `create` answers with CreateResult and inserts the new record under a fresh id only on success, keeping the store invariant |
| UserModel.UserStore.FindOrCreateFromGoogle | src/models/user.model.js:139-159 | a profile without email throws; an unseen email creates from the profile data; a known email updates that record through ApplyGoogleProfile unless a unique index clashes |
| UserModel.UserStore.CreatePendingGoogleLink | src/models/user.model.js:162-167 | returns exactly the given token; stores `{token, googleId, expiresAt}` on the record, replacing any earlier link and changing nothing else; does nothing when the id is unknown |
| UserModel.UserStore.ConfirmPendingGoogleLink | src/models/user.model.js:170-184 | returns null for a falsy token and when no record holds it; otherwise applies ConfirmLink to a holder; a googleId already used elsewhere throws a duplicate key; when one record held the token, a successful confirm leaves no holder, so a second confirm returns null |
| UserModel.UserStore.IncrementTokenVersion | src/models/user.model.js:186-190 | returns null for a missing or unknown id; otherwise raises tokenVersion by exactly one, changes nothing else and returns the updated record |
| UserModel.UserStore.UpdateLastLogin | src/models/user.model.js:87-90 | sets lastLogin to now on a stored record and saves; the save fails when the record is gone |
| AuthController.GoogleAuth | src/controllers/auth.controller.js:8-25 | sets one 5-minute `oauth_state` cookie holding the generated state, and hands exactly that state to the provider |
| AuthController.OwnStatePassesCheck | src/controllers/auth.controller.js:30-37 | the state googleAuth stores in the cookie, echoed back by Google, passes the callback's check |
| AuthController.StateRejected | src/controllers/auth.controller.js:33 | a callback is refused only when it carries a non-empty state cookie that the query's `state` does not equal; otherwise it passes |
| AuthController.CallbackResponse | src/controllers/auth.controller.js:28-78 | the state cookie is cleared on every path; a truthy cookie differing from the query gives 403 "Invalid OAuth state" and nothing else; a provider error gives 500 and no user gives 401, both "Authentication failed"; a user whose save fails gives 500; otherwise the token is delivered for the user with lastLogin refreshed |
| AuthController.StateCheckNeedsCookie | src/controllers/auth.controller.js:33 | with the state cookie absent or empty, the callback's response is the same whatever `state` the query carries |
| AuthController.FailuresShareMessage | src/controllers/auth.controller.js:40-48 | a provider error and a missing user give the same body, with status 500 and 401 |
| AuthController.Deliver | src/controllers/auth.controller.js:54-73 | with FRONTEND_URL and SEND_TOKEN_COOKIE `'true'`: a `token` cookie with a 7-day maxAge and a redirect to `<frontend>/auth/success`, which carries no token; with FRONTEND_URL otherwise: a redirect whose fragment carries the token; without FRONTEND_URL: JSON with the token and `toPublic(true)` |
| AuthController.TokenInUrl | src/controllers/auth.controller.js:65 | reading a token from a redirect URL succeeds exactly for URLs of the form `<frontend>/auth/success#token=<t>` and gives `t` |
| AuthController.FragmentRoundTrip | src/controllers/auth.controller.js:65 | the token written into the fragment is read back unchanged |
| AuthController.SuccessUrlCarriesNoToken | src/controllers/auth.controller.js:63 | the cookie-mode redirect carries no token |
| AuthController.GoogleCallback | src/controllers/auth.controller.js:28-83 | answers with CallbackResponse; refreshes lastLogin of the authenticated user exactly when the state check passes and the user is stored, and changes nothing else |
| AuthController.LoginResponse | src/controllers/auth.controller.js:128-154 | a strategy error gives 500 with the info message or "Server side error"; no user gives 401 iff the message is "Invalid credentials", else 404 with the message or "User not found"; a verified user gives 200 with only email, firstName, lastName, the message and `Token`, or, when the record is gone, no reply: destructuring the null record throws inside passport's callback, an unhandled rejection (see Left out) |
| AuthController.LoginTellsWrongPasswordFromUnknownUser | src/controllers/auth.controller.js:133-138 | a wrong password (401) and an unknown account (404) are distinguishable |
| AuthController.LoginBodyIgnoresLastLogin | src/controllers/auth.controller.js:140-152 | login's reply does not depend on lastLogin, which login never writes |
| AuthController.GetProfile | src/controllers/auth.controller.js:86-97 | 404 "User not found" iff the caller's record is missing, otherwise 200 with `toPublic(true)`, email included |
| AuthController.RefreshToken | src/controllers/auth.controller.js:114-126 | 404 "User not found" iff the caller's record is missing, otherwise 200 with the new token |
| AuthController.LogoutResponse | src/controllers/auth.controller.js:100-111 | logout always answers 200 and clears the `token` cookie iff SEND_TOKEN_COOKIE is `'true'` |
| AuthController.Logout | src/controllers/auth.controller.js:100-111 | raises the caller's tokenVersion by one, changes no other record, and answers with LogoutResponse |
| AuthController.Hashed | src/controllers/auth.controller.js:173-176 | the stored object is the request body with only the password replaced by the hash |
| AuthController.DetailsMissing | src/controllers/auth.controller.js:159 | the guard passes exactly when email, name, firstName, lastName and password are all present and non-empty |
| AuthController.NameOrEmailTaken | src/controllers/auth.controller.js:164-166 | the lookup finds a record exactly when some stored record has the body's email or its name |
| AuthController.TakenLookupCoversEmailAndName | src/controllers/auth.controller.js:164-178 | every email or name conflict is caught by the lookup before `create`; a body that passes the lookup can still clash in `create` only through a `googleId` it carries |
| AuthController.SignUpResult | src/controllers/auth.controller.js:156-193 | the guard forwards "Required Details are missing" iff a field is falsy, and the handler goes on; an email or name already stored forwards a conflict; an absent password forwards the hash failure; otherwise a record is created exactly when `create` succeeds on the hashed body, else `create`'s error is forwarded; a created record holds the hash as password and is answered 201 echoing only name, email, firstName and lastName; `next` is called once per failure and once more when the guard fired |
| AuthController.AsWrittenStoresRefusedRequest | src/controllers/auth.controller.js:159-187 | a body with an empty password is refused by the guard and still stored, with a 201 reply |
| AuthController.AsWrittenChecksTakenAfterGuard | src/controllers/auth.controller.js:159-170 | a body missing a field still reaches the uniqueness lookup, so `next` is called twice |
| AuthController.SignUpGuarded | src/controllers/auth.controller.js:159-161 | with `return` after the guard: a refused body stops there; a request either creates a record and forwards nothing, or forwards exactly one error and creates nothing |
| AuthController.GuardedSignUpStoresFreshBody | src/controllers/auth.controller.js:156-187 | with the guard returning, a complete body with a fresh email and name whose hashed object passes the schema and the unique indexes is stored as `create` materialises it, answered 201, and nothing is forwarded |
| AuthController.SignUpRejectsHashWithForeignChar | src/controllers/auth.controller.js:172-178 | a hash holding a character outside the password alphabet makes signUp fail with a validation error on the password path |
| AuthController.SampleHashRefused | src/controllers/auth.controller.js:172 | a concrete cost-12 bcrypt hash fails validatePassword |
| AuthController.SignUp | src/controllers/auth.controller.js:156-193 | answers with SignUpResult and inserts the created record, if any, keeping the store invariant |
| RateLimiter.GeneralRateLimit | src/middleware/rateLimiter.middleware.js:5-10 | `max` is `requests` unchanged; the window is a whole number of minutes, equal to `time`; standard headers on, legacy headers off |
| RateLimiter.NatToStringRoundTrip | src/middleware/rateLimiter.middleware.js:15 | the decimal text of a number reads back as that number |
| RateLimiter.IntToStringRoundTrip | src/middleware/rateLimiter.middleware.js:15 | `${time}` reads back as `time`, negative numbers included |
| RateLimiter.RetryAfter | src/middleware/rateLimiter.middleware.js:15 | retryAfter ends in `s` iff `time > 1` |
| RateLimiter.ParseNatCanonical | src/middleware/rateLimiter.middleware.js:15 | a numeral without a leading zero (or `0` itself) is exactly the decimal text of its value |
| RateLimiter.ParseIntCanonical | src/middleware/rateLimiter.middleware.js:15 | every text read as an integer is exactly `${n}` for the integer read |
| RateLimiter.RetryAfterRoundTrip | src/middleware/rateLimiter.middleware.js:15 | the retryAfter text names the number of minutes it was built from |
| RateLimiter.RetryAfterUnique | src/middleware/rateLimiter.middleware.js:15 | a text that reads back as `time` minutes and ends in `s` exactly when `time > 1` is the retryAfter text for `time`, so the round trip and the plural rule pin it |
| RateLimiter.OverLimit | src/middleware/rateLimiter.middleware.js:11-17 | the handler always answers 429 with `success: false`, the fixed message and the retryAfter text for the window's minutes, plural exactly when more than one |
| RateLimiter.ZeroMinutesSingular | src/middleware/rateLimiter.middleware.js:15 | a window of 0 minutes is written "0 minute" |
| RateLimiter.LoginLimitInstance | src/routes/auth.routes.js:19 | the login limiter allows 2 requests per 60000 ms and answers "1 minute" |
| RateLimiter.RegisterLimitInstance | src/routes/auth.routes.js:22 | the sign-up limiter allows 3 requests per 3600000 ms and answers "60 minutes" |
| RateLimiter.PromisedDelay | src/middleware/rateLimiter.middleware.js:22-27 | the promised delay is zero up to `delayAfter` requests and never exceeds `maxDelayMs` |
| RateLimiter.SpeedLimiterDelays | src/middleware/rateLimiter.middleware.js:22-27 | speedLimiter has a 15-minute window and 20 requests at full speed, then 500 ms more per request, capped at 20000 ms from the 60th request |
| RateLimiter.PromisedDelayMonotone | src/middleware/rateLimiter.middleware.js:22-27 | the promised delay never decreases as requests accumulate |

## Left out

- Token signing and verification (`generateToken`, `authenticateToken`): a token is an opaque string parameter. The caller's id on protected routes is an optional parameter.
- Passport strategies: their outcomes are parameters (`Exchange`, `LocalOutcome`, `GoogleProfile`). `GoogleAuth`'s hand-over to passport is represented by the `ProviderRedirect` reply.
- bcrypt and `crypto.randomBytes`: the hash, the OAuth state and the link token are parameters. bcrypt's refusal of an absent password is the `HashFailed` error.
- UserModel.UserStore.Valid: the invariant does not repeat that every stored email passes validateEmail. That holds because `Create` validates the email and no other operation changes it, but unfolding the email matcher on every record makes the store's proofs too costly.
- Mongoose's `lowercase` and `trim` setters: strings are stored as given.
- The `timestamps` option: `createdAt` is the creation time and `updatedAt` is not kept.
- Validation on `save()` (in `confirmPendingGoogleLink` and `updateLastLogin`) is not modelled. Only unique indexes are checked there. A record whose name was blanked by the Google update would fail such a save.
- Query casting: ids are natural numbers, so the CastError that turns a malformed id into a 500 in getProfile, logout and refreshToken does not arise.
- Body keys outside the `NewUser` fields are not modelled: `_id`, `createdAt`, `updatedAt`, `__v`, and keys the schema does not declare. Nor is casting a body value to its schema type. A `pendingGoogleLink` in the body is a whole link or absent; a partial one is not modelled.
- An absent field in signUp's `$or` lookup is modelled as matching no record. Mongoose's handling of `undefined` in filters is not modelled.
- An absent `userId` in `createPendingGoogleLink` is not modelled; the id is always a number.
- The branch at line 174 for a found record without a pending link cannot occur in the model, because the record was found by its link's token.
- login, when the verified user's record is gone (`src/controllers/auth.controller.js:140-141`): destructuring the null record throws inside passport's async callback. That is an unhandled promise rejection, which on a default Node setup ends the process. The model records it as `NoReply` and does not model the process exit.
- The 500 replies of the `catch` blocks in googleCallback (line 79), getProfile, logout and refreshToken arise only from exceptions the model's store never throws.
- Express itself:
  - a reply sent after an earlier `next(err)` (signUp) is recorded as the handler's reply, not as a headers-already-sent error;
  - cookie attributes (`httpOnly`, `secure`, `sameSite`) and logging are not modelled.
- The counting and delaying inside express-rate-limit and express-slow-down, and the `RateLimit-*` headers. RateLimiter.PromisedDelay states what the configuration's comments promise, not the library's algorithm.
- RateLimiter.GeneralRateLimit: `requests` and `time` are integers; fractional minutes are not modelled. The window `time*60*1000` is exact, which a JavaScript number guarantees only below 2^53.
- RateLimiter.IntToString: JavaScript numbers are modelled as unbounded integers. `${n}` is written in plain decimal, which `Number.prototype.toString` does only below 1e21: above that it writes exponent form such as `1e+21`. Arithmetic is exact, which JavaScript guarantees only below 2^53. The window product and the `tokenVersion` increment are affected.
- UserModel.UserStore.IncrementTokenVersion: the `$inc` is exact on unbounded integers; MongoDB's numeric types, and JavaScript numbers above 2^53, are not modelled.
- Route wiring (`src/routes/auth.routes.js`), apart from the two limiter instances. The route to confirm a pending link is commented out there, so `confirmPendingGoogleLink` has no HTTP caller.

## Findings

| source | as written | input that shows it | evidently intended | confidence | as-written member | corrected member |
|---|---|---|---|---|---|---|
| src/models/user.model.js:5-97 | the schema literal reads the `const` bindings `validateEmail` (line 17) and `validatePassword` (line 45) before their declarations at lines 92 and 97 run, so importing the module throws a ReferenceError | importing the module | the validators declared (or hoisted) before the schema, so that they apply on create | high; not executed | ModuleLoad.AsWrittenLoadFails | ModuleLoad.CorrectedOrderLoads |
| src/controllers/auth.controller.js:159-161 | the guard calls `next(new Error(...))` without returning, so the lookup, hashing and `User.create` still run | a body with a valid email, name, firstName and lastName, password `''`, and a hash that passes the schema: the error is forwarded and the record is still created | `return next(...)`: a refused body creates nothing | high; not executed | AuthController.AsWrittenStoresRefusedRequest | AuthController.SignUpGuarded |

The rest of the model applies the validators on create, as the corrected load order does. `AuthController.SignUp` models the handler as written. `AuthController.SignUpGuarded` is the corrected handler, proved either to create a record and forward nothing, or to forward exactly one error and create nothing.
