# NestJS auth core in Dafny

This project models the authentication core of a NestJS backend and proves
properties about it. The model covers:

- the session and recovery flows of `AuthService`:
  - session: login, refresh with rotation, logout
  - recovery: register and verify-email, change-password, forgot/reset-password
- the `UsersService` store they read and update;
- the request guards: Bearer extraction, the token blacklist guard, the
  public → blacklist → JWT chain, and the JWT strategy's `validate`;
- the pagination-parameter validator, the sort and sanitise helpers, the
  response interceptor's pure helpers, and the URL builder.

## Layout

- `wrappers.dfy`: `Option` and `Result`.
- `text.dfy`: JavaScript `split`/`join`, `startsWith`, ASCII case mapping,
  `trim` and UTF-8 encoding, with their lemmas.
- `hex.dfy`: the hex codec that the concrete token and hash encodings use.
- `jwt.dfy`: a concrete stand-in for jsonwebtoken.
  - A token is an injective, space-free, '.'-joined hex encoding of
    (claims, `iat`, `exp`, signature).
  - The signature is the signing secret, which makes it an ideal MAC.
  - `Verify` succeeds only under that secret and only while
    `floor(now/1000) < exp`.
- `bcrypt.dfy`: a concrete stand-in for bcrypt.
  - A hash is `"$2a$10$" + hex(salt) + "." + hex(plain)`.
  - bcrypt keys its cipher with 72 bytes. bcryptjs takes the UTF-8 bytes of
    the text, appends a zero byte and reads the result cyclically. `Key` is
    those 72 bytes.
  - `Compare(p, h)` holds exactly when `h` is a hash and `p` has the key of
    the text `h` was made from.
  - Also holds `isValidObjectId` (24 lower-case hex digits).
- `constants.dfy`: the pagination, auth-message and transform constants.
- `users.dfy`: the user record and the store.
  - A stored date is `Absent` (never written), `Null` or a time, because
    JavaScript compares `undefined` and `null` with a date differently.
  - A store is `Store(ids, records)`: insertion order plus the records.
    `findOne(filter)` returns the first match in insertion order, as a
    collection scan does.
  - pure functions over stores;
  - the class `Users.UsersService`, whose methods update the store in place.
- `auth_flows.dfy`: one pure function per `AuthService` flow.
  - Each returns `Step(result, store, effects)`.
  - The effects are the cookie set or cleared, the blacklist entry that
    would be written, and the mails sent.
- `auth_service.dfy`: the class `Auth.AuthService`, one method per flow.
  Each method is proved to produce exactly the result, store and effect log
  of its flow function.
- `auth_properties.dfy`: the properties of the flows, proved about the flow
  functions.
- `guards.dfy`: `TokenBlacklistGuard`, `JwtStrategy`, `JwtAuthGuard`.
- `validation.dfy`, `query.dfy`, `transform.dfy`, `url_builder.dfy`: the
  shared utilities.

Time, salts and new document ids are parameters. A clock reading is
`nowMs`, milliseconds since the epoch.

## Model

| member | source | states |
|---|---|---|
| Users.UsersService.HashPassword | src/users/users.service.ts:27-31 | the hash matches the password under bcrypt's compare and is never the password itself |
| Users.UsersService.GeneratePassword | src/users/users.service.ts:21-25 | `generatePassword` gives the same hash as `hashPassword` for the same salt |
| Users.UsersService.IsValidPassword | src/users/users.service.ts:50-52 | only a bcrypt hash, which starts with '$', can match a password |
| Users.UsersService.Create | src/users/users.service.ts:33-40 | appends one record under the fresh id with the given name, email and verification fields and the password's hash (never the plain text); the other fields are empty and the reset expiry is never written |
| Users.UsersService.FindOneByUsername | src/users/users.service.ts:42-48 | returns the first stored record whose email equals the argument, and None exactly when no record has that email |
| Users.UsersService.FindOneByResetToken | src/users/users.service.ts:107-109 | returns a stored record whose reset token equals the argument exactly, and None exactly when there is none |
| Users.UsersService.FindOne | src/users/users.service.ts:62-71 | 'Invalid ID format' for an id that is not an ObjectId, before any lookup; NotFound 'User not found' for an absent id; otherwise the stored record |
| Users.UsersService.Update | src/users/users.service.ts:73-86 | 'Invalid ID format' for a bad id; BadRequest 'User not found' for an absent one, store unchanged; otherwise exactly the supplied fields are replaced and the new record is returned |
| Users.ApplyKeepsIdentity | src/users/dto/update-user.dto.ts:8-34 | an update never changes id or role; one that supplies no name or email keeps them; an empty update changes nothing |
| Users.StoreFindOneBySound | src/users/users.service.ts:42-48 | a lookup returns a stored record that satisfies the filter; it returns none exactly when no record does |
| Users.FindOneByAfterUpdate | src/users/users.service.ts:73-86 | an update that keeps a record's match status leaves every lookup unchanged, except that it returns the updated record |
| Users.FindOneByAfterCreate | src/users/users.service.ts:33-40 | a record created under a fresh id is what a lookup returns when it matches and no older record does |
| Bcrypt.CompareHash | src/users/users.service.ts:50-52 | `isValidPassword(p, hash(q))` holds exactly when p and q have the same 72-byte bcrypt key, whatever the salt |
| Bcrypt.Key | src/users/users.service.ts:50-52 | the key bcrypt derives from a text is always 72 bytes |
| Bcrypt.LongTextsShareKey | src/users/users.service.ts:50-52 | texts that agree on their first 72 UTF-8 bytes have the same key, so each matches the other's hash |
| Bcrypt.LongTextKey | src/users/users.service.ts:50-52 | a text of at least 72 bytes has the key of every text it begins |
| Bcrypt.ShortAsciiKeysDistinct | src/users/users.service.ts:50-52 | ASCII texts under 72 characters with no zero character have the same key iff they are equal |
| Jwt.VerifySign | src/auth/auth.service.ts:192-196 | a signed token verifies only under its own non-empty secret and only before `iat + expiresIn`, and then gives back its claims |
| Jwt.VerifiedIsSigned | src/auth/auth.service.ts:214-216 | a token that verifies decodes to the verified payload, whose `exp` is still ahead |
| Auth.AuthService.ValidateUser | src/auth/auth.service.ts:36-49 | returns exactly what the `validateUser` flow gives on the current store |
| AuthProperties.ValidateUserOutcome | src/auth/auth.service.ts:36-49 | success returns a stored user with that email whose hash matches; 'User not found' exactly when no user has that email; otherwise 'Password is incorrect' |
| Auth.AuthService.Login | src/auth/auth.service.ts:51-72 | result, new store and effect log are those of the login flow |
| AuthProperties.LoginIssuesSession | src/auth/auth.service.ts:51-72 | a stored user gets the issued refresh token and `lastLogin` = now, and nothing else changes; the cookie carries the refresh token; the response holds only id, name and email |
| AuthProperties.LoginUnknownUser | src/auth/auth.service.ts:167-183 | login for a user that is not stored fails with `update`'s error and changes nothing |
| Auth.AuthService.GenerateTokens | src/auth/auth.service.ts:167-183 | result and new store are those of `generateTokens` |
| AuthProperties.IssuedTokensVerify | src/auth/auth.service.ts:185-209 | both issued tokens verify under their own secret until their lifetime ends, carrying the user's id, email, role and name and the refresh `sub` |
| AuthProperties.AccessTokenVerifies | src/auth/auth.service.ts:185-197 | the access token verifies until `iat + accessExpiresIn`, carrying `_id`, email, role and name |
| AuthProperties.RefreshTokenVerifies | src/auth/auth.service.ts:199-209 | the refresh token verifies until `iat + refreshExpiresIn`, carrying `sub` = the user's id |
| AuthProperties.TokenKindsSeparated | src/auth/auth.service.ts:193-205 | with distinct secrets, a refresh, verification or reset token never verifies as an access token, and likewise between the other kinds |
| Auth.AuthService.RefreshTokens | src/auth/auth.service.ts:211-240 | result, new store and effect log are those of the refresh flow |
| AuthProperties.RefreshOutcome | src/auth/auth.service.ts:211-240 | success exactly when the token verifies with the refresh secret, names a stored user, and equals that user's non-empty stored refresh token; every failure is 'Invalid refresh token' and changes nothing |
| AuthProperties.RefreshRotates | src/auth/auth.service.ts:219-236 | a successful refresh issues a new pair for the token's user; the new refresh token replaces the stored one and goes into the cookie, and `lastLogin` = now |
| AuthProperties.RefreshSingleUse | src/auth/auth.service.ts:220-225 | once used, a refresh token is refused at any later time, provided it was rotated in a different second from the one it was issued in |
| AuthProperties.SameSecondRefreshReplay | src/auth/auth.service.ts:199-225 | a refresh in the same second as the login gets back the very token it presented, which is then accepted again |
| Auth.AuthService.Logout | src/auth/auth.service.ts:74-106 | result, new store and effect log are those of the logout flow |
| AuthProperties.LogoutOutcome | src/auth/auth.service.ts:74-106 | succeeds exactly for a stored user: nulls the refresh token, sets `lastLogin`, clears the cookie, then runs the blacklist step for the access token and, if there was one, the former refresh token; any failure is 'Logout failed' and changes nothing |
| AuthProperties.RefreshRejectedAfterLogout | src/auth/auth.service.ts:84-87 | after a logout no refresh token naming that user is accepted |
| AuthProperties.LogoutTwice | src/auth/auth.service.ts:74-106 | a second logout also succeeds; it has no refresh token to blacklist and only moves `lastLogin` |
| Auth.AuthService.AddToTokenBlacklist | src/auth/auth.service.ts:108-137 | the entry is the blacklist function of the token, kind and time, and the step is logged |
| AuthProperties.BlacklistEntryOfIssuedToken | src/auth/auth.service.ts:113-129 | for an issued token the entry is prefix + token with a ttl of `exp - floor(now/1000)` seconds while positive; past expiry there is no entry |
| AuthProperties.BlacklistEntryNeedsToken | src/auth/auth.service.ts:113-119 | an empty or undecodable token never yields an entry |
| AuthProperties.BlacklistKeysDisjoint | src/auth/auth.service.ts:126 | an access key never equals a refresh key |
| Auth.AuthService.IsTokenInBlacklist | src/auth/auth.service.ts:140-147 | always false |
| Auth.AuthService.Register | src/auth/auth.service.ts:242-269 | result, new store and effect log are those of the register flow |
| AuthProperties.RegisterDuplicate | src/auth/auth.service.ts:244-249 | an email already stored gives EMAIL_EXISTS and creates nothing |
| AuthProperties.RegisterFresh | src/auth/auth.service.ts:251-269 | a new email appends one unverified user that holds the issued 24-hour verification token and the password's hash; the same token is mailed to that email |
| Auth.AuthService.VerifyEmail | src/auth/auth.service.ts:283-312 | result and new store are those of the verify-email flow, with no effects |
| AuthProperties.VerifyEmailOutcome | src/auth/auth.service.ts:283-312 | succeeds exactly when the token verifies, carries an email, and equals the verification token stored on the first user with that email; that user becomes verified and loses the token; any failure is INVALID_VERIFICATION_TOKEN and changes nothing |
| AuthProperties.VerifyEmailAccepts | src/auth/auth.service.ts:286-305 | the success path stated from its three checks |
| AuthProperties.RegisterThenVerify | src/auth/auth.service.ts:242-312 | the token mailed at registration, presented within 24 hours, verifies the new user |
| AuthProperties.VerifyReplayRejected | src/auth/auth.service.ts:292-302 | after a successful verification, the same token is refused whenever it is presented again |
| Auth.AuthService.ChangePassword | src/auth/auth.service.ts:314-343 | result and new store are those of the change-password flow |
| AuthProperties.ChangePasswordOutcome | src/auth/auth.service.ts:314-343 | `findOne`'s errors first, then the current-password check, then new against confirm; on success only the password changes, to a hash of the new one |
| AuthProperties.ChangePasswordTakesEffect | src/auth/auth.service.ts:335-340 | after a change, exactly the passwords with the new password's bcrypt key validate for that user; among ASCII passwords under 72 characters with no zero character, exactly the new password |
| Auth.AuthService.ForgotPassword | src/auth/auth.service.ts:345-367 | result, new store and effect log are those of the forgot-password flow |
| AuthProperties.ForgotPasswordOutcome | src/auth/auth.service.ts:345-367 | an unknown email is 'User not found' and changes nothing; otherwise the user stores the hash of a new one-hour reset token, never the token itself, with expiry now + 3600000 ms, and the token is mailed |
| Auth.AuthService.ResetPassword | src/auth/auth.service.ts:369-399 | result and new store are those of the reset flow as written, including its three-way expiry check |
| AuthProperties.ResetMismatchFirst | src/auth/auth.service.ts:371-373 | mismatched passwords are refused before any lookup, by both reset variants |
| AuthProperties.ResetPasswordOutcome | src/auth/auth.service.ts:369-399 | no stored token equal to the presented one gives 'Invalid or expired reset token'. An expiry strictly before now gives 'Reset token has expired', and so does a null expiry once the clock is past 0. A never-written expiry never expires. Otherwise the password becomes a hash of the new one and both reset fields become null |
| AuthProperties.PatchedResetTokenNeverExpires | src/auth/auth.service.ts:384 | a user created, then given only a reset token through `update`, resets the password with that token at any time, since its expiry was never written |
| Auth.AuthService.FinishReset | src/auth/auth.service.ts:383-398 | result and new store are those of the expiry check and update shared by both reset variants |
| AuthProperties.UpdateKeepsHashed | src/users/users.service.ts:73-86 | an update that writes only hashes as reset tokens keeps every stored reset token a hash |
| AuthProperties.SessionFlowsKeepHashed | src/auth/auth.service.ts:74-106 | login, logout and refresh keep every stored reset token a hash |
| AuthProperties.RefreshKeepsHashed | src/auth/auth.service.ts:211-240 | refresh keeps every stored reset token a hash |
| AuthProperties.RegisterKeepsHashed | src/auth/auth.service.ts:242-269 | registration keeps every stored reset token a hash |
| AuthProperties.VerifyAndChangeKeepHashed | src/auth/auth.service.ts:283-343 | verify-email and change-password keep every stored reset token a hash |
| AuthProperties.ForgotKeepsHashed | src/auth/auth.service.ts:356-361 | forgot-password stores a hash, not the token it mails |
| AuthProperties.ResetKeepsHashed | src/auth/auth.service.ts:388-396 | both reset variants only clear reset tokens |
| AuthProperties.FinishResetKeepsHashed | src/auth/auth.service.ts:390-396 | the final update of a reset keeps every stored reset token a hash |
| AuthProperties.MailedResetTokenRefused | src/auth/auth.service.ts:357-381 | as written, the token that forgot-password mails is refused by reset-password, whatever the passwords and whenever it is presented |
| AuthProperties.UnhashedTokenRefused | src/users/users.service.ts:107-109 | a token that does not look like a hash finds no user while all stored reset tokens are hashes |
| Auth.AuthService.ResetPasswordByHash | src/auth/auth.service.ts:369-399 | result and new store are those of the corrected reset flow |
| AuthProperties.ResetByHashAccepts | src/auth/auth.service.ts:384-398 | the corrected reset succeeds when the token verifies, names a user whose stored hash it matches, and the expiry is not past; only the password changes and the reset fields are cleared |
| AuthProperties.RequestedResetAccepts | src/auth/auth.service.ts:384-398 | the corrected reset accepts a user that holds the hash of the presented token and an expiry not yet past |
| AuthProperties.EarlierResetTokenMatches | src/auth/auth.service.ts:358-361 | for an email of 12 or more characters, the hash a later forgot-password stores also matches a reset token mailed earlier |
| AuthProperties.ResetTokenKey | src/auth/auth.service.ts:401-407 | the bcrypt key of a reset token depends only on its email once the email has 12 characters |
| AuthProperties.SignedResetKey | src/auth/auth.service.ts:401-407 | the same for any signed reset payload, whatever its secret and times |
| AuthProperties.ResetHeadBytes | src/auth/auth.service.ts:401-407 | the tag and encoded email that begin a reset token fill at least 72 bytes for an email of 12 characters |
| Jwt.ResetTokenPrefix | src/auth/auth.service.ts:401-407 | a reset token is its tag and encoded email, then the time claims and the signature |
| AuthProperties.ForgotThenResetByHash | src/auth/auth.service.ts:345-399 | the token mailed by forgot-password, presented within its hour to the corrected reset, sets the new password and clears both reset fields of that user |
| AuthProperties.MailedTokenUsable | src/auth/auth.service.ts:357-361 | the mailed reset token verifies within its hour, matches its stored hash, and that hour lies inside the stored expiry |
| AuthProperties.ResetByHashAfterRequest | src/auth/auth.service.ts:358-361 | the corrected reset on the store as forgot-password leaves it succeeds, and leaves the original record with a new password and no reset fields |
| AuthProperties.FinishOverRequest | src/auth/auth.service.ts:390-396 | the reset's final update erases what forgot-password wrote: the store has only the password changed and both reset fields null |
| AuthProperties.AfterResetRequest | src/auth/auth.service.ts:358-361 | after forgot-password's update the user is still the first found by that email, now holding the hash and the expiry |
| AuthProperties.ResetByHashSingleUse | src/auth/auth.service.ts:392-396 | after a corrected reset the same token is refused |
| AuthProperties.WithinResetWindow | src/auth/auth.service.ts:360 | a moment inside the token's hour, counted in whole seconds, is inside the stored hour of milliseconds |
| TokenBlacklistGuard.ExtractBearer | src/auth/token-blacklist.guard.ts:38-41 | `Bearer <t>`, alone or followed by more space-separated text, yields t |
| TokenBlacklistGuard.ExtractSound | src/auth/token-blacklist.guard.ts:38-41 | no header gives no token; an extracted token contains no space and is exactly the second space-separated part after `Bearer ` |
| TokenBlacklistGuard.ExtractTokenFromHeader | src/auth/token-blacklist.guard.ts:38-41 | no header gives no token; an extracted token contains no space and comes from a header with at least two space-separated parts |
| TokenBlacklistGuard.CanActivate | src/auth/token-blacklist.guard.ts:16-36 | never answers false; its only error is 'Token has been revoked', and only for a request that carries a token |
| TokenBlacklistGuard.CanActivateOutcome | src/auth/token-blacklist.guard.ts:16-36 | no token passes without consulting the blacklist; a blacklisted token is 'Token has been revoked'; any other passes; the guard never answers false |
| TokenBlacklistGuard.NeverRevoked | src/auth/token-blacklist.guard.ts:16-36 | with the service's blacklist, which is always false, the guard always passes |
| JwtStrategy.ValidateAccessPayload | src/auth/passport/jwt.strategy.ts:16-25 | `validate` of the payload built by `generateAccessToken` gives back the user's `_id`, name, email and role |
| JwtStrategy.Validate | src/auth/passport/jwt.strategy.ts:16-25 | `_id` is present exactly for an access payload and email exactly for a payload that has one; a role comes only from an access payload |
| JwtStrategy.Authenticate | src/auth/passport/jwt.strategy.ts:9-25 | no header fails; every failure is a plain Unauthorized; success means the Bearer token verifies under the access secret |
| JwtStrategy.AccessTokenAuthenticates | src/auth/passport/jwt.strategy.ts:9-25 | an issued access token authenticates exactly until it expires, and gives the user's fields |
| JwtStrategy.AuthenticatedIsUnexpired | src/auth/passport/jwt.strategy.ts:11 | an accepted token decodes and has not expired, and the user is `validate` of its payload |
| JwtStrategy.OtherKindsRejected | src/auth/passport/jwt.strategy.ts:12 | with distinct secrets, refresh, verification and reset tokens are rejected |
| JwtAuthGuard.GetAllAndOverride | src/auth/jwt-auth.guard.ts:22-25 | a handler's flag overrides the class's flag |
| JwtAuthGuard.CanActivate | src/auth/jwt-auth.guard.ts:20-40 | never answers false; a user is attached exactly when a non-public route passes, and it is the one the JWT strategy gives |
| JwtAuthGuard.CheckOrder | src/auth/jwt-auth.guard.ts:20-40 | a public route passes with no check run; otherwise the blacklist runs first; its refusal is 'Token has been revoked' with no JWT check; else the result is exactly the JWT strategy's |
| JwtAuthGuard.IssuedAccessTokenPasses | src/auth/jwt-auth.guard.ts:33-39 | an unexpired issued access token passes the chain and yields its user, even after logout |
| Validation.ValidatePaginationParams | src/shared/utils/validation.util.ts:19-91 | the errors are exactly those of the five checks in order; `isValid` iff no error; data present iff valid; defaults 1, 10 and 'createdAt:desc'; limit capped at 100; 1 <= page and 1 <= limit <= 100 |
| Validation.CheckPage | src/shared/utils/validation.util.ts:23-32 | appends the page error exactly when the page is present and not an integer >= 1; otherwise gives the page or 1 |
| Validation.CheckLimit | src/shared/utils/validation.util.ts:35-44 | appends the limit error exactly when it is present and not an integer >= 1; otherwise gives min(limit, 100) or 10, in [1, 100] |
| Validation.CheckSort | src/shared/utils/validation.util.ts:47-63 | appends the sort error exactly when a given sort fails; otherwise gives the sort as written or the default |
| Validation.CheckFields | src/shared/utils/validation.util.ts:66-73 | appends the fields error exactly when given fields fail the pattern; otherwise keeps them |
| Validation.CheckSearch | src/shared/utils/validation.util.ts:76-85 | appends the search error exactly when a given search fails the pattern or the length bounds [1, 50]; otherwise keeps it |
| Validation.ErrorsExactly | src/shared/utils/validation.util.ts:19-85 | each message is reported iff its check fails, and there are at most five |
| Validation.SortAccepted | src/shared/utils/validation.util.ts:47-60 | `field:order` with an allowed field is accepted iff the order lower-cases to asc or desc; text after a further ':' is ignored |
| Validation.SortFieldRequired | src/shared/utils/validation.util.ts:49-51 | a field that is not allowed is refused whatever follows it |
| Query.ValidateSortOutcome | src/shared/utils/query.util.ts:1-18 | a disallowed field gives (false, createdAt, -1); an allowed one gives direction 1 iff the order is exactly 'asc', else -1 |
| Query.ValidateSort | src/shared/utils/query.util.ts:1-18 | valid iff the text before the first ':' is an allowed field, which is then the field; otherwise the fallback (createdAt, -1); the direction is always 1 or -1 |
| Query.ValidateSortWithoutOrder | src/shared/utils/query.util.ts:8-17 | a field with no order sorts descending |
| Query.UpperCaseAscSortsDescending | src/shared/utils/query.util.ts:16 | the validator accepts 'name:ASC', yet `validateSort` sorts it descending |
| Query.ValidatedSortDirection | src/shared/utils/validation.util.ts:47-60 | every validated sort is valid for the case-insensitive sort, ascending iff its order reads asc and descending iff it reads desc |
| Query.RemoveForbidden | src/shared/utils/query.util.ts:22 | drops exactly the characters `$ { } ( )`, never lengthens, and is the identity on text without them |
| Query.SanitizeQueryShape | src/shared/utils/query.util.ts:20-23 | the result holds none of `$ { } ( )`, only characters of the input, no white space at either end, and is never longer than the input |
| Query.SanitizeQuery | src/shared/utils/query.util.ts:20-23 | never longer than the input, and holds only characters of the input other than `$ { } ( )` |
| Query.SanitizeQueryIdempotent | src/shared/utils/query.util.ts:20-23 | sanitizing twice is sanitizing once |
| Transform.GetDefaultMessage | src/shared/interceptors/transform/transform.interceptor.ts:95-115 | case-insensitively: POST gives CREATED; PUT or PATCH gives UPDATED; DELETE gives DELETED; absent, empty or any other method gives FETCHED (each an iff) |
| Transform.DefaultMessageIgnoresCase | src/shared/interceptors/transform/transform.interceptor.ts:104 | methods that are equal up to case get the same message |
| Transform.AnyPrefix | src/shared/interceptors/transform/transform.interceptor.ts:91-93 | true iff some route is a prefix of the path |
| Transform.ShouldSkipTransform | src/shared/interceptors/transform/transform.interceptor.ts:91-93 | true iff the path starts with one of the skip routes |
| Transform.SkipByPrefix | src/constants/message/transform.constant.ts:17-23 | any path that extends a skip route is skipped |
| Transform.MergeOptions | src/shared/interceptors/transform/transform.interceptor.ts:49-53 | defaults to 'standard' and the method's message; each key the decorator supplies overrides its default |
| Transform.TransformPaginatedResponse | src/shared/interceptors/transform/transform.interceptor.ts:117-138 | succeeds iff the output is a page with `meta`, else the TypeError; the page keeps the items, status code, message, page number and total |
| Transform.TransformSingleResponse | src/shared/interceptors/transform/transform.interceptor.ts:140-151 | the single shape carries the data, status code and message unchanged |
| Transform.HandleTransform | src/shared/interceptors/transform/transform.interceptor.ts:58-89 | any type other than 'paginated' gives the single shape; the paginated shape comes out iff the type is 'paginated' and the output has `meta`; the only error is the TypeError of a paginated type |
| Transform.Intercept | src/shared/interceptors/transform/transform.interceptor.ts:31-56 | a skipped path passes the output through; an error only arises on a path that is not skipped, and it is the TypeError |
| Transform.InterceptSkips | src/shared/interceptors/transform/transform.interceptor.ts:41-43 | a skipped path passes the handler output through unchanged; no other path does |
| Transform.InterceptShapes | src/shared/interceptors/transform/transform.interceptor.ts:58-89 | the paginated shape iff the type is 'paginated' (it throws without `meta`); otherwise the single shape with data, status code and message unchanged |
| Transform.PaginationFlags | src/shared/interceptors/transform/transform.interceptor.ts:117-138 | hasNextPage iff page < totalPages; hasPreviousPage iff page > 1; totalItems = meta.total; page, limit, totalPages and items copied |
| Transform.FirstAndLastPage | src/shared/interceptors/transform/transform.interceptor.ts:133-134 | of several pages the first has only a next page and the last only a previous one |
| UrlBuilder.CollapseSlashes | src/shared/services/url-builder.service.ts:14 | the result has no two consecutive slashes, is never longer, and keeps the first character |
| UrlBuilder.BuildApiUrl | src/shared/services/url-builder.service.ts:8-15 | the URL has no doubled slash and keeps every non-slash character of base, prefix, version and path, in order |
| UrlBuilder.CollapseIdempotent | src/shared/services/url-builder.service.ts:14 | collapsing twice is collapsing once |
| UrlBuilder.CollapseKeepsText | src/shared/services/url-builder.service.ts:14 | collapsing removes slashes only; every other character stays, in order |
| UrlBuilder.SchemeSlashCollapsed | src/shared/services/url-builder.service.ts:14 | `scheme://host...` becomes `scheme:/host...` |
| UrlBuilder.ApiUrlShape | src/shared/services/url-builder.service.ts:8-15 | a built URL has no doubled slash, is a fixpoint of collapsing, and keeps all non-slash text of base, prefix, version and path |
| UrlBuilder.ExplicitVersionOverrides | src/shared/services/url-builder.service.ts:11-12 | a non-empty explicit version acts as if it were the configured default |
| UrlBuilder.ConfigFallbacks | src/shared/services/url-builder.service.ts:10-12 | an unset prefix and version act as 'api' and 'v1'; an empty explicit version counts as none |
| UrlBuilder.AuthUrlShape | src/shared/services/url-builder.service.ts:17-31 | without params the auth URL is the API URL of 'auth/' + path; with params it is that URL, '?' and the query string |
| UrlBuilder.BuildAuthUrl | src/shared/services/url-builder.service.ts:17-31 | the URL begins with the API URL of 'auth/' + path; it is exactly that without params, and with params a '?' follows it |
| UrlBuilder.Serialize | src/shared/services/url-builder.service.ts:26 | the query string is empty iff there are no parameters |
| UrlBuilder.FormEncodeChars | src/shared/services/url-builder.service.ts:26 | an encoded component holds only unreserved characters, '+' and '%' |
| UrlBuilder.FormEncodeRoundTrip | src/shared/services/url-builder.service.ts:26 | decoding the form encoding of ASCII text gives the text back |
| UrlBuilder.SerializeSplits | src/shared/services/url-builder.service.ts:26 | the query string splits at '&' into one piece per parameter, and each piece at '=' into its encoded name and value |

## Left out

- Cryptography is concrete, not real. A token carries its secret as its
  signature, and a hash carries its plain text in hex. Only the facts the
  flows depend on are used:
  - verification needs the signing secret and an unexpired token;
  - tokens are deterministic in their claims and `iat`;
  - a hash matches exactly the texts with the same 72-byte bcrypt key as
    its plain text;
  - a hash never equals a token.
  Secrecy and one-wayness are not modelled.
- jsonwebtoken's exception on signing with an empty secret is not modelled.
  Signing always yields a token, and verification with an empty secret
  always fails.
- `ms()` durations are whole-second parameters of the configuration.
  `Date.now()` and `new Date()` are the `nowMs` parameter; the interceptor's
  ISO timestamp and the user schema's bookkeeping dates are dropped.
- Cookies are recorded as an effect (set with a token, or cleared). Their
  options (httpOnly, sameSite, path, maxAge) are transport.
- The mail service is an effect recording (email, token). Sending is left out.
- The cache is left out.
  - The blacklist write is commented out in the source, so a blacklist step
    records the entry it would write and changes nothing.
  - `isTokenInBlacklist` is constantly false.
- `usersService.register` is not part of `UsersService`. It is modelled as
  `create` with the verification fields that `register` passes.
- Mongo queries are modelled as a scan in insertion order.
  - A filter on an undefined email, such as when a token lacks `email`, is
    modelled as no match, so `EmailClaim` returns None.
  - Soft delete, `remove`, `restore`, `findAll` and `findAllWithDeleted` are
    not used by the flows and are not modelled.
- `getAccount` is a read-only projection outside the flows named above and
  is not modelled.
- `Promise.all` in `generateTokens` and `logout` runs sequentially, access
  before refresh; no concurrency is modelled.
- TokenBlacklistGuard.ExtractTokenFromHeader: passport-jwt's own Bearer
  extraction is modelled with the same `split(' ')` rule as the blacklist
  guard. passport's case-insensitive match on 'bearer' and its own header
  pattern are not modelled.
- Authenticate: passport's challenge response is reduced to a single
  Unauthorized error.
- Validation.ValidatePaginationParams: `Number(...)` parsing of strings is
  abstracted. A raw page or limit is absent (`undefined`), an integer, or not
  an integer (NaN, a fraction, infinity). The mapping from a query string to
  one of these is not modelled; for example, `Number('')` is the integer 0.
- JwtAuthGuard.GetAllAndOverride: a metadata key explicitly set to
  `undefined` on the handler is treated as absent.
- `Reflect.getMetadata`, the rxjs pipe and all logging are left out. Only
  the pure helpers of the interceptor and its option merge are modelled.
- UrlBuilder.Serialize:
  - The order of entries in a `Record<string, string>` is taken as given.
    JavaScript puts integer-like keys first; that ordering is not modelled.
  - The round trip of the form encoding is proved for ASCII text only.
- UrlBuilder.BaseUrl: an unset `APP_URL` is interpolated as the text
  "undefined", as JavaScript does.
- The companies service, the Redis services, the health module,
  controllers, modules and DTO files hold no logic of this core and are not
  modelled.
- `isValidObjectId` is modelled as exactly 24 lower-case hex digits.
- Users.User: the schema's phone, age, address, company, soft-delete and
  timestamp fields are never read by this core, so they are not in the
  record. For the same reason `CreateUserDto` and `UpdateUserDto` do not
  carry phone, age and address. For the string fields the core reads, null
  and a never-written value are both `None`, since every read treats them
  alike.
- Bcrypt.CompareHash: bcrypt's 72-byte key is modelled and its consequences
  are proved. `ChangePasswordTakesEffect` promises exactly the new password
  only for ASCII passwords under 72 characters. `EarlierResetTokenMatches`
  shows that the corrected reset accepts an earlier, still valid reset token
  for the same email. That no two distinct UTF-8 texts under 72 bytes share
  a key is not proved for non-ASCII text.
- AuthProperties.EarlierResetTokenMatches: the 12-character threshold
  belongs to this model's token encoding. A real HS256 token begins with a
  36-character header and a dot, then the base64url payload
  `{"email":"…`. Its first 72 characters therefore depend only on an ASCII
  email of 17 or more characters.
- AuthProperties.RefreshSingleUse: single use holds only when the
  rotation happens in a different second from the issue. Signing is
  deterministic in the claims and `iat`, so a rotation in the same second
  re-issues the identical token, which is then accepted again
  (`SameSecondRefreshReplay`).
- Transform.GetDefaultMessage: upper-casing is ASCII only. JavaScript's
  `toUpperCase` maps some other characters to ASCII letters (for example
  'ſ' to 'S'), but Node's HTTP parser only delivers ASCII method tokens.

## Findings

| source | as written | input that shows it | evidently intended | confidence | as-written member | corrected member |
|---|---|---|---|---|---|---|
| src/auth/auth.service.ts:357-381 | `forgotPassword` stores the bcrypt hash of the reset token. `resetPassword` then looks the user up by raw equality of that field with the presented token. | Any user: call forgot-password, then reset-password with the mailed token and two equal passwords. The result is 'Invalid or expired reset token'. | Verify the token, find its user by email, and bcrypt-compare the token with the stored hash. | not executed | AuthProperties.MailedResetTokenRefused | AuthProperties.ForgotThenResetByHash |
| src/shared/utils/query.util.ts:16 | The validator accepts the sort order case-insensitively. `validateSort` (and the sort at src/companies/companies.service.ts:71-72) compares it with 'asc' exactly. | `sort = "name:ASC"` is accepted by `validatePaginationParams`, then sorted descending. | The direction follows the order in any case, as the validator reads it. | not executed | Query.UpperCaseAscSortsDescending | Query.ValidatedSortDirection |
