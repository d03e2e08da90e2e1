/**
 * The flows of AuthService (src/auth/auth.service.ts) as functions of the
 * user store, the configuration and the current time in milliseconds.
 *
 * Each flow returns a `Step`: the value or the exception it ends with, the
 * store afterwards, and the outside effects it caused in order (cookies,
 * blacklist steps, mails). The class in module Auth runs the same flows
 * against a UsersService object and is proved to agree with these.
 */
module AuthFlows {
  import opened Wrappers
  import opened Http
  import opened Users
  import Jwt
  import Bcrypt
  import AuthMessages

  /**
   * The configuration the flows read: the four JWT secrets and the access
   * and refresh lifetimes in seconds (`ms(...) / 1000` of the configured
   * durations).
   */
  datatype AuthConfig = AuthConfig(
    accessSecret: string,
    refreshSecret: string,
    verificationSecret: string,
    resetSecret: string,
    accessExpiresIn: nat,
    refreshExpiresIn: nat)

  /** The four secrets are set and no two are the same. */
  predicate DistinctSecrets(cfg: AuthConfig) {
    && cfg.accessSecret != "" && cfg.refreshSecret != ""
    && cfg.verificationSecret != "" && cfg.resetSecret != ""
    && cfg.accessSecret != cfg.refreshSecret && cfg.accessSecret != cfg.verificationSecret
    && cfg.accessSecret != cfg.resetSecret && cfg.refreshSecret != cfg.verificationSecret
    && cfg.refreshSecret != cfg.resetSecret && cfg.verificationSecret != cfg.resetSecret
  }

  /** '24h' and '1h': the verification and reset token lifetimes in seconds. */
  const VerificationExpiresIn: nat := 86400
  const ResetExpiresIn: nat := 3600
  /** How long a stored reset token is valid, in milliseconds. */
  const ResetWindowMs: nat := 3600000

  datatype Tokens = Tokens(accessToken: string, refreshToken: string)

  /** The `user` part of the login response. */
  datatype PublicUser = PublicUser(id: string, name: string, email: string)

  datatype LoginResponse = LoginResponse(tokens: Tokens, user: PublicUser)

  datatype TokenType = Access | Refresh

  /** A cache entry `set(key, value, ttlMs)`. */
  datatype CacheEntry = CacheEntry(key: string, value: string, ttlMs: nat)

  /**
   * What a flow does outside the store. `BlacklistStep` records one run of
   * `addToTokenBlacklist`, with the entry it computes; the cache write itself
   * is commented out in the source, so nothing is stored.
   */
  datatype Effect =
    | RefreshCookieSet(token: string)
    | RefreshCookieCleared
    | BlacklistStep(token: string, kind: TokenType, entry: Option<CacheEntry>)
    | VerificationMailSent(email: string, token: string)
    | ResetMailSent(email: string, token: string)

  datatype Step<T> = Step(result: Result<T, HttpError>, store: Store, effects: seq<Effect>)

  datatype RegisterDto = RegisterDto(name: string, email: string, password: string)

  datatype ChangePasswordDto = ChangePasswordDto(currentPassword: string, newPassword: string, confirmPassword: string)

  datatype ResetPasswordDto = ResetPasswordDto(token: string, password: string, confirmPassword: string)

  /** JavaScript truthiness of an optional string field. */
  predicate Truthy(s: Option<string>) {
    s.Some? && s.value != ""
  }

  // ---- Token payload builders (auth.service.ts:185-209, 271-281, 401-407) ----

  function AccessClaimsOf(u: User): Jwt.Claims {
    Jwt.AccessClaims(u.id, u.email, u.role, u.name)
  }

  function AccessToken(cfg: AuthConfig, u: User, nowMs: nat): string {
    Jwt.Sign(cfg.accessSecret, AccessClaimsOf(u), nowMs / 1000, cfg.accessExpiresIn)
  }

  function RefreshToken(cfg: AuthConfig, u: User, nowMs: nat): string {
    Jwt.Sign(cfg.refreshSecret, Jwt.RefreshClaims(u.id), nowMs / 1000, cfg.refreshExpiresIn)
  }

  function VerificationToken(cfg: AuthConfig, email: string, nowMs: nat): string {
    Jwt.Sign(cfg.verificationSecret, Jwt.VerificationClaims(email), nowMs / 1000, VerificationExpiresIn)
  }

  function ResetToken(cfg: AuthConfig, email: string, nowMs: nat): string {
    Jwt.Sign(cfg.resetSecret, Jwt.ResetClaims(email), nowMs / 1000, ResetExpiresIn)
  }

  // ---- Blacklist helpers (auth.service.ts:108-147) ----

  function BlacklistPrefix(kind: TokenType): string {
    match kind
    case Access => "bl_acc_"
    case Refresh => "bl_ref_"
  }

  /**
   * The entry `addToTokenBlacklist` would write, or None where it returns
   * early: an empty token, one that does not decode, one whose `exp` is
   * missing or 0, or one whose remaining lifetime in seconds is not positive.
   */
  function BlacklistEntry(token: string, kind: TokenType, nowMs: nat): Option<CacheEntry> {
    if token == "" then None
    else match Jwt.Decode(token)
      case None => None
      case Some(p) =>
        if p.exp == 0 then None
        else
          var ttl: int := p.exp - nowMs / 1000;
          if ttl > 0 then Some(CacheEntry(BlacklistPrefix(kind) + token, "true", ttl * 1000)) else None
  }

  /** `isTokenInBlacklist`: the cache read is commented out and the answer is fixed. */
  predicate IsTokenInBlacklist(token: string, kind: TokenType) {
    false
  }

  // ---- Session flows ----

  /** `validateUser`: the first user with that email, if the password matches its hash. */
  function ValidateUser(s: Store, email: string, password: string): Result<User, HttpError>
    requires WellFormed(s)
  {
    match StoreFindOneBy(s, ByEmail(email))
    case None => Err(Unauthorized("User not found"))
    case Some(u) =>
      if !UsersService.IsValidPassword(password, u.password) then Err(Unauthorized("Password is incorrect"))
      else Ok(u)
  }

  /** The update `generateTokens` and `logout` send: a new refresh token (or null) and the login time. */
  function SessionUpdate(refreshToken: Option<string>, nowMs: nat): UpdateUserDto {
    NoChanges.(refreshToken := Some(refreshToken), lastLogin := Some(nowMs))
  }

  /** `generateTokens`: signs both tokens, then stores the refresh token and the time. */
  function GenerateTokens(s: Store, cfg: AuthConfig, u: User, nowMs: nat): Step<Tokens> {
    var t := Tokens(AccessToken(cfg, u, nowMs), RefreshToken(cfg, u, nowMs));
    var (r, s') := StoreUpdate(s, u.id, SessionUpdate(Some(t.refreshToken), nowMs));
    match r
    case Err(e) => Step(Err(e), s', [])
    case Ok(_) => Step(Ok(t), s', [])
  }

  /** `login`: issues a pair, sets the refresh cookie, returns the pair and the public user fields. */
  function Login(s: Store, cfg: AuthConfig, u: User, nowMs: nat): Step<LoginResponse> {
    var g := GenerateTokens(s, cfg, u, nowMs);
    match g.result
    case Err(e) => Step(Err(e), g.store, [])
    case Ok(t) =>
      Step(Ok(LoginResponse(t, PublicUser(u.id, u.name, u.email))), g.store, [RefreshCookieSet(t.refreshToken)])
  }

  /** The blacklist steps of `logout`: the access token, then the former refresh token if truthy. */
  function LogoutBlacklistSteps(accessToken: string, former: Option<string>, nowMs: nat): seq<Effect> {
    [BlacklistStep(accessToken, Access, BlacklistEntry(accessToken, Access, nowMs))] +
    (if Truthy(former) then [BlacklistStep(former.value, Refresh, BlacklistEntry(former.value, Refresh, nowMs))] else [])
  }

  /** `logout`: every failure inside the try block becomes 'Logout failed'. */
  function Logout(s: Store, userId: string, accessToken: string, nowMs: nat): Step<()> {
    match StoreFindOne(s, userId)
    case Err(_) => Step(Err(InternalServerError("Logout failed")), s, [])
    case Ok(u) =>
      var (r, s') := StoreUpdate(s, userId, SessionUpdate(None, nowMs));
      if r.Err? then Step(Err(InternalServerError("Logout failed")), s', [])
      else Step(Ok(()), s', [RefreshCookieCleared] + LogoutBlacklistSteps(accessToken, u.refreshToken, nowMs))
  }

  /** `refreshTokens`: every failure becomes 'Invalid refresh token'. */
  function RefreshTokens(s: Store, cfg: AuthConfig, token: string, nowMs: nat): Step<Tokens> {
    var fail := Step(Err(Unauthorized(AuthMessages.INVALID_REFRESH_TOKEN)), s, []);
    match Jwt.Verify(cfg.refreshSecret, token, nowMs)
    case None => fail
    case Some(p) =>
      if !p.claims.RefreshClaims? then fail
      else match StoreFindOne(s, p.claims.sub)
        case Err(_) => fail
        case Ok(u) =>
          if !Truthy(u.refreshToken) || u.refreshToken.value != token then fail
          else
            var g := GenerateTokens(s, cfg, u, nowMs);
            match g.result
            case Err(_) => Step(Err(Unauthorized(AuthMessages.INVALID_REFRESH_TOKEN)), g.store, [])
            case Ok(t) => Step(Ok(t), g.store, [RefreshCookieSet(t.refreshToken)])
  }

  // ---- Recovery flows ----

  /** The record `register` asks `create` to save: unverified and carrying the verification token. */
  function RegistrationDto(dto: RegisterDto, verificationToken: string): CreateUserDto {
    CreateUserDto(dto.name, dto.email, dto.password, Some(verificationToken), Some(false))
  }

  /** `register`; `newId` and `salt` are the id and bcrypt salt the database and bcrypt pick. */
  function Register(s: Store, cfg: AuthConfig, dto: RegisterDto, newId: string, salt: nat, nowMs: nat): Step<string>
    requires WellFormed(s)
    requires ObjectId.IsValid(newId) && newId !in s.records
  {
    if StoreFindOneBy(s, ByEmail(dto.email)).Some? then
      Step(Err(BadRequest(AuthMessages.EMAIL_EXISTS)), s, [])
    else
      var token := VerificationToken(cfg, dto.email, nowMs);
      var (u, s') := StoreCreate(s, newId, RegistrationDto(dto, token), salt);
      Step(Ok(AuthMessages.REGISTERED), s', [VerificationMailSent(u.email, token)])
  }

  /** The email claim, which only the access, verification and reset payloads carry. */
  function EmailClaim(c: Jwt.Claims): Option<string> {
    match c
    case AccessClaims(_, email, _, _) => Some(email)
    case VerificationClaims(email) => Some(email)
    case ResetClaims(email) => Some(email)
    case RefreshClaims(_) => None
  }

  /** `verifyEmail`: every failure becomes INVALID_VERIFICATION_TOKEN. */
  function VerifyEmail(s: Store, cfg: AuthConfig, token: string, nowMs: nat): Step<string>
    requires WellFormed(s)
  {
    var fail := Step(Err(BadRequest(AuthMessages.INVALID_VERIFICATION_TOKEN)), s, []);
    match Jwt.Verify(cfg.verificationSecret, token, nowMs)
    case None => fail
    case Some(p) =>
      match EmailClaim(p.claims)
      case None => fail
      case Some(email) =>
        match StoreFindOneBy(s, ByEmail(email))
        case None => fail
        case Some(u) =>
          if u.verificationToken != Some(token) then fail
          else
            var (r, s') := StoreUpdate(s, u.id, NoChanges.(isEmailVerified := Some(true), verificationToken := Some(None)));
            if r.Err? then Step(Err(BadRequest(AuthMessages.INVALID_VERIFICATION_TOKEN)), s', [])
            else Step(Ok(AuthMessages.EMAIL_VERIFIED), s', [])
  }

  /** `changePassword`: errors of `findOne` and `update` pass through unchanged. */
  function ChangePassword(s: Store, userId: string, dto: ChangePasswordDto, salt: nat): Step<string> {
    match StoreFindOne(s, userId)
    case Err(e) => Step(Err(e), s, [])
    case Ok(u) =>
      if !UsersService.IsValidPassword(dto.currentPassword, u.password) then
        Step(Err(Unauthorized("Current password is incorrect")), s, [])
      else if dto.newPassword != dto.confirmPassword then
        Step(Err(BadRequest("Passwords do not match")), s, [])
      else
        var hashed := UsersService.HashPassword(dto.newPassword, salt);
        var (r, s') := StoreUpdate(s, u.id, NoChanges.(password := Some(hashed)));
        match r
        case Err(e) => Step(Err(e), s', [])
        case Ok(_) => Step(Ok(AuthMessages.PASSWORD_CHANGED_SUCCESSFULLY), s', [])
  }

  /** The update `forgotPassword` sends: the hashed token and its expiry one hour from now. */
  function ResetRequestUpdate(hashedToken: string, nowMs: nat): UpdateUserDto {
    NoChanges.(resetPasswordToken := Some(Some(hashedToken)), resetPasswordExpires := Some(Some(nowMs + ResetWindowMs)))
  }

  /** `forgotPassword`: mails the raw reset token and stores only its hash. */
  function ForgotPassword(s: Store, cfg: AuthConfig, email: string, salt: nat, nowMs: nat): Step<string>
    requires WellFormed(s)
  {
    match StoreFindOneBy(s, ByEmail(email))
    case None => Step(Err(BadRequest("User not found")), s, [])
    case Some(u) =>
      var token := ResetToken(cfg, u.email, nowMs);
      var hashed := UsersService.HashPassword(token, salt);
      var (r, s') := StoreUpdate(s, u.id, ResetRequestUpdate(hashed, nowMs));
      match r
      case Err(e) => Step(Err(e), s', [])
      case Ok(_) => Step(Ok(AuthMessages.RESET_PASSWORD_EMAIL_SENT), s', [ResetMailSent(u.email, token)])
  }

  /**
   * `resetPasswordExpires < new Date()`. The comparison converts both sides
   * to numbers: a null expiry becomes 0, so it counts as expired once the
   * clock is past 0; a never-written expiry becomes NaN, and a comparison
   * with NaN is false, so it never counts as expired.
   */
  predicate ResetExpired(expires: StoredDate, nowMs: nat) {
    match expires
    case Absent => false
    case Null => 0 < nowMs
    case At(t) => t < nowMs
  }

  /** The update a successful reset sends: the new hash, both reset fields null. */
  function ResetDoneUpdate(hashedPassword: string): UpdateUserDto {
    NoChanges.(password := Some(hashedPassword), resetPasswordToken := Some(None), resetPasswordExpires := Some(None))
  }

  /** `resetPassword` as written: the user is looked up by raw equality with the stored reset token. */
  function ResetPassword(s: Store, dto: ResetPasswordDto, salt: nat, nowMs: nat): Step<string>
    requires WellFormed(s)
  {
    if dto.password != dto.confirmPassword then Step(Err(BadRequest("Passwords do not match")), s, [])
    else match StoreFindOneBy(s, ByResetToken(dto.token))
      case None => Step(Err(BadRequest("Invalid or expired reset token")), s, [])
      case Some(u) => FinishReset(s, u, dto.password, salt, nowMs)
  }

  /** The common tail of both reset variants: the expiry check and the update. */
  function FinishReset(s: Store, u: User, password: string, salt: nat, nowMs: nat): Step<string> {
    if ResetExpired(u.resetPasswordExpires, nowMs) then Step(Err(BadRequest("Reset token has expired")), s, [])
    else
      var hashed := UsersService.HashPassword(password, salt);
      var (r, s') := StoreUpdate(s, u.id, ResetDoneUpdate(hashed));
      match r
      case Err(e) => Step(Err(e), s', [])
      case Ok(_) => Step(Ok(AuthMessages.PASSWORD_RESET_SUCCESSFULLY), s', [])
  }

  /**
   * The reset `forgotPassword` evidently intends: verify the presented token
   * with the reset secret, find the user by its email claim, and compare the
   * token with the stored hash the way passwords are compared.
   */
  function ResetPasswordByHash(s: Store, cfg: AuthConfig, dto: ResetPasswordDto, salt: nat, nowMs: nat): Step<string>
    requires WellFormed(s)
  {
    var fail := Step(Err(BadRequest("Invalid or expired reset token")), s, []);
    if dto.password != dto.confirmPassword then Step(Err(BadRequest("Passwords do not match")), s, [])
    else match Jwt.Verify(cfg.resetSecret, dto.token, nowMs)
      case None => fail
      case Some(p) =>
        if !p.claims.ResetClaims? then fail
        else match StoreFindOneBy(s, ByEmail(p.claims.email))
          case None => fail
          case Some(u) =>
            if u.resetPasswordToken.None? || !UsersService.IsValidPassword(dto.token, u.resetPasswordToken.value) then fail
            else FinishReset(s, u, dto.password, salt, nowMs)
  }
}
