/**
 * AuthService (src/auth/auth.service.ts) as a class over a UsersService
 * object. Each method runs the flow step by step through the UsersService
 * methods and is proved to end with the result, the store and the effects
 * that the matching function of AuthFlows describes; the properties of the
 * flows are proved about those functions in AuthProperties.
 *
 * Outside effects (cookies, blacklist steps, mails) are appended to the
 * ghost log `effects`.
 */
module Auth {
  import opened Wrappers
  import opened Http
  import opened Users
  import Jwt
  import AuthMessages
  import AuthFlows

  class AuthService {
    const users: UsersService
    const cfg: AuthFlows.AuthConfig
    ghost var effects: seq<AuthFlows.Effect>

    ghost predicate Valid()
      reads this, users
    {
      users.Valid()
    }

    constructor (users: UsersService, cfg: AuthFlows.AuthConfig)
      requires users.Valid()
      ensures Valid() && this.users == users && this.cfg == cfg && effects == []
    {
      this.users := users;
      this.cfg := cfg;
      effects := [];
    }

    method ValidateUser(email: string, password: string) returns (r: Result<User, HttpError>)
      requires Valid()
      ensures r == AuthFlows.ValidateUser(users.Contents(), email, password)
    {
      var user := users.FindOneByUsername(email);
      if user.None? {
        return Err(Unauthorized("User not found"));
      }
      if !UsersService.IsValidPassword(password, user.value.password) {
        return Err(Unauthorized("Password is incorrect"));
      }
      return Ok(user.value);
    }

    method GenerateTokens(u: User, nowMs: nat) returns (r: Result<AuthFlows.Tokens, HttpError>)
      requires Valid()
      modifies users
      ensures Valid()
      ensures var st := AuthFlows.GenerateTokens(old(users.Contents()), cfg, u, nowMs);
              r == st.result && users.Contents() == st.store
    {
      var accessToken := AuthFlows.AccessToken(cfg, u, nowMs);
      var refreshToken := AuthFlows.RefreshToken(cfg, u, nowMs);
      var updated := users.Update(u.id, AuthFlows.SessionUpdate(Some(refreshToken), nowMs));
      if updated.Err? {
        return Err(updated.error);
      }
      return Ok(AuthFlows.Tokens(accessToken, refreshToken));
    }

    method Login(u: User, nowMs: nat) returns (r: Result<AuthFlows.LoginResponse, HttpError>)
      requires Valid()
      modifies this, users
      ensures Valid()
      ensures var st := AuthFlows.Login(old(users.Contents()), cfg, u, nowMs);
              r == st.result && users.Contents() == st.store && effects == old(effects) + st.effects
    {
      var tokens := GenerateTokens(u, nowMs);
      if tokens.Err? {
        return Err(tokens.error);
      }
      effects := effects + [AuthFlows.RefreshCookieSet(tokens.value.refreshToken)];
      return Ok(AuthFlows.LoginResponse(tokens.value, AuthFlows.PublicUser(u.id, u.name, u.email)));
    }

    /** `addToTokenBlacklist`: computes the entry; the cache write is disabled in the source. */
    method AddToTokenBlacklist(token: string, kind: AuthFlows.TokenType, nowMs: nat) returns (entry: Option<AuthFlows.CacheEntry>)
      modifies this
      ensures entry == AuthFlows.BlacklistEntry(token, kind, nowMs)
      ensures effects == old(effects) + [AuthFlows.BlacklistStep(token, kind, entry)]
    {
      entry := None;
      if token != "" {
        var decoded := Jwt.Decode(token);
        if decoded.Some? && decoded.value.exp != 0 {
          var ttl: int := decoded.value.exp - nowMs / 1000;
          if ttl > 0 {
            entry := Some(AuthFlows.CacheEntry(AuthFlows.BlacklistPrefix(kind) + token, "true", ttl * 1000));
          }
        }
      }
      effects := effects + [AuthFlows.BlacklistStep(token, kind, entry)];
    }

    /** `isTokenInBlacklist`: no token is ever reported as revoked. */
    method IsTokenInBlacklist(token: string, kind: AuthFlows.TokenType) returns (b: bool)
      ensures b == AuthFlows.IsTokenInBlacklist(token, kind)
      ensures !b
    {
      var prefix := AuthFlows.BlacklistPrefix(kind);
      return false;
    }

    method Logout(userId: string, accessToken: string, nowMs: nat) returns (r: Result<(), HttpError>)
      requires Valid()
      modifies this, users
      ensures Valid()
      ensures var st := AuthFlows.Logout(old(users.Contents()), userId, accessToken, nowMs);
              r == st.result && users.Contents() == st.store && effects == old(effects) + st.effects
    {
      var found := users.FindOne(userId);
      if found.Err? {
        return Err(InternalServerError("Logout failed"));
      }
      var former := found.value.refreshToken;
      var updated := users.Update(userId, AuthFlows.SessionUpdate(None, nowMs));
      if updated.Err? {
        return Err(InternalServerError("Logout failed"));
      }
      effects := effects + [AuthFlows.RefreshCookieCleared];
      var accessEntry := AddToTokenBlacklist(accessToken, AuthFlows.Access, nowMs);
      if AuthFlows.Truthy(former) {
        var refreshEntry := AddToTokenBlacklist(former.value, AuthFlows.Refresh, nowMs);
      }
      return Ok(());
    }

    method RefreshTokens(token: string, nowMs: nat) returns (r: Result<AuthFlows.Tokens, HttpError>)
      requires Valid()
      modifies this, users
      ensures Valid()
      ensures var st := AuthFlows.RefreshTokens(old(users.Contents()), cfg, token, nowMs);
              r == st.result && users.Contents() == st.store && effects == old(effects) + st.effects
    {
      var payload := Jwt.Verify(cfg.refreshSecret, token, nowMs);
      if payload.None? || !payload.value.claims.RefreshClaims? {
        return Err(Unauthorized(AuthMessages.INVALID_REFRESH_TOKEN));
      }
      var found := users.FindOne(payload.value.claims.sub);
      if found.Err? {
        return Err(Unauthorized(AuthMessages.INVALID_REFRESH_TOKEN));
      }
      var u := found.value;
      if !AuthFlows.Truthy(u.refreshToken) || u.refreshToken.value != token {
        return Err(Unauthorized(AuthMessages.INVALID_REFRESH_TOKEN));
      }
      var tokens := GenerateTokens(u, nowMs);
      if tokens.Err? {
        return Err(Unauthorized(AuthMessages.INVALID_REFRESH_TOKEN));
      }
      effects := effects + [AuthFlows.RefreshCookieSet(tokens.value.refreshToken)];
      return Ok(tokens.value);
    }

    method Register(dto: AuthFlows.RegisterDto, newId: string, salt: nat, nowMs: nat) returns (r: Result<string, HttpError>)
      requires Valid()
      requires ObjectId.IsValid(newId) && newId !in users.records
      modifies this, users
      ensures Valid()
      ensures var st := AuthFlows.Register(old(users.Contents()), cfg, dto, newId, salt, nowMs);
              r == st.result && users.Contents() == st.store && effects == old(effects) + st.effects
    {
      var existing := users.FindOneByUsername(dto.email);
      if existing.Some? {
        return Err(BadRequest(AuthMessages.EMAIL_EXISTS));
      }
      var token := AuthFlows.VerificationToken(cfg, dto.email, nowMs);
      var u := users.Create(AuthFlows.RegistrationDto(dto, token), newId, salt);
      effects := effects + [AuthFlows.VerificationMailSent(u.email, token)];
      return Ok(AuthMessages.REGISTERED);
    }

    method VerifyEmail(token: string, nowMs: nat) returns (r: Result<string, HttpError>)
      requires Valid()
      modifies users
      ensures Valid()
      ensures var st := AuthFlows.VerifyEmail(old(users.Contents()), cfg, token, nowMs);
              r == st.result && users.Contents() == st.store && st.effects == []
    {
      var payload := Jwt.Verify(cfg.verificationSecret, token, nowMs);
      if payload.None? || AuthFlows.EmailClaim(payload.value.claims).None? {
        return Err(BadRequest(AuthMessages.INVALID_VERIFICATION_TOKEN));
      }
      var user := users.FindOneByUsername(AuthFlows.EmailClaim(payload.value.claims).value);
      if user.None? || user.value.verificationToken != Some(token) {
        return Err(BadRequest(AuthMessages.INVALID_VERIFICATION_TOKEN));
      }
      var updated := users.Update(user.value.id, NoChanges.(isEmailVerified := Some(true), verificationToken := Some(None)));
      if updated.Err? {
        return Err(BadRequest(AuthMessages.INVALID_VERIFICATION_TOKEN));
      }
      return Ok(AuthMessages.EMAIL_VERIFIED);
    }

    method ChangePassword(userId: string, dto: AuthFlows.ChangePasswordDto, salt: nat) returns (r: Result<string, HttpError>)
      requires Valid()
      modifies users
      ensures Valid()
      ensures var st := AuthFlows.ChangePassword(old(users.Contents()), userId, dto, salt);
              r == st.result && users.Contents() == st.store && st.effects == []
    {
      var found := users.FindOne(userId);
      if found.Err? {
        return Err(found.error);
      }
      var u := found.value;
      if !UsersService.IsValidPassword(dto.currentPassword, u.password) {
        return Err(Unauthorized("Current password is incorrect"));
      }
      if dto.newPassword != dto.confirmPassword {
        return Err(BadRequest("Passwords do not match"));
      }
      var hashed := UsersService.HashPassword(dto.newPassword, salt);
      var updated := users.Update(u.id, NoChanges.(password := Some(hashed)));
      if updated.Err? {
        // `u` came from `findOne`, so its id is well formed and stored
        assert false;
      }
      return Ok(AuthMessages.PASSWORD_CHANGED_SUCCESSFULLY);
    }

    method ForgotPassword(email: string, salt: nat, nowMs: nat) returns (r: Result<string, HttpError>)
      requires Valid()
      modifies this, users
      ensures Valid()
      ensures var st := AuthFlows.ForgotPassword(old(users.Contents()), cfg, email, salt, nowMs);
              r == st.result && users.Contents() == st.store && effects == old(effects) + st.effects
    {
      var user := users.FindOneByUsername(email);
      if user.None? {
        return Err(BadRequest("User not found"));
      }
      var u := user.value;
      var token := AuthFlows.ResetToken(cfg, u.email, nowMs);
      var hashed := UsersService.HashPassword(token, salt);
      var updated := users.Update(u.id, AuthFlows.ResetRequestUpdate(hashed, nowMs));
      if updated.Err? {
        // `u` came from the store, so its id is well formed and stored
        assert false;
      }
      effects := effects + [AuthFlows.ResetMailSent(u.email, token)];
      return Ok(AuthMessages.RESET_PASSWORD_EMAIL_SENT);
    }

    /** The expiry check and the update shared by both reset variants. */
    method FinishReset(u: User, password: string, salt: nat, nowMs: nat) returns (r: Result<string, HttpError>)
      requires Valid()
      modifies users
      ensures Valid()
      ensures var st := AuthFlows.FinishReset(old(users.Contents()), u, password, salt, nowMs);
              r == st.result && users.Contents() == st.store
    {
      if AuthFlows.ResetExpired(u.resetPasswordExpires, nowMs) {
        return Err(BadRequest("Reset token has expired"));
      }
      var hashed := UsersService.HashPassword(password, salt);
      var updated := users.Update(u.id, AuthFlows.ResetDoneUpdate(hashed));
      if updated.Err? {
        return Err(updated.error);
      }
      return Ok(AuthMessages.PASSWORD_RESET_SUCCESSFULLY);
    }

    /** `resetPassword` as written: lookup by raw equality with the stored (hashed) token. */
    method ResetPassword(dto: AuthFlows.ResetPasswordDto, salt: nat, nowMs: nat) returns (r: Result<string, HttpError>)
      requires Valid()
      modifies users
      ensures Valid()
      ensures var st := AuthFlows.ResetPassword(old(users.Contents()), dto, salt, nowMs);
              r == st.result && users.Contents() == st.store && st.effects == []
    {
      if dto.password != dto.confirmPassword {
        return Err(BadRequest("Passwords do not match"));
      }
      var user := users.FindOneByResetToken(dto.token);
      if user.None? {
        return Err(BadRequest("Invalid or expired reset token"));
      }
      r := FinishReset(user.value, dto.password, salt, nowMs);
    }

    /** The corrected reset: verify the token, find the user by its email, compare with the stored hash. */
    method ResetPasswordByHash(dto: AuthFlows.ResetPasswordDto, salt: nat, nowMs: nat) returns (r: Result<string, HttpError>)
      requires Valid()
      modifies users
      ensures Valid()
      ensures var st := AuthFlows.ResetPasswordByHash(old(users.Contents()), cfg, dto, salt, nowMs);
              r == st.result && users.Contents() == st.store && st.effects == []
    {
      if dto.password != dto.confirmPassword {
        return Err(BadRequest("Passwords do not match"));
      }
      var payload := Jwt.Verify(cfg.resetSecret, dto.token, nowMs);
      if payload.None? || !payload.value.claims.ResetClaims? {
        return Err(BadRequest("Invalid or expired reset token"));
      }
      var user := users.FindOneByUsername(payload.value.claims.email);
      if user.None? || user.value.resetPasswordToken.None?
         || !UsersService.IsValidPassword(dto.token, user.value.resetPasswordToken.value) {
        return Err(BadRequest("Invalid or expired reset token"));
      }
      r := FinishReset(user.value, dto.password, salt, nowMs);
    }
  }
}
