/**
 * What the AuthService flows promise, proved about the functions of
 * AuthFlows (which the methods of Auth.AuthService are proved to follow).
 */
module AuthProperties {
  import opened Wrappers
  import opened Http
  import opened Users
  import Jwt
  import Bcrypt
  import ObjectId
  import Text
  import Hex
  import AuthMessages
  import opened AuthFlows

  // ---- Tokens ----

  /** The issued tokens verify under their own secret until their lifetime is over, and carry the user. */
  lemma IssuedTokensVerify(cfg: AuthConfig, u: User, nowMs: nat, laterMs: nat)
    requires cfg.accessSecret != "" && cfg.refreshSecret != ""
    ensures var iat := nowMs / 1000;
            Jwt.Verify(cfg.accessSecret, AccessToken(cfg, u, nowMs), laterMs) ==
              if laterMs / 1000 < iat + cfg.accessExpiresIn
              then Some(Jwt.Payload(Jwt.AccessClaims(u.id, u.email, u.role, u.name), iat, iat + cfg.accessExpiresIn))
              else None
    ensures var iat := nowMs / 1000;
            Jwt.Verify(cfg.refreshSecret, RefreshToken(cfg, u, nowMs), laterMs) ==
              if laterMs / 1000 < iat + cfg.refreshExpiresIn
              then Some(Jwt.Payload(Jwt.RefreshClaims(u.id), iat, iat + cfg.refreshExpiresIn))
              else None
  {
    AccessTokenVerifies(cfg, u, nowMs, laterMs);
    RefreshTokenVerifies(cfg, u, nowMs, laterMs);
  }

  lemma AccessTokenVerifies(cfg: AuthConfig, u: User, nowMs: nat, laterMs: nat)
    requires cfg.accessSecret != ""
    ensures var iat := nowMs / 1000;
            Jwt.Verify(cfg.accessSecret, AccessToken(cfg, u, nowMs), laterMs) ==
              if laterMs / 1000 < iat + cfg.accessExpiresIn
              then Some(Jwt.Payload(Jwt.AccessClaims(u.id, u.email, u.role, u.name), iat, iat + cfg.accessExpiresIn))
              else None
  {
    Jwt.VerifySign(cfg.accessSecret, cfg.accessSecret, Jwt.AccessClaims(u.id, u.email, u.role, u.name), nowMs / 1000, cfg.accessExpiresIn, laterMs);
  }

  lemma RefreshTokenVerifies(cfg: AuthConfig, u: User, nowMs: nat, laterMs: nat)
    requires cfg.refreshSecret != ""
    ensures var iat := nowMs / 1000;
            Jwt.Verify(cfg.refreshSecret, RefreshToken(cfg, u, nowMs), laterMs) ==
              if laterMs / 1000 < iat + cfg.refreshExpiresIn
              then Some(Jwt.Payload(Jwt.RefreshClaims(u.id), iat, iat + cfg.refreshExpiresIn))
              else None
  {
    Jwt.VerifySign(cfg.refreshSecret, cfg.refreshSecret, Jwt.RefreshClaims(u.id), nowMs / 1000, cfg.refreshExpiresIn, laterMs);
  }

  /** With distinct secrets, no token of one kind verifies as another kind. */
  lemma TokenKindsSeparated(cfg: AuthConfig, u: User, email: string, nowMs: nat, laterMs: nat)
    requires DistinctSecrets(cfg)
    ensures Jwt.Verify(cfg.accessSecret, RefreshToken(cfg, u, nowMs), laterMs).None?
    ensures Jwt.Verify(cfg.accessSecret, VerificationToken(cfg, email, nowMs), laterMs).None?
    ensures Jwt.Verify(cfg.accessSecret, ResetToken(cfg, email, nowMs), laterMs).None?
    ensures Jwt.Verify(cfg.refreshSecret, AccessToken(cfg, u, nowMs), laterMs).None?
    ensures Jwt.Verify(cfg.verificationSecret, ResetToken(cfg, email, nowMs), laterMs).None?
    ensures Jwt.Verify(cfg.resetSecret, VerificationToken(cfg, email, nowMs), laterMs).None?
  {
    var iat := nowMs / 1000;
    Jwt.VerifySign(cfg.accessSecret, cfg.refreshSecret, Jwt.RefreshClaims(u.id), iat, cfg.refreshExpiresIn, laterMs);
    Jwt.VerifySign(cfg.accessSecret, cfg.verificationSecret, Jwt.VerificationClaims(email), iat, VerificationExpiresIn, laterMs);
    Jwt.VerifySign(cfg.accessSecret, cfg.resetSecret, Jwt.ResetClaims(email), iat, ResetExpiresIn, laterMs);
    Jwt.VerifySign(cfg.refreshSecret, cfg.accessSecret, AccessClaimsOf(u), iat, cfg.accessExpiresIn, laterMs);
    Jwt.VerifySign(cfg.verificationSecret, cfg.resetSecret, Jwt.ResetClaims(email), iat, ResetExpiresIn, laterMs);
    Jwt.VerifySign(cfg.resetSecret, cfg.verificationSecret, Jwt.VerificationClaims(email), iat, VerificationExpiresIn, laterMs);
  }

  // ---- validateUser and login ----

  /** `validateUser` returns a stored user with that email whose hash matches, or says why not. */
  lemma ValidateUserOutcome(s: Store, email: string, password: string)
    requires WellFormed(s)
    ensures var r := ValidateUser(s, email, password);
            && (r.Ok? ==> r.value.id in s.records && s.records[r.value.id] == r.value
                          && r.value.email == email && UsersService.IsValidPassword(password, r.value.password))
            && ((forall id :: id in s.records ==> s.records[id].email != email) <==> r == Err(Unauthorized("User not found")))
            && (r.Err? ==> r == Err(Unauthorized("User not found")) || r == Err(Unauthorized("Password is incorrect")))
  {
    StoreFindOneBySound(s, ByEmail(email));
  }

  /**
   * `login` of a stored user: the stored refresh token becomes the issued
   * one, `lastLogin` becomes now, nothing else changes, the cookie carries
   * the refresh token, and the response holds only id, name and email.
   */
  lemma LoginIssuesSession(s: Store, cfg: AuthConfig, u: User, nowMs: nat)
    requires WellFormed(s) && u.id in s.records
    ensures var st := Login(s, cfg, u, nowMs);
            var t := Tokens(AccessToken(cfg, u, nowMs), RefreshToken(cfg, u, nowMs));
            && st.result == Ok(LoginResponse(t, PublicUser(u.id, u.name, u.email)))
            && st.store == Store(s.ids, s.records[u.id := s.records[u.id].(refreshToken := Some(t.refreshToken), lastLogin := Some(nowMs))])
            && st.effects == [RefreshCookieSet(t.refreshToken)]
  {
  }

  /** `login` for a user that is not stored fails with the error of `update` and changes nothing. */
  lemma LoginUnknownUser(s: Store, cfg: AuthConfig, u: User, nowMs: nat)
    requires WellFormed(s) && u.id !in s.records
    ensures var st := Login(s, cfg, u, nowMs);
            && st.store == s && st.effects == []
            && st.result == Err(if ObjectId.IsValid(u.id) then BadRequest("User not found") else BadRequest("Invalid ID format"))
  {
  }

  // ---- refreshTokens ----

  /**
   * `refreshTokens` succeeds exactly when the token verifies with the refresh
   * secret, names a stored user, and equals that user's non-empty stored
   * refresh token; every failure is 'Invalid refresh token' and changes nothing.
   */
  lemma RefreshOutcome(s: Store, cfg: AuthConfig, token: string, nowMs: nat)
    requires WellFormed(s)
    ensures var st := RefreshTokens(s, cfg, token, nowMs);
            var v := Jwt.Verify(cfg.refreshSecret, token, nowMs);
            && (st.result.Ok? <==>
                 v.Some? && v.value.claims.RefreshClaims? && v.value.claims.sub in s.records
                 && token != "" && s.records[v.value.claims.sub].refreshToken == Some(token))
            && (st.result.Err? ==> st == Step(Err(Unauthorized(AuthMessages.INVALID_REFRESH_TOKEN)), s, []))
  {
  }

  /**
   * A successful refresh rotates: the user named by the token gets a new pair,
   * the new refresh token replaces the stored one, `lastLogin` is now, and the
   * cookie carries the new refresh token.
   */
  lemma RefreshRotates(s: Store, cfg: AuthConfig, token: string, nowMs: nat)
    requires WellFormed(s)
    requires RefreshTokens(s, cfg, token, nowMs).result.Ok?
    ensures var d := Jwt.Decode(token);
            && d.Some? && d.value.claims.RefreshClaims? && d.value.claims.sub in s.records
            && var u := s.records[d.value.claims.sub];
               var st := RefreshTokens(s, cfg, token, nowMs);
               var t := Tokens(AccessToken(cfg, u, nowMs), RefreshToken(cfg, u, nowMs));
               && st.result == Ok(t)
               && st.store == Store(s.ids, s.records[u.id := u.(refreshToken := Some(t.refreshToken), lastLogin := Some(nowMs))])
               && st.effects == [RefreshCookieSet(t.refreshToken)]
  {
    Jwt.VerifiedIsSigned(cfg.refreshSecret, token, nowMs);
  }

  /**
   * Single use: once a refresh token has been used, presenting it again is
   * rejected at any later time, provided the rotation happened in another
   * second than the one the token was issued in.
   */
  lemma RefreshSingleUse(s: Store, cfg: AuthConfig, token: string, nowMs: nat, laterMs: nat)
    requires WellFormed(s)
    requires RefreshTokens(s, cfg, token, nowMs).result.Ok?
    requires Jwt.Decode(token).Some? && Jwt.Decode(token).value.iat != nowMs / 1000
    ensures var s1 := RefreshTokens(s, cfg, token, nowMs).store;
            RefreshTokens(s1, cfg, token, laterMs) == Step(Err(Unauthorized(AuthMessages.INVALID_REFRESH_TOKEN)), s1, [])
  {
    RefreshRotates(s, cfg, token, nowMs);
    var sub := Jwt.Decode(token).value.claims.sub;
    var u := s.records[sub];
    var rotated := RefreshToken(cfg, u, nowMs);
    Jwt.DecodeSign(cfg.refreshSecret, Jwt.RefreshClaims(u.id), nowMs / 1000, cfg.refreshExpiresIn);
    assert rotated != token;
    var s1 := RefreshTokens(s, cfg, token, nowMs).store;
    StoreUpdateWellFormed(s, u.id, SessionUpdate(Some(rotated), nowMs));
    RefreshOutcome(s1, cfg, token, laterMs);
    var v := Jwt.Verify(cfg.refreshSecret, token, laterMs);
    if v.Some? {
      Jwt.VerifiedIsSigned(cfg.refreshSecret, token, laterMs);
      assert s1.records[sub].refreshToken == Some(rotated);
    }
  }

  /**
   * Within one second the rotation is not single use: a refresh in the
   * second of a login hands back the very token it was given, so that token
   * is accepted again.
   */
  lemma SameSecondRefreshReplay(s: Store, cfg: AuthConfig, u: User, nowMs: nat, laterMs: nat)
    requires WellFormed(s) && u.id in s.records
    requires cfg.refreshSecret != "" && cfg.refreshExpiresIn > 0
    requires laterMs / 1000 == nowMs / 1000
    ensures var s1 := Login(s, cfg, u, nowMs).store;
            var t := RefreshToken(cfg, u, nowMs);
            var st := RefreshTokens(s1, cfg, t, laterMs);
            && st.result.Ok? && st.result.value.refreshToken == t
            && RefreshTokens(st.store, cfg, t, laterMs).result.Ok?
  {
    var s1 := Login(s, cfg, u, nowMs).store;
    var t := RefreshToken(cfg, u, nowMs);
    LoginIssuesSession(s, cfg, u, nowMs);
    StoreUpdateWellFormed(s, u.id, SessionUpdate(Some(t), nowMs));
    IssuedTokensVerify(cfg.(accessSecret := cfg.refreshSecret), u, nowMs, laterMs);
    Jwt.SignShape(cfg.refreshSecret, Jwt.RefreshClaims(u.id), nowMs / 1000, cfg.refreshExpiresIn);
    RefreshOutcome(s1, cfg, t, laterMs);
    var st := RefreshTokens(s1, cfg, t, laterMs);
    RefreshRotates(s1, cfg, t, laterMs);
    StoreUpdateWellFormed(s1, u.id, SessionUpdate(Some(t), laterMs));
    RefreshOutcome(st.store, cfg, t, laterMs);
  }

  // ---- logout ----

  /**
   * `logout` succeeds exactly for a stored user: it nulls the stored refresh
   * token, sets `lastLogin`, clears the cookie and runs the blacklist step for
   * the access token and then for the former refresh token if there was one.
   * Any failure is 'Logout failed' and changes nothing.
   */
  lemma LogoutOutcome(s: Store, userId: string, accessToken: string, nowMs: nat)
    requires WellFormed(s)
    ensures var st := Logout(s, userId, accessToken, nowMs);
            && (st.result.Ok? <==> userId in s.records)
            && (st.result.Err? ==> st == Step(Err(InternalServerError("Logout failed")), s, []))
            && (st.result.Ok? ==>
                  var former := s.records[userId].refreshToken;
                  && st.store == Store(s.ids, s.records[userId := s.records[userId].(refreshToken := None, lastLogin := Some(nowMs))])
                  && st.effects[0] == RefreshCookieCleared
                  && st.effects[1] == BlacklistStep(accessToken, Access, BlacklistEntry(accessToken, Access, nowMs))
                  && |st.effects| == (if Truthy(former) then 3 else 2)
                  && (Truthy(former) ==> st.effects[2] == BlacklistStep(former.value, Refresh, BlacklistEntry(former.value, Refresh, nowMs))))
  {
  }

  /** After a logout, no refresh token naming that user is accepted. */
  lemma RefreshRejectedAfterLogout(s: Store, cfg: AuthConfig, userId: string, accessToken: string, nowMs: nat,
                                   token: string, laterMs: nat)
    requires WellFormed(s)
    requires Logout(s, userId, accessToken, nowMs).result.Ok?
    requires Jwt.Decode(token).Some? && Jwt.Decode(token).value.claims == Jwt.RefreshClaims(userId)
    ensures var s1 := Logout(s, userId, accessToken, nowMs).store;
            RefreshTokens(s1, cfg, token, laterMs) == Step(Err(Unauthorized(AuthMessages.INVALID_REFRESH_TOKEN)), s1, [])
  {
    var s1 := Logout(s, userId, accessToken, nowMs).store;
    StoreUpdateWellFormed(s, userId, SessionUpdate(None, nowMs));
    RefreshOutcome(s1, cfg, token, laterMs);
    if Jwt.Verify(cfg.refreshSecret, token, laterMs).Some? {
      Jwt.VerifiedIsSigned(cfg.refreshSecret, token, laterMs);
    }
  }

  /** A second logout succeeds too, finds no refresh token to blacklist, and only moves `lastLogin`. */
  lemma LogoutTwice(s: Store, userId: string, a1: string, a2: string, now1: nat, now2: nat)
    requires WellFormed(s)
    requires Logout(s, userId, a1, now1).result.Ok?
    ensures var s1 := Logout(s, userId, a1, now1).store;
            var st := Logout(s1, userId, a2, now2);
            && userId in s1.records
            && st.result.Ok?
            && st.store == Store(s1.ids, s1.records[userId := s1.records[userId].(lastLogin := Some(now2))])
            && st.effects == [RefreshCookieCleared, BlacklistStep(a2, Access, BlacklistEntry(a2, Access, now2))]
  {
    StoreUpdateWellFormed(s, userId, SessionUpdate(None, now1));
  }

  // ---- addToTokenBlacklist and isTokenInBlacklist ----

  /**
   * For a token the service issued, the blacklist step computes the entry
   * `prefix + token` living for the token's remaining whole seconds, and
   * nothing once the token has expired.
   */
  lemma BlacklistEntryOfIssuedToken(secret: string, claims: Jwt.Claims, iat: nat, expiresIn: nat, kind: TokenType, nowMs: nat)
    ensures var t := Jwt.Sign(secret, claims, iat, expiresIn);
            var exp := iat + expiresIn;
            BlacklistEntry(t, kind, nowMs) ==
              if exp != 0 && exp > nowMs / 1000
              then Some(CacheEntry(BlacklistPrefix(kind) + t, "true", (exp - nowMs / 1000) * 1000))
              else None
  {
    Jwt.DecodeSign(secret, claims, iat, expiresIn);
    Jwt.SignShape(secret, claims, iat, expiresIn);
  }

  /** Text that is not a token is never blacklisted. */
  lemma BlacklistEntryNeedsToken(token: string, kind: TokenType, nowMs: nat)
    requires Jwt.Decode(token).None? || token == ""
    ensures BlacklistEntry(token, kind, nowMs).None?
  {
  }

  /** An access key never equals a refresh key. */
  lemma BlacklistKeysDisjoint(t1: string, t2: string)
    ensures BlacklistPrefix(Access) + t1 != BlacklistPrefix(Refresh) + t2
  {
    assert (BlacklistPrefix(Access) + t1)[3] == 'a';
    assert (BlacklistPrefix(Refresh) + t2)[3] == 'r';
  }

  // ---- register and verifyEmail ----

  /** `register` with an email that is already stored fails with EMAIL_EXISTS and changes nothing. */
  lemma RegisterDuplicate(s: Store, cfg: AuthConfig, dto: RegisterDto, newId: string, salt: nat, nowMs: nat, existing: string)
    requires WellFormed(s) && ObjectId.IsValid(newId) && newId !in s.records
    requires existing in s.records && s.records[existing].email == dto.email
    ensures Register(s, cfg, dto, newId, salt, nowMs) == Step(Err(BadRequest(AuthMessages.EMAIL_EXISTS)), s, [])
  {
    StoreFindOneBySound(s, ByEmail(dto.email));
  }

  /**
   * `register` with a new email appends one unverified user holding the
   * issued 24-hour verification token and the hash of the password, and
   * mails that same token to the email.
   */
  lemma RegisterFresh(s: Store, cfg: AuthConfig, dto: RegisterDto, newId: string, salt: nat, nowMs: nat)
    requires WellFormed(s) && ObjectId.IsValid(newId) && newId !in s.records
    requires forall id :: id in s.records ==> s.records[id].email != dto.email
    ensures var st := Register(s, cfg, dto, newId, salt, nowMs);
            var t := VerificationToken(cfg, dto.email, nowMs);
            && st.result == Ok(AuthMessages.REGISTERED)
            && st.effects == [VerificationMailSent(dto.email, t)]
            && st.store.ids == s.ids + [newId]
            && newId in st.store.records
            && st.store.records == s.records[newId := st.store.records[newId]]
            && var u := st.store.records[newId];
               && u.id == newId && u.name == dto.name && u.email == dto.email
               && !u.isEmailVerified && u.verificationToken == Some(t)
               && UsersService.IsValidPassword(dto.password, u.password) && u.password != dto.password
               && u.refreshToken.None? && u.lastLogin.None?
               && u.resetPasswordToken.None? && u.resetPasswordExpires == Absent
  {
    StoreFindOneBySound(s, ByEmail(dto.email));
  }

  /**
   * `verifyEmail` succeeds exactly when the token verifies with the
   * verification secret, carries an email, and is the verification token
   * stored on the first user with that email; that user then becomes
   * verified and loses the token, and nothing else changes.
   */
  lemma VerifyEmailOutcome(s: Store, cfg: AuthConfig, token: string, nowMs: nat)
    requires WellFormed(s)
    ensures var st := VerifyEmail(s, cfg, token, nowMs);
            var v := Jwt.Verify(cfg.verificationSecret, token, nowMs);
            && (st.result.Err? ==> st == Step(Err(BadRequest(AuthMessages.INVALID_VERIFICATION_TOKEN)), s, []))
            && (st.result.Ok? <==>
                 v.Some? && EmailClaim(v.value.claims).Some?
                 && var u := StoreFindOneBy(s, ByEmail(EmailClaim(v.value.claims).value));
                    u.Some? && u.value.verificationToken == Some(token))
            && (st.result.Ok? ==>
                 var u := StoreFindOneBy(s, ByEmail(EmailClaim(v.value.claims).value)).value;
                 && st.result == Ok(AuthMessages.EMAIL_VERIFIED) && st.effects == []
                 && st.store == Store(s.ids, s.records[u.id := u.(isEmailVerified := true, verificationToken := None)]))
  {
    var v := Jwt.Verify(cfg.verificationSecret, token, nowMs);
    if v.Some? && EmailClaim(v.value.claims).Some? {
      StoreFindOneBySound(s, ByEmail(EmailClaim(v.value.claims).value));
    }
  }

  /** The success path of `verifyEmail`, stated from its three checks. */
  lemma VerifyEmailAccepts(s: Store, cfg: AuthConfig, token: string, nowMs: nat, email: string, u: User)
    requires WellFormed(s)
    requires Jwt.Verify(cfg.verificationSecret, token, nowMs).Some?
    requires EmailClaim(Jwt.Verify(cfg.verificationSecret, token, nowMs).value.claims) == Some(email)
    requires StoreFindOneBy(s, ByEmail(email)) == Some(u) && u.verificationToken == Some(token)
    ensures VerifyEmail(s, cfg, token, nowMs) ==
            Step(Ok(AuthMessages.EMAIL_VERIFIED), Store(s.ids, s.records[u.id := u.(isEmailVerified := true, verificationToken := None)]), [])
  {
    StoreFindOneBySound(s, ByEmail(email));
  }

  /** Registering and then presenting the mailed token within 24 hours verifies the new user. */
  lemma RegisterThenVerify(s: Store, cfg: AuthConfig, dto: RegisterDto, newId: string, salt: nat, nowMs: nat, laterMs: nat)
    requires WellFormed(s) && ObjectId.IsValid(newId) && newId !in s.records
    requires forall id :: id in s.records ==> s.records[id].email != dto.email
    requires cfg.verificationSecret != "" && laterMs / 1000 < nowMs / 1000 + VerificationExpiresIn
    ensures var s1 := Register(s, cfg, dto, newId, salt, nowMs).store;
            var t := VerificationToken(cfg, dto.email, nowMs);
            var st := VerifyEmail(s1, cfg, t, laterMs);
            && newId in s1.records
            && st.result == Ok(AuthMessages.EMAIL_VERIFIED)
            && st.store == Store(s1.ids, s1.records[newId := s1.records[newId].(isEmailVerified := true, verificationToken := None)])
  {
    var t := VerificationToken(cfg, dto.email, nowMs);
    var created := StoreCreate(s, newId, RegistrationDto(dto, t), salt);
    StoreFindOneBySound(s, ByEmail(dto.email));
    assert Register(s, cfg, dto, newId, salt, nowMs).store == created.1;
    FindOneByAfterCreate(s, newId, RegistrationDto(dto, t), salt, ByEmail(dto.email));
    Jwt.VerifySign(cfg.verificationSecret, cfg.verificationSecret, Jwt.VerificationClaims(dto.email), nowMs / 1000, VerificationExpiresIn, laterMs);
    VerifyEmailAccepts(created.1, cfg, t, laterMs, dto.email, created.0);
  }


  /** After a successful verification the same token is refused, whenever it is presented again. */
  lemma VerifyReplayRejected(s: Store, cfg: AuthConfig, token: string, nowMs: nat, laterMs: nat)
    requires WellFormed(s)
    requires VerifyEmail(s, cfg, token, nowMs).result.Ok?
    ensures var s1 := VerifyEmail(s, cfg, token, nowMs).store;
            WellFormed(s1) &&
            VerifyEmail(s1, cfg, token, laterMs) == Step(Err(BadRequest(AuthMessages.INVALID_VERIFICATION_TOKEN)), s1, [])
  {
    VerifyEmailOutcome(s, cfg, token, nowMs);
    var v := Jwt.Verify(cfg.verificationSecret, token, nowMs).value;
    var f := ByEmail(EmailClaim(v.claims).value);
    StoreFindOneBySound(s, f);
    var u := StoreFindOneBy(s, f).value;
    var d := NoChanges.(isEmailVerified := Some(true), verificationToken := Some(None));
    FindOneByAfterUpdate(s, u.id, d, f);
    var s1 := VerifyEmail(s, cfg, token, nowMs).store;
    VerifyEmailOutcome(s1, cfg, token, laterMs);
    var w := Jwt.Verify(cfg.verificationSecret, token, laterMs);
    if w.Some? {
      Jwt.VerifiedIsSigned(cfg.verificationSecret, token, laterMs);
      Jwt.VerifiedIsSigned(cfg.verificationSecret, token, nowMs);
    }
  }

  // ---- changePassword ----

  /**
   * `changePassword`: the errors of `findOne` first, then the current
   * password, then new against confirm; on success only the password
   * changes, to a hash of the new password.
   */
  lemma ChangePasswordOutcome(s: Store, userId: string, dto: ChangePasswordDto, salt: nat)
    requires WellFormed(s)
    ensures var st := ChangePassword(s, userId, dto, salt);
            && (StoreFindOne(s, userId).Err? ==> st == Step(Err(StoreFindOne(s, userId).error), s, []))
            && (userId in s.records && !UsersService.IsValidPassword(dto.currentPassword, s.records[userId].password) ==>
                  st == Step(Err(Unauthorized("Current password is incorrect")), s, []))
            && (userId in s.records && UsersService.IsValidPassword(dto.currentPassword, s.records[userId].password)
                && dto.newPassword != dto.confirmPassword ==>
                  st == Step(Err(BadRequest("Passwords do not match")), s, []))
            && (st.result.Ok? <==>
                  userId in s.records && UsersService.IsValidPassword(dto.currentPassword, s.records[userId].password)
                  && dto.newPassword == dto.confirmPassword)
            && (st.result.Ok? ==>
                  && st.result == Ok(AuthMessages.PASSWORD_CHANGED_SUCCESSFULLY) && st.effects == []
                  && st.store == Store(s.ids, s.records[userId := s.records[userId].(password := Bcrypt.Hash(dto.newPassword, salt))]))
  {
  }

  /**
   * After a password change exactly the passwords with the new password's
   * bcrypt key are accepted for that user; for ASCII passwords shorter than
   * the key, with no zero character, that is exactly the new password.
   */
  lemma ChangePasswordTakesEffect(s: Store, userId: string, dto: ChangePasswordDto, salt: nat, attempt: string)
    requires WellFormed(s)
    requires ChangePassword(s, userId, dto, salt).result.Ok?
    ensures var s1 := ChangePassword(s, userId, dto, salt).store;
            && userId in s1.records
            && (UsersService.IsValidPassword(attempt, s1.records[userId].password) <==> Bcrypt.Key(attempt) == Bcrypt.Key(dto.newPassword))
            && (Text.Ascii(attempt) && Text.Ascii(dto.newPassword) && |attempt| < Bcrypt.KeyLength && |dto.newPassword| < Bcrypt.KeyLength &&
                '\0' !in attempt && '\0' !in dto.newPassword ==>
                  (UsersService.IsValidPassword(attempt, s1.records[userId].password) <==> attempt == dto.newPassword))
  {
    ChangePasswordOutcome(s, userId, dto, salt);
    Bcrypt.CompareHash(attempt, dto.newPassword, salt);
    if Text.Ascii(attempt) && Text.Ascii(dto.newPassword) && |attempt| < Bcrypt.KeyLength && |dto.newPassword| < Bcrypt.KeyLength &&
       '\0' !in attempt && '\0' !in dto.newPassword {
      Bcrypt.ShortAsciiKeysDistinct(attempt, dto.newPassword);
    }
  }

  // ---- forgotPassword and resetPassword ----

  /**
   * `forgotPassword`: an unknown email is 'User not found' and changes
   * nothing; otherwise the first user with that email stores the hash of a
   * new one-hour reset token, never the token itself, with an expiry one
   * hour from now, and the token is mailed.
   */
  lemma ForgotPasswordOutcome(s: Store, cfg: AuthConfig, email: string, salt: nat, nowMs: nat)
    requires WellFormed(s)
    ensures var st := ForgotPassword(s, cfg, email, salt, nowMs);
            var found := StoreFindOneBy(s, ByEmail(email));
            && ((forall id :: id in s.records ==> s.records[id].email != email) <==> found.None?)
            && (found.None? ==> st == Step(Err(BadRequest("User not found")), s, []))
            && (found.Some? ==>
                  var u := found.value;
                  var t := ResetToken(cfg, email, nowMs);
                  && u.id in s.records && u.email == email
                  && st.result == Ok(AuthMessages.RESET_PASSWORD_EMAIL_SENT)
                  && st.effects == [ResetMailSent(email, t)]
                  && st.store == Store(s.ids, s.records[u.id := u.(resetPasswordToken := Some(Bcrypt.Hash(t, salt)),
                                                                   resetPasswordExpires := At(nowMs + 3600000))])
                  && st.store.records[u.id].resetPasswordToken != Some(t))
  {
    StoreFindOneBySound(s, ByEmail(email));
    Bcrypt.HashIsNotPlain(ResetToken(cfg, email, nowMs), salt);
  }

  /** Mismatched passwords are refused before any lookup, by both reset variants. */
  lemma ResetMismatchFirst(s: Store, cfg: AuthConfig, dto: ResetPasswordDto, salt: nat, nowMs: nat)
    requires WellFormed(s) && dto.password != dto.confirmPassword
    ensures ResetPassword(s, dto, salt, nowMs) == Step(Err(BadRequest("Passwords do not match")), s, [])
    ensures ResetPasswordByHash(s, cfg, dto, salt, nowMs) == Step(Err(BadRequest("Passwords do not match")), s, [])
  {
  }

  /**
   * `resetPassword` as written, with matching passwords: no stored token
   * equal to the presented one is 'Invalid or expired reset token'; an expiry
   * strictly before now, or a null expiry once the clock is past 0, is 'Reset
   * token has expired'; otherwise, and always when no expiry was ever
   * written, the password is replaced by a hash of the new one and both
   * reset fields are set to null.
   */
  lemma ResetPasswordOutcome(s: Store, dto: ResetPasswordDto, salt: nat, nowMs: nat)
    requires WellFormed(s) && dto.password == dto.confirmPassword
    ensures var st := ResetPassword(s, dto, salt, nowMs);
            var found := StoreFindOneBy(s, ByResetToken(dto.token));
            && ((forall id :: id in s.records ==> s.records[id].resetPasswordToken != Some(dto.token)) <==> found.None?)
            && (found.None? ==> st == Step(Err(BadRequest("Invalid or expired reset token")), s, []))
            && var expired := found.Some? &&
                 match found.value.resetPasswordExpires
                 case Absent => false
                 case Null => 0 < nowMs
                 case At(t) => t < nowMs;
            && (found.Some? && expired ==> st == Step(Err(BadRequest("Reset token has expired")), s, []))
            && (found.Some? && !expired ==>
                  var u := found.value;
                  && u.id in s.records && u.resetPasswordToken == Some(dto.token)
                  && st.result == Ok(AuthMessages.PASSWORD_RESET_SUCCESSFULLY) && st.effects == []
                  && st.store == Store(s.ids, s.records[u.id := u.(password := Bcrypt.Hash(dto.password, salt),
                                                                   resetPasswordToken := None, resetPasswordExpires := Null)]))
  {
    StoreFindOneBySound(s, ByResetToken(dto.token));
  }

  /**
   * A reset token written without an expiry never expires: a user created
   * and then given only a reset token through `update` resets the password
   * with that token at any time.
   */
  lemma PatchedResetTokenNeverExpires(s: Store, id: string, dto: CreateUserDto, salt: nat, t: string,
                                      password: string, salt2: nat, nowMs: nat)
    requires WellFormed(s) && ObjectId.IsValid(id) && id !in s.records
    requires forall k :: k in s.records ==> s.records[k].resetPasswordToken != Some(t)
    ensures var s1 := StoreCreate(s, id, dto, salt).1;
            var s2 := StoreUpdate(s1, id, NoChanges.(resetPasswordToken := Some(Some(t)))).1;
            && WellFormed(s2)
            && ResetPassword(s2, ResetPasswordDto(t, password, password), salt2, nowMs).result
               == Ok(AuthMessages.PASSWORD_RESET_SUCCESSFULLY)
  {
    var s1 := StoreCreate(s, id, dto, salt).1;
    var d := NoChanges.(resetPasswordToken := Some(Some(t)));
    var s2 := StoreUpdate(s1, id, d).1;
    StoreCreateWellFormed(s, id, dto, salt);
    StoreUpdateWellFormed(s1, id, d);
    StoreFindOneBySound(s2, ByResetToken(t));
    assert Satisfies(s2.records[id], ByResetToken(t));
    var u := StoreFindOneBy(s2, ByResetToken(t)).value;
    assert u.id == id;
    assert u.resetPasswordExpires == Absent;
    ResetPasswordOutcome(s2, ResetPasswordDto(t, password, password), salt2, nowMs);
  }

  // ---- The stored reset tokens are hashes ----

  predicate HashLike(h: string) {
    |h| > 0 && h[0] == '$'
  }

  /** Every stored reset token is a bcrypt hash. */
  ghost predicate ResetTokensHashed(s: Store) {
    forall id :: id in s.records && s.records[id].resetPasswordToken.Some? ==> HashLike(s.records[id].resetPasswordToken.value)
  }

  /** An update keeps the invariant when the reset token it writes, if any, is a hash. */
  lemma UpdateKeepsHashed(s: Store, id: string, d: UpdateUserDto)
    requires ResetTokensHashed(s)
    requires d.resetPasswordToken.Some? && d.resetPasswordToken.value.Some? ==> HashLike(d.resetPasswordToken.value.value)
    ensures ResetTokensHashed(StoreUpdate(s, id, d).1)
  {
  }

  /** The session flows never write a reset token. */
  lemma SessionFlowsKeepHashed(s: Store, cfg: AuthConfig, u: User, userId: string, token: string, nowMs: nat)
    requires ResetTokensHashed(s)
    ensures ResetTokensHashed(Login(s, cfg, u, nowMs).store)
    ensures ResetTokensHashed(Logout(s, userId, token, nowMs).store)
    ensures ResetTokensHashed(RefreshTokens(s, cfg, token, nowMs).store)
  {
    UpdateKeepsHashed(s, u.id, SessionUpdate(Some(RefreshToken(cfg, u, nowMs)), nowMs));
    UpdateKeepsHashed(s, userId, SessionUpdate(None, nowMs));
    RefreshKeepsHashed(s, cfg, token, nowMs);
  }

  lemma RefreshKeepsHashed(s: Store, cfg: AuthConfig, token: string, nowMs: nat)
    requires ResetTokensHashed(s)
    ensures ResetTokensHashed(RefreshTokens(s, cfg, token, nowMs).store)
  {
    var v := Jwt.Verify(cfg.refreshSecret, token, nowMs);
    if v.Some? && v.value.claims.RefreshClaims? && v.value.claims.sub in s.records {
      var w := s.records[v.value.claims.sub];
      UpdateKeepsHashed(s, w.id, SessionUpdate(Some(RefreshToken(cfg, w, nowMs)), nowMs));
    }
  }

  /** Registration stores no reset token. */
  lemma RegisterKeepsHashed(s: Store, cfg: AuthConfig, dto: RegisterDto, newId: string, salt: nat, nowMs: nat)
    requires WellFormed(s) && ResetTokensHashed(s) && ObjectId.IsValid(newId) && newId !in s.records
    ensures ResetTokensHashed(Register(s, cfg, dto, newId, salt, nowMs).store)
  {
  }

  /** Verification and password changes leave the reset fields alone. */
  lemma VerifyAndChangeKeepHashed(s: Store, cfg: AuthConfig, token: string, userId: string, cp: ChangePasswordDto, salt: nat, nowMs: nat)
    requires WellFormed(s) && ResetTokensHashed(s)
    ensures ResetTokensHashed(VerifyEmail(s, cfg, token, nowMs).store)
    ensures ResetTokensHashed(ChangePassword(s, userId, cp, salt).store)
  {
    var v := Jwt.Verify(cfg.verificationSecret, token, nowMs);
    if v.Some? && EmailClaim(v.value.claims).Some? {
      var found := StoreFindOneBy(s, ByEmail(EmailClaim(v.value.claims).value));
      if found.Some? {
        UpdateKeepsHashed(s, found.value.id, NoChanges.(isEmailVerified := Some(true), verificationToken := Some(None)));
      }
    }
    UpdateKeepsHashed(s, userId, NoChanges.(password := Some(Bcrypt.Hash(cp.newPassword, salt))));
  }

  /** `forgotPassword` stores a hash; it never stores the token it mails. */
  lemma ForgotKeepsHashed(s: Store, cfg: AuthConfig, email: string, salt: nat, nowMs: nat)
    requires WellFormed(s) && ResetTokensHashed(s)
    ensures ResetTokensHashed(ForgotPassword(s, cfg, email, salt, nowMs).store)
  {
    var found := StoreFindOneBy(s, ByEmail(email));
    if found.Some? {
      var t := ResetToken(cfg, found.value.email, nowMs);
      Bcrypt.HashStart(t, salt);
      UpdateKeepsHashed(s, found.value.id, ResetRequestUpdate(Bcrypt.Hash(t, salt), nowMs));
    }
  }

  /** Both reset variants only clear the reset token. */
  lemma ResetKeepsHashed(s: Store, cfg: AuthConfig, rp: ResetPasswordDto, salt: nat, nowMs: nat)
    requires WellFormed(s) && ResetTokensHashed(s)
    ensures ResetTokensHashed(ResetPassword(s, rp, salt, nowMs).store)
    ensures ResetTokensHashed(ResetPasswordByHash(s, cfg, rp, salt, nowMs).store)
  {
    var byToken := StoreFindOneBy(s, ByResetToken(rp.token));
    if byToken.Some? {
      FinishResetKeepsHashed(s, byToken.value, rp.password, salt, nowMs);
    }
    var v := Jwt.Verify(cfg.resetSecret, rp.token, nowMs);
    if v.Some? && v.value.claims.ResetClaims? {
      var byEmail := StoreFindOneBy(s, ByEmail(v.value.claims.email));
      if byEmail.Some? {
        FinishResetKeepsHashed(s, byEmail.value, rp.password, salt, nowMs);
      }
    }
  }

  lemma FinishResetKeepsHashed(s: Store, u: User, password: string, salt: nat, nowMs: nat)
    requires ResetTokensHashed(s)
    ensures ResetTokensHashed(FinishReset(s, u, password, salt, nowMs).store)
  {
    UpdateKeepsHashed(s, u.id, ResetDoneUpdate(Bcrypt.Hash(password, salt)));
  }

  // ---- Finding: the mailed reset token never opens resetPassword ----

  /**
   * As written, `resetPassword` looks the user up by the raw token, but only
   * hashes are stored: the token that `forgotPassword` mails is refused
   * whatever the passwords and whenever it is presented.
   */
  lemma MailedResetTokenRefused(s: Store, cfg: AuthConfig, email: string, salt: nat, nowMs: nat,
                                password: string, salt2: nat, laterMs: nat)
    requires WellFormed(s) && ResetTokensHashed(s)
    requires ForgotPassword(s, cfg, email, salt, nowMs).result.Ok?
    ensures var st := ForgotPassword(s, cfg, email, salt, nowMs);
            && |st.effects| == 1 && st.effects[0].ResetMailSent?
            && WellFormed(st.store)
            && ResetPassword(st.store, ResetPasswordDto(st.effects[0].token, password, password), salt2, laterMs)
               == Step(Err(BadRequest("Invalid or expired reset token")), st.store, [])
  {
    ForgotPasswordOutcome(s, cfg, email, salt, nowMs);
    var u := StoreFindOneBy(s, ByEmail(email)).value;
    var t := ResetToken(cfg, email, nowMs);
    StoreUpdateWellFormed(s, u.id, ResetRequestUpdate(Bcrypt.Hash(t, salt), nowMs));
    ForgotKeepsHashed(s, cfg, email, salt, nowMs);
    Jwt.SignShape(cfg.resetSecret, Jwt.ResetClaims(email), nowMs / 1000, ResetExpiresIn);
    UnhashedTokenRefused(ForgotPassword(s, cfg, email, salt, nowMs).store, t, password, salt2, laterMs);
  }

  /** A token that is not hash-like finds no user in a store whose reset tokens are all hashes. */
  lemma UnhashedTokenRefused(s: Store, t: string, password: string, salt: nat, nowMs: nat)
    requires WellFormed(s) && ResetTokensHashed(s) && !HashLike(t)
    ensures ResetPassword(s, ResetPasswordDto(t, password, password), salt, nowMs)
            == Step(Err(BadRequest("Invalid or expired reset token")), s, [])
  {
    StoreFindOneBySound(s, ByResetToken(t));
  }

  /** The success path of the corrected reset, stated from its checks. */
  lemma ResetByHashAccepts(s: Store, cfg: AuthConfig, dto: ResetPasswordDto, salt: nat, nowMs: nat, email: string, u: User)
    requires WellFormed(s) && dto.password == dto.confirmPassword
    requires Jwt.Verify(cfg.resetSecret, dto.token, nowMs).Some?
    requires Jwt.Verify(cfg.resetSecret, dto.token, nowMs).value.claims == Jwt.ResetClaims(email)
    requires StoreFindOneBy(s, ByEmail(email)) == Some(u)
    requires u.resetPasswordToken.Some? && UsersService.IsValidPassword(dto.token, u.resetPasswordToken.value)
    requires !ResetExpired(u.resetPasswordExpires, nowMs)
    ensures ResetPasswordByHash(s, cfg, dto, salt, nowMs) ==
            Step(Ok(AuthMessages.PASSWORD_RESET_SUCCESSFULLY),
                 Store(s.ids, s.records[u.id := u.(password := Bcrypt.Hash(dto.password, salt),
                                                   resetPasswordToken := None, resetPasswordExpires := Null)]), [])
  {
    StoreFindOneBySound(s, ByEmail(email));
  }

  /**
   * The corrected reset works: the token mailed by `forgotPassword`,
   * presented within its hour, sets the new password and clears both reset
   * fields of that user.
   */
  lemma ForgotThenResetByHash(s: Store, cfg: AuthConfig, email: string, salt: nat, nowMs: nat,
                              password: string, salt2: nat, laterMs: nat)
    requires WellFormed(s) && cfg.resetSecret != ""
    requires ForgotPassword(s, cfg, email, salt, nowMs).result.Ok?
    requires laterMs / 1000 < nowMs / 1000 + ResetExpiresIn
    ensures var st := ForgotPassword(s, cfg, email, salt, nowMs);
            var u := StoreFindOneBy(s, ByEmail(email)).value;
            && |st.effects| == 1 && st.effects[0].ResetMailSent?
            && WellFormed(st.store)
            && var r := ResetPasswordByHash(st.store, cfg, ResetPasswordDto(st.effects[0].token, password, password), salt2, laterMs);
               && r.result == Ok(AuthMessages.PASSWORD_RESET_SUCCESSFULLY)
               && r.store == Store(s.ids, s.records[u.id := u.(password := Bcrypt.Hash(password, salt2),
                                                               resetPasswordToken := None, resetPasswordExpires := Null)])
  {
    ForgotPasswordOutcome(s, cfg, email, salt, nowMs);
    var u := StoreFindOneBy(s, ByEmail(email)).value;
    var t := ResetToken(cfg, email, nowMs);
    MailedTokenUsable(cfg, email, salt, nowMs, laterMs);
    ResetByHashAfterRequest(s, cfg, u, email, t, Bcrypt.Hash(t, salt), nowMs, password, salt2, laterMs);
  }

  /** The mailed reset token verifies within its hour, matches its stored hash, and the hour is the stored window. */
  lemma MailedTokenUsable(cfg: AuthConfig, email: string, salt: nat, nowMs: nat, laterMs: nat)
    requires cfg.resetSecret != ""
    requires laterMs / 1000 < nowMs / 1000 + ResetExpiresIn
    ensures var t := ResetToken(cfg, email, nowMs);
            && Jwt.Verify(cfg.resetSecret, t, laterMs).Some?
            && Jwt.Verify(cfg.resetSecret, t, laterMs).value.claims == Jwt.ResetClaims(email)
            && UsersService.IsValidPassword(t, Bcrypt.Hash(t, salt))
            && laterMs <= nowMs + ResetWindowMs
  {
    var t := ResetToken(cfg, email, nowMs);
    Jwt.VerifySign(cfg.resetSecret, cfg.resetSecret, Jwt.ResetClaims(email), nowMs / 1000, ResetExpiresIn, laterMs);
    Bcrypt.CompareHash(t, t, salt);
    WithinResetWindow(nowMs, laterMs);
  }

  /** The corrected reset on the store as `forgotPassword` leaves it for user `u`, token `t` and hash `h`. */
  lemma ResetByHashAfterRequest(s: Store, cfg: AuthConfig, u: User, email: string, t: string, h: string, nowMs: nat,
                                password: string, salt2: nat, laterMs: nat)
    requires WellFormed(s)
    requires StoreFindOneBy(s, ByEmail(email)) == Some(u) && u.id in s.records && u.email == email
    requires Jwt.Verify(cfg.resetSecret, t, laterMs).Some? && Jwt.Verify(cfg.resetSecret, t, laterMs).value.claims == Jwt.ResetClaims(email)
    requires UsersService.IsValidPassword(t, h)
    requires laterMs <= nowMs + ResetWindowMs
    ensures var s1 := Store(s.ids, s.records[u.id := u.(resetPasswordToken := Some(h), resetPasswordExpires := At(nowMs + ResetWindowMs))]);
            && WellFormed(s1)
            && ResetPasswordByHash(s1, cfg, ResetPasswordDto(t, password, password), salt2, laterMs) ==
               Step(Ok(AuthMessages.PASSWORD_RESET_SUCCESSFULLY),
                    Store(s.ids, s.records[u.id := u.(password := Bcrypt.Hash(password, salt2),
                                                      resetPasswordToken := None, resetPasswordExpires := Null)]), [])
  {
    var u1 := u.(resetPasswordToken := Some(h), resetPasswordExpires := At(nowMs + ResetWindowMs));
    AfterResetRequest(s, u, email, h, nowMs);
    RequestedResetAccepts(Store(s.ids, s.records[u.id := u1]), cfg, ResetPasswordDto(t, password, password), salt2, laterMs,
                          email, u1, h, nowMs + ResetWindowMs);
    FinishOverRequest(s, u, h, nowMs + ResetWindowMs, Bcrypt.Hash(password, salt2));
  }

  /**
   * bcrypt reads only 72 bytes of a reset token, and two reset tokens for
   * the same email of at least 12 characters agree on them: the hash stored
   * by a later `forgotPassword` also matches a token mailed earlier, so the
   * corrected reset accepts any earlier token that still verifies.
   */
  lemma EarlierResetTokenMatches(cfg: AuthConfig, email: string, earlierMs: nat, laterMs: nat, salt: nat)
    requires |email| >= 12
    ensures UsersService.IsValidPassword(ResetToken(cfg, email, earlierMs),
                                         UsersService.HashPassword(ResetToken(cfg, email, laterMs), salt))
  {
    ResetTokenKey(cfg, email, earlierMs);
    ResetTokenKey(cfg, email, laterMs);
    Bcrypt.CompareHash(ResetToken(cfg, email, earlierMs), ResetToken(cfg, email, laterMs), salt);
  }

  /** The bcrypt key of a reset token is that of its tag and encoded email alone, once the email has 12 characters. */
  lemma ResetTokenKey(cfg: AuthConfig, email: string, nowMs: nat)
    requires |email| >= 12
    ensures Bcrypt.Key(ResetToken(cfg, email, nowMs)) == Bcrypt.Key("P" + "." + Hex.EncodeString(email))
  {
    SignedResetKey(cfg.resetSecret, email, nowMs / 1000, ResetExpiresIn);
  }

  lemma SignedResetKey(secret: string, email: string, iat: nat, expiresIn: nat)
    requires |email| >= 12
    ensures Bcrypt.Key(Jwt.Sign(secret, Jwt.ResetClaims(email), iat, expiresIn)) == Bcrypt.Key("P" + "." + Hex.EncodeString(email))
  {
    Jwt.ResetTokenPrefix(secret, email, iat, expiresIn);
    ResetHeadBytes(email);
    Bcrypt.LongTextKey("P" + "." + Hex.EncodeString(email),
                       "." + Text.Join([Hex.EncodeNat(iat), Hex.EncodeNat(iat + expiresIn), Hex.EncodeString(secret)], '.'));
  }

  /** The tag and encoded email of a reset token are ASCII, one byte each: at least 72 bytes for 12 characters. */
  lemma ResetHeadBytes(email: string)
    requires |email| >= 12
    ensures |Text.Utf8Encode("P" + "." + Hex.EncodeString(email))| >= Bcrypt.KeyLength
  {
    var e := Hex.EncodeString(email);
    var head := "P" + "." + e;
    assert Text.Ascii(head) by {
      forall i | 2 <= i < |head| ensures head[i] as int < 0x80 {
        assert head[i] == e[i - 2];
      }
    }
    Text.AsciiUtf8(head);
  }

  /** `ResetByHashAccepts` for a user holding the presented token's hash and an expiry not yet past. */
  lemma RequestedResetAccepts(s1: Store, cfg: AuthConfig, dto: ResetPasswordDto, salt: nat, laterMs: nat,
                              email: string, u1: User, h: string, expires: nat)
    requires WellFormed(s1) && dto.password == dto.confirmPassword
    requires Jwt.Verify(cfg.resetSecret, dto.token, laterMs).Some?
    requires Jwt.Verify(cfg.resetSecret, dto.token, laterMs).value.claims == Jwt.ResetClaims(email)
    requires StoreFindOneBy(s1, ByEmail(email)) == Some(u1)
    requires u1.resetPasswordToken == Some(h) && UsersService.IsValidPassword(dto.token, h)
    requires u1.resetPasswordExpires == At(expires) && laterMs <= expires
    ensures ResetPasswordByHash(s1, cfg, dto, salt, laterMs) ==
            Step(Ok(AuthMessages.PASSWORD_RESET_SUCCESSFULLY),
                 Store(s1.ids, s1.records[u1.id := u1.(password := Bcrypt.Hash(dto.password, salt),
                                                       resetPasswordToken := None, resetPasswordExpires := Null)]), [])
  {
    ResetByHashAccepts(s1, cfg, dto, salt, laterMs, email, u1);
  }

  /** Finishing a reset on the requested store gives the old store with only the password changed and the reset fields cleared. */
  lemma FinishOverRequest(s: Store, u: User, h: string, expires: nat, hashed: string)
    ensures var u1 := u.(resetPasswordToken := Some(h), resetPasswordExpires := At(expires));
            var s1 := Store(s.ids, s.records[u.id := u1]);
            Store(s1.ids, s1.records[u1.id := u1.(password := hashed, resetPasswordToken := None, resetPasswordExpires := Null)])
            == Store(s.ids, s.records[u.id := u.(password := hashed, resetPasswordToken := None, resetPasswordExpires := Null)])
  {
    var u1 := u.(resetPasswordToken := Some(h), resetPasswordExpires := At(expires));
    var done := u.(password := hashed, resetPasswordToken := None, resetPasswordExpires := Null);
    assert u1.(password := hashed, resetPasswordToken := None, resetPasswordExpires := Null) == done;
    assert s.records[u.id := u1][u.id := done] == s.records[u.id := done];
  }

  /** The store `forgotPassword` leaves: the user, found by email as before, now holds the hash and the expiry. */
  lemma AfterResetRequest(s: Store, u: User, email: string, h: string, nowMs: nat)
    requires WellFormed(s)
    requires StoreFindOneBy(s, ByEmail(email)) == Some(u) && u.id in s.records && u.email == email
    ensures var u1 := u.(resetPasswordToken := Some(h), resetPasswordExpires := At(nowMs + ResetWindowMs));
            var s1 := Store(s.ids, s.records[u.id := u1]);
            && WellFormed(s1)
            && StoreFindOneBy(s1, ByEmail(email)) == Some(u1)
  {
    var d := ResetRequestUpdate(h, nowMs);
    StoreFindOneBySound(s, ByEmail(email));
    FindOneByAfterUpdate(s, u.id, d, ByEmail(email));
    assert Apply(u, d) == u.(resetPasswordToken := Some(h), resetPasswordExpires := At(nowMs + ResetWindowMs));
  }

  /** A second still inside the token's hour is inside the stored hour too. */
  lemma WithinResetWindow(nowMs: nat, laterMs: nat)
    requires laterMs / 1000 < nowMs / 1000 + ResetExpiresIn
    ensures laterMs <= nowMs + ResetWindowMs
  {
    assert laterMs < (laterMs / 1000) * 1000 + 1000;
    assert (nowMs / 1000) * 1000 <= nowMs;
  }


  /** After a corrected reset the same token is refused. */
  lemma ResetByHashSingleUse(s: Store, cfg: AuthConfig, dto: ResetPasswordDto, salt: nat, nowMs: nat, salt2: nat, laterMs: nat)
    requires WellFormed(s)
    requires ResetPasswordByHash(s, cfg, dto, salt, nowMs).result.Ok?
    ensures var s1 := ResetPasswordByHash(s, cfg, dto, salt, nowMs).store;
            WellFormed(s1) &&
            ResetPasswordByHash(s1, cfg, dto, salt2, laterMs) == Step(Err(BadRequest("Invalid or expired reset token")), s1, [])
  {
    var v := Jwt.Verify(cfg.resetSecret, dto.token, nowMs).value;
    var f := ByEmail(v.claims.email);
    StoreFindOneBySound(s, f);
    var u := StoreFindOneBy(s, f).value;
    var d := ResetDoneUpdate(Bcrypt.Hash(dto.password, salt));
    FindOneByAfterUpdate(s, u.id, d, f);
    var w := Jwt.Verify(cfg.resetSecret, dto.token, laterMs);
    if w.Some? {
      Jwt.VerifiedIsSigned(cfg.resetSecret, dto.token, laterMs);
      Jwt.VerifiedIsSigned(cfg.resetSecret, dto.token, nowMs);
    }
  }
}
