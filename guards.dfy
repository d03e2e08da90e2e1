/**
 * src/auth/token-blacklist.guard.ts: the Bearer header extraction of
 * section 2.1 of RFC 6750 and the revocation check.
 */
module TokenBlacklistGuard {
  import opened Wrappers
  import opened Http
  import opened Text
  import AuthFlows

  /**
   * `extractTokenFromHeader`: split the Authorization header at spaces; the
   * second part is the token when the first part is exactly "Bearer".
   */
  function ExtractTokenFromHeader(authorization: Option<string>): (t: Option<string>)
    ensures authorization.None? ==> t.None?
    ensures t.Some? ==> ' ' !in t.value && |Split(authorization.value, ' ')| >= 2
  {
    match authorization
    case None => None
    case Some(h) =>
      var parts := Split(h, ' ');
      if parts[0] == "Bearer" && |parts| >= 2 then Some(parts[1]) else None
  }

  /** A header `Bearer <t>`, possibly followed by more space-separated text, yields `t`. */
  lemma ExtractBearer(t: string, rest: string)
    requires ' ' !in t
    ensures ExtractTokenFromHeader(Some("Bearer " + t)) == Some(t)
    ensures ExtractTokenFromHeader(Some("Bearer " + t + " " + rest)) == Some(t)
  {
    var b := "Bearer";
    assert "Bearer " + t == b + [' '] + t;
    IndexOfFirst(b, ' ', t);
    SplitHead("Bearer " + t, ' ');
    SplitSecond("Bearer " + t, ' ');
    assert ("Bearer " + t)[7..] == t;
    IndexOfAbsent(t, ' ');
    var h := "Bearer " + t + " " + rest;
    assert h == b + [' '] + (t + " " + rest);
    IndexOfFirst(b, ' ', t + " " + rest);
    SplitHead(h, ' ');
    SplitSecond(h, ' ');
    assert h[7..] == t + [' '] + rest;
    IndexOfFirst(t, ' ', rest);
    assert (t + [' '] + rest)[..|t|] == t;
  }

  /**
   * Whatever the header yields begins it as `Bearer <t>` with no space in `t`,
   * followed by nothing or by a space; a missing header yields nothing.
   */
  lemma ExtractSound(authorization: Option<string>)
    ensures authorization.None? ==> ExtractTokenFromHeader(authorization).None?
    ensures ExtractTokenFromHeader(authorization).Some? ==>
            var h := authorization.value;
            var t := ExtractTokenFromHeader(authorization).value;
            ' ' !in t && StartsWith(h, "Bearer " + t) && (|h| == 7 + |t| || h[7 + |t|] == ' ')
  {
    if authorization.Some? && ExtractTokenFromHeader(authorization).Some? {
      var h := authorization.value;
      var i := IndexOf(h, ' ');
      SplitHead(h, ' ');
      SplitSecond(h, ' ');
      assert h[..i] == "Bearer";
      var tail := h[i + 1..];
      var j := IndexOf(tail, ' ');
      var t := tail[..j];
      assert h[..7 + |t|] == "Bearer " + t;
      if j < |tail| {
        assert h[7 + |t|] == tail[j];
      }
    }
  }

  /**
   * `canActivate`, with the answer of `isTokenInBlacklist(token, 'access')`
   * as the parameter `blacklisted`.
   */
  function CanActivate(authorization: Option<string>, blacklisted: string -> bool): (r: Result<bool, HttpError>)
    ensures r != Ok(false)
    ensures r.Err? ==> r == Err(Unauthorized("Token has been revoked")) && ExtractTokenFromHeader(authorization).Some?
  {
    var accessToken := ExtractTokenFromHeader(authorization);
    if accessToken.None? || accessToken.value == "" then Ok(true)
    else if blacklisted(accessToken.value) then Err(Unauthorized("Token has been revoked"))
    else Ok(true)
  }

  /**
   * `canActivate` lets a request without a token through without asking the
   * blacklist, refuses a blacklisted token as revoked, and lets everything
   * else through.
   */
  lemma CanActivateOutcome(authorization: Option<string>, blacklisted: string -> bool, other: string -> bool)
    ensures var t := ExtractTokenFromHeader(authorization);
            && (t.None? || t.value == "" ==>
                  CanActivate(authorization, blacklisted) == Ok(true) == CanActivate(authorization, other))
            && (t.Some? && t.value != "" ==>
                  CanActivate(authorization, blacklisted) ==
                    if blacklisted(t.value) then Err(Unauthorized("Token has been revoked")) else Ok(true))
            && CanActivate(authorization, blacklisted) != Ok(false)
  {
  }

  /** The blacklist as the service answers it. */
  function ServiceBlacklist(): string -> bool {
    t => AuthFlows.IsTokenInBlacklist(t, AuthFlows.Access)
  }

  /** With the service's blacklist, which never answers yes, `canActivate` always passes. */
  lemma NeverRevoked(authorization: Option<string>)
    ensures CanActivate(authorization, ServiceBlacklist()) == Ok(true)
  {
  }
}

/** src/auth/passport/jwt.strategy.ts: the access-token strategy behind `AuthGuard('jwt')`. */
module JwtStrategy {
  import opened Wrappers
  import opened Http
  import Jwt
  import AuthFlows
  import TokenBlacklistGuard
  import Users

  /** The object `validate` returns; a field the payload lacks is undefined. */
  datatype RequestUser = RequestUser(id: Option<string>, name: Option<string>, email: Option<string>, role: Option<string>)

  /** `validate`: the `_id`, `name`, `email` and `role` of the payload. */
  function Validate(p: Jwt.Payload): (r: RequestUser)
    ensures r.id.Some? <==> p.claims.AccessClaims?
    ensures r.email.Some? <==> !p.claims.RefreshClaims?
    ensures r.role.Some? ==> p.claims.AccessClaims? && r.role == p.claims.role
  {
    match p.claims
    case AccessClaims(id, email, role, name) => RequestUser(Some(id), Some(name), Some(email), role)
    case RefreshClaims(_) => RequestUser(None, None, None, None)
    case VerificationClaims(email) => RequestUser(None, None, Some(email), None)
    case ResetClaims(email) => RequestUser(None, None, Some(email), None)
  }

  /**
   * The strategy: a Bearer token from the header, verified with the access
   * secret and with expiry checked (`ignoreExpiration: false`), then `validate`.
   */
  function Authenticate(cfg: AuthFlows.AuthConfig, authorization: Option<string>, nowMs: nat): (r: Result<RequestUser, HttpError>)
    ensures authorization.None? ==> r.Err?
    ensures r.Err? ==> r == Err(Unauthorized("Unauthorized"))
    ensures r.Ok? ==> var t := TokenBlacklistGuard.ExtractTokenFromHeader(authorization);
                      t.Some? && Jwt.Verify(cfg.accessSecret, t.value, nowMs).Some?
  {
    match TokenBlacklistGuard.ExtractTokenFromHeader(authorization)
    case None => Err(Unauthorized("Unauthorized"))
    case Some(token) =>
      match Jwt.Verify(cfg.accessSecret, token, nowMs)
      case None => Err(Unauthorized("Unauthorized"))
      case Some(p) => Ok(Validate(p))
  }

  /** Round trip: `validate` of the payload `generateAccessToken` signs gives back the user's fields. */
  lemma ValidateAccessPayload(u: Users.User, iat: nat, exp: nat)
    ensures Validate(Jwt.Payload(AuthFlows.AccessClaimsOf(u), iat, exp)) == RequestUser(Some(u.id), Some(u.name), Some(u.email), u.role)
  {
  }

  /**
   * An access token the service issued authenticates its user, with the
   * user's id, name, email and role, exactly until it expires.
   */
  lemma AccessTokenAuthenticates(cfg: AuthFlows.AuthConfig, u: Users.User, nowMs: nat, laterMs: nat)
    requires cfg.accessSecret != ""
    ensures Authenticate(cfg, Some("Bearer " + AuthFlows.AccessToken(cfg, u, nowMs)), laterMs) ==
            if laterMs / 1000 < nowMs / 1000 + cfg.accessExpiresIn
            then Ok(RequestUser(Some(u.id), Some(u.name), Some(u.email), u.role))
            else Err(Unauthorized("Unauthorized"))
  {
    var iat := nowMs / 1000;
    Jwt.SignShape(cfg.accessSecret, AuthFlows.AccessClaimsOf(u), iat, cfg.accessExpiresIn);
    TokenBlacklistGuard.ExtractBearer(AuthFlows.AccessToken(cfg, u, nowMs), "");
    Jwt.VerifySign(cfg.accessSecret, cfg.accessSecret, AuthFlows.AccessClaimsOf(u), iat, cfg.accessExpiresIn, laterMs);
  }

  /** Whatever authenticates is signed with the access secret and not yet expired. */
  lemma AuthenticatedIsUnexpired(cfg: AuthFlows.AuthConfig, authorization: Option<string>, nowMs: nat)
    requires Authenticate(cfg, authorization, nowMs).Ok?
    ensures var t := TokenBlacklistGuard.ExtractTokenFromHeader(authorization);
            && t.Some? && Jwt.Decode(t.value).Some?
            && nowMs / 1000 < Jwt.Decode(t.value).value.exp
            && Authenticate(cfg, authorization, nowMs) == Ok(Validate(Jwt.Decode(t.value).value))
  {
    var t := TokenBlacklistGuard.ExtractTokenFromHeader(authorization).value;
    Jwt.VerifiedIsSigned(cfg.accessSecret, t, nowMs);
  }

  /** With distinct secrets, refresh, verification and reset tokens never authenticate. */
  lemma OtherKindsRejected(cfg: AuthFlows.AuthConfig, u: Users.User, email: string, nowMs: nat, laterMs: nat)
    requires AuthFlows.DistinctSecrets(cfg)
    ensures Authenticate(cfg, Some("Bearer " + AuthFlows.RefreshToken(cfg, u, nowMs)), laterMs).Err?
    ensures Authenticate(cfg, Some("Bearer " + AuthFlows.VerificationToken(cfg, email, nowMs)), laterMs).Err?
    ensures Authenticate(cfg, Some("Bearer " + AuthFlows.ResetToken(cfg, email, nowMs)), laterMs).Err?
  {
    var iat := nowMs / 1000;
    Jwt.VerifySign(cfg.accessSecret, cfg.refreshSecret, Jwt.RefreshClaims(u.id), iat, cfg.refreshExpiresIn, laterMs);
    Jwt.VerifySign(cfg.accessSecret, cfg.verificationSecret, Jwt.VerificationClaims(email), iat, AuthFlows.VerificationExpiresIn, laterMs);
    Jwt.VerifySign(cfg.accessSecret, cfg.resetSecret, Jwt.ResetClaims(email), iat, AuthFlows.ResetExpiresIn, laterMs);
    Jwt.SignShape(cfg.refreshSecret, Jwt.RefreshClaims(u.id), iat, cfg.refreshExpiresIn);
    Jwt.SignShape(cfg.verificationSecret, Jwt.VerificationClaims(email), iat, AuthFlows.VerificationExpiresIn);
    Jwt.SignShape(cfg.resetSecret, Jwt.ResetClaims(email), iat, AuthFlows.ResetExpiresIn);
    TokenBlacklistGuard.ExtractBearer(AuthFlows.RefreshToken(cfg, u, nowMs), "");
    TokenBlacklistGuard.ExtractBearer(AuthFlows.VerificationToken(cfg, email, nowMs), "");
    TokenBlacklistGuard.ExtractBearer(AuthFlows.ResetToken(cfg, email, nowMs), "");
  }
}

/** src/auth/jwt-auth.guard.ts: public flag, then the blacklist guard, then the JWT strategy. */
module JwtAuthGuard {
  import opened Wrappers
  import opened Http
  import AuthFlows
  import TokenBlacklistGuard
  import Users
  import JwtStrategy

  /** `reflector.getAllAndOverride(key, [handler, class])`: the handler's metadata wins when set. */
  function GetAllAndOverride(handler: Option<bool>, cls: Option<bool>): (r: Option<bool>)
    ensures handler.Some? ==> r == handler
    ensures handler.None? ==> r == cls
  {
    if handler.Some? then handler else cls
  }

  datatype Check = BlacklistCheck | JwtCheck

  /** The guard's answer, the checks it ran in order, and the user the strategy attached. */
  datatype GuardOutcome = GuardOutcome(result: Result<bool, HttpError>, checks: seq<Check>, user: Option<JwtStrategy.RequestUser>)

  /** `canActivate`. */
  function CanActivate(isPublic: Option<bool>, authorization: Option<string>, blacklisted: string -> bool,
                       cfg: AuthFlows.AuthConfig, nowMs: nat): (o: GuardOutcome)
    ensures o.result != Ok(false)
    ensures o.user.Some? <==> isPublic != Some(true) && o.result.Ok?
    ensures o.user.Some? ==> JwtStrategy.Authenticate(cfg, authorization, nowMs) == Ok(o.user.value)
  {
    if isPublic == Some(true) then GuardOutcome(Ok(true), [], None)
    else match TokenBlacklistGuard.CanActivate(authorization, blacklisted)
      case Err(e) => GuardOutcome(Err(e), [BlacklistCheck], None)
      case Ok(valid) =>
        if !valid then GuardOutcome(Err(Unauthorized("Token has been revoked")), [BlacklistCheck], None)
        else match JwtStrategy.Authenticate(cfg, authorization, nowMs)
          case Err(e) => GuardOutcome(Err(e), [BlacklistCheck, JwtCheck], None)
          case Ok(u) => GuardOutcome(Ok(true), [BlacklistCheck, JwtCheck], Some(u))
  }

  /**
   * The order of the checks: a public route passes with no check run; on
   * any other route the blacklist guard runs first, a revoked token stops
   * there, and otherwise the answer is exactly the JWT strategy's.
   */
  lemma CheckOrder(isPublic: Option<bool>, authorization: Option<string>, blacklisted: string -> bool,
                   cfg: AuthFlows.AuthConfig, nowMs: nat)
    ensures var o := CanActivate(isPublic, authorization, blacklisted, cfg, nowMs);
            var b := TokenBlacklistGuard.CanActivate(authorization, blacklisted);
            var j := JwtStrategy.Authenticate(cfg, authorization, nowMs);
            && (isPublic == Some(true) ==> o == GuardOutcome(Ok(true), [], None))
            && (isPublic != Some(true) ==> |o.checks| >= 1 && o.checks[0] == BlacklistCheck)
            && (isPublic != Some(true) && b.Err? ==> o == GuardOutcome(Err(Unauthorized("Token has been revoked")), [BlacklistCheck], None))
            && (isPublic != Some(true) && b.Ok? ==>
                  && o.checks == [BlacklistCheck, JwtCheck]
                  && o.result == (if j.Ok? then Ok(true) else Err(j.error))
                  && o.user == (if j.Ok? then Some(j.value) else None))
  {
    TokenBlacklistGuard.CanActivateOutcome(authorization, blacklisted, blacklisted);
  }

  /**
   * Because revocation is disabled, a logged-out access token still passes
   * the guard on every non-public route until it expires.
   */
  lemma IssuedAccessTokenPasses(cfg: AuthFlows.AuthConfig, u: Users.User, nowMs: nat, laterMs: nat)
    requires cfg.accessSecret != ""
    requires laterMs / 1000 < nowMs / 1000 + cfg.accessExpiresIn
    ensures var h := Some("Bearer " + AuthFlows.AccessToken(cfg, u, nowMs));
            var o := CanActivate(None, h, TokenBlacklistGuard.ServiceBlacklist(), cfg, laterMs);
            && o.result == Ok(true)
            && o.user == Some(JwtStrategy.RequestUser(Some(u.id), Some(u.name), Some(u.email), u.role))
  {
    var h := Some("Bearer " + AuthFlows.AccessToken(cfg, u, nowMs));
    TokenBlacklistGuard.NeverRevoked(h);
    JwtStrategy.AccessTokenAuthenticates(cfg, u, nowMs, laterMs);
  }
}
