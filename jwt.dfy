/**
 * A model of the JSON Web Tokens (RFC 7519) the core signs and verifies.
 *
 * A token is a '.'-separated string: a tag for the payload shape, the
 * payload's fields, the `iat` and `exp` claims (section 4.1.6 and 4.1.4 of
 * RFC 7519, in seconds) and a signature part. All fields are hex text, so a
 * token never contains a space and never starts with '$'. The signature part
 * is an ideal MAC: it is determined by the signing secret, so a token
 * verifies under a secret only if it was signed with that secret.
 */
module Jwt {
  import opened Wrappers
  import opened Text
  import opened Hex

  /** The four payload shapes the core signs. */
  datatype Claims =
    | AccessClaims(id: string, email: string, role: Option<string>, name: string)
    | RefreshClaims(sub: string)
    | VerificationClaims(email: string)
    | ResetClaims(email: string)

  /** What decoding a token yields: its payload with the registered time claims. */
  datatype Payload = Payload(claims: Claims, iat: nat, exp: nat)

  datatype Token = Token(payload: Payload, signature: string)

  function RoleField(role: Option<string>): string {
    match role
    case None => "-"
    case Some(r) => "+" + EncodeString(r)
  }

  function DecodeRole(f: string): Option<Option<string>> {
    if f == "-" then Some(None)
    else if |f| >= 1 && f[0] == '+' then
      match DecodeString(f[1..])
      case None => None
      case Some(r) => Some(Some(r))
    else None
  }

  function ClaimParts(c: Claims): seq<string> {
    match c
    case AccessClaims(id, email, role, name) =>
      ["A", EncodeString(id), EncodeString(email), RoleField(role), EncodeString(name)]
    case RefreshClaims(sub) => ["R", EncodeString(sub)]
    case VerificationClaims(email) => ["V", EncodeString(email)]
    case ResetClaims(email) => ["P", EncodeString(email)]
  }

  function ParseClaims(p: seq<string>): Option<Claims> {
    if |p| == 5 && p[0] == "A" then
      var id, email, role, name := DecodeString(p[1]), DecodeString(p[2]), DecodeRole(p[3]), DecodeString(p[4]);
      if id.Some? && email.Some? && role.Some? && name.Some?
      then Some(AccessClaims(id.value, email.value, role.value, name.value))
      else None
    else if |p| == 2 && p[0] in ["R", "V", "P"] then
      match DecodeString(p[1])
      case None => None
      case Some(v) =>
        if p[0] == "R" then Some(RefreshClaims(v))
        else if p[0] == "V" then Some(VerificationClaims(v))
        else Some(ResetClaims(v))
    else None
  }

  function Parts(t: Token): seq<string> {
    ClaimParts(t.payload.claims) +
    [EncodeNat(t.payload.iat), EncodeNat(t.payload.exp), EncodeString(t.signature)]
  }

  /** The compact serialization of a token. */
  function Encode(t: Token): string {
    Join(Parts(t), '.')
  }

  /** Reads a string back as a token; `None` for anything that is not one. */
  function Parse(s: string): Option<Token> {
    var parts := Split(s, '.');
    if |parts| < 5 then None
    else
      var n := |parts|;
      var c, iat, exp, sig := ParseClaims(parts[..n - 3]), DecodeNat(parts[n - 3]), DecodeNat(parts[n - 2]), DecodeString(parts[n - 1]);
      if c.Some? && iat.Some? && exp.Some? && sig.Some?
      then Some(Token(Payload(c.value, iat.value, exp.value), sig.value))
      else None
  }

  lemma HexHasNoDot(h: string)
    requires AllHex(h)
    ensures '.' !in h && ' ' !in h
  {
  }

  lemma RoleFieldShape(role: Option<string>)
    ensures '.' !in RoleField(role) && ' ' !in RoleField(role)
  {
    if role.Some? {
      var e := EncodeString(role.value);
      HexHasNoDot(e);
      assert RoleField(role) == "+" + e;
    }
  }

  lemma PartsShape(t: Token)
    ensures forall i :: 0 <= i < |Parts(t)| ==> '.' !in Parts(t)[i] && ' ' !in Parts(t)[i]
  {
    var p := Parts(t);
    forall i | 0 <= i < |p| ensures '.' !in p[i] && ' ' !in p[i] {
      if i == |p| - 1 {
        HexHasNoDot(EncodeString(t.signature));
      } else if i == |p| - 2 {
        HexHasNoDot(EncodeNat(t.payload.exp));
      } else if i == |p| - 3 {
        HexHasNoDot(EncodeNat(t.payload.iat));
      } else {
        match t.payload.claims
        case AccessClaims(id, email, role, name) =>
          HexHasNoDot(EncodeString(id));
          HexHasNoDot(EncodeString(email));
          HexHasNoDot(EncodeString(name));
          RoleFieldShape(role);
        case RefreshClaims(sub) => HexHasNoDot(EncodeString(sub));
        case VerificationClaims(email) => HexHasNoDot(EncodeString(email));
        case ResetClaims(email) => HexHasNoDot(EncodeString(email));
      }
    }
  }

  lemma DecodeRoleField(role: Option<string>)
    ensures DecodeRole(RoleField(role)) == Some(role)
  {
    if role.Some? {
      DecodeEncodeString(role.value);
      assert ("+" + EncodeString(role.value))[1..] == EncodeString(role.value);
    }
  }

  lemma ParseClaimParts(c: Claims)
    ensures ParseClaims(ClaimParts(c)) == Some(c)
  {
    match c
    case AccessClaims(id, email, role, name) =>
      DecodeEncodeString(id);
      DecodeEncodeString(email);
      DecodeEncodeString(name);
      DecodeRoleField(role);
    case RefreshClaims(sub) => DecodeEncodeString(sub);
    case VerificationClaims(email) => DecodeEncodeString(email);
    case ResetClaims(email) => DecodeEncodeString(email);
  }

  /** Decoding an encoded token gives back exactly that token. */
  lemma ParseEncode(t: Token)
    ensures Parse(Encode(t)) == Some(t)
  {
    var p := Parts(t);
    PartsShape(t);
    SplitJoin(p, '.');
    var n := |p|;
    assert p[..n - 3] == ClaimParts(t.payload.claims);
    ParseClaimParts(t.payload.claims);
    DecodeEncodeNat(t.payload.iat);
    DecodeEncodeNat(t.payload.exp);
    DecodeEncodeString(t.signature);
  }

  /** Encoding is injective: equal tokens have equal contents. */
  lemma EncodeInjective(t: Token, u: Token)
    requires Encode(t) == Encode(u)
    ensures t == u
  {
    ParseEncode(t);
    ParseEncode(u);
  }

  /** A signed token never contains a space, so it survives a split on ' '. */
  lemma EncodeHasNoSpace(t: Token)
    ensures ' ' !in Encode(t)
  {
    PartsShape(t);
    if ' ' in Encode(t) {
      JoinChars(Parts(t), '.', ' ');
    }
  }

  /** A signed token is never empty and starts with its payload tag, never with '$'. */
  lemma EncodeStart(t: Token)
    ensures |Encode(t)| >= 1 && Encode(t)[0] in "ARVP"
  {
    var p := Parts(t);
    assert |p| >= 5;
    assert Join(p, '.') == p[0] + ['.'] + Join(p[1..], '.');
  }

  /**
   * jsonwebtoken's `sign(payload, secret, {expiresIn})`: `iat` is the
   * current second and `exp = iat + expiresIn`.
   */
  function Sign(secret: string, claims: Claims, iat: nat, expiresIn: nat): string {
    Encode(Token(Payload(claims, iat, iat + expiresIn), secret))
  }

  /** jsonwebtoken's `decode`: the payload, checking neither signature nor expiry. */
  function Decode(token: string): Option<Payload> {
    match Parse(token)
    case None => None
    case Some(t) => Some(t.payload)
  }

  /**
   * jsonwebtoken's `verify(token, secret)`: fails for an empty secret, a
   * malformed token, a signature made with another secret, and once the
   * current second (`floor(nowMs / 1000)`) has reached `exp`.
   */
  function Verify(secret: string, token: string, nowMs: nat): Option<Payload> {
    match Parse(token)
    case None => None
    case Some(t) =>
      if secret != "" && t.signature == secret && nowMs / 1000 < t.payload.exp
      then Some(t.payload)
      else None
  }

  /** Verification of a signed token: succeeds exactly under its own secret and before expiry. */
  lemma VerifySign(secret: string, signer: string, claims: Claims, iat: nat, expiresIn: nat, nowMs: nat)
    ensures Verify(secret, Sign(signer, claims, iat, expiresIn), nowMs) ==
            if secret != "" && secret == signer && nowMs / 1000 < iat + expiresIn
            then Some(Payload(claims, iat, iat + expiresIn))
            else None
  {
    ParseEncode(Token(Payload(claims, iat, iat + expiresIn), signer));
  }

  /** Decoding a signed token gives its payload and its `exp`. */
  lemma DecodeSign(secret: string, claims: Claims, iat: nat, expiresIn: nat)
    ensures Decode(Sign(secret, claims, iat, expiresIn)) == Some(Payload(claims, iat, iat + expiresIn))
  {
    ParseEncode(Token(Payload(claims, iat, iat + expiresIn), secret));
  }

  /** A token that verifies was signed with that secret over its decoded payload. */
  lemma VerifiedIsSigned(secret: string, token: string, nowMs: nat)
    requires Verify(secret, token, nowMs).Some?
    ensures Decode(token) == Verify(secret, token, nowMs)
    ensures nowMs / 1000 < Verify(secret, token, nowMs).value.exp
  {
  }

  lemma SignShape(secret: string, claims: Claims, iat: nat, expiresIn: nat)
    ensures var s := Sign(secret, claims, iat, expiresIn);
            ' ' !in s && |s| >= 1 && s[0] in "ARVP"
  {
    EncodeHasNoSpace(Token(Payload(claims, iat, iat + expiresIn), secret));
    EncodeStart(Token(Payload(claims, iat, iat + expiresIn), secret));
  }

  /** A reset token starts with its tag and the encoded email; the time claims and the signature follow. */
  lemma ResetTokenPrefix(secret: string, email: string, iat: nat, expiresIn: nat)
    ensures Sign(secret, ResetClaims(email), iat, expiresIn) ==
            ("P" + "." + EncodeString(email)) + ("." + Join([EncodeNat(iat), EncodeNat(iat + expiresIn), EncodeString(secret)], '.'))
  {
    var rest := [EncodeNat(iat), EncodeNat(iat + expiresIn), EncodeString(secret)];
    assert Parts(Token(Payload(ResetClaims(email), iat, iat + expiresIn), secret)) == ["P", EncodeString(email)] + rest;
    JoinFirstTwo("P", EncodeString(email), rest, '.');
  }
}
