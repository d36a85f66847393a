/**
 * `JwtUtil`: configuration checks, signing-key selection, the claim set of issued
 * tokens (section 4.1 of RFC 7519), Bearer extraction (section 2.1 of RFC 6750) and
 * the validation rule. HMAC signing and the compact encoding are abstracted: a token is
 * its header, its claims and the key it was signed with, and parsing is a parameter.
 */
module Jwt {
  import opened Wrappers
  import opened Text
  import opened Bytes
  import Base64
  import opened Time
  import opened Uuid

  /** The default of `jwt.secret`, which `init` refuses. */
  const PlaceholderSecret: string := "change-me-change-me-change-me-change-me-32+"
  const Audience: string := "AudIon-App"
  const AllowedClockSkewSeconds: int := 60
  /** `nbf` is set this many seconds before issue, against clock drift. */
  const NotBeforeLeewaySeconds: int := 5
  const MinKeyBytes: int := 32
  const MaxExpHours: int := 24 * 7

  datatype ConfigError =
    | DefaultSecret    // "JWT secret must be changed from default value..."
    | ExpiryOutOfRange // "JWT expiry hours must be between 1 and 168 (1 week)"
    | WeakSecret       // "JWT secret must be at least 32 bytes long for security"

  /**
   * `getKeyBytes`: the Base64 decoding of the secret when it decodes to at least 32
   * bytes, otherwise the secret's UTF-8 bytes.
   */
  function GetKeyBytes(secret: string): (k: seq<Byte>)
    ensures k == Utf8(secret) || Base64.Decode(secret) == Some(k)
    ensures |k| >= MinKeyBytes <==>
      (Base64.Decode(secret).Some? && |Base64.Decode(secret).value| >= MinKeyBytes) || |Utf8(secret)| >= MinKeyBytes
  {
    match Base64.Decode(secret)
    case Some(decoded) => if |decoded| >= MinKeyBytes then decoded else Utf8(secret)
    case None => Utf8(secret)
  }

  /** Any secret of at least 32 characters gives a key of at least 32 bytes. */
  lemma LongSecretStrong(secret: string)
    requires |secret| >= MinKeyBytes
    ensures |GetKeyBytes(secret)| >= MinKeyBytes
  {
    Utf8Length(secret);
  }

  /** `validateConfiguration` (with `validateSecretStrength`): the checks in the source's order, None when all pass. */
  function ValidateConfiguration(secret: string, expHours: int): (r: Option<ConfigError>)
    ensures r.None? <==> secret != PlaceholderSecret && 1 <= expHours <= MaxExpHours && |GetKeyBytes(secret)| >= MinKeyBytes
    ensures r == Some(DefaultSecret) <==> secret == PlaceholderSecret
    ensures r == Some(ExpiryOutOfRange) <==> secret != PlaceholderSecret && !(1 <= expHours <= MaxExpHours)
    ensures r == Some(WeakSecret) <==>
      secret != PlaceholderSecret && 1 <= expHours <= MaxExpHours && |GetKeyBytes(secret)| < MinKeyBytes
  {
    if secret == PlaceholderSecret then Some(DefaultSecret)
    else if expHours < 1 || expHours > MaxExpHours then Some(ExpiryOutOfRange)
    else if |GetKeyBytes(secret)| < MinKeyBytes then Some(WeakSecret)
    else None
  }

  /** The placeholder is long enough to pass the strength check: only the explicit comparison stops it. */
  lemma PlaceholderPassesStrength()
    ensures |GetKeyBytes(PlaceholderSecret)| >= MinKeyBytes
    ensures ValidateConfiguration(PlaceholderSecret, 12) == Some(DefaultSecret)
  {
    LongSecretStrong(PlaceholderSecret);
  }

  // ---------------------------------------------------------------------------
  // Tokens
  // ---------------------------------------------------------------------------

  /** The value of a custom claim as it comes out of a parsed token: a string, or something else. */
  datatype ClaimValue = Str(s: string) | NonString

  datatype Header = Header(kid: string, typ: string)

  /** The registered claims of section 4.1 of RFC 7519 and the two custom ones this service sets. */
  datatype Claims = Claims(
    iss: Option<string>, sub: Option<string>, aud: Option<string>,
    wallet: Option<ClaimValue>, tokenType: Option<ClaimValue>, jti: Option<string>,
    nbf: Option<Instant>, iat: Option<Instant>, exp: Option<Instant>)

  /** A signed token: what the compact form carries, and the HMAC key that signed it. */
  datatype Token = Token(header: Header, claims: Claims, key: seq<Byte>)

  /** `parseClaimsJws` without the checks: the token a compact string decodes to, or None when it is malformed. */
  type Parse = string -> Option<Token>

  /** `isTokenExpired`: an expiry strictly before now. A token without `exp` is not expired. */
  predicate IsTokenExpired(c: Claims, now: Instant) {
    c.exp.Some? && c.exp.value < now
  }

  /** jjwt's own expiry check, with the allowed skew: `now - skew` after `exp`. */
  predicate ExpiredWithSkew(c: Claims, now: Instant) {
    c.exp.Some? && PlusSeconds(now, -AllowedClockSkewSeconds) > c.exp.value
  }

  /** jjwt's not-before check, with the allowed skew: `now + skew` before `nbf`. */
  predicate PrematureWithSkew(c: Claims, now: Instant) {
    c.nbf.Some? && PlusSeconds(now, AllowedClockSkewSeconds) < c.nbf.value
  }

  /**
   * `extractToken`: nothing for a null or blank header; otherwise a case-insensitive
   * `"Bearer "` prefix and more than seven characters, then the trimmed rest, if any.
   */
  function ExtractToken(header: Option<string>): (r: Option<string>)
    ensures r.Some? ==> header.Some? && |header.value| > 7 && EqualsIgnoreCase(header.value[..7], "Bearer ")
    ensures r.Some? ==> r.value != [] && r.value == Trim(header.value[7..])
  {
    if header.None? || Trim(header.value) == [] then None
    else
      var h := header.value;
      if |h| > 7 && EqualsIgnoreCase(h[..7], "Bearer ") then
        var t := Trim(h[7..]);
        if t == [] then None else Some(t)
      else None
  }

  /** The Bearer header built from a token without surrounding blanks gives that token back, whatever the case of "Bearer". */
  lemma ExtractTokenRoundTrip(scheme: string, t: string)
    requires EqualsIgnoreCase(scheme, "Bearer ") && |scheme| == 7
    requires t != [] && !IsTrimmable(t[0]) && !IsTrimmable(t[|t| - 1])
    ensures ExtractToken(Some(scheme + t)) == Some(t)
  {
    var h := scheme + t;
    assert h[..7] == scheme && h[7..] == t;
    TrimOfTrimmed(t);
    assert scheme[0] != ' ' by {
      assert ToLower(scheme)[0] == 'b';
    }
    TrimEmptyIff(h);
  }

  /** A header whose rest is blank, or that lacks the scheme, yields nothing. */
  lemma ExtractTokenRejects(h: string)
    requires |h| < 7 || !EqualsIgnoreCase(h[..7], "Bearer ") || Trim(h[7..]) == []
    ensures ExtractToken(Some(h)) == None
  {
  }

  /** `getWalletAddress`: the wallet claim, trimmed and lowercased, when it is a non-blank string. */
  function GetWalletAddress(t: Token): (r: Option<string>)
    ensures r.Some? ==> t.claims.wallet.Some? && t.claims.wallet.value.Str?
    ensures r.Some? ==> r.value != [] && IsLower(r.value) && r.value == ToLower(Trim(t.claims.wallet.value.s))
    ensures t.claims.wallet.Some? && t.claims.wallet.value.Str? && Trim(t.claims.wallet.value.s) != [] ==>
      r == Some(ToLower(Trim(t.claims.wallet.value.s)))
  {
    match t.claims.wallet
    case Some(Str(w)) =>
      ToLowerFacts(Trim(w));
      if Trim(w) == [] then None else Some(ToLower(Trim(w)))
    case _ => None
  }

  /** `getUserId`: the subject, trimmed, when it is non-blank. */
  function GetUserId(t: Token): (r: Option<string>)
    ensures r.Some? ==> t.claims.sub.Some? && r.value != [] && r.value == Trim(t.claims.sub.value)
    ensures t.claims.sub.Some? && Trim(t.claims.sub.value) != [] ==> r.Some?
  {
    match t.claims.sub
    case Some(s) => if Trim(s) == [] then None else Some(Trim(s))
    case None => None
  }

  /** `getRemainingLifetimeSeconds`: the whole seconds until `exp`, never negative, 0 without `exp`. */
  function GetRemainingLifetimeSeconds(t: Token, now: Instant): (r: int)
    ensures r >= 0
    ensures t.claims.exp.None? ==> r == 0
    ensures t.claims.exp.Some? && t.claims.exp.value <= now ==> r == 0
    ensures t.claims.exp.Some? && now <= t.claims.exp.value ==>
      r * NanosPerSecond <= t.claims.exp.value - now < (r + 1) * NanosPerSecond
  {
    match t.claims.exp
    case None => 0
    case Some(e) => var remaining := SecondsUntil(now, e); if remaining < 0 then 0 else remaining
  }

  /**
   * A token whose claims carry a trimmed string wallet and subject gives back the subject
   * and the wallet in lower case (a checksum-form wallet comes back lower-cased).
   */
  lemma GettersRecoverClaims(t: Token, wallet: string, userId: string)
    requires t.claims.wallet == Some(Str(wallet)) && t.claims.sub == Some(userId)
    requires wallet != [] && !IsTrimmable(wallet[0]) && !IsTrimmable(wallet[|wallet| - 1])
    requires userId != [] && !IsTrimmable(userId[0]) && !IsTrimmable(userId[|userId| - 1])
    ensures GetWalletAddress(t) == Some(ToLower(wallet))
    ensures GetUserId(t) == Some(userId)
  {
    TrimOfTrimmed(wallet);
    TrimOfTrimmed(userId);
  }

  /** The configured token service; `signingKey` is set by `init`. */
  class JwtUtil {
    var secret: string
    var expHours: int
    var issuer: string
    var keyId: string
    var signingKey: Option<seq<Byte>>

    /** The injected `@Value` properties, before `init` has run. */
    constructor (secret: string, expHours: int, issuer: string, keyId: string)
      ensures this.secret == secret && this.expHours == expHours && this.issuer == issuer && this.keyId == keyId
      ensures signingKey.None?
    {
      this.secret, this.expHours, this.issuer, this.keyId := secret, expHours, issuer, keyId;
      signingKey := None;
    }

    /** `@PostConstruct init()`: the configuration checks, then the key. On a failure the key stays unset. */
    method Init() returns (error: Option<ConfigError>)
      modifies this`signingKey
      ensures error == ValidateConfiguration(secret, expHours)
      ensures error.None? ==> signingKey == Some(GetKeyBytes(secret)) && |signingKey.value| >= MinKeyBytes
      ensures error.Some? ==> signingKey == old(signingKey)
    {
      error := ValidateConfiguration(secret, expHours);
      if error.None? {
        signingKey := Some(GetKeyBytes(secret));
      }
    }

    /** The default lifetime, `expHours` hours. */
    function DefaultTtl(): int
      reads this
    {
      expHours * NanosPerHour
    }

    /**
     * `createToken(userId, walletAddress, ttl)` at `now` with the random token id `jwtId`.
     * Signing with an unset key throws ("Token creation failed"), here None.
     */
    function CreateToken(userId: string, walletAddress: string, ttl: int, now: Instant, jwtId: Uuid): (t: Option<Token>)
      reads this
      ensures t.Some? <==> signingKey.Some?
      ensures t.Some? ==> t.value.key == signingKey.value && t.value.header == Header(keyId, "JWT")
      ensures t.Some? ==> t.value.claims == Claims(Some(issuer), Some(userId), Some(Audience),
        Some(Str(walletAddress)), Some(Str("access")), Some(ToString(jwtId)),
        Some(PlusSeconds(now, -NotBeforeLeewaySeconds)), Some(now), Some(now + ttl))
    {
      match signingKey
      case None => None
      case Some(key) =>
        Some(Token(Header(keyId, "JWT"),
                   Claims(Some(issuer), Some(userId), Some(Audience), Some(Str(walletAddress)), Some(Str("access")),
                          Some(ToString(jwtId)), Some(PlusSeconds(now, -NotBeforeLeewaySeconds)), Some(now), Some(now + ttl)),
                   key))
    }

    /** What `parseAndValidate` accepts of a decoded token: right key, issuer and audience, inside nbf/exp with skew, and not expired. */
    predicate Accepts(t: Token, now: Instant)
      reads this
    {
      && signingKey.Some? && t.key == signingKey.value
      && t.claims.iss == Some(issuer) && t.claims.aud == Some(Audience)
      && !ExpiredWithSkew(t.claims, now) && !PrematureWithSkew(t.claims, now)
      && !IsTokenExpired(t.claims, now)
    }

    /** `parseAndValidate`: the decoded token when every check passes; every failure, thrown or not, is empty. */
    function ParseAndValidate(token: string, now: Instant, parse: Parse): (r: Option<Token>)
      reads this
      ensures r.Some? ==> parse(token) == r && Accepts(r.value, now)
      ensures r.None? ==> parse(token).None? || !Accepts(parse(token).value, now)
    {
      match parse(token)
      case None => None
      case Some(t) => if Accepts(t, now) then Some(t) else None
    }

    /** Whatever the skew allows, a token whose `exp` is already past is rejected; a token without `exp` never counts as expired. */
    lemma ExpiredRejected(token: string, now: Instant, parse: Parse)
      ensures parse(token).Some? && IsTokenExpired(parse(token).value.claims, now) ==> ParseAndValidate(token, now, parse).None?
      ensures parse(token).Some? && parse(token).value.claims.exp.None? ==> !IsTokenExpired(parse(token).value.claims, now)
    {
    }

    /**
     * A token this service issued, read back by a parser that returns it, is valid from
     * 65 seconds before its issue (5 s of `nbf` leeway and 60 s of skew) up to its expiry.
     */
    lemma IssuedTokenValid(userId: string, wallet: string, ttl: int, issued: Instant, jwtId: Uuid,
                           token: string, parse: Parse, now: Instant)
      requires CreateToken(userId, wallet, ttl, issued, jwtId).Some?
      requires parse(token) == CreateToken(userId, wallet, ttl, issued, jwtId)
      ensures PlusSeconds(issued, -65) <= now <= issued + ttl ==> ParseAndValidate(token, now, parse) == parse(token)
      ensures now > issued + ttl ==> ParseAndValidate(token, now, parse).None?
    {
    }
  }
}
