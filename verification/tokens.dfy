/**
 * What both JWT gates share: configuration, the claims a token carries,
 * how claims are built at issue time, and how a parse outcome is sorted
 * into one of the credential errors. Parsing and signing are oracles: the
 * parser reports either claims or the validation flags it raised.
 */
module Tokens {

  import opened Wrappers
  import opened Ints
  import opened Errors

  /** Wall-clock instants, in nanoseconds since the Unix epoch. */
  type Instant = int

  const NanosPerSecond: int := 1_000_000_000
  const NanosPerHour: int := 3600 * NanosPerSecond

  /** Go's zero `time.Time`: midnight of 1 January of year 1, UTC. */
  const ZeroTime: Instant := -62_135_596_800 * NanosPerSecond

  /** `Time.Unix()`: whole seconds, rounded toward the past. */
  function UnixSeconds(t: Instant): int {
    t / NanosPerSecond
  }

  /** `JWTConfig`; durations are in nanoseconds, as Go's `time.Duration`. */
  datatype JwtConfig = JwtConfig(secretKey: string, tokenExpiry: int, signingMethod: string, tokenPrefix: string)

  /** `CustomClaims`: user id and role on top of the standard expiry, issue time and issuer. */
  datatype Claims = Claims(userId: Int64, role: string, expiresAt: int, issuedAt: int, issuer: string)

  const Issuer := "device-backend"

  /** The claims `GenerateToken` signs: issued now, expiring one token lifetime later. */
  function NewClaims(userId: Int64, role: string, now: Instant, config: JwtConfig): (c: Claims)
    ensures c.userId == userId && c.role == role && c.issuer == Issuer
    ensures c.issuedAt == UnixSeconds(now)
    ensures config.tokenExpiry % NanosPerSecond == 0 ==> c.expiresAt == c.issuedAt + config.tokenExpiry / NanosPerSecond
    ensures config.tokenExpiry >= 0 ==> c.expiresAt >= c.issuedAt
  {
    ShiftByWholeSeconds(now, config.tokenExpiry);
    Claims(userId, role, UnixSeconds(now + config.tokenExpiry), UnixSeconds(now), Issuer)
  }

  lemma ShiftByWholeSeconds(t: Instant, d: int)
    ensures d % NanosPerSecond == 0 ==> UnixSeconds(t + d) == UnixSeconds(t) + d / NanosPerSecond
    ensures d >= 0 ==> UnixSeconds(t + d) >= UnixSeconds(t)
  {
    var q, r := t / NanosPerSecond, t % NanosPerSecond;
    assert t == q * NanosPerSecond + r && 0 <= r < NanosPerSecond;
    if d % NanosPerSecond == 0 {
      var k := d / NanosPerSecond;
      assert t + d == (q + k) * NanosPerSecond + r;
    }
    if d >= 0 {
      var q2, r2 := (t + d) / NanosPerSecond, (t + d) % NanosPerSecond;
      assert t + d == q2 * NanosPerSecond + r2 && 0 <= r2 < NanosPerSecond;
    }
  }

  /** The bits of jwt-go's `ValidationError.Errors`. */
  datatype ValidationFlag =
    | FlagMalformed | FlagUnverifiable | FlagSignatureInvalid | FlagAudience | FlagExpired
    | FlagIssuedAt | FlagIssuer | FlagNotValidYet | FlagId | FlagClaimsInvalid

  /**
   * What `jwt.ParseWithClaims` reports: a token (with claims of the expected
   * shape or not, valid or not), a validation error with its flags, or some
   * other error.
   */
  datatype ParseOutcome =
    | Parsed(claims: Option<Claims>, valid: bool)
    | ValidationFailed(flags: set<ValidationFlag>)
    | OtherFailure(err: Error)

  /**
   * `validateToken`: expiry outranks malformation, any other validation
   * failure is an invalid token, a foreign error passes through, and a parsed
   * token must be valid and carry the expected claims.
   */
  function Classify(p: ParseOutcome): (r: Result<Claims, Error>)
    ensures r.Success? <==> p.Parsed? && p.claims.Some? && p.valid
    ensures r.Success? ==> r.value == p.claims.value
    ensures p.ValidationFailed? ==> r.Failure? && IsTokenError(r.error) && r.error != InvalidClaims && r.error != MissingToken
    ensures p.ValidationFailed? && FlagExpired in p.flags ==> r == Failure(ExpiredToken)
    ensures p.ValidationFailed? && FlagExpired !in p.flags && FlagMalformed in p.flags ==> r == Failure(MalformedToken)
    ensures p.ValidationFailed? && FlagExpired !in p.flags && FlagMalformed !in p.flags ==> r == Failure(InvalidToken)
    ensures p.OtherFailure? ==> r == Failure(p.err)
    ensures p.Parsed? && r.Failure? ==> r.error == InvalidClaims
  {
    match p
    case ValidationFailed(flags) =>
      if FlagExpired in flags then Failure(ExpiredToken)
      else if FlagMalformed in flags then Failure(MalformedToken)
      else Failure(InvalidToken)
    case OtherFailure(e) => Failure(e)
    case Parsed(claims, valid) =>
      if claims.None? || !valid then Failure(InvalidClaims) else Success(claims.value)
  }

  /** A token both expired and malformed is reported as expired. */
  lemma ExpiredOutranksMalformed(flags: set<ValidationFlag>)
    requires FlagExpired in flags && FlagMalformed in flags
    ensures Classify(ValidationFailed(flags)) == Failure(ExpiredToken)
  {
  }
}

/**
 * The per-request state the middleware chain reads and writes: the URL
 * path, the request headers, and the context value store.
 */
module RequestContext {

  import opened Tokens

  datatype HeaderName = AuthorizationHeader | RefreshTokenHeader | RequestIdHeader

  /** The value-store keys in use: the request id and the stored claims. */
  datatype Slot = RequestIdSlot | ClaimsSlot

  datatype StoredValue = TextValue(text: string) | ClaimsValue(claims: Claims)

  datatype Ctx = Ctx(path: string, headers: map<HeaderName, string>, values: map<Slot, StoredValue>)

  /** `Header.Get`: the header's value, or "" when it is absent. */
  function Header(ctx: Ctx, name: HeaderName): (r: string)
    ensures name !in ctx.headers ==> r == ""
    ensures name in ctx.headers ==> r == ctx.headers[name]
  {
    if name in ctx.headers then ctx.headers[name] else ""
  }

  /** `Values().GetString`: the stored text, or "" when the slot is empty or holds something else. */
  function GetString(ctx: Ctx, slot: Slot): (r: string)
    ensures slot in ctx.values && ctx.values[slot].TextValue? ==> r == ctx.values[slot].text
    ensures !(slot in ctx.values && ctx.values[slot].TextValue?) ==> r == ""
  {
    if slot in ctx.values && ctx.values[slot].TextValue? then ctx.values[slot].text else ""
  }

  function RequestId(ctx: Ctx): string {
    GetString(ctx, RequestIdSlot)
  }
}
