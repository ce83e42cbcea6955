/**
 * The JWT gate the server actually installs: routes whose path starts with
 * an escaped route skip it; every other request needs a bearer token the
 * parser accepts, and any failure answers `Unauthorized`.
 */
module JwtMiddleware {

  import opened Wrappers
  import opened Ints
  import opened Errors
  import opened Strings
  import opened Tokens
  import opened RequestContext
  import opened HttpHelpers

  const BearerPrefix := "Bearer "
  const DefaultConfig := JwtConfig("super_duper_secret_key", 72 * NanosPerHour, "HS256", BearerPrefix)

  /** Parsing is an oracle: token text and configuration in, parse outcome out. */
  type Parser = (string, JwtConfig) -> ParseOutcome

  /** Signing is an oracle: claims and configuration in, token text or an error out. */
  type Signer = (Claims, JwtConfig) -> Result<string, Error>

  /** A nil configuration stands for the default one. */
  function ResolveConfig(config: Option<JwtConfig>): (c: JwtConfig)
    ensures config.None? ==> c == DefaultConfig
    ensures config.Some? ==> c == config.value
  {
    config.GetOr(DefaultConfig)
  }

  /** `extractToken`: the text after "Bearer ", whatever prefix the gate was configured with. */
  function ExtractToken(ctx: Ctx): (token: string)
    ensures !HasPrefix(Header(ctx, AuthorizationHeader), BearerPrefix) ==> token == ""
    ensures HasPrefix(Header(ctx, AuthorizationHeader), BearerPrefix) ==> BearerPrefix + token == Header(ctx, AuthorizationHeader)
  {
    var bearer := Header(ctx, AuthorizationHeader);
    if !HasPrefix(bearer, DefaultConfig.tokenPrefix) then "" else TrimPrefix(bearer, DefaultConfig.tokenPrefix)
  }

  /** The escaped-route test: some route is a (case-sensitive) prefix of the path. */
  function MatchesEscaped(path: string, routes: seq<string>): (r: bool)
    ensures r <==> exists i :: 0 <= i < |routes| && HasPrefix(path, routes[i])
  {
    if |routes| == 0 then false
    else if HasPrefix(path, routes[0]) then true
    else
      var rest := MatchesEscaped(path, routes[1..]);
      assert forall i :: 1 <= i < |routes| ==> routes[i] == routes[1..][i - 1];
      rest
  }

  function ValidateToken(token: string, config: JwtConfig, parse: Parser): Result<Claims, Error> {
    Classify(parse(token, config))
  }

  /** The gate either hands the (possibly extended) context on, or stops with an error envelope. */
  datatype GateOutcome = Next(ctx: Ctx) | Halt(reply: ErrorReply)

  /** `NewJWTMiddleware(config)(escapedRoutes)` applied to one request. */
  function Gate(config: Option<JwtConfig>, escapedRoutes: seq<string>, parse: Parser, ctx: Ctx): (r: GateOutcome)
    ensures MatchesEscaped(ctx.path, escapedRoutes) ==> r == Next(ctx)
    ensures !MatchesEscaped(ctx.path, escapedRoutes) ==>
      (r.Next? <==> ExtractToken(ctx) != "" && ValidateToken(ExtractToken(ctx), ResolveConfig(config), parse).Success?)
    ensures r.Halt? ==> r.reply == RespondWithError(RequestId(ctx), Unauthorized)
    ensures r.Next? && !MatchesEscaped(ctx.path, escapedRoutes) ==>
      r.ctx == ctx.(values := ctx.values[ClaimsSlot := ClaimsValue(ValidateToken(ExtractToken(ctx), ResolveConfig(config), parse).value)])
  {
    var cfg := ResolveConfig(config);
    if MatchesEscaped(ctx.path, escapedRoutes) then Next(ctx)
    else
      var requestId := RequestId(ctx);
      var token := ExtractToken(ctx);
      if token == "" then Halt(RespondWithError(requestId, Unauthorized))
      else match ValidateToken(token, cfg, parse)
        case Failure(_) => Halt(RespondWithError(requestId, Unauthorized))
        case Success(claims) => Next(ctx.(values := ctx.values[ClaimsSlot := ClaimsValue(claims)]))
  }

  /** A refusal is always the 401 unauthorized envelope: which check failed is never revealed. */
  lemma RefusalHidesCause(config: Option<JwtConfig>, routes: seq<string>, parse1: Parser, parse2: Parser, ctx: Ctx)
    requires Gate(config, routes, parse1, ctx).Halt?
    requires Gate(config, routes, parse2, ctx).Halt?
    ensures Gate(config, routes, parse1, ctx).reply == Gate(config, routes, parse2, ctx).reply
    ensures Gate(config, routes, parse1, ctx).reply.status == StatusUnauthorized
    ensures Gate(config, routes, parse1, ctx).reply.body.code == Code(Unauthorized)
  {
    assert IsDomainError(Unauthorized) && !IsTokenError(Unauthorized);
  }

  /** `GetUserFromContext`: the stored claims, or `InvalidClaims` when none are stored. */
  function GetUserFromContext(ctx: Ctx): (r: Result<Claims, Error>)
    ensures r.Success? <==> ClaimsSlot in ctx.values && ctx.values[ClaimsSlot].ClaimsValue?
    ensures r.Success? ==> r.value == ctx.values[ClaimsSlot].claims
    ensures r.Failure? ==> r.error == InvalidClaims
  {
    if ClaimsSlot in ctx.values && ctx.values[ClaimsSlot].ClaimsValue? then Success(ctx.values[ClaimsSlot].claims)
    else Failure(InvalidClaims)
  }

  /** `GenerateToken`: sign fresh claims under the given or the default configuration. */
  function GenerateToken(userId: Int64, role: string, config: Option<JwtConfig>, now: Instant, sign: Signer): Result<string, Error> {
    var cfg := ResolveConfig(config);
    sign(NewClaims(userId, role, now, cfg), cfg)
  }

  /** Tokens issued under the default configuration live for exactly 72 hours. */
  lemma DefaultTokenLifetime(userId: Int64, role: string, now: Instant)
    ensures NewClaims(userId, role, now, ResolveConfig(None)).expiresAt - NewClaims(userId, role, now, ResolveConfig(None)).issuedAt == 72 * 3600
  {
  }

  /**
   * Issue-then-check: a token issued with the default configuration, sent as
   * a bearer token on a guarded path and accepted by the parser, passes the gate, and the
   * handler behind it reads back the user id and role it was issued for.
   */
  lemma IssuedTokenPassesGate(userId: Int64, role: string, now: Instant, sign: Signer, parse: Parser, routes: seq<string>, ctx: Ctx)
    requires !MatchesEscaped(ctx.path, routes)
    requires GenerateToken(userId, role, None, now, sign).Success?
    requires Header(ctx, AuthorizationHeader) == BearerPrefix + GenerateToken(userId, role, None, now, sign).value
    requires GenerateToken(userId, role, None, now, sign).value != ""
    requires parse(GenerateToken(userId, role, None, now, sign).value, DefaultConfig) == Parsed(Some(NewClaims(userId, role, now, DefaultConfig)), true)
    ensures Gate(None, routes, parse, ctx).Next?
    ensures GetUserFromContext(Gate(None, routes, parse, ctx).ctx).Success?
    ensures var c := GetUserFromContext(Gate(None, routes, parse, ctx).ctx).value; c.userId == userId && c.role == role
  {
    var token := GenerateToken(userId, role, None, now, sign).value;
    assert HasPrefix(Header(ctx, AuthorizationHeader), BearerPrefix);
    assert ExtractToken(ctx) == token by {
      assert (BearerPrefix + token)[|BearerPrefix|..] == token;
    }
  }
}
