/**
 * The second JWT gate and the login, logout and refresh handlers. This gate
 * is not the one the server installs: it strips the first "/api" from the
 * path and exempts a request only when what is left equals an escaped route
 * up to ASCII case, and it reads the token after the configured prefix.
 * Account lookup by email (`RetrieveAccount`), token signing and refresh
 * token generation are inputs.
 */
module AuthController {

  import opened Wrappers
  import opened Ints
  import opened Errors
  import opened Strings
  import opened Tokens
  import opened RequestContext
  import opened HttpHelpers
  import JwtMiddleware
  import AccountEntity

  const ApiPrefix := "/api"
  const AdminRole := "ADMIN"
  const LoggedOutMessage := "Successfully logged out"

  // The gate

  /** The path the gate compares: the first "/api" anywhere in it removed. */
  function StrippedPath(path: string): (r: string)
    ensures ApiPrefix <= path ==> r == path[|ApiPrefix|..]
    ensures (forall j :: 0 <= j ==> !OccursAt(path, ApiPrefix, j)) ==> r == path
  {
    assert ApiPrefix <= path ==> OccursAt(path, ApiPrefix, 0);
    ReplaceFirst(path, ApiPrefix, "")
  }

  /** Some escaped route equals the path, up to ASCII case. */
  function EqualsSomeRoute(path: string, routes: seq<string>): (r: bool)
    ensures r <==> exists i :: 0 <= i < |routes| && EqualFold(path, routes[i])
  {
    if |routes| == 0 then false
    else if EqualFold(path, routes[0]) then true
    else
      var rest := EqualsSomeRoute(path, routes[1..]);
      assert forall i :: 1 <= i < |routes| ==> routes[i] == routes[1..][i - 1];
      rest
  }

  /** Whether the gate lets the request through without a token. */
  function Exempt(path: string, routes: seq<string>): bool {
    EqualsSomeRoute(StrippedPath(path), routes)
  }

  /** `extractToken`: the header after the configured prefix, or "" when the header lacks it. */
  function ExtractToken(ctx: Ctx, config: JwtConfig): (token: string)
    ensures !HasPrefix(Header(ctx, AuthorizationHeader), config.tokenPrefix) ==> token == ""
    ensures HasPrefix(Header(ctx, AuthorizationHeader), config.tokenPrefix) ==>
              config.tokenPrefix + token == Header(ctx, AuthorizationHeader)
  {
    var bearer := Header(ctx, AuthorizationHeader);
    if !HasPrefix(bearer, config.tokenPrefix) then "" else TrimPrefix(bearer, config.tokenPrefix)
  }

  /** `NewJWTMiddleware(config)(escapedRoutes)` of this file, applied to one request. */
  function Gate(config: JwtConfig, escapedRoutes: seq<string>, parse: JwtMiddleware.Parser, ctx: Ctx): (r: JwtMiddleware.GateOutcome)
    ensures Exempt(ctx.path, escapedRoutes) ==> r == JwtMiddleware.Next(ctx)
    ensures !Exempt(ctx.path, escapedRoutes) ==>
              (r.Next? <==> ExtractToken(ctx, config) != "" && Classify(parse(ExtractToken(ctx, config), config)).Success?)
    ensures r.Halt? ==> r.reply == RespondWithError(RequestId(ctx), Unauthorized)
    ensures r.Next? && !Exempt(ctx.path, escapedRoutes) ==>
              r.ctx == ctx.(values := ctx.values[ClaimsSlot := ClaimsValue(parse(ExtractToken(ctx, config), config).claims.value)])
  {
    if Exempt(ctx.path, escapedRoutes) then JwtMiddleware.Next(ctx)
    else
      var requestId := RequestId(ctx);
      var token := ExtractToken(ctx, config);
      if token == "" then JwtMiddleware.Halt(RespondWithError(requestId, Unauthorized))
      else match JwtMiddleware.ValidateToken(token, config, parse)
        case Failure(_) => JwtMiddleware.Halt(RespondWithError(requestId, Unauthorized))
        case Success(claims) => JwtMiddleware.Next(ctx.(values := ctx.values[ClaimsSlot := ClaimsValue(claims)]))
  }

  /** Exemption compares whole paths: it holds exactly when the lowered stripped path is a lowered route. */
  lemma ExemptIffSameLowered(path: string, routes: seq<string>)
    ensures Exempt(path, routes) <==> exists i :: 0 <= i < |routes| && ToLower(StrippedPath(path)) == ToLower(routes[i])
  {
    forall i | 0 <= i < |routes| {
      EqualFoldIsEqualLowered(StrippedPath(path), routes[i]);
    }
  }

  /** A path under "/api" is exempt exactly when its remainder matches a route, whatever the case. */
  lemma ApiPathExemptByRemainder(rest: string, routes: seq<string>)
    ensures Exempt(ApiPrefix + rest, routes) <==> exists i :: 0 <= i < |routes| && EqualFold(rest, routes[i])
  {
    assert (ApiPrefix + rest)[|ApiPrefix|..] == rest;
  }

  /** A longer path is never exempted by a route it merely starts with: matching is not by prefix. */
  lemma LongerPathNotExempt(path: string, routes: seq<string>)
    requires forall i :: 0 <= i < |routes| ==> |routes[i]| < |StrippedPath(path)|
    ensures !Exempt(path, routes)
  {
  }

  /** With an empty configured prefix the whole Authorization header is the token. */
  lemma EmptyPrefixTakesWholeHeader(ctx: Ctx, config: JwtConfig)
    requires config.tokenPrefix == ""
    ensures ExtractToken(ctx, config) == Header(ctx, AuthorizationHeader)
  {
    assert "" + ExtractToken(ctx, config) == ExtractToken(ctx, config);
  }

  /** A header built from the configured prefix and a token gives that token back. */
  lemma PrefixedTokenExtracted(ctx: Ctx, config: JwtConfig, token: string)
    requires Header(ctx, AuthorizationHeader) == config.tokenPrefix + token
    ensures ExtractToken(ctx, config) == token
  {
    assert (config.tokenPrefix + token)[|config.tokenPrefix|..] == token;
  }

  /** Passing the gate adds the claims and touches nothing else: path and headers stay as they were. */
  lemma GateOnlyStoresClaims(config: JwtConfig, routes: seq<string>, parse: JwtMiddleware.Parser, ctx: Ctx)
    requires Gate(config, routes, parse, ctx).Next?
    ensures Gate(config, routes, parse, ctx).ctx.path == ctx.path
    ensures Gate(config, routes, parse, ctx).ctx.headers == ctx.headers
    ensures forall slot :: slot != ClaimsSlot && slot in ctx.values ==>
              slot in Gate(config, routes, parse, ctx).ctx.values && Gate(config, routes, parse, ctx).ctx.values[slot] == ctx.values[slot]
  {
  }

  // Tokens

  /** `GenerateToken` of this file: signs fresh claims under the given configuration. */
  function GenerateToken(userId: Int64, role: string, config: JwtConfig, now: Instant, sign: JwtMiddleware.Signer): (r: Result<string, Error>)
    ensures r == JwtMiddleware.GenerateToken(userId, role, Some(config), now, sign)
  {
    sign(NewClaims(userId, role, now, config), config)
  }

  // Handlers

  /** `LoginRequest`: the credentials a client posts. */
  datatype LoginRequest = LoginRequest(email: string, password: string)

  const BlankLoginRequest := LoginRequest("", "")

  /** `UserInfo`: the account as the login response shows it. */
  datatype UserInfo = UserInfo(id: Int64, email: string, name: string, role: string, createdAt: Instant)

  /** `LoginResponse`: both tokens, the access token's expiry, and who logged in. */
  datatype LoginResponse = LoginResponse(token: string, refreshToken: string, expiresAt: Instant, user: UserInfo)

  /** The refresh response: the new token and when it expires. */
  datatype RefreshResponse = RefreshResponse(token: string, expiresAt: Instant)

  /** Account lookup by email; the customer domain shown has no such operation, so it is an input. */
  type Retriever = string -> Result<AccountEntity.Account, Error>

  /**
   * `HandleLogin`: the body, then the account by email (any failure is
   * `Unauthorized`), then the access token and the refresh token; 201. The
   * password is never compared with anything.
   */
  function HandleLogin(config: JwtConfig, requestId: string, body: Body<LoginRequest>, retrieve: Retriever,
                       sign: JwtMiddleware.Signer, refresh: Result<string, Error>, now: Instant): (r: Reply<LoginResponse>)
    ensures ReadBody(body, BlankLoginRequest).Failure? ==> r == Mapped(requestId, ReadBody(body, BlankLoginRequest).error)
    ensures ReadBody(body, BlankLoginRequest).Success? && retrieve(ReadBody(body, BlankLoginRequest).value.email).Failure? ==>
              r == Failed(requestId, Unauthorized)
    ensures r.Data? <==>
              ReadBody(body, BlankLoginRequest).Success? && retrieve(ReadBody(body, BlankLoginRequest).value.email).Success? &&
              GenerateToken(retrieve(ReadBody(body, BlankLoginRequest).value.email).value.id, AdminRole, config, now, sign).Success? &&
              refresh.Success?
    ensures r.Data? ==>
              var a := retrieve(ReadBody(body, BlankLoginRequest).value.email).value;
              r.status == StatusCreated && r.requestId == requestId &&
              r.data == LoginResponse(GenerateToken(a.id, AdminRole, config, now, sign).value, refresh.value, now + config.tokenExpiry,
                                      UserInfo(a.id, a.email, a.name, AdminRole, a.createdAt))
    ensures !r.Data? ==> r.Refused?
  {
    match ReadBody(body, BlankLoginRequest)
    case Failure(e) => Mapped(requestId, e)
    case Success(req) =>
      match retrieve(req.email)
      case Failure(_) => Failed(requestId, Unauthorized)
      case Success(a) =>
        match GenerateToken(a.id, AdminRole, config, now, sign)
        case Failure(e) => Failed(requestId, e)
        case Success(token) =>
          match refresh
          case Failure(e) => Failed(requestId, e)
          case Success(rt) =>
            RespondWithJSON(LoginResponse(token, rt, now + config.tokenExpiry, UserInfo(a.id, a.email, a.name, AdminRole, a.createdAt)),
                            StatusCreated, requestId)
  }

  /** `HandleLogout`: a refresh-token header is required and its value is not looked at; 200. */
  function HandleLogout(ctx: Ctx): (r: Reply<map<string, string>>)
    ensures r.Data? <==> Header(ctx, RefreshTokenHeader) != ""
    ensures !r.Data? ==> r == Failed(RequestId(ctx), Unauthorized)
    ensures r.Data? ==> r.status == StatusOK && r.requestId == RequestId(ctx) && r.data == map["message" := LoggedOutMessage]
  {
    if Header(ctx, RefreshTokenHeader) == "" then Failed(RequestId(ctx), Unauthorized)
    else RespondWithJSON(map["message" := LoggedOutMessage], StatusOK, RequestId(ctx))
  }

  /**
   * `HandleRefreshToken`: a refresh-token header, the body, the account by
   * email (any failure is `Unauthorized`), then a new access token; 200.
   */
  function HandleRefreshToken(config: JwtConfig, ctx: Ctx, body: Body<LoginRequest>, retrieve: Retriever,
                              sign: JwtMiddleware.Signer, now: Instant): (r: Reply<RefreshResponse>)
    ensures Header(ctx, RefreshTokenHeader) == "" ==> r == Failed(RequestId(ctx), Unauthorized)
    ensures Header(ctx, RefreshTokenHeader) != "" && ReadBody(body, BlankLoginRequest).Failure? ==>
              r == Mapped(RequestId(ctx), ReadBody(body, BlankLoginRequest).error)
    ensures Header(ctx, RefreshTokenHeader) != "" && ReadBody(body, BlankLoginRequest).Success? &&
            retrieve(ReadBody(body, BlankLoginRequest).value.email).Failure? ==>
              r == Failed(RequestId(ctx), Unauthorized)
    ensures r.Data? <==>
              Header(ctx, RefreshTokenHeader) != "" &&
              ReadBody(body, BlankLoginRequest).Success? && retrieve(ReadBody(body, BlankLoginRequest).value.email).Success? &&
              GenerateToken(retrieve(ReadBody(body, BlankLoginRequest).value.email).value.id, AdminRole, config, now, sign).Success?
    ensures r.Data? ==>
              var a := retrieve(ReadBody(body, BlankLoginRequest).value.email).value;
              r.status == StatusOK && r.requestId == RequestId(ctx) &&
              r.data == RefreshResponse(GenerateToken(a.id, AdminRole, config, now, sign).value, now + config.tokenExpiry)
    ensures !r.Data? ==> r.Refused?
  {
    var requestId := RequestId(ctx);
    if Header(ctx, RefreshTokenHeader) == "" then Failed(requestId, Unauthorized)
    else match ReadBody(body, BlankLoginRequest)
      case Failure(e) => Mapped(requestId, e)
      case Success(req) =>
        match retrieve(req.email)
        case Failure(_) => Failed(requestId, Unauthorized)
        case Success(a) =>
          match GenerateToken(a.id, AdminRole, config, now, sign)
          case Failure(e) => Failed(requestId, e)
          case Success(token) => RespondWithJSON(RefreshResponse(token, now + config.tokenExpiry), StatusOK, requestId)
  }

  // What the handlers promise together

  /** The password plays no part: two logins differing only in the password get the same answer. */
  lemma PasswordIgnored(config: JwtConfig, requestId: string, b1: Body<LoginRequest>, b2: Body<LoginRequest>, retrieve: Retriever,
                        sign: JwtMiddleware.Signer, refresh: Result<string, Error>, now: Instant)
    requires ReadBody(b1, BlankLoginRequest).Success? && ReadBody(b2, BlankLoginRequest).Success?
    requires ReadBody(b1, BlankLoginRequest).value.email == ReadBody(b2, BlankLoginRequest).value.email
    ensures HandleLogin(config, requestId, b1, retrieve, sign, refresh, now) == HandleLogin(config, requestId, b2, retrieve, sign, refresh, now)
  {
  }

  /** Every failed lookup, whatever its cause, is answered 401 with the unauthorized code. */
  lemma UnknownEmailIs401(config: JwtConfig, requestId: string, body: Body<LoginRequest>, retrieve: Retriever,
                          sign: JwtMiddleware.Signer, refresh: Result<string, Error>, now: Instant)
    requires ReadBody(body, BlankLoginRequest).Success? && retrieve(ReadBody(body, BlankLoginRequest).value.email).Failure?
    ensures HandleLogin(config, requestId, body, retrieve, sign, refresh, now).failure.status == StatusUnauthorized
    ensures HandleLogin(config, requestId, body, retrieve, sign, refresh, now).failure.body.code == Code(Unauthorized)
  {
    ErrorStatuses(requestId, Unauthorized);
  }

  /**
   * A login signs administrator claims for the account found, and the
   * expiry it reports is the token's expiry to the second.
   */
  lemma LoginIssuesAdminToken(config: JwtConfig, requestId: string, body: Body<LoginRequest>, retrieve: Retriever,
                              sign: JwtMiddleware.Signer, refresh: Result<string, Error>, now: Instant)
    requires HandleLogin(config, requestId, body, retrieve, sign, refresh, now).Data?
    ensures var r := HandleLogin(config, requestId, body, retrieve, sign, refresh, now);
            var c := NewClaims(r.data.user.id, AdminRole, now, config);
            r.data.token == sign(c, config).value &&
            c.userId == r.data.user.id && c.role == AdminRole && r.data.user.role == AdminRole &&
            c.expiresAt == UnixSeconds(r.data.expiresAt) && c.issuedAt == UnixSeconds(now)
  {
  }

  /** The logout answer depends only on whether the header is there, never on its value. */
  lemma LogoutAcceptsAnyToken(ctx: Ctx, token1: string, token2: string)
    requires token1 != "" && token2 != ""
    ensures HandleLogout(ctx.(headers := ctx.headers[RefreshTokenHeader := token1]))
              == HandleLogout(ctx.(headers := ctx.headers[RefreshTokenHeader := token2]))
    ensures HandleLogout(ctx.(headers := ctx.headers[RefreshTokenHeader := token1])).Data?
  {
  }

  /** Refresh ignores the refresh token's value too, and issues the token a login with the same body would. */
  lemma RefreshLikeLogin(config: JwtConfig, ctx: Ctx, body: Body<LoginRequest>, retrieve: Retriever,
                         sign: JwtMiddleware.Signer, refresh: Result<string, Error>, now: Instant)
    requires HandleRefreshToken(config, ctx, body, retrieve, sign, now).Data?
    requires HandleLogin(config, RequestId(ctx), body, retrieve, sign, refresh, now).Data?
    ensures HandleRefreshToken(config, ctx, body, retrieve, sign, now).data.token
              == HandleLogin(config, RequestId(ctx), body, retrieve, sign, refresh, now).data.token
    ensures HandleRefreshToken(config, ctx, body, retrieve, sign, now).data.expiresAt
              == HandleLogin(config, RequestId(ctx), body, retrieve, sign, refresh, now).data.expiresAt
  {
  }
}
