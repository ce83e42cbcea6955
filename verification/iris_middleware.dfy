/** The two middlewares that run before the JWT gate: path lowercasing and request-id assignment. */
module IrisMiddleware {

  import opened Strings
  import opened RequestContext

  /** `CaselessMatcherMiddleware`: the path is replaced by its lowercase form; the chain always continues. */
  function CaselessMatcher(ctx: Ctx): (r: Ctx)
    ensures r.path == ToLower(ctx.path)
    ensures r.headers == ctx.headers && r.values == ctx.values
  {
    ctx.(path := ToLower(ctx.path))
  }

  /** Running the matcher twice is running it once. */
  lemma CaselessMatcherIdempotent(ctx: Ctx)
    ensures CaselessMatcher(CaselessMatcher(ctx)) == CaselessMatcher(ctx)
  {
    ToLowerIdempotent(ctx.path);
  }

  /**
   * `RequestIDMiddleware`: a non-empty request-id header is kept verbatim;
   * otherwise the freshly generated id (`uuid.NewString()`, an input here)
   * is used. The chain always continues.
   */
  function AssignRequestId(ctx: Ctx, generated: string): (r: Ctx)
    ensures Header(ctx, RequestIdHeader) != "" ==> RequestId(r) == Header(ctx, RequestIdHeader)
    ensures Header(ctx, RequestIdHeader) == "" ==> RequestId(r) == generated
    ensures r.path == ctx.path && r.headers == ctx.headers
    ensures forall s :: s != RequestIdSlot ==> (s in r.values <==> s in ctx.values)
    ensures forall s :: s != RequestIdSlot && s in ctx.values ==> r.values[s] == ctx.values[s]
  {
    var requestId := Header(ctx, RequestIdHeader);
    var id := if |requestId| == 0 then generated else requestId;
    ctx.(values := ctx.values[RequestIdSlot := TextValue(id)])
  }

  /** Every request leaves the middleware with a non-empty id, given a non-empty generator. */
  lemma RequestIdNeverEmpty(ctx: Ctx, generated: string)
    requires generated != ""
    ensures RequestId(AssignRequestId(ctx, generated)) != ""
  {
  }
}

/**
 * The server's middleware chain: access log, caseless matcher, request id,
 * then the JWT gate built from the default configuration with the escaped
 * routes "/login", "/logout", "/refresh" and "/health".
 */
module Pipeline {

  import opened Wrappers
  import opened Strings
  import opened Tokens
  import opened RequestContext
  import opened JwtMiddleware
  import opened IrisMiddleware

  const EscapedRoutes: seq<string> := ["/login", "/logout", "/refresh", "/health"]
  const ApiPrefix := "/api"

  /** One request through the chain: the handler runs on `Next`, never on `Halt`. */
  function Serve(ctx: Ctx, freshId: string, parse: Parser): (r: GateOutcome)
    ensures r.Halt? ==> r.reply.body.requestId == RequestId(AssignRequestId(CaselessMatcher(ctx), freshId))
    ensures MatchesEscaped(ToLower(ctx.path), EscapedRoutes) ==> r.Next?
  {
    Gate(None, EscapedRoutes, parse, AssignRequestId(CaselessMatcher(ctx), freshId))
  }

  /**
   * Every route the server mounts lives under "/api", so no such path is ever
   * exempt: login, logout and refresh themselves demand a bearer token.
   */
  lemma ApiPathsAreNeverEscaped(path: string)
    requires HasPrefix(ToLower(path), ApiPrefix)
    ensures !MatchesEscaped(ToLower(path), EscapedRoutes)
  {
    var p := ToLower(path);
    assert p[1] == 'a';
    forall i | 0 <= i < |EscapedRoutes|
      ensures !HasPrefix(p, EscapedRoutes[i])
    {
      assert EscapedRoutes[i][1] != 'a';
    }
  }

  /** Consequently a mounted route without a token is always refused. */
  lemma ApiRouteWithoutTokenRefused(ctx: Ctx, freshId: string, parse: Parser)
    requires HasPrefix(ToLower(ctx.path), ApiPrefix)
    requires AuthorizationHeader !in ctx.headers
    ensures Serve(ctx, freshId, parse).Halt?
    ensures Serve(ctx, freshId, parse).reply.status == 401
  {
    ApiPathsAreNeverEscaped(ctx.path);
    RefusalIs401(AssignRequestId(CaselessMatcher(ctx), freshId), parse);
  }

  lemma RefusalIs401(ctx: Ctx, parse: Parser)
    requires Gate(None, EscapedRoutes, parse, ctx).Halt?
    ensures Gate(None, EscapedRoutes, parse, ctx).reply.status == 401
  {
    RefusalHidesCause(None, EscapedRoutes, parse, parse, ctx);
  }

  /** The gate sees the lowered path, so exemption ignores the case of the request path. */
  lemma ExemptionIgnoresCase(ctx1: Ctx, ctx2: Ctx, freshId: string, parse: Parser)
    requires ToLower(ctx1.path) == ToLower(ctx2.path)
    requires MatchesEscaped(ToLower(ctx1.path), EscapedRoutes)
    ensures Serve(ctx1, freshId, parse).Next? && Serve(ctx2, freshId, parse).Next?
  {
  }

  /** An escaped request reaches its handler with the context unchanged apart from path case and request id. */
  lemma EscapedRequestPassesUntouched(ctx: Ctx, freshId: string, parse: Parser)
    requires MatchesEscaped(ToLower(ctx.path), EscapedRoutes)
    ensures Serve(ctx, freshId, parse) == Next(AssignRequestId(CaselessMatcher(ctx), freshId))
  {
  }
}
