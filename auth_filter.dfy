/** The HTTP access decision (`JwtAuthenticationFilter`): which requests reach
    the controllers, which get 401 or 403, and which request attributes a
    valid bearer token sets. */
module AuthFilter {
  import opened Wrappers
  import opened JavaText
  import opened Tokens

  /** What the filter reads from a request. */
  datatype Request = Request(httpMethod: string, servletPath: string, authorization: Option<string>)

  /** The request attributes the filter sets. */
  datatype Attribute = Id | UserType | Username | AdminId | AdminUsername | AdminRole | UserId

  /** The attribute's name as controllers read it. */
  function AttributeName(a: Attribute): string
  {
    match a
    case Id => "id"
    case UserType => "userType"
    case Username => "username"
    case AdminId => "adminId"
    case AdminUsername => "adminUsername"
    case AdminRole => "adminRole"
    case UserId => "userId"
  }

  /** A request attribute's value: a `Long` or a `String`, either possibly null. */
  datatype AttrValue = LongAttr(n: Option<int>) | TextAttr(s: Option<string>)

  /** Whether the chain goes on, or which error response is written. */
  datatype Verdict = Pass | Unauthorized(message: string) | Forbidden(message: string)

  /** The attributes the filter sets and its verdict. */
  datatype Decision = Decision(attributes: map<Attribute, AttrValue>, verdict: Verdict)

  const PublicPaths: seq<string> := [
    "/api/auth/", "/websocket", "/api/cors-test/", "/api/test/", "/public/",
    "/debug", "/bypass", "/direct", "/minimal", "/error",
    "/api/user/login", "/api/user/register", "/api/user/logout", "/api/user/cors-test",
    "/api/admin/login"
  ]

  const BearerPrefix: string := "Bearer "
  const AdminPrefix: string := "/api/admin/"

  /** `PUBLIC_PATHS.stream().anyMatch(path::startsWith)`. */
  predicate IsPublicPath(path: string)
  {
    exists k | 0 <= k < |PublicPaths| :: StartsWith(path, PublicPaths[k])
  }

  lemma StartsWithExtends(path: string, suffix: string, prefix: string)
    requires StartsWith(path, prefix)
    ensures StartsWith(path + suffix, prefix)
  {
    assert (path + suffix)[..|prefix|] == path[..|prefix|];
  }

  /** Public matching is by prefix: anything below a public path is public. */
  lemma PublicPathExtends(path: string, suffix: string)
    requires IsPublicPath(path)
    ensures IsPublicPath(path + suffix)
  {
    var k :| 0 <= k < |PublicPaths| && StartsWith(path, PublicPaths[k]);
    StartsWithExtends(path, suffix, PublicPaths[k]);
  }

  /** `"OPTIONS".equalsIgnoreCase(method)`: a CORS preflight request. The
      literal is upper case already, so only the method is upper-cased. */
  predicate IsPreflight(httpMethod: string)
  {
    ToUpper(httpMethod) == "OPTIONS"
  }

  /** The preflight test is the case-insensitive comparison with "OPTIONS". */
  lemma PreflightIgnoresCase(httpMethod: string)
    ensures IsPreflight(httpMethod) <==> EqualsIgnoreCase(httpMethod, "OPTIONS")
  {
    assert ToUpper("OPTIONS") == "OPTIONS";
  }

  /** `shouldNotFilter`: static resources skip the filter altogether. */
  predicate ShouldNotFilter(path: string)
  {
    StartsWith(path, "/swagger") || StartsWith(path, "/v3/api-docs") ||
    StartsWith(path, "/webjars") || StartsWith(path, "/favicon.ico")
  }

  /** The static exclusion is by prefix too: anything below an excluded path
      skips the filter. */
  lemma SkippedPathExtends(path: string, suffix: string)
    requires ShouldNotFilter(path)
    ensures ShouldNotFilter(path + suffix)
  {
    if StartsWith(path, "/swagger") {
      StartsWithExtends(path, suffix, "/swagger");
    } else if StartsWith(path, "/v3/api-docs") {
      StartsWithExtends(path, suffix, "/v3/api-docs");
    } else if StartsWith(path, "/webjars") {
      StartsWithExtends(path, suffix, "/webjars");
    } else {
      StartsWithExtends(path, suffix, "/favicon.ico");
    }
  }

  /** The attributes lines 84-97 set from a valid token's claims. */
  function ClaimAttributes(c: Claims): (m: map<Attribute, AttrValue>)
    ensures c.kind == Some(AdminKind) ==>
      m.Keys == {Id, UserType, Username, AdminId, AdminUsername, AdminRole} &&
      m[AdminId] == LongAttr(c.id) && m[AdminUsername] == TextAttr(c.username) &&
      m[AdminRole] == TextAttr(Some("admin"))
    ensures c.kind != Some(AdminKind) ==>
      m.Keys == {Id, UserType, Username, UserId} && m[UserId] == LongAttr(c.id)
    ensures Id in m && m[Id] == LongAttr(c.id) && UserType in m && m[UserType] == TextAttr(c.kind) &&
            Username in m && m[Username] == TextAttr(c.username)
  {
    var common := map[Id := LongAttr(c.id), UserType := TextAttr(c.kind), Username := TextAttr(c.username)];
    if c.kind == Some(AdminKind) then
      common[AdminId := LongAttr(c.id)][AdminUsername := TextAttr(c.username)][AdminRole := TextAttr(Some("admin"))]
    else common[UserId := LongAttr(c.id)]
  }

  /** Setting the claim attributes one by one over `m` is merging them in. */
  lemma ClaimAttributesOneByOne(m: map<Attribute, AttrValue>, c: Claims)
    ensures var common := m[Id := LongAttr(c.id)][UserType := TextAttr(c.kind)][Username := TextAttr(c.username)];
      m + ClaimAttributes(c) ==
        if c.kind == Some(AdminKind) then
          common[AdminId := LongAttr(c.id)][AdminUsername := TextAttr(c.username)][AdminRole := TextAttr(Some("admin"))]
        else common[UserId := LongAttr(c.id)]
  {
  }

  /** `doFilterInternal`'s decision. */
  function Decide(req: Request, v: Verifier): (d: Decision)
    ensures IsPreflight(req.httpMethod) ==> d == Decision(map[], Pass)
    ensures IsPublicPath(req.servletPath) ==> d == Decision(map[], Pass)
    ensures !IsPreflight(req.httpMethod) && !IsPublicPath(req.servletPath) ==>
      if req.authorization.None? || !StartsWith(req.authorization.value, BearerPrefix) then
        d == Decision(map[], Unauthorized("请提供有效的Token"))
      else match Check(v, req.authorization.value[|BearerPrefix|..])
        case Invalid => d == Decision(map[], Unauthorized("Token无效或已过期"))
        case ClaimError(m) => d == Decision(map[], Unauthorized("Token解析失败: " + m))
        case Valid(c) =>
          d.attributes == ClaimAttributes(c) &&
          (c.id.None? ==> d.verdict == Unauthorized("未授权访问")) &&
          (c.id.Some? && StartsWith(req.servletPath, AdminPrefix) && c.kind != Some(AdminKind) ==>
             d.verdict == Forbidden("权限不足，需要管理员权限")) &&
          (d.verdict.Pass? <==> c.id.Some? && (!StartsWith(req.servletPath, AdminPrefix) || c.kind == Some(AdminKind)))
  {
    if IsPreflight(req.httpMethod) then Decision(map[], Pass)
    else if IsPublicPath(req.servletPath) then Decision(map[], Pass)
    else if req.authorization.None? || !StartsWith(req.authorization.value, BearerPrefix) then
      Decision(map[], Unauthorized("请提供有效的Token"))
    else
      var token := req.authorization.value[|BearerPrefix|..];
      match Check(v, token)
      case Invalid => Decision(map[], Unauthorized("Token无效或已过期"))
      case ClaimError(m) => Decision(map[], Unauthorized("Token解析失败: " + m))
      case Valid(c) =>
        var attrs := ClaimAttributes(c);
        if c.id.None? then Decision(attrs, Unauthorized("未授权访问"))
        else if StartsWith(req.servletPath, AdminPrefix) && c.kind != Some(AdminKind) then
          Decision(attrs, Forbidden("权限不足，需要管理员权限"))
        else Decision(attrs, Pass)
  }

  /** The fixed parts of the JSON error body around the code and the message. */
  const ErrorHead: string := "{\"code\":"
  const ErrorMiddle: string := ",\"success\":false,\"message\":\""
  const ErrorTail: string := "\"}"

  /** The JSON body `sendUnauthorizedError` / `sendForbiddenError` write. */
  function ErrorBody(code: int, message: string): string
  {
    ErrorHead + DecimalString(code) + ErrorMiddle + message + ErrorTail
  }

  /** The code can be read back from the error body after the head, and the
      message just before the closing brace. */
  lemma ErrorBodyReadsBack(code: int, message: string)
    ensures var r, d := ErrorBody(code, message), DecimalString(code);
      StartsWith(r, ErrorHead) &&
      |r| == |ErrorHead| + |d| + |ErrorMiddle| + |message| + |ErrorTail| &&
      r[|ErrorHead|..|ErrorHead| + |d|] == d &&
      r[|r| - |ErrorTail| - |message|..|r| - |ErrorTail|] == message &&
      (InLongRange(code) ==> ParseLong(r[|ErrorHead|..|ErrorHead| + |d|]) == Some(code))
  {
    var r, d := ErrorBody(code, message), DecimalString(code);
    assert r == ErrorHead + (d + (ErrorMiddle + message + ErrorTail));
    assert r == (ErrorHead + d + ErrorMiddle) + message + ErrorTail;
    ParseDecimalString(code);
  }

  /** One request/response pair passing through the filter. */
  class HttpExchange {
    var attributes: map<Attribute, AttrValue>
    var status: int
    var body: string
    var chainInvoked: bool

    constructor ()
      ensures attributes == map[] && status == 200 && body == "" && !chainInvoked
    {
      attributes := map[];
      status := 200;
      body := "";
      chainInvoked := false;
    }

    method SendError(code: int, message: string)
      modifies this`status, this`body
      ensures status == code && body == ErrorBody(code, message)
    {
      status := code;
      body := ErrorBody(code, message);
    }

    method SetClaimAttributes(c: Claims)
      modifies this`attributes
      ensures attributes == old(attributes) + ClaimAttributes(c)
    {
      ClaimAttributesOneByOne(attributes, c);
      attributes := attributes[Id := LongAttr(c.id)];
      attributes := attributes[UserType := TextAttr(c.kind)];
      attributes := attributes[Username := TextAttr(c.username)];
      if c.kind == Some(AdminKind) {
        attributes := attributes[AdminId := LongAttr(c.id)];
        attributes := attributes[AdminUsername := TextAttr(c.username)];
        attributes := attributes[AdminRole := TextAttr(Some("admin"))];
      } else {
        attributes := attributes[UserId := LongAttr(c.id)];
      }
    }

    /** `doFilterInternal(request, response, chain)`. */
    method DoFilterInternal(req: Request, v: Verifier)
      requires !chainInvoked
      modifies this
      ensures attributes == old(attributes) + Decide(req, v).attributes
      ensures chainInvoked <==> Decide(req, v).verdict.Pass?
      ensures match Decide(req, v).verdict
        case Pass => status == old(status) && body == old(body)
        case Unauthorized(m) => status == 401 && body == ErrorBody(401, m)
        case Forbidden(m) => status == 403 && body == ErrorBody(403, m)
    {
      ghost var d := Decide(req, v);
      if IsPreflight(req.httpMethod) {
        assert d == Decision(map[], Pass);
        chainInvoked := true;
        return;
      }
      if IsPublicPath(req.servletPath) {
        assert d == Decision(map[], Pass);
        chainInvoked := true;
        return;
      }
      if req.authorization.None? || !StartsWith(req.authorization.value, BearerPrefix) {
        assert d == Decision(map[], Unauthorized("请提供有效的Token"));
        SendError(401, "请提供有效的Token");
        return;
      }
      var token := req.authorization.value[|BearerPrefix|..];
      match Check(v, token)
      case Invalid =>
        assert d == Decision(map[], Unauthorized("Token无效或已过期"));
        SendError(401, "Token无效或已过期");
      case ClaimError(m) =>
        assert d == Decision(map[], Unauthorized("Token解析失败: " + m));
        SendError(401, "Token解析失败: " + m);
      case Valid(c) =>
        assert d.attributes == ClaimAttributes(c);
        SetClaimAttributes(c);
        if c.id.None? {
          assert d.verdict == Unauthorized("未授权访问");
          SendError(401, "未授权访问");
          return;
        }
        if StartsWith(req.servletPath, AdminPrefix) && c.kind != Some(AdminKind) {
          assert d.verdict == Forbidden("权限不足，需要管理员权限");
          SendError(403, "权限不足，需要管理员权限");
          return;
        }
        assert d.verdict == Pass;
        chainInvoked := true;
    }

    /** `OncePerRequestFilter.doFilter`: excluded paths go straight down the
        chain, untouched. */
    method DoFilter(req: Request, v: Verifier)
      requires !chainInvoked
      modifies this
      ensures ShouldNotFilter(req.servletPath) ==>
        chainInvoked && attributes == old(attributes) && status == old(status) && body == old(body)
      ensures !ShouldNotFilter(req.servletPath) ==>
        attributes == old(attributes) + Decide(req, v).attributes &&
        (chainInvoked <==> Decide(req, v).verdict.Pass?)
    {
      if ShouldNotFilter(req.servletPath) {
        chainInvoked := true;
      } else {
        DoFilterInternal(req, v);
      }
    }
  }

  // ---------------------------------------------------------------------------
  // Properties

  /** Past the OPTIONS and public-path exits, only a valid bearer token with
      an id passes, and under `/api/admin/` only an ADMIN one. */
  lemma PassNeedsCredentials(req: Request, v: Verifier)
    requires Decide(req, v).verdict.Pass?
    requires !IsPreflight(req.httpMethod) && !IsPublicPath(req.servletPath)
    ensures req.authorization.Some? && StartsWith(req.authorization.value, BearerPrefix)
    ensures var t := Check(v, req.authorization.value[|BearerPrefix|..]);
      t.Valid? && t.claims.id.Some? &&
      (StartsWith(req.servletPath, AdminPrefix) ==> t.claims.kind == Some(AdminKind))
  {
  }

  lemma DiffersAt(s: string, prefix: string, i: int)
    requires 0 <= i < |prefix| && i < |s| && s[i] != prefix[i]
    ensures !StartsWith(s, prefix)
  {
    if |prefix| <= |s| {
      assert s[..|prefix|][i] == s[i];
    }
  }

  /** Public matching is by prefix: "/debug-raw" passes by way of "/debug". */
  lemma PrefixMakesPublic(v: Verifier)
    ensures Decide(Request("GET", "/debug-raw", None), v).verdict == Pass
  {
    assert StartsWith("/debug-raw", PublicPaths[5]);
  }

  /** `/api/admin/users` matches none of the public prefixes. */
  lemma AdminUsersNotPublic()
    ensures !IsPublicPath("/api/admin/users")
  {
    var path := "/api/admin/users";
    forall k | 0 <= k < |PublicPaths|
      ensures !StartsWith(path, PublicPaths[k])
    {
      var i := if k == 1 || 4 <= k <= 9 then 1 else if k == 0 then 6 else if k == 14 then 11 else 5;
      DiffersAt(path, PublicPaths[k], i);
    }
  }

  /** The admin login is public although it lies under `/api/admin/`, while
      any other admin path refuses a USER token with 403. */
  lemma AdminLoginIsPublic(v: Verifier, token: string, id: int)
    requires Check(v, token) == Valid(Claims(Some(id), Some(UserKind), None))
    ensures Decide(Request("POST", "/api/admin/login", None), v).verdict == Pass
    ensures Decide(Request("GET", "/api/admin/users", Some(BearerPrefix + token)), v).verdict
         == Forbidden("权限不足，需要管理员权限")
  {
    assert StartsWith("/api/admin/login", PublicPaths[14]);
    AdminUsersNotPublic();
    assert StartsWith("/api/admin/users", AdminPrefix);
    assert (BearerPrefix + token)[|BearerPrefix|..] == token;
  }
}
