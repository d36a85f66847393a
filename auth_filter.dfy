/**
 * `JwtAuthenticationFilter`: the request filter that turns a valid Bearer token into
 * an authenticated principal, and the list of paths it skips.
 */
module AuthFilter {
  import opened Wrappers
  import opened Text
  import opened Time
  import opened Uuid
  import opened Jwt

  /** The parts of an `HttpServletRequest` the filter reads. */
  datatype Request = Request(uri: string, authorization: Option<string>)

  /** `Web3AuthenticatedUser`: the principal, carrying the user id and the wallet. */
  datatype Web3AuthenticatedUser = Web3AuthenticatedUser(userId: string, walletAddress: string)

  /** The `UsernamePasswordAuthenticationToken` the filter builds. */
  datatype Authentication = Authentication(principal: Web3AuthenticatedUser, credentials: string, authorities: seq<string>)

  const RoleUser: string := "ROLE_USER"

  /** `shouldNotFilter`: the public paths, which never reach `doFilterInternal`. */
  predicate ShouldNotFilter(path: string) {
    || StartsWith(path, "/auth/") || StartsWith(path, "/public/")
    || path == "/health" || path == "/"
    || StartsWith(path, "/swagger-") || StartsWith(path, "/v3/api-docs") || StartsWith(path, "/actuator/")
  }

  /** The application's own endpoints, and near misses of the public list, are always filtered. */
  lemma ProtectedPathsFiltered(path: string)
    requires StartsWith(path, "/model/") || StartsWith(path, "/voice/") || StartsWith(path, "/nft/")
             || path == "/auth" || path == "/healthz"
    ensures !ShouldNotFilter(path)
  {
    if StartsWith(path, "/model/") {
      assert path[..7][1] == path[1] && path[..7][2] == path[2];
      NotPublic(path);
    } else if StartsWith(path, "/voice/") {
      assert path[..7][1] == path[1] && path[..7][2] == path[2];
      NotPublic(path);
    } else if StartsWith(path, "/nft/") {
      assert path[..5][1] == path[1] && path[..5][2] == path[2];
      NotPublic(path);
    }
  }

  /** A string whose character `i` differs from the prefix's does not start with it. */
  lemma NotPrefixAt(s: string, prefix: string, i: nat)
    requires i < |prefix| && i < |s| && s[i] != prefix[i]
    ensures !StartsWith(s, prefix)
  {
    if |prefix| <= |s| {
      assert s[..|prefix|][i] == s[i];
    }
  }

  /** A path whose second and third characters match no public entry is filtered. */
  lemma NotPublic(path: string)
    requires |path| >= 3 && path[1] !in "apsh" && (path[1] == 'v' ==> path[2] != '3')
    ensures !ShouldNotFilter(path)
  {
    NotPrefixAt(path, "/auth/", 1);
    NotPrefixAt(path, "/public/", 1);
    NotPrefixAt(path, "/swagger-", 1);
    NotPrefixAt(path, "/actuator/", 1);
    NotPrefixAt(path, "/v3/api-docs", if path[1] == 'v' then 2 else 1);
    assert path[1] != "/health"[1];
  }

  /**
   * The decision of `doFilterInternal`: an authentication exactly when a token is
   * extracted, it validates, and both the user id and the wallet claims are present.
   */
  function Authenticate(request: Request, now: Instant, jwt: JwtUtil, parse: Parse): (a: Option<Authentication>)
    reads jwt
    ensures a.Some? ==> ExtractToken(request.authorization).Some?
    ensures a.Some? ==> jwt.ParseAndValidate(ExtractToken(request.authorization).value, now, parse).Some?
    ensures a.Some? ==>
      var t := jwt.ParseAndValidate(ExtractToken(request.authorization).value, now, parse).value;
      GetUserId(t).Some? && GetWalletAddress(t).Some?
      && a.value == Authentication(Web3AuthenticatedUser(GetUserId(t).value, GetWalletAddress(t).value),
                                   GetWalletAddress(t).value, [RoleUser])
    ensures ExtractToken(request.authorization).Some?
            && jwt.ParseAndValidate(ExtractToken(request.authorization).value, now, parse).Some?
            && GetUserId(jwt.ParseAndValidate(ExtractToken(request.authorization).value, now, parse).value).Some?
            && GetWalletAddress(jwt.ParseAndValidate(ExtractToken(request.authorization).value, now, parse).value).Some?
            ==> a.Some?
  {
    match ExtractToken(request.authorization)
    case None => None
    case Some(token) =>
      match jwt.ParseAndValidate(token, now, parse)
      case None => None
      case Some(t) =>
        match (GetUserId(t), GetWalletAddress(t))
        case (Some(userId), Some(wallet)) =>
          Some(Authentication(Web3AuthenticatedUser(userId, wallet), wallet, [RoleUser]))
        case _ => None
  }

  /**
   * End to end: a request bearing a token this service issued for a trimmed wallet and a
   * user id authenticates, within the token's lifetime, as exactly that user with the
   * wallet in lower case (a checksum-form wallet is lowered by the claim getter) and the
   * single role `ROLE_USER`.
   */
  lemma IssuedTokenAuthenticates(jwt: JwtUtil, userId: string, wallet: string, ttl: int, issued: Instant,
                                 jwtId: Uuid, token: string, parse: Parse, now: Instant)
    requires jwt.CreateToken(userId, wallet, ttl, issued, jwtId).Some?
    requires parse(token) == jwt.CreateToken(userId, wallet, ttl, issued, jwtId)
    requires token != [] && !IsTrimmable(token[0]) && !IsTrimmable(token[|token| - 1])
    requires wallet != [] && !IsTrimmable(wallet[0]) && !IsTrimmable(wallet[|wallet| - 1])
    requires userId != [] && !IsTrimmable(userId[0]) && !IsTrimmable(userId[|userId| - 1])
    requires issued <= now <= issued + ttl
    ensures Authenticate(Request("/model/1", Some("Bearer " + token)), now, jwt, parse)
         == Some(Authentication(Web3AuthenticatedUser(userId, ToLower(wallet)), ToLower(wallet), [RoleUser]))
  {
    var request := Request("/model/1", Some("Bearer " + token));
    assert ExtractToken(request.authorization) == Some(token) by {
      ExtractTokenRoundTrip("Bearer ", token);
    }
    var t := parse(token).value;
    assert jwt.ParseAndValidate(token, now, parse) == Some(t) by {
      jwt.IssuedTokenValid(userId, wallet, ttl, issued, jwtId, token, parse, now);
    }
    var lowered := ToLower(wallet);
    assert GetUserId(t) == Some(userId) && GetWalletAddress(t) == Some(lowered) by {
      GettersRecoverClaims(t, wallet, userId);
    }
    AuthenticatesAs(request, now, jwt, parse, token, t, userId, lowered);
  }

  /** The filter's decision once the token, its validation and both claims are known. */
  lemma AuthenticatesAs(request: Request, now: Instant, jwt: JwtUtil, parse: Parse, token: string, t: Token,
                        userId: string, wallet: string)
    requires ExtractToken(request.authorization) == Some(token)
    requires jwt.ParseAndValidate(token, now, parse) == Some(t)
    requires GetUserId(t) == Some(userId) && GetWalletAddress(t) == Some(wallet)
    ensures Authenticate(request, now, jwt, parse)
         == Some(Authentication(Web3AuthenticatedUser(userId, wallet), wallet, [RoleUser]))
  {
  }

  /** A request with no usable Bearer header is never authenticated. */
  lemma NoHeaderNoAuthentication(uri: string, header: Option<string>, now: Instant, jwt: JwtUtil, parse: Parse)
    requires header.None? || Trim(header.value) == [] || |header.value| < 7 || !EqualsIgnoreCase(header.value[..7], "Bearer ")
    ensures Authenticate(Request(uri, header), now, jwt, parse).None?
  {
  }

  /** `SecurityContextHolder.getContext()`: the authentication of the current request. */
  class SecurityContext {
    var authentication: Option<Authentication>

    constructor ()
      ensures authentication.None?
    {
      authentication := None;
    }
  }

  /** The rest of the filter chain. It counts its invocations; `throwing` says whether an invocation throws. */
  class FilterChain {
    var calls: nat
    var throwing: bool

    constructor (throwing: bool)
      ensures calls == 0 && this.throwing == throwing
    {
      calls := 0;
      this.throwing := throwing;
    }

    /** `filterChain.doFilter(request, response)`; `threw` says whether it ended with an exception. */
    method DoFilter() returns (threw: bool)
      modifies this`calls
      ensures calls == old(calls) + 1 && threw == throwing
    {
      calls := calls + 1;
      threw := throwing;
    }
  }

  /**
   * `doFilterInternal` as written. The three early exits call the chain inside the
   * `try`; an exception from the chain there is caught and logged, and the chain is
   * called once more after the `catch`. With a chain that throws, a request that does
   * not authenticate therefore goes down the chain twice.
   */
  method DoFilterInternalAsWritten(request: Request, now: Instant, jwt: JwtUtil, parse: Parse,
                                   context: SecurityContext, chain: FilterChain) returns (threw: bool)
    modifies context, chain`calls
    ensures context.authentication ==
      (var a := Authenticate(request, now, jwt, parse); if a.Some? then a else old(context.authentication))
    ensures chain.calls == old(chain.calls) +
      (if Authenticate(request, now, jwt, parse).None? && chain.throwing then 2 else 1)
    ensures threw == chain.throwing
  {
    var decision := Authenticate(request, now, jwt, parse);
    if decision.None? {
      // One of the early `filterChain.doFilter(...); return;` exits.
      var caught := chain.DoFilter();
      if !caught {
        return false;
      }
    } else {
      context.authentication := decision;
    }
    threw := chain.DoFilter();
  }

  /**
   * `doFilterInternal` as intended: the authentication is set when the token checks
   * out, and the chain runs exactly once on every path.
   */
  method DoFilterInternal(request: Request, now: Instant, jwt: JwtUtil, parse: Parse,
                          context: SecurityContext, chain: FilterChain) returns (threw: bool)
    modifies context, chain`calls
    ensures context.authentication ==
      (var a := Authenticate(request, now, jwt, parse); if a.Some? then a else old(context.authentication))
    ensures chain.calls == old(chain.calls) + 1
    ensures threw == chain.throwing
  {
    var decision := Authenticate(request, now, jwt, parse);
    if decision.Some? {
      context.authentication := decision;
    }
    threw := chain.DoFilter();
  }

  /** `OncePerRequestFilter.doFilter`: public paths go straight down the chain, the others through the filter. */
  method DoFilter(request: Request, now: Instant, jwt: JwtUtil, parse: Parse,
                  context: SecurityContext, chain: FilterChain) returns (threw: bool)
    modifies context, chain`calls
    ensures ShouldNotFilter(request.uri) ==> context.authentication == old(context.authentication)
    ensures !ShouldNotFilter(request.uri) ==>
              context.authentication ==
              (var a := Authenticate(request, now, jwt, parse); if a.Some? then a else old(context.authentication))
    ensures chain.calls == old(chain.calls) + 1
    ensures threw == chain.throwing
  {
    if ShouldNotFilter(request.uri) {
      threw := chain.DoFilter();
    } else {
      threw := DoFilterInternal(request, now, jwt, parse, context, chain);
    }
  }

  /**
   * The double invocation, concretely: no Authorization header and a chain that throws.
   * The as-written filter calls the chain twice; the corrected one once.
   */
  method DoubleInvocationExample(jwt: JwtUtil, parse: Parse, now: Instant) returns (written: nat, corrected: nat)
    ensures written == 2 && corrected == 1
  {
    var request := Request("/model/1", None);
    var context := new SecurityContext();
    var chain := new FilterChain(true);
    var _ := DoFilterInternalAsWritten(request, now, jwt, parse, context, chain);
    written := chain.calls;
    var context2 := new SecurityContext();
    var chain2 := new FilterChain(true);
    var _ := DoFilterInternal(request, now, jwt, parse, context2, chain2);
    corrected := chain2.calls;
  }
}
