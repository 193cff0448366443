/** `DropboxAuth` (src/auth.js): the OAuth2 credentials of a client, the
    authorization URL (section 4.1.1 of RFC 6749, with the S256 code challenge
    of section 4.3 of RFC 7636 when PKCE is asked for), the token requests of
    the authorization-code grant (section 4.1.3 of RFC 6749) and of the
    refresh grant (section 6 of RFC 6749), and the decision whether to refresh.

    The object is a value here: every setter returns the updated state.
    `OAuth2AuthorizationUrl` and `OAuth2TokenUrl` are parameters (`Endpoint`,
    `TokenEndpoint`), the random PKCE string and the SHA-256/base64 digest are
    parameters, and `Date`s are integer milliseconds. */
module DropboxAuth {
  import opened Wrappers
  import opened Js
  import opened Query
  import Http

  /** Milliseconds before its expiry at which a token is refreshed. */
  const TokenExpirationBuffer: int := 300 * 1000
  const PkceLength: nat := 128
  const TokenAccessTypes: seq<string> := ["legacy", "offline", "online"]
  const GrantTypes: seq<string> := ["code", "token"]
  const IncludeGrantedScopes: seq<string> := ["none", "user", "team"]

  const ErrClientId: string := "A client id is required. You can set the client id using .setClientId()."
  const ErrRedirectUri: string := "A redirect uri is required."
  const ErrAuthType: string := "Authorization type must be code or token"
  const ErrTokenAccessType: string := "Token Access Type must be legacy, offline, or online"
  const ErrScope: string := "Scope must be an array of strings"
  const ErrIncludeGrantedScopes: string := "includeGrantedScopes must be none, user, or team"
  const ErrNeedsPkce: string :=
    "You must use PKCE when generating the authorization URL to not include a client secret"

  /** `OAuth2AuthorizationUrl(domain)` */
  type Endpoint = OptString -> string
  /** `OAuth2TokenUrl(domain, domainDelimiter)` */
  type TokenEndpoint = (OptString, OptString) -> string

  /** The constructor's `options` object; an absent option is `undefined`. */
  datatype Options = Options(
    accessToken: OptString,
    accessTokenExpiresAt: Option<int>,
    refreshToken: OptString,
    clientId: OptString,
    clientSecret: OptString,
    domain: OptString,
    domainDelimiter: OptString)

  const NoOptions: Options := Options(None, None, None, None, None, None, None)

  datatype Auth = Auth(
    accessToken: OptString,
    /** Expiry instant in milliseconds since the epoch. */
    accessTokenExpiresAt: Option<int>,
    refreshToken: OptString,
    clientId: OptString,
    clientSecret: OptString,
    domain: OptString,
    domainDelimiter: OptString,
    codeVerifier: OptString,
    codeChallenge: OptString)

  /** `new DropboxAuth(options)`; a missing `options` counts as `{}`. */
  function NewAuth(options: Option<Options>): (a: Auth)
    ensures options.None? ==> a == Auth(None, None, None, None, None, None, None, None, None)
    ensures options.Some? ==>
      var o := options.value;
      && a.accessToken == o.accessToken
      && a.accessTokenExpiresAt == o.accessTokenExpiresAt
      && a.refreshToken == o.refreshToken
      && a.clientId == o.clientId
      && a.clientSecret == o.clientSecret
      && a.domain == o.domain
      && a.domainDelimiter == o.domainDelimiter
    ensures a.codeVerifier.None? && a.codeChallenge.None?
  {
    var o := options.GetOr(NoOptions);
    Auth(o.accessToken, o.accessTokenExpiresAt, o.refreshToken, o.clientId,
         o.clientSecret, o.domain, o.domainDelimiter, None, None)
  }

  // ---------------------------------------------------------------------
  // Setters: each stores its value, which the matching getter (the field)
  // then returns, and leaves every other field as it was.

  function SetAccessToken(a: Auth, accessToken: OptString): (r: Auth)
    ensures r.accessToken == accessToken
    ensures r.(accessToken := a.accessToken) == a
  {
    a.(accessToken := accessToken)
  }

  function SetClientId(a: Auth, clientId: OptString): (r: Auth)
    ensures r.clientId == clientId
    ensures r.(clientId := a.clientId) == a
  {
    a.(clientId := clientId)
  }

  function SetClientSecret(a: Auth, clientSecret: OptString): (r: Auth)
    ensures r.clientSecret == clientSecret
    ensures r.(clientSecret := a.clientSecret) == a
  {
    a.(clientSecret := clientSecret)
  }

  function SetRefreshToken(a: Auth, refreshToken: OptString): (r: Auth)
    ensures r.refreshToken == refreshToken
    ensures r.(refreshToken := a.refreshToken) == a
  {
    a.(refreshToken := refreshToken)
  }

  function SetAccessTokenExpiresAt(a: Auth, expiresAt: Option<int>): (r: Auth)
    ensures r.accessTokenExpiresAt == expiresAt
    ensures r.(accessTokenExpiresAt := a.accessTokenExpiresAt) == a
  {
    a.(accessTokenExpiresAt := expiresAt)
  }

  function SetCodeVerifier(a: Auth, codeVerifier: OptString): (r: Auth)
    ensures r.codeVerifier == codeVerifier
    ensures r.(codeVerifier := a.codeVerifier) == a
  {
    a.(codeVerifier := codeVerifier)
  }

  // ---------------------------------------------------------------------
  // The authorization URL

  /** The `scope` argument: absent or falsy (the default `null`), an array of
      scopes, or something truthy that is not an array. */
  datatype ScopeArg = NoScope | Scopes(list: seq<string>) | NotAnArray

  /** `scope.join(' ')` */
  function ScopeValue(scope: ScopeArg): string {
    if scope.Scopes? then Join(scope.list, ' ') else ""
  }

  /** The arguments of `getAuthenticationUrl` after defaulting. */
  datatype AuthUrlArgs = AuthUrlArgs(
    redirectUri: OptString,
    state: OptString,
    authType: string,
    tokenAccessType: OptString,
    scope: ScopeArg,
    includeGrantedScopes: string,
    usePkce: bool)

  /** The call `getAuthenticationUrl(redirectUri, state)`, every later
      argument left to its default. */
  function DefaultAuthUrlArgs(redirectUri: OptString, state: OptString): (args: AuthUrlArgs)
    ensures args.authType == "token" && args.includeGrantedScopes == "none"
    ensures args.tokenAccessType.None? && args.scope.NoScope? && !args.usePkce
  {
    AuthUrlArgs(redirectUri, state, "token", None, NoScope, "none", false)
  }

  /** Every argument check of `getAuthenticationUrl` passes. */
  predicate ValidAuthUrlArgs(a: Auth, args: AuthUrlArgs) {
    && Truthy(a.clientId)
    && (args.authType == "code" || Truthy(args.redirectUri))
    && args.authType in GrantTypes
    && (!Truthy(args.tokenAccessType) || args.tokenAccessType.value in TokenAccessTypes)
    && !args.scope.NotAnArray?
    && args.includeGrantedScopes in IncludeGrantedScopes
  }

  /** `createBrowserSafeString(random).substr(0, 128)` */
  function CodeVerifier(random: string): (v: string)
    ensures |v| <= PkceLength && |v| <= |random| && v == random[..|v|]
    ensures |random| >= PkceLength ==> |v| == PkceLength
    ensures |random| <= PkceLength ==> v == random
  {
    if |random| <= PkceLength then random else random[..PkceLength]
  }
  /** The optional parameters of the authorization URL, in the order the
      source appends them, each with the condition under which it does. */
  function AuthorizationSteps(args: AuthUrlArgs, challenge: string): seq<Step> {
    [ Step(Truthy(args.redirectUri), "redirect_uri", Show(args.redirectUri)),
      Step(Truthy(args.state), "state", Show(args.state)),
      Step(Truthy(args.tokenAccessType), "token_access_type", Show(args.tokenAccessType)),
      Step(args.scope.Scopes?, "scope", ScopeValue(args.scope)),
      Step(args.includeGrantedScopes != "none", "include_granted_scopes", args.includeGrantedScopes) ]
    + PkceSteps(args.usePkce, challenge)
  }

  /** The S256 code challenge parameters, appended only with PKCE. */
  function PkceSteps(usePkce: bool, challenge: string): seq<Step> {
    [ Step(usePkce, "code_challenge_method", "S256"),
      Step(usePkce, "code_challenge", challenge) ]
  }

  /** The URL as the source assembles it: the response type and client id,
      then one `+=` per optional parameter. */
  function AuthorizationUrl(base: string, clientId: string, args: AuthUrlArgs, challenge: string): string {
    var responseType := if args.authType == "code" then "code" else "token";
    Apply(AddParam(Start(base, "response_type", responseType), "client_id", clientId),
          AuthorizationSteps(args, challenge))
  }

  /** The parameters the authorization URL carries, in order. */
  function AuthorizationParams(clientId: string, args: AuthUrlArgs, challenge: string): seq<Param> {
    [Param("response_type", args.authType), Param("client_id", clientId)]
    + Taken(AuthorizationSteps(args, challenge))
  }

  datatype AuthUrl = AuthUrl(url: string, auth: Auth)

  /** The synchronous part of `getAuthenticationUrl` together with the PKCE
      codes it stores: the URL and the updated state, or the error thrown. */
  function GetAuthenticationUrl(a: Auth, endpoint: Endpoint, args: AuthUrlArgs,
                                random: string, digest: string -> string): (r: Result<AuthUrl, string>)
    ensures !Truthy(a.clientId) ==> r == Failure(ErrClientId)
    ensures Truthy(a.clientId) && args.authType != "code" && !Truthy(args.redirectUri)
      ==> r == Failure(ErrRedirectUri)
    ensures Truthy(a.clientId) && (args.authType == "code" || Truthy(args.redirectUri))
      && args.authType !in GrantTypes
      ==> r == Failure(ErrAuthType)
    ensures Truthy(a.clientId) && args.authType in GrantTypes && (args.authType == "code" || Truthy(args.redirectUri))
      && Truthy(args.tokenAccessType) && args.tokenAccessType.value !in TokenAccessTypes
      ==> r == Failure(ErrTokenAccessType)
    ensures Truthy(a.clientId) && args.authType in GrantTypes && (args.authType == "code" || Truthy(args.redirectUri))
      && (!Truthy(args.tokenAccessType) || args.tokenAccessType.value in TokenAccessTypes)
      && args.scope.NotAnArray?
      ==> r == Failure(ErrScope)
    ensures Truthy(a.clientId) && args.authType in GrantTypes && (args.authType == "code" || Truthy(args.redirectUri))
      && (!Truthy(args.tokenAccessType) || args.tokenAccessType.value in TokenAccessTypes)
      && !args.scope.NotAnArray? && args.includeGrantedScopes !in IncludeGrantedScopes
      ==> r == Failure(ErrIncludeGrantedScopes)
    ensures r.Success? <==> ValidAuthUrlArgs(a, args)
    ensures r.Success? ==>
      AddParam(Start(endpoint(a.domain), "response_type", args.authType), "client_id", a.clientId.value)
        <= r.value.url
    ensures r.Success? && !args.usePkce ==> r.value.auth == a
    ensures r.Success? && args.usePkce ==>
      var verifier := CodeVerifier(random);
      r.value.auth == a.(codeVerifier := Some(verifier), codeChallenge := Some(digest(verifier)))
  {
    if !Truthy(a.clientId) then Failure(ErrClientId)
    else if args.authType != "code" && !Truthy(args.redirectUri) then Failure(ErrRedirectUri)
    else if args.authType !in GrantTypes then Failure(ErrAuthType)
    else if Truthy(args.tokenAccessType) && args.tokenAccessType.value !in TokenAccessTypes then Failure(ErrTokenAccessType)
    else if args.scope.NotAnArray? then Failure(ErrScope)
    else if args.includeGrantedScopes !in IncludeGrantedScopes then Failure(ErrIncludeGrantedScopes)
    else
      var clientId := a.clientId.value;
      var base := endpoint(a.domain);
      PrefixOfAuthorizationUrl(base, clientId, args, "");
      if args.usePkce then
        var verifier := CodeVerifier(random);
        var challenge := digest(verifier);
        PrefixOfAuthorizationUrl(base, clientId, args, challenge);
        Success(AuthUrl(AuthorizationUrl(base, clientId, args, challenge),
                        a.(codeVerifier := Some(verifier), codeChallenge := Some(challenge))))
      else
        Success(AuthUrl(AuthorizationUrl(base, clientId, args, ""), a))
  }

  lemma PrefixOfAuthorizationUrl(base: string, clientId: string, args: AuthUrlArgs, challenge: string)
    requires args.authType in GrantTypes
    ensures AddParam(Start(base, "response_type", args.authType), "client_id", clientId)
      <= AuthorizationUrl(base, clientId, args, challenge)
  {
    assert args.authType == "code" || args.authType == "token";
    var u0 := AddParam(Start(base, "response_type", args.authType), "client_id", clientId);
    ApplyKeepsPrefix(u0, u0, AuthorizationSteps(args, challenge));
  }

  /** The URL the source builds is the parameter list, rendered; read back,
      it gives the list again when the values hold no `&` and the endpoint no
      `?`. */
  lemma AuthorizationUrlParams(a: Auth, endpoint: Endpoint, args: AuthUrlArgs,
                               random: string, digest: string -> string)
    requires ValidAuthUrlArgs(a, args)
    ensures var r := GetAuthenticationUrl(a, endpoint, args, random, digest);
      var challenge := if args.usePkce then digest(CodeVerifier(random)) else "";
      var ps := AuthorizationParams(a.clientId.value, args, challenge);
      && r.Success?
      && r.value.url == Url(endpoint(a.domain), ps)
      && ('?' !in endpoint(a.domain) && Carriable(ps) ==> ParseQuery(r.value.url) == ps)
  {
    var challenge := if args.usePkce then digest(CodeVerifier(random)) else "";
    var base := endpoint(a.domain);
    var ps := AuthorizationParams(a.clientId.value, args, challenge);
    AuthorizationUrlIsRendered(base, a.clientId.value, args, challenge);
    if '?' !in base && Carriable(ps) {
      UrlRoundTrip(base, ps);
    }
  }

  lemma AuthorizationUrlIsRendered(base: string, clientId: string, args: AuthUrlArgs, challenge: string)
    requires args.authType in GrantTypes
    ensures AuthorizationUrl(base, clientId, args, challenge) == Url(base, AuthorizationParams(clientId, args, challenge))
  {
    var rt := Param("response_type", args.authType);
    var id := Param("client_id", clientId);
    assert args.authType == "code" || args.authType == "token";
    UrlStart(base, rt);
    AddParamIfExtends(true, base, [rt], id);
    assert [rt] + [id] == [rt, id];
    ApplyIsRendered(base, [rt, id], AuthorizationSteps(args, challenge));
  }

  /** Where each parameter of the authorization URL comes from: the first two
      are fixed, and each optional one is there, with its value, exactly when
      its argument is set. */
  lemma AuthorizationParamsContents(clientId: string, args: AuthUrlArgs, challenge: string)
    ensures var ps := AuthorizationParams(clientId, args, challenge);
      && ps[0] == Param("response_type", args.authType)
      && ps[1] == Param("client_id", clientId)
      && Get(ps, "redirect_uri") == (if Truthy(args.redirectUri) then args.redirectUri else None)
      && Get(ps, "state") == (if Truthy(args.state) then args.state else None)
      && Get(ps, "token_access_type") == (if Truthy(args.tokenAccessType) then args.tokenAccessType else None)
      && Get(ps, "scope") == (if args.scope.Scopes? then Some(Join(args.scope.list, ' ')) else None)
      && Get(ps, "include_granted_scopes") ==
           (if args.includeGrantedScopes != "none" then Some(args.includeGrantedScopes) else None)
      && Get(ps, "code_challenge_method") == (if args.usePkce then Some("S256") else None)
      && Get(ps, "code_challenge") == (if args.usePkce then Some(challenge) else None)
  {
    var steps := AuthorizationSteps(args, challenge);
    var fixed := [Param("response_type", args.authType), Param("client_id", clientId)];
    assert FreshNames(fixed, steps);
    GetTaken(fixed, steps);
    assert steps[0].name == "redirect_uri" && steps[1].name == "state";
    assert steps[2].name == "token_access_type" && steps[3].name == "scope";
    assert steps[4].name == "include_granted_scopes";
    assert steps[5].name == "code_challenge_method" && steps[6].name == "code_challenge";
  }

  /** With authType `code` the redirect URI may be left out. */
  lemma CodeFlowNeedsNoRedirect(a: Auth, endpoint: Endpoint, args: AuthUrlArgs,
                                random: string, digest: string -> string)
    requires Truthy(a.clientId) && args.authType == "code"
    requires !Truthy(args.tokenAccessType) && args.scope.NoScope? && args.includeGrantedScopes == "none"
    ensures GetAuthenticationUrl(a, endpoint, args.(redirectUri := None), random, digest).Success?
    ensures GetAuthenticationUrl(a, endpoint, args.(redirectUri := Some("")), random, digest).Success?
  {
  }

  /** Asking for PKCE appends the challenge method and the challenge to the
      URL the same call would give without PKCE. */
  lemma PkceAppendsChallenge(a: Auth, endpoint: Endpoint, args: AuthUrlArgs,
                             random: string, digest: string -> string)
    requires ValidAuthUrlArgs(a, args) && args.usePkce
    ensures var withPkce := GetAuthenticationUrl(a, endpoint, args, random, digest);
      var without := GetAuthenticationUrl(a, endpoint, args.(usePkce := false), random, digest);
      && withPkce.Success? && without.Success?
      && withPkce.value.url
         == AddParam(AddParam(without.value.url, "code_challenge_method", "S256"),
                     "code_challenge", digest(CodeVerifier(random)))
      && withPkce.value.auth.codeChallenge == Some(digest(CodeVerifier(random)))
  {
    var challenge := digest(CodeVerifier(random));
    PkceUrl(endpoint(a.domain), a.clientId.value, args, challenge);
  }

  lemma PkceUrl(base: string, clientId: string, args: AuthUrlArgs, challenge: string)
    requires args.usePkce
    ensures AuthorizationUrl(base, clientId, args, challenge)
         == AddParam(AddParam(AuthorizationUrl(base, clientId, args.(usePkce := false), ""),
                              "code_challenge_method", "S256"), "code_challenge", challenge)
  {
    var u0 := AddParam(Start(base, "response_type", if args.authType == "code" then "code" else "token"),
                       "client_id", clientId);
    var plain := AuthorizationSteps(args, challenge)[..5];
    assert AuthorizationSteps(args, challenge) == plain + PkceSteps(true, challenge);
    assert AuthorizationSteps(args.(usePkce := false), "") == plain + PkceSteps(false, "");
    ApplyAppend(u0, plain, PkceSteps(true, challenge));
    ApplyAppend(u0, plain, PkceSteps(false, ""));
    var v := Apply(u0, plain);
    var m := AddParam(v, "code_challenge_method", "S256");
    assert Apply(v, PkceSteps(true, challenge)) == AddParam(m, "code_challenge", challenge) by {
      assert PkceSteps(true, challenge)[1..] == [Step(true, "code_challenge", challenge)];
      assert Apply(v, PkceSteps(true, challenge)) == Apply(m, [Step(true, "code_challenge", challenge)]);
      assert [Step(true, "code_challenge", challenge)][1..] == [];
      assert Apply(m, [Step(true, "code_challenge", challenge)])
          == Apply(AddParam(m, "code_challenge", challenge), []);
    }
    assert Apply(v, PkceSteps(false, "")) == v by {
      assert PkceSteps(false, "")[1..] == [Step(false, "code_challenge", "")];
      assert Apply(v, PkceSteps(false, "")) == Apply(v, [Step(false, "code_challenge", "")]);
    }
  }

  // ---------------------------------------------------------------------
  // Token requests

  /** The client's proof in the authorization-code grant: its secret when it
      has one, the PKCE verifier otherwise. */
  function ClientProof(a: Auth): Param {
    if Truthy(a.clientSecret) then Param("client_secret", a.clientSecret.value)
    else Param("code_verifier", Show(a.codeVerifier))
  }

  /** The query of the authorization-code grant's token request. */
  function TokenFromCodeParams(a: Auth, redirectUri: OptString, code: OptString): seq<Param>
    requires Truthy(a.clientId)
  {
    [Param("grant_type", "authorization_code"), Param("code", Show(code)),
     Param("client_id", a.clientId.value), ClientProof(a)]
    + Taken([Step(Truthy(redirectUri), "redirect_uri", Show(redirectUri))])
  }

  /** The request `getAccessTokenFromCode(redirectUri, code)` sends, or the
      error it throws. */
  function GetAccessTokenFromCode(a: Auth, tokenEndpoint: TokenEndpoint,
                                  redirectUri: OptString, code: OptString): (r: Result<Http.Request, string>)
    ensures !Truthy(a.clientId) ==> r == Failure(ErrClientId)
    ensures Truthy(a.clientId) && !Truthy(a.clientSecret) && !Truthy(a.codeVerifier)
      ==> r == Failure(ErrNeedsPkce)
    ensures r.Success? <==> Truthy(a.clientId) && (Truthy(a.clientSecret) || Truthy(a.codeVerifier))
    ensures r.Success? ==>
      && r.value.httpMethod == Http.Post
      && r.value.headers == map[Http.ContentType := Http.FormUrlEncoded]
      && r.value.body == Http.NoBody
  {
    if !Truthy(a.clientId) then Failure(ErrClientId)
    else
      var path0 := AddParam(AddParam(
        Start(tokenEndpoint(a.domain, a.domainDelimiter), "grant_type", "authorization_code"),
        "code", Show(code)), "client_id", a.clientId.value);
      if !Truthy(a.clientSecret) && !Truthy(a.codeVerifier) then Failure(ErrNeedsPkce)
      else
        var path1 :=
          if Truthy(a.clientSecret) then AddParam(path0, "client_secret", a.clientSecret.value)
          else AddParam(path0, "code_verifier", a.codeVerifier.value);
        var path := AddParamIf(Truthy(redirectUri), path1, "redirect_uri", Show(redirectUri));
        Success(Http.Request(path, Http.Post, map[Http.ContentType := Http.FormUrlEncoded], Http.NoBody))
  }

  /** The token request's URL is its parameter list, rendered. */
  lemma TokenFromCodeUrl(a: Auth, tokenEndpoint: TokenEndpoint, redirectUri: OptString, code: OptString)
    requires Truthy(a.clientId) && (Truthy(a.clientSecret) || Truthy(a.codeVerifier))
    ensures var r := GetAccessTokenFromCode(a, tokenEndpoint, redirectUri, code);
      && r.Success?
      && r.value.url == Url(tokenEndpoint(a.domain, a.domainDelimiter), TokenFromCodeParams(a, redirectUri, code))
  {
    var base := tokenEndpoint(a.domain, a.domainDelimiter);
    var g := Param("grant_type", "authorization_code");
    var c := Param("code", Show(code));
    var id := Param("client_id", a.clientId.value);
    var proof := ClientProof(a);
    UrlStart(base, g);
    AddParamIfExtends(true, base, [g], c);
    assert [g] + [c] == [g, c];
    AddParamIfExtends(true, base, [g, c], id);
    assert [g, c] + [id] == [g, c, id];
    AddParamIfExtends(true, base, [g, c, id], proof);
    assert [g, c, id] + [proof] == [g, c, id, proof];
    ApplyIsRendered(base, [g, c, id, proof], [Step(Truthy(redirectUri), "redirect_uri", Show(redirectUri))]);
  }

  /** The token request carries the grant type, the code and the client id,
      then the client secret when there is one and the PKCE verifier
      otherwise, then the redirect URI when it is set. */
  lemma TokenFromCodeParamsContents(a: Auth, redirectUri: OptString, code: OptString)
    requires Truthy(a.clientId)
    ensures var ps := TokenFromCodeParams(a, redirectUri, code);
      && ps[..3] == [Param("grant_type", "authorization_code"), Param("code", Show(code)),
                     Param("client_id", a.clientId.value)]
      && Get(ps, "client_secret") == (if Truthy(a.clientSecret) then a.clientSecret else None)
      && Get(ps, "code_verifier") == (if Truthy(a.clientSecret) then None else Some(Show(a.codeVerifier)))
      && Get(ps, "redirect_uri") == (if Truthy(redirectUri) then redirectUri else None)
  {
    var fixed := [Param("grant_type", "authorization_code"), Param("code", Show(code)),
                  Param("client_id", a.clientId.value), ClientProof(a)];
    var steps := [Step(Truthy(redirectUri), "redirect_uri", Show(redirectUri))];
    assert TokenFromCodeParams(a, redirectUri, code) == fixed + Taken(steps);
    assert (fixed + Taken(steps))[..3] == fixed[..3];
    assert Get(fixed + Taken(steps), "redirect_uri") == (if Truthy(redirectUri) then redirectUri else None) by {
      assert FreshNames(fixed, steps);
      GetTaken(fixed, steps);
    }
    ProofParam(fixed, steps, "client_secret", if Truthy(a.clientSecret) then a.clientSecret else None);
    ProofParam(fixed, steps, "code_verifier", if Truthy(a.clientSecret) then None else Some(Show(a.codeVerifier)));
  }

  /** The client proof, the fourth fixed parameter, is found by its name in
      the token request, and a proof of the other kind is not found. */
  lemma ProofParam(fixed: seq<Param>, steps: seq<Step>, name: string, expected: Option<string>)
    requires |fixed| == 4 && |steps| == 1 && steps[0].name == "redirect_uri"
    requires forall k :: 0 <= k < 3 ==> fixed[k].name in {"grant_type", "code", "client_id"}
    requires fixed[3].name in {"client_secret", "code_verifier"} && name in {"client_secret", "code_verifier"}
    requires expected == if fixed[3].name == name then Some(fixed[3].value) else None
    ensures Get(fixed + Taken(steps), name) == expected
  {
    GetAppend(fixed, Taken(steps));
    TakenNames(steps, name);
    if fixed[3].name == name {
      GetFirst(fixed, 3);
    } else {
      GetAbsent(fixed, name);
    }
  }

  /** The optional parameters of the refresh request. */
  function RefreshSteps(a: Auth, scope: ScopeArg): seq<Step> {
    [ Step(Truthy(a.clientSecret), "client_secret", Show(a.clientSecret)),
      Step(scope.Scopes?, "scope", ScopeValue(scope)) ]
  }

  /** The query of the refresh grant's token request. */
  function RefreshParams(a: Auth, scope: ScopeArg): seq<Param>
    requires Truthy(a.clientId)
  {
    [Param("grant_type", "refresh_token"), Param("refresh_token", Show(a.refreshToken)),
     Param("client_id", a.clientId.value)]
    + Taken(RefreshSteps(a, scope))
  }

  /** The request `refreshAccessToken(scope)` sends, or the error it throws. */
  function RefreshAccessToken(a: Auth, tokenEndpoint: TokenEndpoint, scope: ScopeArg): (r: Result<Http.Request, string>)
    ensures !Truthy(a.clientId) ==> r == Failure(ErrClientId)
    ensures Truthy(a.clientId) && scope.NotAnArray? ==> r == Failure(ErrScope)
    ensures r.Success? <==> Truthy(a.clientId) && !scope.NotAnArray?
    ensures r.Success? ==>
      && r.value.httpMethod == Http.Post
      && r.value.headers == map[Http.ContentType := Http.JsonType]
      && r.value.body == Http.NoBody
  {
    if !Truthy(a.clientId) then Failure(ErrClientId)
    else if scope.NotAnArray? then Failure(ErrScope)
    else
      var url0 := AddParam(AddParam(
        Start(tokenEndpoint(a.domain, a.domainDelimiter), "grant_type", "refresh_token"),
        "refresh_token", Show(a.refreshToken)), "client_id", a.clientId.value);
      var url := Apply(url0, RefreshSteps(a, scope));
      Success(Http.Request(url, Http.Post, map[Http.ContentType := Http.JsonType], Http.NoBody))
  }

  /** The refresh URL is `…?grant_type=refresh_token&refresh_token=R&client_id=C`
      followed by the client secret only when one is set and the scopes only
      when they are given. */
  lemma RefreshUrl(a: Auth, tokenEndpoint: TokenEndpoint, scope: ScopeArg)
    requires Truthy(a.clientId) && !scope.NotAnArray?
    ensures var r := RefreshAccessToken(a, tokenEndpoint, scope);
      var ps := RefreshParams(a, scope);
      && r.Success?
      && r.value.url == Url(tokenEndpoint(a.domain, a.domainDelimiter), ps)
      && ps[..3] == [Param("grant_type", "refresh_token"), Param("refresh_token", Show(a.refreshToken)),
                     Param("client_id", a.clientId.value)]
      && Get(ps, "client_secret") == (if Truthy(a.clientSecret) then a.clientSecret else None)
      && Get(ps, "scope") == (if scope.Scopes? then Some(Join(scope.list, ' ')) else None)
  {
    var base := tokenEndpoint(a.domain, a.domainDelimiter);
    var g := Param("grant_type", "refresh_token");
    var t := Param("refresh_token", Show(a.refreshToken));
    var c := Param("client_id", a.clientId.value);
    UrlStart(base, g);
    AddParamIfExtends(true, base, [g], t);
    assert [g] + [t] == [g, t];
    AddParamIfExtends(true, base, [g, t], c);
    assert [g, t] + [c] == [g, t, c];
    var steps := RefreshSteps(a, scope);
    ApplyIsRendered(base, [g, t, c], steps);
    assert FreshNames([g, t, c], steps);
    GetTaken([g, t, c], steps);
  }

  /** What a successful refresh stores: the new access token and the expiry
      computed from its lifetime. */
  function ApplyRefresh(a: Auth, accessToken: OptString, expiresAt: int): (r: Auth)
    ensures r.accessToken == accessToken && r.accessTokenExpiresAt == Some(expiresAt)
    ensures r.(accessToken := a.accessToken, accessTokenExpiresAt := a.accessTokenExpiresAt) == a
  {
    SetAccessTokenExpiresAt(SetAccessToken(a, accessToken), Some(expiresAt))
  }

  // ---------------------------------------------------------------------
  // The refresh decision

  /** The token is about to expire at `now`, has no known expiry, or is missing. */
  predicate TokenStale(a: Auth, now: int) {
    || a.accessTokenExpiresAt.None?
    || now + TokenExpirationBuffer >= a.accessTokenExpiresAt.value
    || !Truthy(a.accessToken)
  }

  /** The client holds what a refresh needs. */
  predicate CanRefresh(a: Auth) {
    Truthy(a.refreshToken) && Truthy(a.clientId)
  }

  /** `checkAndRefreshAccessToken()` at time `now`: the refresh request it
      sends, or nothing. */
  function CheckAndRefreshAccessToken(a: Auth, tokenEndpoint: TokenEndpoint, now: int): (r: Option<Http.Request>)
    ensures r.Some? <==> TokenStale(a, now) && CanRefresh(a)
    ensures r.Some? ==> RefreshAccessToken(a, tokenEndpoint, NoScope) == Success(r.value)
  {
    var canRefresh := Truthy(a.refreshToken) && Truthy(a.clientId);
    var needsRefresh := a.accessTokenExpiresAt.None? || now + TokenExpirationBuffer >= a.accessTokenExpiresAt.value;
    var needsToken := !Truthy(a.accessToken);
    if (needsRefresh || needsToken) && canRefresh then
      Some(RefreshAccessToken(a, tokenEndpoint, NoScope).value)
    else None
  }

  /** Once a refresh is due it stays due as time passes. */
  lemma RefreshStaysDue(a: Auth, tokenEndpoint: TokenEndpoint, now: int, later: int)
    requires now <= later
    ensures CheckAndRefreshAccessToken(a, tokenEndpoint, now).Some?
        ==> CheckAndRefreshAccessToken(a, tokenEndpoint, later).Some?
  {
  }

  /** A token due to expire within the buffer is refreshed; one that expires
      later is not, unless it is missing. */
  lemma RefreshWindow(a: Auth, tokenEndpoint: TokenEndpoint, now: int)
    requires CanRefresh(a) && Truthy(a.accessToken) && a.accessTokenExpiresAt.Some?
    ensures CheckAndRefreshAccessToken(a, tokenEndpoint, now).Some?
        <==> now >= a.accessTokenExpiresAt.value - TokenExpirationBuffer
  {
  }

  /** After a refresh stores a token that lives past the buffer, no further
      refresh is due until the buffer is reached. */
  lemma RefreshSettles(a: Auth, tokenEndpoint: TokenEndpoint, accessToken: string, expiresAt: int, now: int)
    requires accessToken != "" && now + TokenExpirationBuffer < expiresAt
    ensures CheckAndRefreshAccessToken(ApplyRefresh(a, Some(accessToken), expiresAt), tokenEndpoint, now).None?
  {
  }
}
