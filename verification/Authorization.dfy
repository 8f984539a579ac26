/**
  The authorization endpoint (RFC 6749, OpenID Connect Core 1.0): validation of
  a request over the seven response types, and transport of the response over
  the four response modes.
*/
module Authorization {
  import opened Wrappers
  import opened PythonText
  import ResourceIndicators

  datatype ResponseMode = Query | Fragment | FormPost | Jwt

  datatype Client = Client(
    clientId: string, redirectUris: set<string>, isActive: bool, isConfidential: bool,
    fapiEnabled: bool, fapi2Enabled: bool, federated: bool, signedResponseAlg: string)

  datatype AuthorizeRequest = AuthorizeRequest(
    responseType: string, clientId: string, redirectUri: string, scope: string, subject: string,
    state: string, nonce: string, codeChallenge: string, codeChallengeMethod: string,
    responseMode: string, prompt: string, maxAge: int, sessionId: string, authTime: int,
    acrValues: string, claims: string, openid2Realm: string, dpopJkt: string,
    resource: string, authorizationDetails: string)

  /** Known scope names, and the registered resource indicators when a resource registry is injected. */
  datatype ScopeRegistry = ScopeRegistry(scopes: set<string>, indicators: Option<set<string>>)

  datatype Registry = Registry(clients: map<string, Client>, scopes: Option<ScopeRegistry>)

  /** Parsers this model does not open: `int()`, JSON documents and URL syntax. */
  datatype Syntax = Syntax(
    toInt: string -> Option<int>,
    isClaimsParameter: string -> bool,
    isAuthorizationDetails: string -> bool,
    isResourceUri: string -> bool,
    otherJson: ResourceIndicators.OtherJson)

  datatype AuthorizeError = AuthorizeError(
    error: string, redirectUri: string, state: string, mode: ResponseMode, redirectable: bool, clientId: string)

  datatype ValidatedAuthorization = ValidatedAuthorization(
    client: Client, responseTypes: set<string>, mode: ResponseMode)
  {
    predicate WantsCode() { "code" in responseTypes }
    predicate WantsIdToken() { "id_token" in responseTypes }
    predicate WantsToken() { "token" in responseTypes }
    predicate HasTokens() { WantsIdToken() || WantsToken() }
  }

  /** `parse_max_age`: -1 when absent, -2 when not a non-negative integer. */
  function ParseMaxAge(value: string, syntax: Syntax): (age: int)
    ensures age >= -2 && (age == -1 <==> value == "")
    ensures age >= 0 <==> value != "" && syntax.toInt(value).Some? && syntax.toInt(value).value >= 0
    ensures age >= 0 ==> Some(age) == syntax.toInt(value)
  {
    if value == "" then -1
    else
      match syntax.toInt(value)
      case None => -2
      case Some(parsed) => if parsed >= 0 then parsed else -2
  }

  const VALID_RESPONSE_TYPES: set<set<string>> := {
    {"code"}, {"id_token"}, {"token"}, {"id_token", "token"},
    {"code", "id_token"}, {"code", "token"}, {"code", "id_token", "token"}}

  const JARM_SIGNING_ALGORITHMS := {"PS256", "ES256", "RS256"}

  function ResponseTypes(request: AuthorizeRequest): set<string> {
    set w | w in Words(request.responseType)
  }

  function Scopes(request: AuthorizeRequest): set<string> {
    set w | w in Words(request.scope)
  }

  predicate ReturnsTokens(request: AuthorizeRequest) {
    "id_token" in ResponseTypes(request) || "token" in ResponseTypes(request)
  }

  // ---- response modes ----------------------------------------------------------

  /** `_resolve_response_mode`; `None` is the forbidden combination. */
  function ResolveMode(requested: string, hasTokens: bool): Option<ResponseMode> {
    if requested == "jwt" then Some(Jwt)
    else if requested == "form_post" then Some(FormPost)
    else if requested == "fragment" then Some(Fragment)
    else if requested == "query" then if hasTokens then None else Some(Query)
    else Some(if hasTokens then Fragment else Query)
  }

  /** `_error_response_mode` */
  function ErrorMode(requested: string, hasTokens: bool): ResponseMode {
    match ResolveMode(if requested == "jwt" then "" else requested, hasTokens)
    case Some(mode) => mode
    case None => Fragment
  }

  /** Which mode answers a request: the one named, or the safest by default, and none for tokens in the query. */
  lemma ModesMeaning(requested: string, hasTokens: bool)
    ensures var mode, errors := ResolveMode(requested, hasTokens), ErrorMode(requested, hasTokens);
      && (mode == None <==> requested == "query" && hasTokens)
      && (mode == Some(Jwt) <==> requested == "jwt")
      && (mode == Some(FormPost) <==> requested == "form_post")
      && (mode == Some(Fragment) <==>
            requested == "fragment" || (hasTokens && requested !in ["jwt", "form_post", "fragment", "query"]))
      && errors != Jwt
      && (errors == FormPost <==> requested == "form_post")
      && (errors == Query <==> !hasTokens && requested !in ["form_post", "fragment"])
  {
  }

  // ---- validation ----------------------------------------------------------------

  predicate RealmMatches(request: AuthorizeRequest, client: Client) {
    "openid2" in Scopes(request) && request.openid2Realm != "" ==>
      exists uri :: uri in client.redirectUris && request.openid2Realm <= uri
  }

  /** `_client_profile_error`: the code of the refusal. */
  function ProfileError(request: AuthorizeRequest, client: Client): Option<string> {
    var types := ResponseTypes(request);
    if client.fapiEnabled then
      if types != {"code", "id_token"} then Some("unsupported_response_type")
      else if request.codeChallenge != "" && request.codeChallengeMethod != "S256" then Some("invalid_request")
      else None
    else if client.fapi2Enabled then
      if types != {"code"} then Some("unsupported_response_type")
      else if request.codeChallenge != "" && request.codeChallengeMethod != "S256" then Some("invalid_request")
      else None
    else None
  }

  /** A thumbprint of RFC 7638: 43 characters of the base64url alphabet. */
  predicate IsThumbprint(s: string) {
    |s| == 43 && forall c :: c in s ==>
      'A' <= c <= 'Z' || 'a' <= c <= 'z' || '0' <= c <= '9' || c == '-' || c == '_'
  }

  /** `_parameter_error`, up to the resource indicators. */
  function ParameterError(request: AuthorizeRequest, syntax: Syntax): Option<string> {
    if request.maxAge < -1 then Some("invalid_request")
    else if request.claims != "" && !syntax.isClaimsParameter(request.claims) then Some("invalid_request")
    else if request.dpopJkt != "" && !IsThumbprint(request.dpopJkt) then Some("invalid_request")
    else if request.codeChallenge != "" && request.codeChallengeMethod !in ["S256", "plain"] then Some("invalid_request")
    else if request.authorizationDetails != "" && !syntax.isAuthorizationDetails(request.authorizationDetails)
    then Some("invalid_authorization_details")
    else if request.scope == "" && request.authorizationDetails == "" then Some("invalid_scope")
    else None
  }

  /** `_resource_error`: every indicator is well formed and registered. */
  predicate ResourcesKnown(request: AuthorizeRequest, registry: Registry, syntax: Syntax) {
    var resources := ResourceIndicators.Parsed(request.resource, syntax.otherJson);
    && (forall uri :: uri in resources ==> syntax.isResourceUri(uri))
    && match registry.scopes
       case Some(ScopeRegistry(_, Some(indicators))) => forall uri :: uri in resources ==> uri in indicators
       case _ => true
  }

  predicate ScopesKnown(request: AuthorizeRequest, registry: Registry) {
    registry.scopes.Some? ==> Scopes(request) <= registry.scopes.value.scopes
  }

  function Refuse(request: AuthorizeRequest, error: string, mode: ResponseMode): AuthorizeError {
    AuthorizeError(error, request.redirectUri, request.state, mode, true, request.clientId)
  }

  function RefuseOnPage(request: AuthorizeRequest, error: string, mode: ResponseMode): AuthorizeError {
    Refuse(request, error, mode).(redirectable := false)
  }

  /** `validate_authorization_request` */
  function Validate(request: AuthorizeRequest, registry: Registry, syntax: Syntax)
    : Result<ValidatedAuthorization, AuthorizeError>
  {
    var types := ResponseTypes(request);
    var errorMode := ErrorMode(request.responseMode, ReturnsTokens(request));
    if types !in VALID_RESPONSE_TYPES then Failure(Refuse(request, "unsupported_response_type", errorMode))
    else
      match ResolveMode(request.responseMode, ReturnsTokens(request))
      case None => Failure(Refuse(request, "invalid_request", errorMode))
      case Some(mode) =>
        if request.clientId !in registry.clients || !registry.clients[request.clientId].isActive
        then Failure(RefuseOnPage(request, "invalid_client", mode))
        else ValidateFor(request, registry.clients[request.clientId], mode, registry, syntax)
  }

  /** The checks that follow the resolution of the client. */
  function ValidateFor(request: AuthorizeRequest, client: Client, mode: ResponseMode, registry: Registry, syntax: Syntax)
    : Result<ValidatedAuthorization, AuthorizeError>
  {
    var types := ResponseTypes(request);
    var errorMode := ErrorMode(request.responseMode, ReturnsTokens(request));
    if request.redirectUri !in client.redirectUris then
      Failure(RefuseOnPage(request, "invalid_redirect_uri", mode))
    else if !RealmMatches(request, client) then Failure(Refuse(request, "invalid_request", mode))
    else if request.responseMode == "jwt" && client.signedResponseAlg !in JARM_SIGNING_ALGORITHMS then
      Failure(Refuse(request, "unsupported_response_mode", errorMode))
    else if ProfileError(request, client).Some? then
      Failure(Refuse(request, ProfileError(request, client).value, mode))
    else if ParameterError(request, syntax).Some? then
      Failure(Refuse(request, ParameterError(request, syntax).value, mode))
    else if !ResourcesKnown(request, registry, syntax) then Failure(Refuse(request, "invalid_target", mode))
    else if "id_token" in types && "openid" !in Scopes(request) then Failure(Refuse(request, "invalid_scope", mode))
    else if !ScopesKnown(request, registry) then Failure(Refuse(request, "invalid_scope", mode))
    else if "id_token" in types && request.nonce == "" then Failure(Refuse(request, "invalid_request", mode))
    else Success(ValidatedAuthorization(client, types, mode))
  }

  /** A letter, a digit, a hyphen or an underscore. */
  predicate InBase64Url(c: char) {
    'A' <= c <= 'Z' || 'a' <= c <= 'z' || '0' <= c <= '9' || c in "-_"
  }

  /** What a valid request is, in no particular order. */
  ghost predicate Acceptable(request: AuthorizeRequest, registry: Registry, syntax: Syntax) {
    var types, scopes := Words(request.responseType), Words(request.scope);
    && types != [] && (forall t :: t in types ==> t in ["code", "id_token", "token"])
    && !(request.responseMode == "query" && ("id_token" in types || "token" in types))
    && request.clientId in registry.clients
    && var client := registry.clients[request.clientId];
       && client.isActive && request.redirectUri in client.redirectUris
       && ("openid2" in scopes && request.openid2Realm != "" ==>
             exists uri :: uri in client.redirectUris && request.openid2Realm <= uri)
       && (request.responseMode == "jwt" ==> client.signedResponseAlg in ["PS256", "ES256", "RS256"])
       && (client.fapiEnabled ==> "code" in types && "id_token" in types && "token" !in types)
       && (client.fapi2Enabled && !client.fapiEnabled ==> "id_token" !in types && "token" !in types)
       && (request.codeChallenge != "" ==>
             request.codeChallengeMethod == "S256"
             || (request.codeChallengeMethod == "plain" && !client.fapiEnabled && !client.fapi2Enabled))
       && request.maxAge >= -1
       && (request.claims != "" ==> syntax.isClaimsParameter(request.claims))
       && (request.dpopJkt != "" ==> |request.dpopJkt| == 43 && forall c :: c in request.dpopJkt ==> InBase64Url(c))
       && (request.authorizationDetails != "" ==> syntax.isAuthorizationDetails(request.authorizationDetails))
       && (request.scope != "" || request.authorizationDetails != "")
       && (forall uri :: uri in ResourceIndicators.Parsed(request.resource, syntax.otherJson) ==>
             && syntax.isResourceUri(uri)
             && (registry.scopes.Some? && registry.scopes.value.indicators.Some? ==>
                   uri in registry.scopes.value.indicators.value))
       && (registry.scopes.Some? ==> forall scope :: scope in scopes ==> scope in registry.scopes.value.scopes)
       && ("id_token" in types ==> "openid" in scopes && request.nonce != "")
  }

  /** The checks of the validation are the conditions on the words and parameters of the request. */
  lemma ChecksMeaning(request: AuthorizeRequest, client: Client, registry: Registry, syntax: Syntax)
    ensures forall w :: w in ResponseTypes(request) <==> w in Words(request.responseType)
    ensures forall w :: w in Scopes(request) <==> w in Words(request.scope)
    ensures IsThumbprint(request.dpopJkt) <==>
      |request.dpopJkt| == 43 && forall c :: c in request.dpopJkt ==> InBase64Url(c)
    ensures ResourcesKnown(request, registry, syntax) <==>
      forall uri :: uri in ResourceIndicators.Parsed(request.resource, syntax.otherJson) ==>
        && syntax.isResourceUri(uri)
        && (registry.scopes.Some? && registry.scopes.value.indicators.Some? ==>
              uri in registry.scopes.value.indicators.value)
    ensures ScopesKnown(request, registry) <==>
      (registry.scopes.Some? ==> forall scope :: scope in Words(request.scope) ==> scope in registry.scopes.value.scopes)
  {
    hide Words, ResourceIndicators.Parsed;
  }

  /** The types and modes in terms of the words of the request. */
  lemma TypesMeaning(request: AuthorizeRequest)
    ensures var types, words := ResponseTypes(request), Words(request.responseType);
      && (types in VALID_RESPONSE_TYPES <==> words != [] && forall t :: t in words ==> t in ["code", "id_token", "token"])
      && (ReturnsTokens(request) <==> "id_token" in words || "token" in words)
      && (types in VALID_RESPONSE_TYPES ==>
            && (types == {"code", "id_token"} <==> "code" in words && "id_token" in words && "token" !in words)
            && (types == {"code"} <==> "id_token" !in words && "token" !in words))
  {
    hide Words, VALID_RESPONSE_TYPES;
    var types, words := ResponseTypes(request), Words(request.responseType);
    ValidTypesIff(types);
    assert forall t :: t in types <==> t in words;
    assert words != [] ==> words[0] in types;
    assert words == [] ==> types == {};
    assert forall t: string :: t in ["code", "id_token", "token"] <==> t in {"code", "id_token", "token"};
    if types != {} && types <= {"code", "id_token", "token"} {
      assert "code" in types && "id_token" in types && "token" !in types ==> types == {"code", "id_token"};
      assert "id_token" !in types && "token" !in types ==> types == {"code"};
    }
  }

  lemma ValidTypesIff(types: set<string>)
    ensures types in VALID_RESPONSE_TYPES <==> types != {} && types <= {"code", "id_token", "token"}
  {
    if types != {} && types <= {"code", "id_token", "token"} {
      var c, i, t := "code" in types, "id_token" in types, "token" in types;
      var x :| x in types;
      if !i && !t {
        assert types == {"code"};
      } else if !c && !t {
        assert types == {"id_token"};
      } else if !c && !i {
        assert types == {"token"};
      } else if !c {
        assert types == {"id_token", "token"};
      } else if !t {
        assert types == {"code", "id_token"};
      } else if !i {
        assert types == {"code", "token"};
      } else {
        assert types == {"code", "id_token", "token"};
      }
    }
  }

  /** The ladder of checks accepts exactly the acceptable requests, with the mode their tokens call for. */
  lemma ValidateAcceptsIff(request: AuthorizeRequest, registry: Registry, syntax: Syntax)
    ensures var v := Validate(request, registry, syntax);
      && (v.Success? <==> Acceptable(request, registry, syntax))
      && (v.Success? ==>
            && v.value.client == registry.clients[request.clientId]
            && v.value.responseTypes == ResponseTypes(request)
            && Some(v.value.mode) == ResolveMode(request.responseMode, v.value.HasTokens())
            && !(v.value.HasTokens() && v.value.mode == Query))
  {
    hide ResponseTypes, Scopes, ResourcesKnown, ScopesKnown, IsThumbprint, VALID_RESPONSE_TYPES, ValidateFor, Acceptable,
      ReturnsTokens, Words;
    TypesMeaning(request);
    ModesMeaning(request.responseMode, ReturnsTokens(request));
    if request.clientId in registry.clients && registry.clients[request.clientId].isActive
       && ResponseTypes(request) in VALID_RESPONSE_TYPES {
      ReturnsTokensIff(request);
      var client := registry.clients[request.clientId];
      match ResolveMode(request.responseMode, ReturnsTokens(request)) {
        case None => NotAcceptableInQuery(request, registry, syntax);
        case Some(mode) => ValidateForAcceptsIff(request, client, mode, registry, syntax);
      }
    } else {
      NotAcceptableEarly(request, registry, syntax);
    }
  }

  lemma ReturnsTokensIff(request: AuthorizeRequest)
    ensures ReturnsTokens(request) <==> "id_token" in ResponseTypes(request) || "token" in ResponseTypes(request)
  {
  }

  lemma NotAcceptableInQuery(request: AuthorizeRequest, registry: Registry, syntax: Syntax)
    requires request.responseMode == "query" && ReturnsTokens(request)
    ensures !Acceptable(request, registry, syntax)
  {
    hide Words;
    TypesMeaning(request);
  }

  lemma NotAcceptableEarly(request: AuthorizeRequest, registry: Registry, syntax: Syntax)
    requires ResponseTypes(request) !in VALID_RESPONSE_TYPES
             || request.clientId !in registry.clients || !registry.clients[request.clientId].isActive
    ensures !Acceptable(request, registry, syntax)
  {
    hide Words, VALID_RESPONSE_TYPES, ResponseTypes;
    TypesMeaning(request);
  }

  /** What is asked of a request once its client is known. */
  predicate Passes(request: AuthorizeRequest, client: Client, registry: Registry, syntax: Syntax) {
    && request.redirectUri in client.redirectUris && RealmMatches(request, client)
    && (request.responseMode == "jwt" ==> client.signedResponseAlg in JARM_SIGNING_ALGORITHMS)
    && ProfileError(request, client) == None && ParameterError(request, syntax) == None
    && ResourcesKnown(request, registry, syntax) && ScopesKnown(request, registry)
    && ("id_token" in ResponseTypes(request) ==> "openid" in Scopes(request) && request.nonce != "")
  }

  /** After the lookup of an active client, the rest of the ladder decides. */
  lemma ValidateForAcceptsIff(request: AuthorizeRequest, client: Client, mode: ResponseMode, registry: Registry, syntax: Syntax)
    requires ResponseTypes(request) in VALID_RESPONSE_TYPES
    requires request.clientId in registry.clients && client == registry.clients[request.clientId] && client.isActive
    requires ResolveMode(request.responseMode, ReturnsTokens(request)) == Some(mode)
    ensures var v := ValidateFor(request, client, mode, registry, syntax);
      && (v.Success? <==> Acceptable(request, registry, syntax))
      && (v.Success? ==> v.value == ValidatedAuthorization(client, ResponseTypes(request), mode))
  {
    hide ValidateFor, Acceptable, ResponseTypes, ReturnsTokens, VALID_RESPONSE_TYPES, ResolveMode, Passes;
    ModesMeaning(request.responseMode, ReturnsTokens(request));
    ValidateForPassesIff(request, client, mode, registry, syntax);
    AcceptablePassesIff(request, client, registry, syntax);
  }

  lemma ValidateForPassesIff(request: AuthorizeRequest, client: Client, mode: ResponseMode, registry: Registry, syntax: Syntax)
    ensures var v := ValidateFor(request, client, mode, registry, syntax);
      && (v.Success? <==> Passes(request, client, registry, syntax))
      && (v.Success? ==> v.value == ValidatedAuthorization(client, ResponseTypes(request), mode))
  {
    hide ResponseTypes, Scopes, ResourcesKnown, ScopesKnown, RealmMatches, ReturnsTokens, ParameterError, ProfileError, ErrorMode;
  }

  lemma AcceptablePassesIff(request: AuthorizeRequest, client: Client, registry: Registry, syntax: Syntax)
    requires ResponseTypes(request) in VALID_RESPONSE_TYPES
    requires request.clientId in registry.clients && client == registry.clients[request.clientId] && client.isActive
    requires !(request.responseMode == "query" && ReturnsTokens(request))
    ensures Acceptable(request, registry, syntax) <==> Passes(request, client, registry, syntax)
  {
    hide ResponseTypes, Scopes, ResourcesKnown, ScopesKnown, IsThumbprint, VALID_RESPONSE_TYPES, Words, ReturnsTokens,
      ParameterError, ProfileError, InBase64Url, RealmMatches, ResourceIndicators.Parsed;
    TypesMeaning(request);
    ChecksMeaning(request, client, registry, syntax);
    ProfileMeaning(request, client);
    ParametersMeaning(request, syntax);
    RealmMeaning(request, client);
  }

  lemma RealmMeaning(request: AuthorizeRequest, client: Client)
    ensures RealmMatches(request, client) <==>
      ("openid2" in Words(request.scope) && request.openid2Realm != "" ==>
         exists uri :: uri in client.redirectUris && request.openid2Realm <= uri)
  {
    hide Words;
  }

  lemma ProfileMeaning(request: AuthorizeRequest, client: Client)
    ensures ProfileError(request, client) == None <==>
      && (client.fapiEnabled ==> ResponseTypes(request) == {"code", "id_token"})
      && (client.fapi2Enabled && !client.fapiEnabled ==> ResponseTypes(request) == {"code"})
      && (request.codeChallenge != "" && (client.fapiEnabled || client.fapi2Enabled) ==> request.codeChallengeMethod == "S256")
  {
    hide ResponseTypes;
  }

  lemma ParametersMeaning(request: AuthorizeRequest, syntax: Syntax)
    ensures ParameterError(request, syntax) == None <==>
      && request.maxAge >= -1
      && (request.claims != "" ==> syntax.isClaimsParameter(request.claims))
      && (request.dpopJkt != "" ==> IsThumbprint(request.dpopJkt))
      && (request.codeChallenge != "" ==> request.codeChallengeMethod in ["S256", "plain"])
      && (request.authorizationDetails != "" ==> syntax.isAuthorizationDetails(request.authorizationDetails))
      && (request.scope != "" || request.authorizationDetails != "")
  {
    hide IsThumbprint;
  }

  /**
    Where a refusal may be sent. An error that may be redirected carries a
    `redirect_uri` registered for an active client, except for the two errors
    raised before the client is looked up, which carry the one of the request
    unchecked.
  */
  lemma RedirectableTargetIff(request: AuthorizeRequest, registry: Registry, syntax: Syntax)
    requires Validate(request, registry, syntax).Failure?
    ensures var e := Validate(request, registry, syntax).error;
      var early := ResponseTypes(request) !in VALID_RESPONSE_TYPES
                   || (request.responseMode == "query" && ReturnsTokens(request));
      && e.redirectUri == request.redirectUri && e.state == request.state && e.clientId == request.clientId
      && (e.redirectable <==> early || RedirectRegistered(request, registry))
      && (early ==> e.mode != Jwt)
  {
    hide ResponseTypes, Scopes, ResourcesKnown, ScopesKnown, RealmMatches, ParameterError, ProfileError,
      VALID_RESPONSE_TYPES;
  }

  /** What a refusal that follows the resolution of the client tells of the request. */
  lemma LateRefusalReasons(request: AuthorizeRequest, client: Client, mode: ResponseMode, registry: Registry, syntax: Syntax)
    requires ValidateFor(request, client, mode, registry, syntax).Failure?
    ensures var e := ValidateFor(request, client, mode, registry, syntax).error.error;
      && e != "invalid_client"
      && (e == "invalid_redirect_uri" <==> request.redirectUri !in client.redirectUris)
      && (e == "invalid_target" ==> !ResourcesKnown(request, registry, syntax))
      && (e == "invalid_scope" ==> !ScopeAcceptable(request, registry))
  {
    hide ResponseTypes, Scopes, ResourcesKnown, ScopesKnown, RealmMatches, ReturnsTokens, ErrorMode,
      ParameterError, ProfileError;
    if ParameterError(request, syntax).Some? {
      ParameterCodes(request, syntax);
    }
    if ProfileError(request, client).Some? {
      ProfileCodes(request, client);
    }
  }

  /** There is a scope or authorization details, every scope is known, and an ID token comes with `openid`. */
  predicate ScopeAcceptable(request: AuthorizeRequest, registry: Registry) {
    && (request.scope != "" || request.authorizationDetails != "")
    && ScopesKnown(request, registry)
    && ("id_token" in ResponseTypes(request) ==> "openid" in Scopes(request))
  }

  /** What each refusal tells of the request, whatever the order of the checks. */
  lemma RefusalReasons(request: AuthorizeRequest, registry: Registry, syntax: Syntax)
    requires Validate(request, registry, syntax).Failure?
    ensures var e := Validate(request, registry, syntax).error.error;
      var early := ResponseTypes(request) !in VALID_RESPONSE_TYPES
                   || (request.responseMode == "query" && ReturnsTokens(request));
      var known := request.clientId in registry.clients && registry.clients[request.clientId].isActive;
      && (e == "invalid_client" <==> !early && !known)
      && (e == "invalid_redirect_uri" <==> !early && known && !RedirectRegistered(request, registry))
      && (e == "invalid_target" ==> RedirectRegistered(request, registry) && !ResourcesKnown(request, registry, syntax))
      && (e == "invalid_scope" ==> RedirectRegistered(request, registry) && !ScopeAcceptable(request, registry))
  {
    hide ResponseTypes, ReturnsTokens, ValidateFor, ResourcesKnown, ScopeAcceptable, VALID_RESPONSE_TYPES;
    var mode := ResolveMode(request.responseMode, ReturnsTokens(request));
    if mode.Some? && request.clientId in registry.clients {
      var client := registry.clients[request.clientId];
      if ValidateFor(request, client, mode.value, registry, syntax).Failure? {
        LateRefusalReasons(request, client, mode.value, registry, syntax);
      }
    }
  }

  lemma ParameterCodes(request: AuthorizeRequest, syntax: Syntax)
    ensures var e := ParameterError(request, syntax);
      e.Some? ==>
        && e.value in ["invalid_request", "invalid_authorization_details", "invalid_scope"]
        && (e.value == "invalid_scope" ==> request.scope == "" && request.authorizationDetails == "")
  {
  }

  lemma ProfileCodes(request: AuthorizeRequest, client: Client)
    ensures var e := ProfileError(request, client);
      e.Some? ==> e.value in ["unsupported_response_type", "invalid_request"] && (client.fapiEnabled || client.fapi2Enabled)
  {
    hide ResponseTypes;
  }

  /**
    The code and mode of every refusal, by the first fault in this order: the
    types, tokens in the query, the client, its address, the realm, the signing
    of responses, the profile, the parameters, the resources, the scopes, the
    nonce. A mode that cannot be signed or does not exist is not used.
  */
  lemma RefusedForFirstFault(request: AuthorizeRequest, registry: Registry, syntax: Syntax)
    requires Validate(request, registry, syntax).Failure?
    ensures var e := Validate(request, registry, syntax).error;
      var fallback := ErrorMode(request.responseMode, ReturnsTokens(request));
      if ResponseTypes(request) !in VALID_RESPONSE_TYPES then e.error == "unsupported_response_type" && e.mode == fallback
      else if request.responseMode == "query" && ReturnsTokens(request) then
        e.error == "invalid_request" && e.mode == fallback
      else if request.clientId !in registry.clients || !registry.clients[request.clientId].isActive then
        e.error == "invalid_client" && Some(e.mode) == ResolveMode(request.responseMode, ReturnsTokens(request))
      else
        var client := registry.clients[request.clientId];
        var unsigned := request.responseMode == "jwt" && client.signedResponseAlg !in ["PS256", "ES256", "RS256"];
        && Some(e.error) == LateFault(request, client, registry, syntax)
        && (if e.error == "unsupported_response_mode" then unsigned && e.mode == fallback
            else Some(e.mode) == ResolveMode(request.responseMode, ReturnsTokens(request)))
  {
    hide ResponseTypes, ReturnsTokens, ValidateFor, ErrorMode, VALID_RESPONSE_TYPES, LateFault;
    ModesMeaning(request.responseMode, ReturnsTokens(request));
    if request.clientId in registry.clients && registry.clients[request.clientId].isActive {
      var mode := ResolveMode(request.responseMode, ReturnsTokens(request));
      if mode.Some? && ValidateFor(request, registry.clients[request.clientId], mode.value, registry, syntax).Failure? {
        LateRefusal(request, registry.clients[request.clientId], mode.value, registry, syntax);
      }
    }
  }

  /** The only types a FAPI client may ask for. */
  function ProfileTypes(client: Client): set<string> {
    if client.fapiEnabled then {"code", "id_token"} else {"code"}
  }

  /** The first fault of a request whose client is known. */
  ghost function LateFault(request: AuthorizeRequest, client: Client, registry: Registry, syntax: Syntax): Option<string> {
    var types, scopes := ResponseTypes(request), Scopes(request);
    var fapi, pkce := client.fapiEnabled || client.fapi2Enabled, request.codeChallengeMethod;
    if request.redirectUri !in client.redirectUris then Some("invalid_redirect_uri")
    else if !RealmMatches(request, client) then Some("invalid_request")
    else if request.responseMode == "jwt" && client.signedResponseAlg !in ["PS256", "ES256", "RS256"]
    then Some("unsupported_response_mode")
    else if fapi && types != ProfileTypes(client)
    then Some("unsupported_response_type")
    else if (fapi && request.codeChallenge != "" && pkce != "S256") || request.maxAge < -1
            || (request.claims != "" && !syntax.isClaimsParameter(request.claims))
            || (request.dpopJkt != "" && !IsThumbprint(request.dpopJkt))
            || (request.codeChallenge != "" && pkce != "S256" && pkce != "plain")
    then Some("invalid_request")
    else if request.authorizationDetails != "" && !syntax.isAuthorizationDetails(request.authorizationDetails)
    then Some("invalid_authorization_details")
    else if request.scope == request.authorizationDetails == "" then Some("invalid_scope")
    else if !ResourcesKnown(request, registry, syntax) then Some("invalid_target")
    else if ("id_token" in types && "openid" !in scopes) || !ScopesKnown(request, registry) then Some("invalid_scope")
    else if "id_token" in types && request.nonce == "" then Some("invalid_request")
    else None
  }

  lemma LateRefusal(request: AuthorizeRequest, client: Client, mode: ResponseMode, registry: Registry, syntax: Syntax)
    requires ValidateFor(request, client, mode, registry, syntax).Failure?
    ensures var e := ValidateFor(request, client, mode, registry, syntax).error;
      && Some(e.error) == LateFault(request, client, registry, syntax)
      && (if e.error == "unsupported_response_mode"
          then request.responseMode == "jwt" && client.signedResponseAlg !in ["PS256", "ES256", "RS256"]
               && e.mode == ErrorMode(request.responseMode, ReturnsTokens(request))
          else e.mode == mode)
  {
    hide ResponseTypes, Scopes, ResourcesKnown, ScopesKnown, RealmMatches, IsThumbprint, ReturnsTokens, ErrorMode,
      ParameterError, ProfileError;
    ProfileFault(request, client);
    ParameterFault(request, syntax);
    assert client.signedResponseAlg in JARM_SIGNING_ALGORITHMS <==> client.signedResponseAlg in ["PS256", "ES256", "RS256"];
  }

  lemma ProfileFault(request: AuthorizeRequest, client: Client)
    ensures ProfileError(request, client)
      == if (client.fapiEnabled || client.fapi2Enabled)
            && ResponseTypes(request) != ProfileTypes(client)
         then Some("unsupported_response_type")
         else if (client.fapiEnabled || client.fapi2Enabled) && request.codeChallenge != "" && request.codeChallengeMethod != "S256"
         then Some("invalid_request") else None
  {
    hide ResponseTypes;
  }

  lemma ParameterFault(request: AuthorizeRequest, syntax: Syntax)
    ensures ParameterError(request, syntax)
      == if request.maxAge < -1
            || (request.claims != "" && !syntax.isClaimsParameter(request.claims))
            || (request.dpopJkt != "" && !IsThumbprint(request.dpopJkt))
            || (request.codeChallenge != "" && request.codeChallengeMethod != "S256" && request.codeChallengeMethod != "plain")
         then Some("invalid_request")
         else if request.authorizationDetails != "" && !syntax.isAuthorizationDetails(request.authorizationDetails)
         then Some("invalid_authorization_details")
         else if request.scope == request.authorizationDetails == "" then Some("invalid_scope") else None
  {
    hide IsThumbprint;
  }

  predicate RedirectRegistered(request: AuthorizeRequest, registry: Registry) {
    && request.clientId in registry.clients && registry.clients[request.clientId].isActive
    && request.redirectUri in registry.clients[request.clientId].redirectUris
  }

  // ---- the response -----------------------------------------------------------------

  /** Parameters of a response, in insertion order. */
  type Params = seq<(string, string)>

  /**
    What the collaborators answer for one request: the random code, the tokens
    (`None` when the client's signing or encryption material is missing), the
    session state, and the signer of response envelopes when one is injected.
  */
  datatype Issuance = Issuance(
    code: string, codeExpiresAt: int, accessToken: string, idToken: Option<string>, expiresIn: nat,
    scopeText: set<string> -> string, sessionState: string, issuer: string,
    signer: Option<Params -> string>)

  datatype AuthorizationCode = AuthorizationCode(
    code: string, clientId: string, redirectUri: string, subject: string, sessionId: string,
    subjectMaterial: string, scopes: set<string>, codeChallenge: string, codeChallengeMethod: string,
    nonce: string, authTime: int, acr: string, claims: string, openid2Realm: string, dpopJkt: string,
    resourceUris: seq<string>, authorizationDetails: string, expiresAt: int)

  datatype AuthorizeResult =
    | Redirect(redirectUri: string, code: string, state: string, mode: ResponseMode,
               idToken: string, accessToken: string, expiresIn: nat, formParams: Params)
    | Refused(error: AuthorizeError)

  const SUPPORTED_ACR_VALUES := ["puridentityserver:pwd", "urn:openid:eap:loa1"]

  /** `first_supported_acr` */
  function FirstSupported(values: seq<string>): string {
    if values == [] then ""
    else if values[0] in SUPPORTED_ACR_VALUES then values[0]
    else FirstSupported(values[1..])
  }

  /** `_issue_code`, before it is saved. */
  function IssuedCode(request: AuthorizeRequest, syntax: Syntax, issuance: Issuance): AuthorizationCode {
    AuthorizationCode(
      issuance.code, request.clientId, request.redirectUri, request.subject, request.sessionId,
      if request.sessionId != "" then request.sessionId else issuance.code,
      Scopes(request), request.codeChallenge, request.codeChallengeMethod, request.nonce, request.authTime,
      FirstSupported(Words(request.acrValues)), request.claims, request.openid2Realm, request.dpopJkt,
      ResourceIndicators.Parsed(request.resource, syntax.otherJson), request.authorizationDetails,
      issuance.codeExpiresAt)
  }

  function When(condition: bool, name: string, value: string): Params {
    if condition then [(name, value)] else []
  }

  /** `_build_success_params` */
  function SuccessParams(code: string, idToken: string, accessToken: string, expiresIn: nat, scope: string,
                         state: string, sessionState: string, issuer: string): Params
  {
    When(code != "", "code", code)
    + When(accessToken != "", "access_token", accessToken)
    + When(accessToken != "", "token_type", "Bearer")
    + When(accessToken != "", "expires_in", Decimal(expiresIn))
    + When(accessToken != "", "scope", scope)
    + When(idToken != "", "id_token", idToken)
    + When(sessionState != "", "session_state", sessionState)
    + When(state != "", "state", state)
    + When(issuer != "", "iss", issuer)
  }

  function Encoded(params: Params): seq<string> {
    seq(|params|, i requires 0 <= i < |params| => params[i].0 + "=" + params[i].1)
  }

  /** `_build_redirect_uri` */
  function BuildRedirectUri(redirectUri: string, mode: ResponseMode, params: seq<string>): string {
    var separator := if mode == Fragment then "#" else if '?' in redirectUri then "&" else "?";
    DropTrailingSlashes(redirectUri) + separator + Join("&", params)
  }

  /** The signed envelope of a response, empty when there is none. */
  function Envelope(validated: ValidatedAuthorization, params: Params, issuance: Issuance): string {
    if validated.mode == Jwt && issuance.signer.Some? && validated.client.signedResponseAlg in JARM_SIGNING_ALGORITHMS
    then issuance.signer.value(params) else ""
  }

  /** `_response_redirect_uri` */
  function ResponseUri(request: AuthorizeRequest, validated: ValidatedAuthorization, params: Params, issuance: Issuance)
    : string
  {
    if validated.mode == FormPost then request.redirectUri
    else
      var envelope := Envelope(validated, params, issuance);
      if envelope != "" then BuildRedirectUri(request.redirectUri, Jwt, ["response=" + envelope])
      else
        var mode :=
          if validated.mode == Jwt then if validated.HasTokens() then Fragment else Query else validated.mode;
        BuildRedirectUri(request.redirectUri, mode, Encoded(params))
  }

  /** The lifetime announced, when tokens are issued. */
  function ExpiresIn(v: ValidatedAuthorization, issuance: Issuance): nat {
    if v.HasTokens() then issuance.expiresIn else 0
  }

  /** The parameters of the successful response to a validated request. */
  function ResponseParams(request: AuthorizeRequest, v: ValidatedAuthorization, issuance: Issuance): Params {
    SuccessParams(
      if v.WantsCode() then issuance.code else "",
      if v.WantsIdToken() && issuance.idToken.Some? then issuance.idToken.value else "",
      if v.WantsToken() then issuance.accessToken else "",
      ExpiresIn(v, issuance),
      issuance.scopeText(if v.WantsToken() then Scopes(request) else {}),
      request.state, if request.sessionId != "" then issuance.sessionState else "", issuance.issuer)
  }

  /** `AuthorizeUseCase.execute`: its result, and the code it saves. */
  function Executed(request: AuthorizeRequest, registry: Registry, syntax: Syntax, issuance: Issuance)
    : (AuthorizeResult, Option<AuthorizationCode>)
  {
    match Validate(request, registry, syntax)
    case Failure(e) => (Refused(e), None)
    case Success(v) =>
      var saved := if v.WantsCode() then Some(IssuedCode(request, syntax, issuance)) else None;
      if v.WantsIdToken() && issuance.idToken.None? then (Refused(Refuse(request, "invalid_client", Query)), saved)
      else
        var params := ResponseParams(request, v, issuance);
        (Redirect(ResponseUri(request, v, params, issuance),
                  if v.WantsCode() then issuance.code else "", request.state, v.mode,
                  if v.WantsIdToken() then issuance.idToken.value else "",
                  if v.WantsToken() then issuance.accessToken else "",
                  ExpiresIn(v, issuance),
                  if v.mode == FormPost then params else []), saved)
  }

  class AuthorizeUseCase {
    /** The authorization code store. */
    var codes: map<string, AuthorizationCode>

    constructor ()
      ensures codes == map[]
    {
      codes := map[];
    }

    /** A response is issued and at most one code saved; nothing else in the store changes. */
    method Execute(request: AuthorizeRequest, registry: Registry, syntax: Syntax, issuance: Issuance)
      returns (r: AuthorizeResult)
      modifies this
      ensures r == Executed(request, registry, syntax, issuance).0
      ensures match Executed(request, registry, syntax, issuance).1
        case Some(saved) => codes == old(codes)[saved.code := saved]
        case None => codes == old(codes)
    {
      var validated := Validate(request, registry, syntax);
      if validated.Failure? {
        return Refused(validated.error);
      }
      var v := validated.value;
      var code, idToken, accessToken, expiresIn := "", "", "", 0;
      if v.WantsCode() {
        codes := codes[issuance.code := IssuedCode(request, syntax, issuance)];
        code := issuance.code;
      }
      if v.HasTokens() {
        expiresIn := issuance.expiresIn;
      }
      if v.WantsToken() {
        accessToken := issuance.accessToken;
      }
      if v.WantsIdToken() {
        if issuance.idToken.None? {
          return Refused(Refuse(request, "invalid_client", Query));
        }
        idToken := issuance.idToken.value;
      }
      var params := ResponseParams(request, v, issuance);
      return Redirect(ResponseUri(request, v, params, issuance), code, request.state, v.mode,
                      idToken, accessToken, expiresIn, if v.mode == FormPost then params else []);
    }
  }

  /** The `i`-th value is the first that is supported. */
  predicate IsFirstSupported(values: seq<string>, i: nat) {
    && i < |values| && values[i] in SUPPORTED_ACR_VALUES
    && forall j :: 0 <= j < i ==> values[j] !in SUPPORTED_ACR_VALUES
  }

  /** The authentication level recorded is the first one asked for that is supported, if any. */
  lemma {:induction false} FirstSupportedMeaning(values: seq<string>)
    ensures var r := FirstSupported(values);
      if forall v :: v in values ==> v !in SUPPORTED_ACR_VALUES then r == ""
      else exists i: nat :: IsFirstSupported(values, i) && values[i] == r
  {
    if values != [] && values[0] !in SUPPORTED_ACR_VALUES {
      FirstSupportedMeaning(values[1..]);
      if v :| v in values && v in SUPPORTED_ACR_VALUES {
        assert v in values[1..];
        var i: nat :| IsFirstSupported(values[1..], i) && values[1..][i] == FirstSupported(values);
        forall j | 0 <= j < i + 1 ensures values[j] !in SUPPORTED_ACR_VALUES {
          if j > 0 {
            assert values[j] == values[1..][j - 1];
          }
        }
        assert IsFirstSupported(values, i + 1);
      }
    } else if values != [] {
      assert IsFirstSupported(values, 0);
    }
  }

  /**
    A saved code is bound to the request that was validated: to its active
    client and a redirection registered for it, to known scopes and resources,
    and to one subject material for the whole flow.
  */
  lemma SavedCodeIsBound(request: AuthorizeRequest, registry: Registry, syntax: Syntax, issuance: Issuance)
    requires Executed(request, registry, syntax, issuance).1.Some?
    ensures var saved := Executed(request, registry, syntax, issuance).1.value;
      && Acceptable(request, registry, syntax) && "code" in Words(request.responseType)
      && saved.code == issuance.code && saved.expiresAt == issuance.codeExpiresAt
      && saved.clientId == request.clientId && saved.redirectUri == request.redirectUri
      && saved.subject == request.subject && saved.sessionId == request.sessionId
      && saved.subjectMaterial == (if saved.sessionId != "" then saved.sessionId else saved.code)
      && saved.scopes == (set w | w in Words(request.scope))
      && saved.codeChallenge == request.codeChallenge && saved.codeChallengeMethod == request.codeChallengeMethod
      && saved.nonce == request.nonce && saved.authTime == request.authTime
      && saved.acr == FirstSupported(Words(request.acrValues))
      && saved.claims == request.claims && saved.openid2Realm == request.openid2Realm
      && saved.dpopJkt == request.dpopJkt
      && saved.resourceUris == ResourceIndicators.Parsed(request.resource, syntax.otherJson)
      && saved.authorizationDetails == request.authorizationDetails
  {
    hide Validate, Acceptable, Words, FirstSupported, ResourceIndicators.Parsed;
    ValidateAcceptsIff(request, registry, syntax);
  }

  // ---- where tokens travel ------------------------------------------------------------

  /** The part of an address that a user agent sends to the server. */
  function BeforeHash(uri: string): (r: string)
    ensures r <= uri && '#' !in r
  {
    if uri == "" || uri[0] == '#' then "" else [uri[0]] + BeforeHash(uri[1..])
  }

  lemma {:induction false} BeforeHashOfFragment(base: string, rest: string)
    ensures BeforeHash(base + "#" + rest) <= base
  {
    if base != "" && base[0] != '#' {
      assert (base + "#" + rest)[1..] == base[1..] + "#" + rest;
      BeforeHashOfFragment(base[1..], rest);
    }
  }

  /**
    No token in a query: when a response carries a token, either it is a form
    post to the bare registered address, or its address holds only the signed
    envelope, or everything before the `#` was already in the registered
    address. Only a form post has body parameters.
  */
  lemma TokensStayOutOfTheQuery(request: AuthorizeRequest, registry: Registry, syntax: Syntax, issuance: Issuance)
    requires Executed(request, registry, syntax, issuance).0.Redirect?
    ensures var r := Executed(request, registry, syntax, issuance).0;
      && RedirectRegistered(request, registry)
      && (r.formParams != [] ==> r.mode == FormPost)
      && (r.idToken != "" || r.accessToken != "" ==>
           || (r.mode == FormPost && r.redirectUri == request.redirectUri)
           || (r.mode == Jwt && IsEnveloped(request, registry, syntax, issuance, r.redirectUri))
           || BeforeHash(r.redirectUri) <= request.redirectUri)
  {
    var r := Executed(request, registry, syntax, issuance).0;
    var v := Validate(request, registry, syntax).value;
    ValidateAcceptsIff(request, registry, syntax);
    if v.HasTokens() && v.mode != FormPost {
      var params := ResponseParams(request, v, issuance);
      if Envelope(v, params, issuance) == "" {
        assert r.redirectUri == BuildRedirectUri(request.redirectUri, Fragment, Encoded(params));
        BeforeHashOfFragment(DropTrailingSlashes(request.redirectUri), Join("&", Encoded(params)));
      }
    }
  }

  /** The address carries one parameter, the non-empty envelope the signer made of the response. */
  predicate IsEnveloped(request: AuthorizeRequest, registry: Registry, syntax: Syntax, issuance: Issuance, uri: string) {
    match Validate(request, registry, syntax)
    case Failure(_) => false
    case Success(v) =>
      issuance.signer.Some? &&
      var envelope := issuance.signer.value(ResponseParams(request, v, issuance));
      envelope != "" && uri == BuildRedirectUri(request.redirectUri, Jwt, ["response=" + envelope])
  }

  function Lookup(params: Params, name: string): Option<string> {
    if params == [] then None
    else if params[0].0 == name then Some(params[0].1)
    else Lookup(params[1..], name)
  }

  lemma {:induction false} LookupSplit(first: Params, rest: Params, name: string)
    ensures Lookup(first + rest, name)
      == if Lookup(first, name).Some? then Lookup(first, name) else Lookup(rest, name)
  {
    if first == [] {
      assert first + rest == rest;
    } else {
      assert (first + rest)[1..] == first[1..] + rest;
      LookupSplit(first[1..], rest, name);
    }
  }

  /** Each artefact of the response is found under its own name, and under no other when it is absent. */
  lemma ResponseCarries(code: string, idToken: string, accessToken: string, expiresIn: nat, scope: string,
                        state: string, sessionState: string, issuer: string, name: string)
    ensures Lookup(SuccessParams(code, idToken, accessToken, expiresIn, scope, state, sessionState, issuer), name)
      == if name == "code" && code != "" then Some(code)
         else if name == "access_token" && accessToken != "" then Some(accessToken)
         else if name == "token_type" && accessToken != "" then Some("Bearer")
         else if name == "expires_in" && accessToken != "" then Some(Decimal(expiresIn))
         else if name == "scope" && accessToken != "" then Some(scope)
         else if name == "id_token" && idToken != "" then Some(idToken)
         else if name == "session_state" && sessionState != "" then Some(sessionState)
         else if name == "state" && state != "" then Some(state)
         else if name == "iss" && issuer != "" then Some(issuer)
         else None
  {
    hide Lookup, When, Decimal;
    var p1 := When(code != "", "code", code);
    var p2 := p1 + When(accessToken != "", "access_token", accessToken);
    var p3 := p2 + When(accessToken != "", "token_type", "Bearer");
    var p4 := p3 + When(accessToken != "", "expires_in", Decimal(expiresIn));
    var p5 := p4 + When(accessToken != "", "scope", scope);
    var p6 := p5 + When(idToken != "", "id_token", idToken);
    var p7 := p6 + When(sessionState != "", "session_state", sessionState);
    var p8 := p7 + When(state != "", "state", state);
    LookupWhen([], code != "", "code", code, name);
    assert [] + p1 == p1;
    LookupWhen(p1, accessToken != "", "access_token", accessToken, name);
    LookupWhen(p2, accessToken != "", "token_type", "Bearer", name);
    LookupWhen(p3, accessToken != "", "expires_in", Decimal(expiresIn), name);
    LookupWhen(p4, accessToken != "", "scope", scope, name);
    LookupWhen(p5, idToken != "", "id_token", idToken, name);
    LookupWhen(p6, sessionState != "", "session_state", sessionState, name);
    LookupWhen(p7, state != "", "state", state, name);
    LookupWhen(p8, issuer != "", "iss", issuer, name);
    LookupNothing(name);
  }

  lemma LookupNothing(name: string)
    ensures Lookup([], name) == None
  {
  }

  /** One more parameter is found under its name if it is there and its name is new. */
  lemma LookupWhen(before: Params, condition: bool, added: string, value: string, name: string)
    ensures Lookup(before + When(condition, added, value), name)
      == if Lookup(before, name).Some? then Lookup(before, name)
         else if condition && name == added then Some(value) else None
  {
    LookupSplit(before, When(condition, added, value), name);
  }

  /** No refusal of the validation sends a token flow to the query. */
  lemma ValidationKeepsTokensOut(request: AuthorizeRequest, registry: Registry, syntax: Syntax)
    requires ReturnsTokens(request) && Validate(request, registry, syntax).Failure?
    ensures Validate(request, registry, syntax).error.mode != Query
  {
    hide ResponseTypes, Scopes, ReturnsTokens, ResourcesKnown, ScopesKnown, RealmMatches, ParameterError, ProfileError,
      VALID_RESPONSE_TYPES;
  }

  // ---- what reaches the client ----------------------------------------------------------

  function NonEmpty(value: string): Option<string> {
    if value == "" then None else Some(value)
  }

  /** What a client is told under each name, in terms of the result and of the request. */
  function Told(request: AuthorizeRequest, r: AuthorizeResult, issuance: Issuance, name: string): Option<string>
    requires r.Redirect?
  {
    if name == "code" then NonEmpty(r.code)
    else if name == "id_token" then NonEmpty(r.idToken)
    else if name == "access_token" then NonEmpty(r.accessToken)
    else if name == "token_type" then if r.accessToken != "" then Some("Bearer") else None
    else if name == "expires_in" then if r.accessToken != "" then Some(Decimal(r.expiresIn)) else None
    else if name == "scope" then if r.accessToken != "" then Some(issuance.scopeText(Scopes(request))) else None
    else if name == "session_state" then if request.sessionId != "" then NonEmpty(issuance.sessionState) else None
    else if name == "state" then NonEmpty(request.state)
    else if name == "iss" then NonEmpty(issuance.issuer)
    else None
  }

  /** The parameters tell the client everything it is to be told, and nothing else. */
  ghost predicate Tells(request: AuthorizeRequest, r: AuthorizeResult, issuance: Issuance, params: Params)
    requires r.Redirect?
  {
    forall name :: Lookup(params, name) == Told(request, r, issuance, name)
  }

  /** What a result holds: the artefacts its response types ask for, and the state of the request. */
  lemma ResultHolds(request: AuthorizeRequest, registry: Registry, syntax: Syntax, issuance: Issuance)
    requires Executed(request, registry, syntax, issuance).0.Redirect?
    ensures var r, types := Executed(request, registry, syntax, issuance).0, Words(request.responseType);
      && r.code == (if "code" in types then issuance.code else "")
      && r.accessToken == (if "token" in types then issuance.accessToken else "")
      && (if "id_token" in types then issuance.idToken == Some(r.idToken) else r.idToken == "")
      && r.expiresIn == (if "token" in types || "id_token" in types then issuance.expiresIn else 0)
      && r.state == request.state
      && Some(r.mode) == ResolveMode(request.responseMode, ReturnsTokens(request))
      && Acceptable(request, registry, syntax)
  {
    hide Validate, Acceptable, Words, ResponseUri, ResponseParams, ResolveMode;
    ValidateAcceptsIff(request, registry, syntax);
  }

  /** The first parameter of a pair text, up to its first equals sign. */
  function ReadPair(text: string): (string, string) {
    if text == "" then ("", "")
    else if text[0] == '=' then ("", text[1..])
    else
      var (name, value) := ReadPair(text[1..]);
      ([text[0]] + name, value)
  }

  lemma {:induction false} ReadWrittenPair(name: string, value: string)
    requires '=' !in name
    ensures ReadPair(name + "=" + value) == (name, value)
  {
    var text := name + "=" + value;
    if name == "" {
      assert text[1..] == value;
    } else {
      assert text[1..] == name[1..] + "=" + value;
      ReadWrittenPair(name[1..], value);
      assert [name[0]] + name[1..] == name;
    }
  }

  /** The pairs that a client reads in a query or a fragment. */
  function Pairs(text: string): (r: Params)
  {
    if text == "" then []
    else
      var parts := Split(text, '&');
      seq(|parts|, i requires 0 <= i < |parts| => ReadPair(parts[i]))
  }

  /** Written pairs are read back exactly when no value holds an ampersand. */
  lemma PairsAreReadBackIff(params: Params)
    requires PlainNames(params)
    ensures Pairs(Join("&", Encoded(params))) == params <==> forall p :: p in params ==> '&' !in p.1
  {
    hide Split, Join, ReadPair;
    var parts := Encoded(params);
    if params == [] {
      assert Join("&", []) == "" by { JoinOfNone(); }
    } else {
      var text := Join("&", parts);
      SplitJoin(parts, '&');
      JoinIsNotEmpty(params);
      assert "&" == ['&'];
      forall i | 0 <= i < |params| ensures ReadPair(parts[i]) == params[i] && ('&' in parts[i] <==> '&' in params[i].1) {
        assert params[i] in params;
        ReadWrittenPair(params[i].0, params[i].1);
      }
      assert |Pairs(text)| == |Split(text, '&')|;
      assert (forall p :: p in parts ==> '&' !in p) <==> forall p :: p in params ==> '&' !in p.1 by {
        assert forall i :: 0 <= i < |params| ==> parts[i] in parts && params[i] in params;
      }
    }
  }

  lemma JoinOfNone()
    ensures Join("&", []) == ""
  {
  }

  lemma JoinIsNotEmpty(params: Params)
    requires params != []
    ensures Join("&", Encoded(params)) != ""
  {
    assert '=' in Encoded(params)[0];
  }

  predicate PlainName(name: string) {
    '=' !in name && '&' !in name
  }

  predicate PlainNames(params: Params) {
    forall p :: p in params ==> PlainName(p.0)
  }

  lemma NamesOfTokens()
    ensures PlainName("code") && PlainName("access_token") && PlainName("token_type") && PlainName("expires_in")
  {
  }

  lemma OtherNames()
    ensures PlainName("scope") && PlainName("id_token") && PlainName("session_state") && PlainName("state") && PlainName("iss")
  {
  }

  lemma PlainWhen(before: Params, condition: bool, name: string, value: string)
    requires PlainNames(before) && PlainName(name)
    ensures PlainNames(before + When(condition, name, value))
  {
  }

  /** The names of a response hold no delimiter. */
  lemma NamesArePlain(code: string, idToken: string, accessToken: string, expiresIn: nat, scope: string,
                      state: string, sessionState: string, issuer: string)
    ensures PlainNames(SuccessParams(code, idToken, accessToken, expiresIn, scope, state, sessionState, issuer))
  {
    hide When, Decimal, PlainNames, PlainName;
    NamesOfTokens();
    OtherNames();
    var p1 := When(code != "", "code", code);
    var p2 := p1 + When(accessToken != "", "access_token", accessToken);
    var p3 := p2 + When(accessToken != "", "token_type", "Bearer");
    var p4 := p3 + When(accessToken != "", "expires_in", Decimal(expiresIn));
    var p5 := p4 + When(accessToken != "", "scope", scope);
    var p6 := p5 + When(idToken != "", "id_token", idToken);
    var p7 := p6 + When(sessionState != "", "session_state", sessionState);
    var p8 := p7 + When(state != "", "state", state);
    assert PlainNames([]) by { NoNames(); }
    PlainWhen([], code != "", "code", code);
    assert [] + p1 == p1;
    PlainWhen(p1, accessToken != "", "access_token", accessToken);
    PlainWhen(p2, accessToken != "", "token_type", "Bearer");
    PlainWhen(p3, accessToken != "", "expires_in", Decimal(expiresIn));
    PlainWhen(p4, accessToken != "", "scope", scope);
    PlainWhen(p5, idToken != "", "id_token", idToken);
    PlainWhen(p6, sessionState != "", "session_state", sessionState);
    PlainWhen(p7, state != "", "state", state);
    PlainWhen(p8, issuer != "", "iss", issuer);
  }

  lemma NoNames()
    ensures PlainNames([])
  {
  }

  /** The mark between the registered address and the parameters in the clear. */
  function Mark(request: AuthorizeRequest, r: AuthorizeResult): string
    requires r.Redirect?
  {
    if r.mode == Fragment || (r.mode == Jwt && ReturnsTokens(request)) then "#"
    else if '?' in request.redirectUri then "&" else "?"
  }

  /** The response travels in an envelope: the mode asks for one, it can be signed, and signing succeeds. */
  predicate IsSealed(request: AuthorizeRequest, r: AuthorizeResult, registry: Registry, issuance: Issuance, params: Params)
    requires r.Redirect?
  {
    && r.mode == Jwt && issuance.signer.Some?
    && request.clientId in registry.clients
    && registry.clients[request.clientId].signedResponseAlg in ["PS256", "ES256", "RS256"]
    && issuance.signer.value(params) != ""
  }

  /**
    What reaches the client, whatever the mode: parameters that tell exactly the
    artefacts of the result, the state of the request and what goes with them.
    A form post carries them in its body, an envelope is made of them, and an
    address in the clear is read back as them exactly when no value holds an
    ampersand, since values are not encoded.
  */
  lemma ResponseReachesClient(request: AuthorizeRequest, registry: Registry, syntax: Syntax, issuance: Issuance)
    returns (params: Params)
    requires Executed(request, registry, syntax, issuance).0.Redirect?
    ensures var r, base := Executed(request, registry, syntax, issuance).0, DropTrailingSlashes(request.redirectUri);
      && Tells(request, r, issuance, params)
      && r.formParams == (if r.mode == FormPost then params else [])
      && if r.mode == FormPost then r.redirectUri == request.redirectUri
         else if IsSealed(request, r, registry, issuance, params) then
           r.redirectUri == base + (if '?' in request.redirectUri then "&" else "?") + "response=" + issuance.signer.value(params)
         else
           var clear := base + Mark(request, r);
           && clear <= r.redirectUri
           && (Pairs(r.redirectUri[|clear|..]) == params <==> forall p :: p in params ==> '&' !in p.1)
  {
    hide Validate, ResponseParams, Pairs, Tells, Words, Join, Encoded, DropTrailingSlashes, ReturnsTokens;
    var v := Validate(request, registry, syntax).value;
    var r := Executed(request, registry, syntax, issuance).0;
    params := ResponseParams(request, v, issuance);
    ValidatedIs(request, registry, syntax);
    ParamsTell(request, registry, syntax, issuance);
    ParamsArePlain(request, v, issuance);
    PairsAreReadBackIff(params);
    SealedIff(request, registry, syntax, issuance);
    if r.mode != FormPost {
      AddressIs(request, v, params, issuance);
    }
  }

  lemma ParamsArePlain(request: AuthorizeRequest, v: ValidatedAuthorization, issuance: Issuance)
    ensures PlainNames(ResponseParams(request, v, issuance))
  {
    hide SuccessParams, PlainNames;
    NamesArePlain(
      if v.WantsCode() then issuance.code else "",
      if v.WantsIdToken() && issuance.idToken.Some? then issuance.idToken.value else "",
      if v.WantsToken() then issuance.accessToken else "", ExpiresIn(v, issuance),
      issuance.scopeText(if v.WantsToken() then Scopes(request) else {}),
      request.state, if request.sessionId != "" then issuance.sessionState else "", issuance.issuer);
  }

  /** What is told under a name is among the parameters. */
  lemma {:induction false} LookupIsThere(params: Params, name: string)
    requires Lookup(params, name).Some?
    ensures (name, Lookup(params, name).value) in params
  {
    if params[0].0 != name {
      LookupIsThere(params[1..], name);
    }
  }

  /** A state with an ampersand is not read back as it was given. */
  lemma AmpersandIsNotReadBack(issuance: Issuance) returns (params: Params)
    ensures var request := PlainRequest("code", "https://rp/cb", "openid", "").(state := "a&b");
      var r := Executed(request, OneClient("https://rp/cb"), NoSyntax(), issuance).0;
      && r.Redirect? && r.mode == Query && Tells(request, r, issuance, params)
      && var clear := DropTrailingSlashes("https://rp/cb") + Mark(request, r);
         clear <= r.redirectUri && Pairs(r.redirectUri[|clear|..]) != params
  {
    hide Words, ResourceIndicators.Parsed, VALID_RESPONSE_TYPES, Validate, Pairs, DropTrailingSlashes, ResponseUri,
      ResponseParams, Lookup, Acceptable;
    var request, registry := PlainRequest("code", "https://rp/cb", "openid", "").(state := "a&b"), OneClient("https://rp/cb");
    CodeWithStateIsValid(request);
    params := ResponseReachesClient(request, registry, NoSyntax(), issuance);
    var r := Executed(request, registry, NoSyntax(), issuance).0;
    assert Lookup(params, "state") == Told(request, r, issuance, "state") == Some("a&b");
    LookupIsThere(params, "state");
    assert ("state", "a&b").1[1] == '&';
  }

  lemma CodeWithStateIsValid(request: AuthorizeRequest)
    requires request == PlainRequest("code", "https://rp/cb", "openid", "").(state := "a&b")
    ensures var v := Validate(request, OneClient("https://rp/cb"), NoSyntax());
      v.Success? && v.value.mode == Query && !v.value.WantsIdToken()
  {
    hide Words, ResourceIndicators.Parsed, VALID_RESPONSE_TYPES, Validate;
    SingleWords();
    assert ResponseTypes(request) == {"code"} && Scopes(request) == {"openid"};
    NoResources();
    ValidateAcceptsIff(request, OneClient("https://rp/cb"), NoSyntax());
    assert Acceptable(request, OneClient("https://rp/cb"), NoSyntax());
  }

  lemma ValidatedIs(request: AuthorizeRequest, registry: Registry, syntax: Syntax)
    requires Validate(request, registry, syntax).Success?
    ensures var v := Validate(request, registry, syntax).value;
      && request.clientId in registry.clients && v.client == registry.clients[request.clientId]
      && (v.HasTokens() <==> ReturnsTokens(request))
      && v.responseTypes == ResponseTypes(request)
  {
    hide Validate;
    ValidateAcceptsIff(request, registry, syntax);
  }

  /** Where the address puts its parameters. */
  lemma AddressIs(request: AuthorizeRequest, v: ValidatedAuthorization, params: Params, issuance: Issuance)
    requires v.mode != FormPost
    ensures var uri, base := ResponseUri(request, v, params, issuance), DropTrailingSlashes(request.redirectUri);
      var query := if '?' in request.redirectUri then "&" else "?";
      var sealed := v.mode == Jwt && issuance.signer.Some? && v.client.signedResponseAlg in JARM_SIGNING_ALGORITHMS
                    && issuance.signer.value(params) != "";
      if sealed then uri == base + query + "response=" + issuance.signer.value(params)
      else
        var clear := base + if v.mode == Fragment || (v.mode == Jwt && v.HasTokens()) then "#" else query;
        clear <= uri && uri[|clear|..] == Join("&", Encoded(params))
  {
    hide Encoded, DropTrailingSlashes;
    var base := DropTrailingSlashes(request.redirectUri);
    var query := if '?' in request.redirectUri then "&" else "?";
    var envelope := Envelope(v, params, issuance);
    if envelope != "" {
      assert Join("&", ["response=" + envelope]) == "response=" + envelope;
      assert base + query + ("response=" + envelope) == base + query + "response=" + envelope;
    }
  }

  lemma SealedIff(request: AuthorizeRequest, registry: Registry, syntax: Syntax, issuance: Issuance)
    requires Executed(request, registry, syntax, issuance).0.Redirect?
    ensures var r, v := Executed(request, registry, syntax, issuance).0, Validate(request, registry, syntax).value;
      forall params :: IsSealed(request, r, registry, issuance, params) <==>
        && v.mode == Jwt && issuance.signer.Some? && v.client.signedResponseAlg in JARM_SIGNING_ALGORITHMS
        && issuance.signer.value(params) != ""
  {
    hide Validate, ResponseUri, ResponseParams;
    ValidatedIs(request, registry, syntax);
    var v := Validate(request, registry, syntax).value;
    assert v.client.signedResponseAlg in JARM_SIGNING_ALGORITHMS <==> v.client.signedResponseAlg in ["PS256", "ES256", "RS256"];
  }

  lemma ParamsTell(request: AuthorizeRequest, registry: Registry, syntax: Syntax, issuance: Issuance)
    requires Executed(request, registry, syntax, issuance).0.Redirect?
    ensures var v := Validate(request, registry, syntax).value;
      Tells(request, Executed(request, registry, syntax, issuance).0, issuance, ResponseParams(request, v, issuance))
  {
    hide Validate, ResponseUri, SuccessParams, Lookup, Scopes, Decimal;
    var v, r := Validate(request, registry, syntax).value, Executed(request, registry, syntax, issuance).0;
    forall name ensures Lookup(ResponseParams(request, v, issuance), name) == Told(request, r, issuance, name) {
      ResponseCarries(r.code, r.idToken, r.accessToken, r.expiresIn,
                      issuance.scopeText(if v.WantsToken() then Scopes(request) else {}),
                      request.state, if request.sessionId != "" then issuance.sessionState else "", issuance.issuer, name);
    }
  }

  /**
    Errors of a flow that returns tokens are announced for the fragment. One
    family escapes: the redirectable refusal of such a request is put in the
    query exactly when the request was valid and the material for its id_token
    is missing. By then a code may already have been saved.
  */
  lemma TokenFlowErrorInQueryIff(request: AuthorizeRequest, registry: Registry, syntax: Syntax, issuance: Issuance)
    requires ReturnsTokens(request)
    requires Executed(request, registry, syntax, issuance).0.Refused?
    ensures var (r, saved) := Executed(request, registry, syntax, issuance);
      var lateFailure := Acceptable(request, registry, syntax)
                         && "id_token" in ResponseTypes(request) && issuance.idToken.None?;
      && (r.error.redirectable && r.error.mode == Query <==> lateFailure)
      && (saved.Some? <==> lateFailure && "code" in ResponseTypes(request))
  {
    hide Validate, Acceptable, ResponseParams, ResponseUri, IssuedCode;
    ValidateAcceptsIff(request, registry, syntax);
    if Validate(request, registry, syntax).Failure? {
      ValidationKeepsTokensOut(request, registry, syntax);
    }
  }

  /** A request with the given response type, scope and nonce, and nothing else. */
  function PlainRequest(responseType: string, redirectUri: string, scope: string, nonce: string): AuthorizeRequest {
    AuthorizeRequest(
      responseType, "c", redirectUri, scope, "", "", nonce, "", "S256", "", "", -1, "", 0, "", "", "", "", "", "")
  }

  function NoSyntax(): Syntax {
    Syntax((s: string) => None, (s: string) => false, (s: string) => false, (s: string) => false, (s: string) => None)
  }

  /** One client, registered for one address. */
  function OneClient(redirectUri: string): Registry {
    Registry(map["c" := Client("c", {redirectUri}, true, true, false, false, false, "")], None)
  }

  /** An empty response type is refused to whatever address comes with it, with no client at all. */
  lemma UnknownClientIsRedirected(redirectUri: string)
    ensures var r := Validate(PlainRequest("", redirectUri, "", ""), Registry(map[], None), NoSyntax());
      r.Failure? && r.error.redirectable && r.error.redirectUri == redirectUri
  {
    assert Words("") == [];
    assert ResponseTypes(PlainRequest("", redirectUri, "", "")) == {};
    ValidTypesIff({});
  }

  /** A valid hybrid request whose id_token cannot be signed: refused in the query, with its code saved. */
  lemma HybridErrorInQuery(issuance: Issuance)
    requires issuance.idToken.None?
    ensures var request := PlainRequest("code id_token", "https://rp/cb", "openid", "n");
      var (r, saved) := Executed(request, OneClient("https://rp/cb"), NoSyntax(), issuance);
      && ReturnsTokens(request) && r.Refused? && r.error.redirectable && r.error.mode == Query && saved.Some?
  {
    hide Words, ResourceIndicators.Parsed, VALID_RESPONSE_TYPES, Validate, FirstSupported;
    var request, registry := PlainRequest("code id_token", "https://rp/cb", "openid", "n"), OneClient("https://rp/cb");
    WordsOfHybrid();
    assert ResponseTypes(request) == {"code", "id_token"} && Scopes(request) == {"openid"};
    NoResources();
    ValidateAcceptsIff(request, registry, NoSyntax());
    assert Acceptable(request, registry, NoSyntax());
  }

  lemma WordsOfHybrid()
    ensures Words("code id_token") == ["code", "id_token"] && Words("openid") == ["openid"]
  {
    hide WordsFrom;
    assert "code" + " " + "id_token" == "code id_token";
    WordsAroundSpace("code", "", ' ', "id_token");
    WordsOfWord("id_token", "");
    WordsOfWord("openid", "");
    assert "" + "code" == "code" && "" + "id_token" == "id_token" && "" + "openid" == "openid";
  }

  lemma SingleWords()
    ensures Words("token") == ["token"] && Words("code") == ["code"] && Words("openid") == ["openid"]
  {
    hide WordsFrom;
    WordsOfWord("token", "");
    WordsOfWord("code", "");
    WordsOfWord("openid", "");
    assert "" + "token" == "token" && "" + "code" == "code" && "" + "openid" == "openid";
  }

  lemma NoResources()
    ensures ResourceIndicators.Parsed("", NoSyntax().otherJson) == []
  {
    assert Strip("") == "";
  }
}
