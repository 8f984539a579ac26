/**
  Pushed authorization requests (RFC 9126): a store of one-time references to
  validated requests, under a clock that never goes back.
*/
module PushedAuthorization {
  import opened Wrappers
  import opened Authorization
  import Json
  import PythonText
  import RequestObject
  import ResourceIndicators

  type Parameters = RequestObject.Parameters

  datatype Pushed = Pushed(clientId: string, params: Parameters, expiresAt: int, isConsumed: bool)

  datatype PushError = PushError(
    error: string, statusCode: int, redirectUri: string, state: string, mode: ResponseMode)

  /**
    Registries and collaborators as they are at one push: the request object
    resolver, the reader of an assertion's issuer and the proof validator may
    be missing; `authenticates` is the client authentication of RFC 6749.
  */
  datatype Env = Env(
    registry: Registry, syntax: Syntax, ttl: int,
    resolver: Option<RequestObject.Env>,
    issuerOf: Option<string -> string>,
    authenticates: (Client, Parameters) -> bool,
    proofThumbprint: Option<string -> Option<string>>)

  /** A client registry is keyed by the identifiers of its clients. */
  predicate WellKeyed(registry: Registry) {
    forall id :: id in registry.clients ==> registry.clients[id].clientId == id
  }

  function Get(params: Parameters, name: string): string {
    RequestObject.Get(params, name)
  }

  function GetOr(params: Parameters, name: string, default: string): string {
    if name in params then params[name] else default
  }

  function PlainError(error: string, statusCode: int): PushError {
    PushError(error, statusCode, "", "", Query)
  }

  // ---- push ----------------------------------------------------------------------

  /** `_authenticate_client` */
  function AuthenticateClient(env: Env, params: Parameters): Result<Client, PushError> {
    var named, assertion := Get(params, "client_id"), Get(params, "client_assertion");
    var clientId :=
      if named == "" && assertion != "" && env.issuerOf.Some? then env.issuerOf.value(assertion) else named;
    if clientId == "" || clientId !in env.registry.clients || !env.registry.clients[clientId].isActive then
      Failure(PlainError("invalid_client", 401))
    else
      var client := env.registry.clients[clientId];
      if Get(params, "client_secret") != "" && !client.isConfidential then Failure(PlainError("invalid_client", 401))
      else if !env.authenticates(client, params) then Failure(PlainError("invalid_client", 401))
      else Success(client)
  }

  /** `_fapi_pkce_error` */
  predicate PkceMissing(params: Parameters) {
    Get(params, "code_challenge") == "" || GetOr(params, "code_challenge_method", "S256") != "S256"
  }

  /** `_check_dpop_proof`: the thumbprint of the proof, if one was given. */
  function CheckProof(env: Env, params: Parameters, proof: string): Result<Option<string>, PushError> {
    if proof == "" then Success(None)
    else if env.proofThumbprint.None? then Failure(PlainError("invalid_dpop_proof", 400))
    else
      match env.proofThumbprint.value(proof)
      case None => Failure(PlainError("invalid_dpop_proof", 400))
      case Some(jkt) =>
        if Get(params, "dpop_jkt") != "" && Get(params, "dpop_jkt") != jkt
        then Failure(PlainError("invalid_dpop_proof", 400))
        else Success(Some(jkt))
  }

  /** `_validated_push_error` */
  function TranslatedError(e: AuthorizeError): PushError {
    var error := if e.error == "invalid_redirect_uri" then "invalid_request" else e.error;
    PlainError(error, if error == "invalid_client" then 401 else 400)
  }

  /** The request that `push` validates. */
  function RequestAtPush(params: Parameters, clientId: string, syntax: Syntax): AuthorizeRequest {
    AuthorizeRequest(
      responseType := Get(params, "response_type"),
      clientId := clientId,
      redirectUri := Get(params, "redirect_uri"),
      scope := Get(params, "scope"),
      subject := "",
      state := Get(params, "state"),
      nonce := Get(params, "nonce"),
      codeChallenge := Get(params, "code_challenge"),
      codeChallengeMethod := GetOr(params, "code_challenge_method", "S256"),
      responseMode := Get(params, "response_mode"),
      prompt := Get(params, "prompt"),
      maxAge := ParseMaxAge(Get(params, "max_age"), syntax),
      sessionId := "",
      authTime := 0,
      acrValues := Get(params, "acr_values"),
      claims := Get(params, "claims"),
      openid2Realm := Get(params, "openid2_realm"),
      dpopJkt := Get(params, "dpop_jkt"),
      resource := Get(params, "resource"),
      authorizationDetails := Get(params, "authorization_details"))
  }

  /** The pushed parameters with their request object opened. */
  function ResolvedParameters(env: Env, pushed: Parameters): Result<Parameters, RequestObject.RequestObjectError> {
    if env.resolver.Some? then RequestObject.Resolve(env.resolver.value, pushed, "") else Success(pushed)
  }

  /** `push`, up to the choice of a reference: the request validated and the parameters kept. */
  function PushOutcome(env: Env, pushed: Parameters, proof: string): Result<(AuthorizeRequest, Parameters), PushError> {
    if Get(pushed, "request_uri") != "" then Failure(PlainError("invalid_request", 400))
    else
      match ResolvedParameters(env, pushed)
      case Failure(e) => Failure(PlainError(e.error, 400))
      case Success(resolved) =>
        match AuthenticateClient(env, resolved)
        case Failure(e) => Failure(e)
        case Success(client) =>
          var named := resolved["client_id" := client.clientId];
          if (client.fapiEnabled || client.fapi2Enabled) && PkceMissing(named) then
            Failure(PlainError("invalid_request", 400))
          else
            match CheckProof(env, named, proof)
            case Failure(e) => Failure(e)
            case Success(jkt) =>
              var params := if jkt.Some? && "dpop_jkt" !in named then named["dpop_jkt" := jkt.value] else named;
              var request := RequestAtPush(params, client.clientId, env.syntax);
              match Validate(request, env.registry, env.syntax)
              case Failure(e) => Failure(TranslatedError(e))
              case Success(_) => Success((request, params - {"client_secret"}))
  }

  // ---- resolve and complete ---------------------------------------------------------

  /** The request that `resolve` rebuilds. */
  function RequestAtResolve(params: Parameters, clientId: string, syntax: Syntax): AuthorizeRequest {
    AuthorizeRequest(
      responseType := Get(params, "response_type"),
      clientId := GetOr(params, "client_id", clientId),
      redirectUri := Get(params, "redirect_uri"),
      scope := Get(params, "scope"),
      subject := "",
      state := Get(params, "state"),
      nonce := Get(params, "nonce"),
      codeChallenge := Get(params, "code_challenge"),
      codeChallengeMethod := GetOr(params, "code_challenge_method", "S256"),
      responseMode := Get(params, "response_mode"),
      prompt := Get(params, "prompt"),
      maxAge := ParseMaxAge(Get(params, "max_age"), syntax),
      sessionId := "",
      authTime := 0,
      acrValues := Get(params, "acr_values"),
      claims := Get(params, "claims"),
      openid2Realm := Get(params, "openid2_realm"),
      dpopJkt := Get(params, "dpop_jkt"),
      resource := Get(params, "resource"),
      authorizationDetails := Get(params, "authorization_details"))
  }

  /** `_invalid_pushed_error` */
  function KnownReferenceError(pushed: Pushed, error: string): PushError {
    var requested := Get(pushed.params, "response_mode");
    PushError(error, 400, Get(pushed.params, "redirect_uri"), Get(pushed.params, "state"),
              if requested == "fragment" then Fragment else if requested == "form_post" then FormPost else Query)
  }

  predicate IsDead(pushed: Pushed, now: int) {
    pushed.expiresAt <= now || pushed.isConsumed
  }

  /** What `resolve` answers. */
  function Resolved(store: map<string, Pushed>, now: int, uri: string, clientId: string, syntax: Syntax)
    : Result<AuthorizeRequest, PushError>
  {
    if uri !in store then Failure(PlainError("invalid_request_uri", 400))
    else
      var pushed := store[uri];
      if IsDead(pushed, now) then Failure(KnownReferenceError(pushed, "invalid_request_uri"))
      else if pushed.clientId != clientId then Failure(KnownReferenceError(pushed, "invalid_request"))
      else Success(RequestAtResolve(pushed.params, clientId, syntax))
  }

  /** What a visit leaves of the store: a dead reference is removed, whoever visits it. */
  function Visited(store: map<string, Pushed>, now: int, uri: string): map<string, Pushed> {
    if uri in store && IsDead(store[uri], now) then store - {uri} else store
  }

  function Completed(store: map<string, Pushed>, uri: string): map<string, Pushed> {
    if uri in store then store[uri := store[uri].(isConsumed := true)] else store
  }

  class PushedAuthorizationUseCase {
    var pushed: map<string, Pushed>

    constructor ()
      ensures pushed == map[]
    {
      pushed := map[];
    }

    /** A refused push stores nothing; an accepted one stores its parameters under the new reference only. */
    method Push(env: Env, params: Parameters, proof: string, now: int, reference: string)
      returns (r: Result<string, PushError>)
      modifies this
      ensures match PushOutcome(env, params, proof)
        case Failure(e) => r == Failure(e) && pushed == old(pushed)
        case Success((request, kept)) =>
          && r == Success(RequestObject.PUSHED_REQUEST_URI_PREFIX + reference)
          && pushed == old(pushed)[r.value := Pushed(request.clientId, kept, now + env.ttl, false)]
    {
      var outcome := PushOutcome(env, params, proof);
      match outcome {
        case Failure(e) => r := Failure(e);
        case Success((request, kept)) =>
          var uri := RequestObject.PUSHED_REQUEST_URI_PREFIX + reference;
          pushed := pushed[uri := Pushed(request.clientId, kept, now + env.ttl, false)];
          r := Success(uri);
      }
    }

    method Resolve(uri: string, clientId: string, now: int, syntax: Syntax)
      returns (r: Result<AuthorizeRequest, PushError>)
      modifies this
      ensures r == Resolved(old(pushed), now, uri, clientId, syntax)
      ensures pushed == Visited(old(pushed), now, uri)
    {
      if uri !in pushed {
        return Failure(PlainError("invalid_request_uri", 400));
      }
      var stored := pushed[uri];
      if stored.expiresAt <= now {
        pushed := pushed - {uri};
        return Failure(KnownReferenceError(stored, "invalid_request_uri"));
      }
      if stored.isConsumed {
        pushed := pushed - {uri};
        return Failure(KnownReferenceError(stored, "invalid_request_uri"));
      }
      if stored.clientId != clientId {
        return Failure(KnownReferenceError(stored, "invalid_request"));
      }
      return Success(RequestAtResolve(stored.params, clientId, syntax));
    }

    method Complete(uri: string)
      modifies this
      ensures pushed == Completed(old(pushed), uri)
    {
      if uri in pushed {
        pushed := pushed[uri := pushed[uri].(isConsumed := true)];
      }
    }
  }

  // ---- one push ---------------------------------------------------------------------------

  /**
    The pushed route loses nothing: for every parameter map, request object and
    proof, the request rebuilt from the kept parameters is the one validated by
    the push, so it is valid again under the same registries; the client secret
    is not kept, and the redirection was registered for the pushing client.
  */
  lemma PushThenResolve(env: Env, params: Parameters, proof: string)
    requires WellKeyed(env.registry) && PushOutcome(env, params, proof).Success?
    ensures var (request, kept) := PushOutcome(env, params, proof).value;
      && RequestAtResolve(kept, request.clientId, env.syntax) == request
      && Validate(request, env.registry, env.syntax).Success?
      && RedirectRegistered(request, env.registry)
      && Get(kept, "redirect_uri") == request.redirectUri && Get(kept, "state") == request.state
      && "client_secret" !in kept
  {
    hide RequestObject.Resolve, CheckProof, Validate, RequestAtPush, RequestAtResolve;
    var (request, kept) := PushOutcome(env, params, proof).value;
    var resolved := ResolvedParameters(env, params).value;
    var client := AuthenticateClient(env, resolved).value;
    var named := resolved["client_id" := client.clientId];
    var jkt := CheckProof(env, named, proof).value;
    var full := if jkt.Some? && "dpop_jkt" !in named then named["dpop_jkt" := jkt.value] else named;
    RebuiltFromKept(full, client.clientId, env.syntax);
    ValidatedRedirect(request, env);
  }

  /**
    Who may push: an active client that authenticates with the parameters of
    its opened request object, named there or by its assertion; a public client
    without a secret; a FAPI client with PKCE under S256.
  */
  lemma PushIsAuthenticated(env: Env, params: Parameters, proof: string)
    requires WellKeyed(env.registry) && PushOutcome(env, params, proof).Success?
    ensures var request := PushOutcome(env, params, proof).value.0;
      && Get(params, "request_uri") == ""
      && ResolvedParameters(env, params).Success?
      && var resolved := ResolvedParameters(env, params).value;
         && request.clientId in env.registry.clients
         && var client := env.registry.clients[request.clientId];
            && client.isActive && env.authenticates(client, resolved)
            && (Get(resolved, "client_id") != "" ==> request.clientId == Get(resolved, "client_id"))
            && (Get(resolved, "client_secret") != "" ==> client.isConfidential)
            && (client.fapiEnabled || client.fapi2Enabled ==>
                  request.codeChallenge != "" && request.codeChallengeMethod == "S256")
  {
    hide RequestObject.Resolve, Validate, CheckProof, ParseMaxAge;
  }

  // ---- when a push is accepted -----------------------------------------------------------

  /** The client that parameters name: by identifier, or else as the issuer of an assertion that can be read. */
  function NamedBy(env: Env, params: Parameters): string {
    if "client_id" in params && params["client_id"] != "" then params["client_id"]
    else if "client_assertion" in params && params["client_assertion"] != "" && env.issuerOf.Some?
    then env.issuerOf.value(params["client_assertion"]) else ""
  }

  /** The parameters come from an active client that authenticates with them, without a secret if it is public. */
  predicate ComesFrom(env: Env, params: Parameters, client: Client) {
    var id := NamedBy(env, params);
    && id != "" && id in env.registry.clients && env.registry.clients[id] == client && client.isActive
    && env.authenticates(client, params)
    && (client.isConfidential || "client_secret" !in params || params["client_secret"] == "")
  }

  lemma AuthenticatedIff(env: Env, params: Parameters, client: Client)
    ensures AuthenticateClient(env, params) == Success(client) <==> ComesFrom(env, params, client)
    ensures AuthenticateClient(env, params).Failure? ==>
      AuthenticateClient(env, params).error == PushError("invalid_client", 401, "", "", Query)
  {
  }

  /** The parameters carry a challenge, by the one method of the FAPI profiles. */
  predicate HasPkce(params: Parameters) {
    && "code_challenge" in params && params["code_challenge"] != ""
    && ("code_challenge_method" in params ==> params["code_challenge_method"] == "S256")
  }

  /** The proof, if any, is valid and of the key declared, if any. */
  predicate ProofAgrees(env: Env, params: Parameters, proof: string) {
    proof == "" || (
      && env.proofThumbprint.Some? && env.proofThumbprint.value(proof).Some?
      && ("dpop_jkt" in params && params["dpop_jkt"] != "" ==>
            params["dpop_jkt"] == env.proofThumbprint.value(proof).value))
  }

  lemma ProofCheckedIff(env: Env, params: Parameters, proof: string)
    ensures CheckProof(env, params, proof).Success? <==> ProofAgrees(env, params, proof)
    ensures CheckProof(env, params, proof).Success? ==>
      CheckProof(env, params, proof).value == if proof == "" then None else env.proofThumbprint.value(proof)
    ensures CheckProof(env, params, proof).Failure? ==>
      CheckProof(env, params, proof).error == PushError("invalid_dpop_proof", 400, "", "", Query)
  {
  }

  /** The parameters that are validated: under the client's own identifier, and bound to the key of the proof if none is declared. */
  function Completing(env: Env, params: Parameters, client: Client, proof: string): Parameters {
    var named := params["client_id" := client.clientId];
    if proof != "" && "dpop_jkt" !in params && env.proofThumbprint.Some? && env.proofThumbprint.value(proof).Some?
    then named["dpop_jkt" := env.proofThumbprint.value(proof).value] else named
  }

  /**
    When a push is accepted, and as what: it names no reference, its request
    object opens to parameters of a client that authenticates, with PKCE under a
    FAPI profile and with a proof that agrees, and they make an acceptable
    request. All is kept but the secret.
  */
  lemma PushAcceptedIff(env: Env, params: Parameters, proof: string)
    ensures PushOutcome(env, params, proof).Success? <==>
      && ("request_uri" in params ==> params["request_uri"] == "")
      && ResolvedParameters(env, params).Success?
      && var resolved := ResolvedParameters(env, params).value;
         exists client :: ComesFrom(env, resolved, client) && IsPushable(env, resolved, client, proof)
    ensures PushOutcome(env, params, proof).Success? ==>
      var client := env.registry.clients[NamedBy(env, ResolvedParameters(env, params).value)];
      var complete := Completing(env, ResolvedParameters(env, params).value, client, proof);
      PushOutcome(env, params, proof).value
        == (RequestAtPush(complete, client.clientId, env.syntax), complete - {"client_secret"})
  {
    hide ResolvedParameters, Validate, AuthenticateClient, CheckProof, ProofAgrees, RequestAtPush, PkceMissing, HasPkce,
      Acceptable, Completing;
    if ResolvedParameters(env, params).Success? {
      var resolved := ResolvedParameters(env, params).value;
      forall client ensures AuthenticateClient(env, resolved) == Success(client) <==> ComesFrom(env, resolved, client) {
        AuthenticatedIff(env, resolved, client);
      }
      if AuthenticateClient(env, resolved).Success? {
        var client := AuthenticateClient(env, resolved).value;
        SameProof(env, resolved, client.clientId, proof);
        if CheckProof(env, resolved["client_id" := client.clientId], proof).Success? {
          SameCompletion(env, resolved, client, proof);
        }
        ProofCheckedIff(env, resolved["client_id" := client.clientId], proof);
        ValidateAcceptsIff(RequestAtPush(Completing(env, resolved, client, proof), client.clientId, env.syntax),
                           env.registry, env.syntax);
      }
    }
  }

  /** What is asked of the parameters of an authenticated client. */
  ghost predicate IsPushable(env: Env, resolved: Parameters, client: Client, proof: string) {
    && (client.fapiEnabled || client.fapi2Enabled ==> HasPkce(resolved))
    && ProofAgrees(env, resolved, proof)
    && Acceptable(RequestAtPush(Completing(env, resolved, client, proof), client.clientId, env.syntax),
                  env.registry, env.syntax)
  }

  /** Without a request object nothing is opened; with one, its resolution decides. */
  lemma OpenedParameters(env: Env, params: Parameters)
    ensures env.resolver == None ==> ResolvedParameters(env, params) == Success(params)
    ensures env.resolver.Some? ==> ResolvedParameters(env, params) == RequestObject.Resolve(env.resolver.value, params, "")
  {
  }

  lemma SameCompletion(env: Env, resolved: Parameters, client: Client, proof: string)
    requires CheckProof(env, resolved["client_id" := client.clientId], proof).Success?
    ensures var named := resolved["client_id" := client.clientId];
      var jkt := CheckProof(env, named, proof).value;
      Completing(env, resolved, client, proof)
        == if jkt.Some? && "dpop_jkt" !in named then named["dpop_jkt" := jkt.value] else named
  {
    ProofCheckedIff(env, resolved["client_id" := client.clientId], proof);
  }

  lemma SameProof(env: Env, params: Parameters, clientId: string, proof: string)
    ensures var named := params["client_id" := clientId];
      && ProofAgrees(env, named, proof) == ProofAgrees(env, params, proof)
      && (PkceMissing(named) <==> !HasPkce(params))
  {
  }

  /** The answer to every refused push, by the first step that refuses it. */
  lemma PushRefusal(env: Env, params: Parameters, proof: string)
    requires PushOutcome(env, params, proof).Failure?
    ensures var e := PushOutcome(env, params, proof).error;
      && e.redirectUri == e.state == "" && e.mode == Query
      && if "request_uri" in params && params["request_uri"] != "" then e.error == "invalid_request" && e.statusCode == 400
         else if ResolvedParameters(env, params).Failure? then
           e.error == ResolvedParameters(env, params).error.error && e.statusCode == 400
         else
           var resolved := ResolvedParameters(env, params).value;
           if !(exists client :: ComesFrom(env, resolved, client)) then e.error == "invalid_client" && e.statusCode == 401
           else
             var client := env.registry.clients[NamedBy(env, resolved)];
             if (client.fapiEnabled || client.fapi2Enabled) && !HasPkce(resolved) then
               e.error == "invalid_request" && e.statusCode == 400
             else if !ProofAgrees(env, resolved, proof) then e.error == "invalid_dpop_proof" && e.statusCode == 400
             else
               var v := Validate(RequestAtPush(Completing(env, resolved, client, proof), client.clientId, env.syntax),
                                 env.registry, env.syntax);
               && v.Failure?
               && e.error == (if v.error.error == "invalid_redirect_uri" then "invalid_request" else v.error.error)
               && e.statusCode == (if v.error.error == "invalid_client" then 401 else 400)
  {
    hide ResolvedParameters, Validate, AuthenticateClient, CheckProof, ProofAgrees, RequestAtPush, PkceMissing, HasPkce,
      Completing;
    if ResolvedParameters(env, params).Success? {
      var resolved := ResolvedParameters(env, params).value;
      forall client ensures AuthenticateClient(env, resolved) == Success(client) <==> ComesFrom(env, resolved, client) {
        AuthenticatedIff(env, resolved, client);
      }
      if AuthenticateClient(env, resolved).Success? {
        var client := AuthenticateClient(env, resolved).value;
        var named := resolved["client_id" := client.clientId];
        ProofCheckedIff(env, named, proof);
        SameProof(env, resolved, client.clientId, proof);
        if CheckProof(env, named, proof).Success? {
          SameCompletion(env, resolved, client, proof);
        }
      } else {
        AuthenticatedIff(env, resolved, FapiClient());
      }
    }
  }

  // ---- what a push keeps of its transport ------------------------------------------------

  /** The resolver is there and recognises a FAPI client. */
  predicate SignedOnly(env: Env, params: Parameters) {
    env.resolver.Some? && RequestObject.Recognised(env.resolver.value, params)
  }

  /** A name that a push does not add itself is kept exactly when its opened request object holds it. */
  lemma KeptNames(env: Env, params: Parameters, proof: string, name: string)
    requires PushOutcome(env, params, proof).Success?
    requires name !in {"client_id", "client_secret", "dpop_jkt"}
    ensures ResolvedParameters(env, params).Success?
    ensures var resolved, kept := ResolvedParameters(env, params).value, PushOutcome(env, params, proof).value.1;
      && (name in kept <==> name in resolved)
      && (name in kept ==> kept[name] == resolved[name])
  {
    hide ResolvedParameters, Validate, RequestAtPush, AuthenticateClient, PkceMissing, CheckProof;
  }

  /**
    The exact law of an accepted push: its free parameters are without influence
    on the outcome if and only if there is a resolver and it recognises a FAPI
    client. Who the push authenticates as plays no part in it.
  */
  lemma PushIsSignedIff(env: Env, params: Parameters, proof: string)
    requires PushOutcome(env, params, proof).Success?
    ensures (forall other :: RequestObject.AgreeOn(params, other, RequestObject.HEARD) ==>
               PushOutcome(env, params, proof) == PushOutcome(env, other, proof))
      <==> SignedOnly(env, params)
  {
    hide PushOutcome, RequestObject.Recognised, RequestObject.Resolve, RequestObject.AgreeOn, RequestObject.HEARD;
    if SignedOnly(env, params) {
      forall other | RequestObject.AgreeOn(params, other, RequestObject.HEARD)
        ensures PushOutcome(env, params, proof) == PushOutcome(env, other, proof)
      {
        RequestObject.FapiNonInterference(env.resolver.value, params, other, "");
        RequestObject.SameReading(env.resolver.value, params, other);
        SameOutcome(env, params, other, proof);
      }
    } else {
      var kept := PushOutcome(env, params, proof).value.1;
      var name := RequestObject.FreshName(
        RequestObject.HEARD + params.Keys + kept.Keys + {"client_id", "client_secret", "dpop_jkt"});
      StrangerIsPushed(env, params, proof, name);
    }
  }

  /** The outcome is a function of the opened request object. */
  lemma SameOutcome(env: Env, params: Parameters, other: Parameters, proof: string)
    requires ResolvedParameters(env, params) == ResolvedParameters(env, other)
    requires Get(params, "request_uri") == Get(other, "request_uri")
    ensures PushOutcome(env, params, proof) == PushOutcome(env, other, proof)
  {
    hide ResolvedParameters, Validate, RequestAtPush, AuthenticateClient, PkceMissing, CheckProof;
  }

  /** Without recognition one more parameter changes what is kept, or the verdict. */
  lemma StrangerIsPushed(env: Env, params: Parameters, proof: string, name: string)
    requires PushOutcome(env, params, proof).Success? && !SignedOnly(env, params)
    requires name !in RequestObject.HEARD && name !in params && name !in PushOutcome(env, params, proof).value.1
    requires name !in {"client_id", "client_secret", "dpop_jkt"}
    ensures RequestObject.AgreeOn(params, params[name := ""], RequestObject.HEARD)
    ensures PushOutcome(env, params, proof) != PushOutcome(env, params[name := ""], proof)
  {
    hide PushOutcome, RequestObject.Recognised, RequestObject.Resolve;
    var other := params[name := ""];
    KeptNames(env, params, proof, name);
    if env.resolver.Some? {
      RequestObject.StrangerIsKept(env.resolver.value, params, name, "");
    }
    if PushOutcome(env, other, proof).Success? {
      KeptNames(env, other, proof, name);
    }
  }

  /**
    What recognition guarantees of an accepted push: everything kept, but for
    the authentication keys and the thumbprint of the proof, is a claim verified
    under the FAPI algorithms.
  */
  lemma PushKeepsVerifiedClaims(env: Env, params: Parameters, proof: string)
    returns (plain: string, claims: map<string, Json.Value>)
    requires PushOutcome(env, params, proof).Success? && SignedOnly(env, params)
    requires RequestObject.RequiresClaims(env.resolver.value)
    ensures var resolver, kept := env.resolver.value, PushOutcome(env, params, proof).value.1;
      && resolver.verify.Some?
      && RequestObject.ClientOf(resolver, params).Some?
      && resolver.verify.value(RequestObject.FapiVerification(
           resolver, plain, RequestObject.ClientOf(resolver, params).value)) == Some(claims)
      && forall name :: name in kept && name !in RequestObject.FAPI_TRANSPORT_KEYS && name != "dpop_jkt" ==>
           name in claims && kept[name] == RequestObject.Stringify(resolver, claims[name])
  {
    hide PushOutcome, RequestObject.Resolve, RequestObject.ClientOf, RequestObject.Stringify;
    KeptNames(env, params, proof, "scope");
    plain, claims := RequestObject.FapiSuccessIsSigned(env.resolver.value, params, "");
    var kept := PushOutcome(env, params, proof).value.1;
    forall name | name in kept && name !in RequestObject.FAPI_TRANSPORT_KEYS && name != "dpop_jkt"
      ensures name in claims && kept[name] == RequestObject.Stringify(env.resolver.value, claims[name])
    {
      KeptNames(env, params, proof, name);
    }
  }

  /** A server whose one client is under FAPI 1.0 and signs its assertions, with the given resolver. */
  function FapiServer(resolver: Option<RequestObject.Env>): Env {
    Env(Registry(map["c" := FapiClient()], None), NoSyntax(), 60, resolver, Some((assertion: string) => "c"),
        (client: Client, params: Parameters) => true, None)
  }

  function FapiClient(): Client {
    Client("c", {"https://rp/cb"}, true, true, true, false, false, "")
  }

  function UnsignedRequest(): Parameters {
    map["client_assertion" := "jwt", "response_type" := "code id_token", "redirect_uri" := "https://rp/cb",
        "scope" := "openid", "nonce" := "n", "code_challenge" := "x"]
  }

  /**
    Named only by its assertion, a FAPI client pushes without a request object:
    the push is accepted and everything it keeps is unsigned. So it is, whoever
    is named, when there is no resolver.
  */
  lemma AssertionHidesTheClient(resolver: Option<RequestObject.Env>)
    requires resolver == None || resolver == Some(RequestObject.FapiServer(FapiClient()))
    ensures var env := FapiServer(resolver);
      var outcome := PushOutcome(env, UnsignedRequest(), "");
      && outcome.Success? && outcome.value.0.clientId == "c"
      && outcome.value.1 == UnsignedRequest()["client_id" := "c"]
      && !SignedOnly(env, UnsignedRequest())
  {
    hide Validate, RequestAtPush, UnsignedRequest;
    UnsignedRequestPasses(resolver);
    UnsignedRequestIsValid();
  }

  lemma UnsignedRequestPasses(resolver: Option<RequestObject.Env>)
    requires resolver == None || resolver == Some(RequestObject.FapiServer(FapiClient()))
    ensures var env, named := FapiServer(resolver), UnsignedRequest()["client_id" := "c"];
      && Get(UnsignedRequest(), "request_uri") == ""
      && ResolvedParameters(env, UnsignedRequest()) == Success(UnsignedRequest())
      && AuthenticateClient(env, UnsignedRequest()) == Success(FapiClient())
      && !PkceMissing(named) && named - {"client_secret"} == named
      && !SignedOnly(env, UnsignedRequest())
  {
    hide UnsignedRequest, RequestObject.FapiServer, RequestObject.Decrypt, RequestObject.ResolveDocument;
    UnsignedRequestHolds();
    if resolver.Some? {
      assert RequestObject.Document(resolver.value, UnsignedRequest()) == Success("");
    }
  }

  /** The few parameters of that request that are looked at. */
  lemma UnsignedRequestHolds()
    ensures var params := UnsignedRequest();
      && "client_id" !in params && "client_secret" !in params && "request" !in params && "request_uri" !in params
      && Get(params, "client_assertion") == "jwt"
      && Get(params, "code_challenge") == "x" && "code_challenge_method" !in params
  {
  }

  lemma UnsignedRequestIsValid()
    ensures var request := RequestAtPush(UnsignedRequest()["client_id" := "c"], "c", NoSyntax());
      request.clientId == "c" && Validate(request, Registry(map["c" := FapiClient()], None), NoSyntax()).Success?
  {
    hide PythonText.Words, ResourceIndicators.Parsed, VALID_RESPONSE_TYPES, Validate;
    var request := PlainRequest("code id_token", "https://rp/cb", "openid", "n").(codeChallenge := "x");
    assert RequestAtPush(UnsignedRequest()["client_id" := "c"], "c", NoSyntax()) == request;
    HybridIsAcceptable(request);
    ValidateAcceptsIff(request, Registry(map["c" := FapiClient()], None), NoSyntax());
  }

  lemma HybridIsAcceptable(request: AuthorizeRequest)
    requires request == PlainRequest("code id_token", "https://rp/cb", "openid", "n").(codeChallenge := "x")
    ensures Acceptable(request, Registry(map["c" := FapiClient()], None), NoSyntax())
  {
    hide PythonText.Words, ResourceIndicators.Parsed, VALID_RESPONSE_TYPES;
    WordsOfHybrid();
    assert ResponseTypes(request) == {"code", "id_token"} && Scopes(request) == {"openid"};
    NoResources();
  }

  // ---- possession and error modes ----------------------------------------------------------

  /**
    A push with a proof is accepted only if the proof is valid and agrees with
    a declared thumbprint. The request is then bound to the key of the proof,
    except exactly when it declares an empty `dpop_jkt`: the proof is checked
    and forgotten.
  */
  lemma ProofBindsIff(env: Env, params: Parameters, proof: string)
    requires PushOutcome(env, params, proof).Success? && proof != ""
    ensures var request := PushOutcome(env, params, proof).value.0;
      && env.proofThumbprint.Some? && env.proofThumbprint.value(proof).Some?
      && ResolvedParameters(env, params).Success?
      && var jkt, resolved := env.proofThumbprint.value(proof).value, ResolvedParameters(env, params).value;
         && (Get(resolved, "dpop_jkt") in ["", jkt])
         && (jkt != "" ==>
              (request.dpopJkt == jkt <==> !("dpop_jkt" in resolved && resolved["dpop_jkt"] == "")))
  {
    hide RequestObject.Resolve, Validate, AuthenticateClient, ParseMaxAge;
  }

  /** Leaving the secret out changes no field of the request. */
  lemma RebuiltFromKept(params: Parameters, clientId: string, syntax: Syntax)
    requires Get(params, "client_id") == clientId && "client_id" in params
    ensures var request, kept := RequestAtPush(params, clientId, syntax), params - {"client_secret"};
      && RequestAtResolve(kept, clientId, syntax) == request
      && Get(kept, "redirect_uri") == request.redirectUri && Get(kept, "state") == request.state
      && request.clientId == clientId && "client_secret" !in kept
  {
    hide ParseMaxAge;
  }

  lemma ValidatedRedirect(request: AuthorizeRequest, env: Env)
    requires Validate(request, env.registry, env.syntax).Success?
    ensures RedirectRegistered(request, env.registry)
  {
    ValidateAcceptsIff(request, env.registry, env.syntax);
  }

  /**
    Where `resolve` reports a dead reference and where `authorize` would report
    an error of that same request: the modes agree exactly when the request
    names fragment or form_post, or returns no token. The default mode of a
    token flow, and `jwt`, are lost.
  */
  lemma ErrorModesAgreeIff(pushed: Pushed, error: string, clientId: string, syntax: Syntax)
    requires var request := RequestAtResolve(pushed.params, clientId, syntax);
      ResolveMode(request.responseMode, ReturnsTokens(request)).Some?
    ensures var request := RequestAtResolve(pushed.params, clientId, syntax);
      KnownReferenceError(pushed, error).mode == ErrorMode(request.responseMode, ReturnsTokens(request))
      <==> request.responseMode in {"fragment", "form_post"} || !ReturnsTokens(request)
  {
    hide ParseMaxAge, ResponseTypes;
  }

  /** A token flow that names no mode: its dead reference is reported in the query, its own errors in the fragment. */
  lemma DefaultTokenModeIsLost(clientId: string, syntax: Syntax)
    ensures var pushed := Pushed(clientId, map["response_type" := "token"], 0, false);
      var request := RequestAtResolve(pushed.params, clientId, syntax);
      && KnownReferenceError(pushed, "invalid_request_uri").mode == Query
      && ErrorMode(request.responseMode, ReturnsTokens(request)) == Fragment
  {
    hide ParseMaxAge, PythonText.Words;
    var request := RequestAtResolve(map["response_type" := "token"], clientId, syntax);
    SingleWords();
    assert "token" in ResponseTypes(request);
  }

  /** A server with one client, no request object, and a validator that takes any proof for one of `jkt`. */
  function ProvingServer(jkt: string): Env {
    Env(OneClient("https://rp/cb"), NoSyntax(), 60, None, None,
        (client: Client, params: Parameters) => true, Some((proof: string) => Some(jkt)))
  }

  function CodeRequest(): Parameters {
    map["client_id" := "c", "response_type" := "code", "redirect_uri" := "https://rp/cb", "scope" := "openid"]
  }

  function UnboundRequest(): Parameters {
    CodeRequest()["dpop_jkt" := ""]
  }

  lemma UnboundRequestIsValid(jkt: string)
    ensures var env := ProvingServer(jkt);
      var request := RequestAtPush(UnboundRequest(), "c", env.syntax);
      Validate(request, env.registry, env.syntax).Success? && request.dpopJkt == ""
  {
    hide Validate;
    assert RequestAtPush(UnboundRequest(), "c", NoSyntax()) == PlainRequest("code", "https://rp/cb", "openid", "");
    PlainCodeRequestIsValid();
  }

  lemma PlainCodeRequestIsValid()
    ensures Validate(PlainRequest("code", "https://rp/cb", "openid", ""), OneClient("https://rp/cb"), NoSyntax()).Success?
  {
    hide PythonText.Words, ResourceIndicators.Parsed, VALID_RESPONSE_TYPES, Validate;
    var request, registry := PlainRequest("code", "https://rp/cb", "openid", ""), OneClient("https://rp/cb");
    SingleWords();
    assert ResponseTypes(request) == {"code"} && Scopes(request) == {"openid"};
    NoResources();
    ValidateAcceptsIff(request, registry, NoSyntax());
    assert Acceptable(request, registry, NoSyntax());
  }

  lemma UnboundRequestPasses(jkt: string, proof: string)
    requires proof != ""
    ensures var env := ProvingServer(jkt);
      && AuthenticateClient(env, UnboundRequest()) == Success(env.registry.clients["c"])
      && CheckProof(env, UnboundRequest(), proof) == Success(Some(jkt))
      && UnboundRequest()["client_id" := "c"] == UnboundRequest()
      && Get(UnboundRequest(), "request_uri") == "" && "dpop_jkt" in UnboundRequest()
  {
  }

  /** With an empty `dpop_jkt` the proof of such a push is accepted and the request is bound to no key. */
  lemma EmptyThumbprintIsUnbound(jkt: string, proof: string)
    requires proof != ""
    ensures var outcome := PushOutcome(ProvingServer(jkt), UnboundRequest(), proof);
      outcome.Success? && outcome.value.0.dpopJkt == ""
  {
    hide UnboundRequest, AuthenticateClient, CheckProof, Validate, RequestAtPush, Get;
    UnboundRequestPasses(jkt, proof);
    UnboundRequestIsValid(jkt);
  }

  /** A push never announces a redirection, and and answers 401 exactly for `invalid_client`. */
  lemma PushErrorsStayDirect(env: Env, params: Parameters, proof: string)
    requires PushOutcome(env, params, proof).Failure?
    ensures var e := PushOutcome(env, params, proof).error;
      && e.redirectUri == "" && e.state == "" && e.mode == Query
      && (e.statusCode == 401 <==> e.error == "invalid_client")
      && e.statusCode in {400, 401} && e.error != "invalid_redirect_uri"
  {
    hide Validate;
    if Get(params, "request_uri") == "" && env.resolver.Some? {
      ResolverErrorCodes(env.resolver.value, params);
    }
  }

  lemma ResolverErrorCodes(env: RequestObject.Env, params: Parameters)
    ensures var r := RequestObject.Resolve(env, params, "");
      r.Failure? ==> r.error.error in {"invalid_request", "invalid_request_uri", "invalid_request_object"}
  {
    hide RequestObject.UnverifiedClaim, RequestObject.StringifyAll;
  }

  // ---- every run -----------------------------------------------------------------------------

  datatype Event =
    | Push(env: Env, params: Parameters, proof: string, reference: string)
    | Visit(uri: string, clientId: string)
    | Complete(uri: string)
    | Tick(elapsed: nat)

  /** An accepted push: its record and the redirect URIs its client had registered then. */
  datatype Issue = Issue(record: Pushed, registered: set<string>)

  /** The store and the clock, with the history of everything ever issued. */
  datatype State = State(store: map<string, Pushed>, now: int, issued: map<string, Issue>)

  function ReferenceOf(e: Event): string
    requires e.Push?
  {
    RequestObject.PUSHED_REQUEST_URI_PREFIX + e.reference
  }

  function IssueOf(s: State, e: Event): Issue
    requires e.Push? && PushOutcome(e.env, e.params, e.proof).Success?
  {
    var (request, kept) := PushOutcome(e.env, e.params, e.proof).value;
    Issue(Pushed(request.clientId, kept, s.now + e.env.ttl, false),
          if request.clientId in e.env.registry.clients
          then e.env.registry.clients[request.clientId].redirectUris else {})
  }

  function Step(s: State, e: Event): State {
    match e
    case Push(env, params, proof, _) =>
      if PushOutcome(env, params, proof).Failure? then s
      else s.(store := s.store[ReferenceOf(e) := IssueOf(s, e).record],
              issued := s.issued[ReferenceOf(e) := IssueOf(s, e)])
    case Visit(uri, _) => s.(store := Visited(s.store, s.now, uri))
    case Complete(uri) => s.(store := Completed(s.store, uri))
    case Tick(elapsed) => s.(now := s.now + elapsed)
  }

  function Run(s: State, events: seq<Event>): State
    decreases |events|
  {
    if events == [] then s else Run(Step(s, events[0]), events[1..])
  }

  /** Registries are well keyed and every random reference is new with respect to all issued before. */
  ghost predicate Admissible(s: State, events: seq<Event>)
    decreases |events|
  {
    events == [] ||
    (&& (events[0].Push? ==> ReferenceOf(events[0]) !in s.issued && WellKeyed(events[0].env.registry))
     && Admissible(Step(s, events[0]), events[1..]))
  }

  /** Each entry is as it was pushed but for its consumption, and its redirection was registered then. */
  ghost predicate Invariant(s: State) {
    forall uri :: uri in s.store ==>
      && uri in s.issued
      && s.store[uri] == s.issued[uri].record.(isConsumed := s.store[uri].isConsumed)
      && Get(s.store[uri].params, "redirect_uri") in s.issued[uri].registered
  }

  lemma IssueKeepsTarget(s: State, e: Event)
    requires e.Push? && WellKeyed(e.env.registry) && PushOutcome(e.env, e.params, e.proof).Success?
    ensures var issue := IssueOf(s, e);
      Get(issue.record.params, "redirect_uri") in issue.registered && !issue.record.isConsumed
  {
    hide PushOutcome, Validate, Get;
    PushThenResolve(e.env, e.params, e.proof);
  }

  lemma StepKeepsInvariant(s: State, e: Event)
    requires Invariant(s) && (e.Push? ==> ReferenceOf(e) !in s.issued && WellKeyed(e.env.registry))
    ensures Invariant(Step(s, e))
  {
    hide PushOutcome, IssueOf, ReferenceOf, Get;
    if e.Push? && PushOutcome(e.env, e.params, e.proof).Success? {
      IssueKeepsTarget(s, e);
    }
  }

  lemma {:induction false} RunKeepsInvariant(s: State, events: seq<Event>)
    requires Invariant(s) && Admissible(s, events)
    ensures Invariant(Run(s, events)) && Run(s, events).now >= s.now
    decreases |events|
  {
    hide Invariant;
    if events != [] {
      StepKeepsInvariant(s, events[0]);
      RunKeepsInvariant(Step(s, events[0]), events[1..]);
    }
  }

  /**
    In every reachable store, an error of `resolve` about a known reference
    carries the redirection pushed with it, registered for its client at push
    time, and the pushed state; an error about an unknown one carries neither.
  */
  lemma ResolveErrorsCarryRegisteredTargets(s: State, uri: string, clientId: string, syntax: Syntax)
    requires Invariant(s) && Resolved(s.store, s.now, uri, clientId, syntax).Failure?
    ensures var e := Resolved(s.store, s.now, uri, clientId, syntax).error;
      if uri in s.store
      then e.redirectUri in s.issued[uri].registered && e.state == Get(s.issued[uri].record.params, "state")
      else e.redirectUri == "" && e.state == ""
  {
  }

  ghost predicate HasCompletion(events: seq<Event>, uri: string) {
    exists i :: 0 <= i < |events| && events[i] == Complete(uri)
  }

  /** What is left of an issued reference: its record while stored, and once gone it was dead. */
  ghost predicate Tracked(s: State, uri: string, record: Pushed, completed: bool) {
    && uri in s.issued && !record.isConsumed
    && (uri in s.store ==> s.store[uri] == record.(isConsumed := completed))
    && (uri !in s.store ==> completed || record.expiresAt <= s.now)
  }

  lemma {:induction false} RunTracks(s: State, events: seq<Event>, uri: string, record: Pushed, completed: bool)
    requires Tracked(s, uri, record, completed) && Admissible(s, events)
    ensures Tracked(Run(s, events), uri, record, completed || HasCompletion(events, uri))
    decreases |events|
  {
    hide PushOutcome;
    if events != [] {
      var e, rest := events[0], events[1..];
      var completed' := completed || e == Complete(uri);
      assert Tracked(Step(s, e), uri, record, completed');
      RunTracks(Step(s, e), rest, uri, record, completed');
      if HasCompletion(events, uri) && e != Complete(uri) {
        var i :| 0 <= i < |events| && events[i] == Complete(uri);
        assert rest[i - 1] == Complete(uri);
      }
      if HasCompletion(rest, uri) {
        var i :| 0 <= i < |rest| && rest[i] == Complete(uri);
        assert events[i + 1] == Complete(uri);
      }
      if e == Complete(uri) {
        assert events[0] == Complete(uri);
      }
    }
  }

  /**
    The life of a reference, over every later run of pushes, visits by any
    client, completions and ticks: it resolves exactly for the client that
    pushed it, strictly before its expiry and as long as it was not completed,
    and always to the request that was validated.
  */
  lemma ReferenceLifecycle(s: State, push: Event, later: seq<Event>, clientId: string)
    requires push.Push? && Admissible(s, [push] + later)
    requires PushOutcome(push.env, push.params, push.proof).Success?
    ensures var uri, record := ReferenceOf(push), IssueOf(s, push).record;
      var request := PushOutcome(push.env, push.params, push.proof).value.0;
      var end := Run(s, [push] + later);
      var r := Resolved(end.store, end.now, uri, clientId, push.env.syntax);
      && (r.Success? <==>
            clientId == record.clientId && end.now < record.expiresAt && !HasCompletion(later, uri))
      && (r.Success? ==> r.value == request && Validate(r.value, push.env.registry, push.env.syntax).Success?)
  {
    hide PushOutcome, Validate;
    var uri, record := ReferenceOf(push), IssueOf(s, push).record;
    assert ([push] + later)[1..] == later;
    PushThenResolve(push.env, push.params, push.proof);
    RunTracks(Step(s, push), later, uri, record, false);
  }

  /** Once dead for its own client a reference never resolves again, for anyone, despite the deferred deletion. */
  lemma DeadForever(s: State, push: Event, later: seq<Event>, more: seq<Event>, clientId: string)
    requires Invariant(s) && push.Push? && Admissible(s, [push] + (later + more))
    requires PushOutcome(push.env, push.params, push.proof).Success?
    requires var end := Run(s, [push] + later);
      Resolved(end.store, end.now, ReferenceOf(push), IssueOf(s, push).record.clientId, push.env.syntax).Failure?
    ensures var end := Run(s, [push] + (later + more));
      Resolved(end.store, end.now, ReferenceOf(push), clientId, push.env.syntax).Failure?
  {
    hide PushOutcome, Validate, Resolved;
    assert [push] + (later + more) == ([push] + later) + more;
    RunSplits(s, [push] + later, more);
    ReferenceLifecycle(s, push, later, IssueOf(s, push).record.clientId);
    ReferenceLifecycle(s, push, later + more, clientId);
    RunKeepsInvariant(s, [push] + later);
    RunKeepsInvariant(Run(s, [push] + later), more);
    if HasCompletion(later, ReferenceOf(push)) {
      var i :| 0 <= i < |later| && later[i] == Complete(ReferenceOf(push));
      assert (later + more)[i] == Complete(ReferenceOf(push));
    }
  }

  lemma {:induction false} RunSplits(s: State, first: seq<Event>, rest: seq<Event>)
    requires Admissible(s, first + rest)
    ensures Run(s, first + rest) == Run(Run(s, first), rest)
    ensures Admissible(s, first) && Admissible(Run(s, first), rest)
    decreases |first|
  {
    hide Step;
    if first == [] {
      assert first + rest == rest;
    } else {
      assert (first + rest)[1..] == first[1..] + rest;
      RunSplits(Step(s, first[0]), first[1..], rest);
    }
  }

  /** A visit by another client changes nothing while the reference is live. */
  lemma OtherClientsLeaveItAlone(s: State, uri: string, clientId: string)
    requires uri in s.store && !IsDead(s.store[uri], s.now) && clientId != s.store[uri].clientId
    ensures Step(s, Visit(uri, clientId)) == s
  {
  }
}
