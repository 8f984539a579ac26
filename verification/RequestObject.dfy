/**
  Request objects (RFC 9101, OpenID Connect Core 1.0 section 6.1): by value or
  by reference, encrypted or not, unsigned, signed by a standard or federated
  client, or signed under the FAPI 1.0 Advanced profile.
*/
module RequestObject {
  import opened Wrappers
  import opened PythonText
  import opened Json
  import opened Authorization

  type Parameters = map<string, string>

  datatype RequestObjectError = RequestObjectError(error: string, state: string)

  /**
    What is asked of the signature verifier: the token, the client whose keys
    count, the accepted algorithms, the claims required, and the namespace of
    the replay check when one is made.
  */
  datatype Verification = Verification(
    token: string, client: Client, issuer: string, algorithms: seq<string>,
    required: seq<string>, replayNamespace: Option<string>)

  /**
    Configuration and collaborators. `decodeSegment` reads a base64url JSON
    object, `decrypt` opens a JWE for its `alg`, `enc` and `kid` (empty when it
    refuses), `dumps` is `json.dumps` in compact form. The fetcher, the client
    registry, the verifier and the decrypter may each be missing.
  */
  datatype Env = Env(
    issuer: string,
    unsignedAlgorithms: seq<string>,
    encryptionAlgorithms: seq<string>,
    encryptionMethods: seq<string>,
    clients: Option<map<string, Client>>,
    fetch: string -> string,
    verify: Option<Verification -> Option<Claims>>,
    decrypt: Option<(string, string, string, string) -> string>,
    decodeSegment: string -> Option<Claims>,
    dumps: Value -> string)

  const PUSHED_REQUEST_URI_PREFIX := "urn:ietf:params:oauth:request_uri:"
  const STANDARD_ALGORITHMS := ["RS256"]
  const FAPI_ALGORITHMS := ["PS256", "ES256"]
  const STANDARD_REQUIRED := ["iss", "aud"]
  const FEDERATED_REQUIRED := ["iss", "aud", "exp", "jti"]
  const FAPI_REQUIRED := ["iss", "aud", "exp", "nbf", "scope", "nonce", "redirect_uri"]
  const EMBEDDED := {"request", "request_uri"}
  const FAPI_TRANSPORT_KEYS := {"client_id", "client_secret", "client_assertion", "client_assertion_type"}

  /** `params.get(name, "")` */
  function Get(params: Parameters, name: string): string {
    if name in params then params[name] else ""
  }

  // ---- reading a document without trust ----------------------------------------

  /** `_unverified_claim` */
  function UnverifiedClaim(env: Env, document: string, name: string): string {
    var segments := Split(document, '.');
    if |segments| !in {2, 3} then ""
    else
      match env.decodeSegment(segments[1])
      case None => ""
      case Some(payload) => StringClaim(payload, name)
  }

  /** `_with_state` */
  function WithState(env: Env, error: RequestObjectError, document: string): RequestObjectError {
    var state := UnverifiedClaim(env, document, "state");
    if state == "" then error else error.(state := state)
  }

  function Error(code: string): RequestObjectError {
    RequestObjectError(code, "")
  }

  /** `_header_algorithm`; a non-textual `alg` is rendered by `str()`, which this model writes as JSON. */
  function HeaderAlgorithm(env: Env, document: string): string {
    var segments := Split(document, '.');
    if |segments| !in {2, 3} then ""
    else
      match env.decodeSegment(segments[0])
      case None => ""
      case Some(header) => if "alg" in header then Stringify(env, header["alg"]) else "none"
  }

  /** `_stringify` */
  function Stringify(env: Env, value: Value): string {
    if value.Str? then value.s else env.dumps(value)
  }

  function StringifyAll(env: Env, claims: Claims): Parameters {
    map name | name in claims :: Stringify(env, claims[name])
  }

  // ---- obtaining the document ------------------------------------------------------

  /** `_document`: the document, empty when the request has none. */
  function Document(env: Env, params: Parameters): Result<string, RequestObjectError> {
    var byValue, reference := Get(params, "request"), Get(params, "request_uri");
    if byValue != "" && reference != "" then Failure(Error("invalid_request"))
    else if byValue != "" then Success(byValue)
    else if reference == "" || PUSHED_REQUEST_URI_PREFIX <= reference then Success("")
    else if env.fetch(reference) != "" then Success(env.fetch(reference))
    else Failure(Error("invalid_request_uri"))
  }

  predicate IsEncrypted(document: string) {
    |Split(document, '.')| == 5
  }

  /** `_decrypt` */
  function Decrypt(env: Env, document: string): Result<string, RequestObjectError> {
    if !IsEncrypted(document) then Success(document)
    else if env.decrypt.None? || env.encryptionAlgorithms == [] || env.encryptionMethods == [] then
      Failure(Error("invalid_request_object"))
    else
      match env.decodeSegment(Split(document, '.')[0])
      case None => Failure(Error("invalid_request_object"))
      case Some(header) =>
        if "alg" !in header || !header["alg"].Str? || header["alg"].s !in env.encryptionAlgorithms then
          Failure(Error("invalid_request_object"))
        else if "enc" !in header || !header["enc"].Str? || header["enc"].s !in env.encryptionMethods then
          Failure(Error("invalid_request_object"))
        else
          var plaintext := env.decrypt.value(document, header["alg"].s, header["enc"].s, StringClaim(header, "kid"));
          if plaintext == "" then Failure(Error("invalid_request_object")) else Success(plaintext)
  }

  /** `_client_id_mismatch` */
  predicate ClientIdMismatch(env: Env, params: Parameters, document: string) {
    var transport := Get(params, "client_id");
    var claimed := UnverifiedClaim(env, document, "client_id");
    var embedded := if claimed != "" then claimed else UnverifiedClaim(env, document, "iss");
    transport != "" && embedded != "" && embedded != transport
  }

  function FindClient(env: Env, clientId: string): Option<Client> {
    if clientId == "" || env.clients.None? || clientId !in env.clients.value then None
    else Some(env.clients.value[clientId])
  }

  // ---- profiles -----------------------------------------------------------------------

  /** `_claims`: an unsigned document. */
  function UnsignedClaims(env: Env, document: string): Result<Parameters, RequestObjectError> {
    var segments := Split(document, '.');
    if |segments| !in {2, 3} then Failure(Error("invalid_request_object"))
    else if |segments| == 3 && segments[2] != "" then Failure(Error("invalid_request_object"))
    else
      match (env.decodeSegment(segments[0]), env.decodeSegment(segments[1]))
      case (Some(header), Some(payload)) =>
        if "alg" in header && (!header["alg"].Str? || header["alg"].s !in env.unsignedAlgorithms) then
          Failure(Error("invalid_request_object"))
        else if "alg" !in header && "none" !in env.unsignedAlgorithms then Failure(Error("invalid_request_object"))
        else Success(StringifyAll(env, payload))
      case _ => Failure(Error("invalid_request_object"))
  }

  /** `_resolve_standard` */
  function StandardClaims(env: Env, document: string, client: Option<Client>, sessionScope: string)
    : Result<Parameters, RequestObjectError>
  {
    var algorithm := HeaderAlgorithm(env, document);
    if algorithm == "" || algorithm in env.unsignedAlgorithms then UnsignedClaims(env, document)
    else if algorithm !in STANDARD_ALGORITHMS then Failure(Error("invalid_request_object"))
    else if client.None? then Failure(Error("invalid_request_object"))
    else if env.verify.None? || env.issuer == "" then Failure(Error("invalid_request"))
    else
      var federated := client.value.federated;
      var code := if federated then "invalid_request" else "invalid_request_object";
      var asked := Verification(
        document, client.value, env.issuer, STANDARD_ALGORITHMS,
        if federated then FEDERATED_REQUIRED else STANDARD_REQUIRED,
        if federated then Some("federation:" + (if sessionScope != "" then sessionScope else "-")) else None);
      match env.verify.value(asked)
      case None => Failure(Error(code))
      case Some(claims) =>
        if federated && "sub" in claims then Failure(Error(code)) else Success(StringifyAll(env, claims))
  }

  function FapiVerification(env: Env, document: string, client: Client): Verification {
    Verification(document, client, env.issuer, FAPI_ALGORITHMS, FAPI_REQUIRED, None)
  }

  /** `_resolve_fapi`, up to the merge: the verified claims. */
  function FapiClaims(env: Env, document: string, client: Client): Result<Claims, RequestObjectError> {
    if env.verify.None? || env.clients.None? || env.issuer == "" then Failure(Error("invalid_request"))
    else
      match env.verify.value(FapiVerification(env, document, client))
      case None => Failure(Error("invalid_request_object"))
      case Some(claims) =>
        if "request" in claims || "request_uri" in claims then Failure(Error("invalid_request_object"))
        else Success(claims)
  }

  /** `_merge` */
  function Merge(params: Parameters, claims: Parameters): Parameters {
    (params - EMBEDDED) + (claims - EMBEDDED)
  }

  /** `_merge_fapi` */
  function MergeFapi(env: Env, params: Parameters, claims: Claims): Parameters {
    (map name | name in params && name in FAPI_TRANSPORT_KEYS :: params[name])
    + (StringifyAll(env, claims) - EMBEDDED)
  }

  /** `resolve` once the document is known. */
  function ResolveDocument(env: Env, params: Parameters, document: string, sessionScope: string)
    : Result<Parameters, RequestObjectError>
  {
    match Decrypt(env, document)
    case Failure(e) => Failure(WithState(env, e, Get(params, "request")))
    case Success(plain) =>
      if ClientIdMismatch(env, params, plain) then Failure(WithState(env, Error("invalid_request"), plain))
      else
        var client := GoverningClient(env, params, plain);
        if client.Some? && client.value.fapiEnabled then
          match FapiClaims(env, plain, client.value)
          case Failure(e) => Failure(WithState(env, e, plain))
          case Success(claims) => Success(MergeFapi(env, params, claims))
        else
          match StandardClaims(env, plain, client, sessionScope)
          case Failure(e) => Failure(WithState(env, e, plain))
          case Success(claims) => Success(Merge(params, claims))
  }

  /** The client named by the transport, or else by the document. */
  function GoverningClient(env: Env, params: Parameters, plain: string): Option<Client> {
    var named := FindClient(env, Get(params, "client_id"));
    if named.Some? then named else FindClient(env, UnverifiedClaim(env, plain, "iss"))
  }

  /** `resolve` */
  function Resolve(env: Env, params: Parameters, sessionScope: string): Result<Parameters, RequestObjectError> {
    match Document(env, params)
    case Failure(e) => Failure(WithState(env, e, Get(params, "request")))
    case Success(document) =>
      if document == "" then
        var client := FindClient(env, Get(params, "client_id"));
        if client.Some? && client.value.fapiEnabled
        then Failure(WithState(env, Error("invalid_request"), ""))
        else Success(params)
      else ResolveDocument(env, params, document, sessionScope)
  }

  // ---- what each step reads ---------------------------------------------------------------

  /** The text a readable payload holds under a name, empty when it holds none. */
  function Claimed(payload: Claims, name: string): string {
    if name in payload && payload[name].Str? then payload[name].s else ""
  }

  /** The payload of a document of two or three segments, when it is readable. */
  function PayloadOf(env: Env, document: string): Option<Claims> {
    if |Split(document, '.')| == 2 || |Split(document, '.')| == 3 then env.decodeSegment(Split(document, '.')[1]) else None
  }

  /** What is read of a document before any verification, and how values become parameters. */
  lemma ReadingMeaning(env: Env, document: string, name: string, value: Value)
    ensures UnverifiedClaim(env, document, name)
      == if PayloadOf(env, document) == None then "" else Claimed(PayloadOf(env, document).value, name)
    ensures Stringify(env, value) == if value.Str? then value.s else env.dumps(value)
    ensures HeaderAlgorithm(env, document)
      == if |Split(document, '.')| != 2 && |Split(document, '.')| != 3 then ""
         else if env.decodeSegment(Split(document, '.')[0]) == None then ""
         else
           var header := env.decodeSegment(Split(document, '.')[0]).value;
           if "alg" !in header then "none" else Stringify(env, header["alg"])
  {
    hide Split;
  }

  lemma StringifiedMeaning(env: Env, claims: Claims, name: string)
    ensures var r := StringifyAll(env, claims);
      (name in r <==> name in claims) && (name in claims ==> r[name] == Stringify(env, claims[name]))
  {
  }

  /**
    Where the document comes from: the value or else the reference, not both;
    a pushed reference is none, and one that serves nothing is refused.
  */
  lemma DocumentMeaning(env: Env, params: Parameters)
    ensures var byValue := if "request" in params then params["request"] else "";
      var reference := if "request_uri" in params then params["request_uri"] else "";
      var pushed := "urn:ietf:params:oauth:request_uri:" <= reference;
      Document(env, params)
        == if byValue != "" && reference != "" then Failure(RequestObjectError("invalid_request", ""))
           else if reference == "" || pushed then Success(byValue)
           else if env.fetch(reference) == "" then Failure(RequestObjectError("invalid_request_uri", ""))
           else Success(env.fetch(reference))
  {
  }

  /** Which documents open, to what: those in the clear to themselves, and JWEs under published algorithms to their content. */
  lemma OpensIff(env: Env, document: string, plain: string)
    ensures Decrypt(env, document) == Success(plain) <==>
      if |Split(document, '.')| != 5 then plain == document
      else
        && plain != "" && env.decrypt.Some?
        && var header := env.decodeSegment(Split(document, '.')[0]);
           && header.Some?
           && Claimed(header.value, "alg") in env.encryptionAlgorithms && HasText(header.value, "alg")
           && Claimed(header.value, "enc") in env.encryptionMethods && HasText(header.value, "enc")
           && env.decrypt.value(document, Claimed(header.value, "alg"), Claimed(header.value, "enc"),
                                Claimed(header.value, "kid")) == plain
    ensures Decrypt(env, document).Failure? ==> Decrypt(env, document).error == RequestObjectError("invalid_request_object", "")
  {
    hide Split;
  }

  predicate HasText(claims: Claims, name: string) {
    name in claims && claims[name].Str?
  }

  /** Who governs a request: the client of its transport, or else the issuer of its document, among the known ones. */
  lemma GoverningMeaning(env: Env, params: Parameters, plain: string)
    ensures var known := if env.clients.Some? then env.clients.value else map[];
      var transport := if "client_id" in params then params["client_id"] else "";
      var issuer := if PayloadOf(env, plain).Some? then Claimed(PayloadOf(env, plain).value, "iss") else "";
      GoverningClient(env, params, plain)
        == if transport != "" && transport in known then Some(known[transport])
           else if issuer != "" && issuer in known then Some(known[issuer]) else None
  {
    hide Split;
    ReadingMeaning(env, plain, "iss", Null);
  }

  /** The client a readable document names: the text of its `client_id`, or else of its `iss`. */
  function NamedIn(payload: Claims): string {
    if Claimed(payload, "client_id") != "" then Claimed(payload, "client_id") else Claimed(payload, "iss")
  }

  /**
    The transport and the document may not name two clients. For a document
    that opens to a readable one, under every profile: when both name a client
    and the names differ the answer is exactly `invalid_request` with the state
    of the document; so a success means that at most one client is named.
  */
  lemma OneClientIsNamed(env: Env, params: Parameters, sessionScope: string, document: string, plain: string)
    requires Document(env, params) == Success(document) && document != ""
    requires Decrypt(env, document) == Success(plain) && PayloadOf(env, plain).Some?
    ensures var payload := PayloadOf(env, plain).value;
      var named, transport := NamedIn(payload), if "client_id" in params then params["client_id"] else "";
      var r := Resolve(env, params, sessionScope);
      && (named != "" && transport != "" && named != transport ==>
            r == Failure(RequestObjectError("invalid_request", Claimed(payload, "state"))))
      && (r.Success? ==> named == "" || transport == "" || named == transport)
  {
    hide Split, Decrypt, Document, FapiClaims, StandardClaims, UnverifiedClaim, PayloadOf, Merge, MergeFapi;
    ReadingMeaning(env, plain, "client_id", Null);
    ReadingMeaning(env, plain, "iss", Null);
    ReadingMeaning(env, plain, "state", Null);
  }

  /** Which claims the FAPI profile accepts, and the code of its refusals. */
  lemma FapiClaimsIff(env: Env, document: string, client: Client, claims: Claims)
    ensures FapiClaims(env, document, client) == Success(claims) <==>
      && env.verify.Some? && env.clients.Some? && env.issuer != ""
      && env.verify.value(Verification(
           document, client, env.issuer, ["PS256", "ES256"],
           ["iss", "aud", "exp", "nbf", "scope", "nonce", "redirect_uri"], None)) == Some(claims)
      && "request" !in claims && "request_uri" !in claims
    ensures FapiClaims(env, document, client).Failure? ==>
      FapiClaims(env, document, client).error.error
        == if env.verify.None? || env.clients.None? || env.issuer == "" then "invalid_request" else "invalid_request_object"
  {
  }

  /** Which documents are read unsigned, and to what. */
  lemma UnsignedClaimsIff(env: Env, document: string, out: Parameters)
    ensures UnsignedClaims(env, document) == Success(out) <==>
      && IsUnsigned(env, document) && PayloadOf(env, document).Some?
      && out == StringifyAll(env, PayloadOf(env, document).value)
    ensures UnsignedClaims(env, document).Failure? ==>
      UnsignedClaims(env, document).error == RequestObjectError("invalid_request_object", "")
  {
    hide Split, StringifyAll;
  }

  /** What the standard verifier is asked of a document. */
  function StandardVerification(env: Env, document: string, client: Client, sessionScope: string): Verification {
    if client.federated
    then Verification(document, client, env.issuer, ["RS256"], ["iss", "aud", "exp", "jti"],
                      Some("federation:" + if sessionScope == "" then "-" else sessionScope))
    else Verification(document, client, env.issuer, ["RS256"], ["iss", "aud"], None)
  }

  /**
    Which parameters a document gives outside FAPI: those of its payload when
    its header announces an algorithm read unsigned and it bears no signature,
    and otherwise the claims verified under RS256 for a known client.
  */
  lemma StandardClaimsIff(env: Env, document: string, client: Option<Client>, sessionScope: string, out: Parameters)
    ensures var algorithm := HeaderAlgorithm(env, document);
      StandardClaims(env, document, client, sessionScope) == Success(out) <==>
        if algorithm == "" || algorithm in env.unsignedAlgorithms then
          IsUnsigned(env, document) && PayloadOf(env, document).Some?
          && out == StringifyAll(env, PayloadOf(env, document).value)
        else
          && algorithm == "RS256" && client.Some? && env.verify.Some? && env.issuer != ""
          && var claims := env.verify.value(StandardVerification(env, document, client.value, sessionScope));
             claims.Some? && !(client.value.federated && "sub" in claims.value) && out == StringifyAll(env, claims.value)
  {
    hide Split, StringifyAll, Stringify;
    assert "RS256" in STANDARD_ALGORITHMS;
  }

  /** The code of a refusal outside FAPI. */
  lemma StandardRefusal(env: Env, document: string, client: Option<Client>, sessionScope: string)
    requires StandardClaims(env, document, client, sessionScope).Failure?
    ensures var algorithm := HeaderAlgorithm(env, document);
      var checked := algorithm == "RS256" && algorithm !in env.unsignedAlgorithms && client.Some?;
      StandardClaims(env, document, client, sessionScope).error.error
        == if checked && (env.verify.None? || env.issuer == "" || client.value.federated)
           then "invalid_request" else "invalid_request_object"
  {
    hide Split, StringifyAll, Stringify;
    assert "RS256" in STANDARD_ALGORITHMS;
  }

  /**
    When a request resolves, and to what, step by step: no document and no FAPI
    client, or a document that opens, names no second client, and is accepted
    under the profile of the client that governs it.
  */
  lemma ResolvesIff(env: Env, params: Parameters, sessionScope: string, out: Parameters)
    ensures Resolve(env, params, sessionScope) == Success(out) <==>
      && Document(env, params).Success?
      && var document := Document(env, params).value;
         if document == "" then !Recognised(env, params) && out == params
         else
           && Decrypt(env, document).Success?
           && var plain := Decrypt(env, document).value;
              var transport := if "client_id" in params then params["client_id"] else "";
              var named := if PayloadOf(env, plain).Some? then NamedIn(PayloadOf(env, plain).value) else "";
              && (named == "" || transport == "" || named == transport)
              && if Recognised(env, params) then
                   exists claims :: FapiClaims(env, plain, ClientOf(env, params).value) == Success(claims)
                                    && out == MergeFapi(env, params, claims)
                 else
                   exists claims :: StandardClaims(env, plain, ClientOf(env, params), sessionScope) == Success(claims)
                                    && out == Merge(params, claims)
  {
    hide Split, Decrypt, FapiClaims, StandardClaims, UnverifiedClaim, PayloadOf, Merge, MergeFapi;
    if Document(env, params).Success? && Document(env, params).value != ""
       && Decrypt(env, Document(env, params).value).Success? {
      var plain := Decrypt(env, Document(env, params).value).value;
      ReadingMeaning(env, plain, "client_id", Null);
      ReadingMeaning(env, plain, "iss", Null);
    }
  }

  /** The code of every refusal, by the first step that refuses. */
  lemma ResolveRefusal(env: Env, params: Parameters, sessionScope: string)
    requires Resolve(env, params, sessionScope).Failure?
    ensures var e := Resolve(env, params, sessionScope).error;
      match Document(env, params)
      case Failure(refusal) => e.error == refusal.error
      case Success(document) =>
        if document == "" then e.error == "invalid_request"
        else
          match Decrypt(env, document)
          case Failure(_) => e.error == "invalid_request_object"
          case Success(plain) =>
            var transport := if "client_id" in params then params["client_id"] else "";
            var named := if PayloadOf(env, plain).Some? then NamedIn(PayloadOf(env, plain).value) else "";
            if named != "" && transport != "" && named != transport then e.error == "invalid_request"
            else if Recognised(env, params) then
              Failure(e.error) == RefusalOf(FapiClaims(env, plain, ClientOf(env, params).value))
            else Failure(e.error) == RefusalOf(StandardClaims(env, plain, ClientOf(env, params), sessionScope))
  {
    hide Split, Decrypt, FapiClaims, StandardClaims, UnverifiedClaim, PayloadOf, Merge, MergeFapi;
    if Document(env, params).Success? && Document(env, params).value != "" {
      OpensIff(env, Document(env, params).value, "");
      if Decrypt(env, Document(env, params).value).Success? {
        var plain := Decrypt(env, Document(env, params).value).value;
        ReadingMeaning(env, plain, "client_id", Null);
        ReadingMeaning(env, plain, "iss", Null);
      }
    }
  }

  function RefusalOf<T>(r: Result<T, RequestObjectError>): Result<T, string> {
    match r
    case Success(value) => Success(value)
    case Failure(e) => Failure(e.error)
  }

  // ---- FAPI: only what is signed counts -------------------------------------------------

  /** The client that governs a request, whether or not its document can be read. */
  function ClientOf(env: Env, params: Parameters): Option<Client> {
    match Document(env, params)
    case Failure(_) => FindClient(env, Get(params, "client_id"))
    case Success(document) =>
      if document == "" then FindClient(env, Get(params, "client_id"))
      else
        match Decrypt(env, document)
        case Failure(_) => FindClient(env, Get(params, "client_id"))
        case Success(plain) => GoverningClient(env, params, plain)
  }

  /** The resolver takes the request for one of a FAPI client: the one its transport names, or else its document's issuer. */
  predicate Recognised(env: Env, params: Parameters) {
    var client := ClientOf(env, params);
    client.Some? && client.value.fapiEnabled
  }

  predicate AgreeOn(a: Parameters, b: Parameters, names: set<string>) {
    forall name :: name in names ==> (name in a <==> name in b) && (name in a && name in b ==> a[name] == b[name])
  }

  /** The names by which a transport may still influence a FAPI request. */
  const HEARD := EMBEDDED + FAPI_TRANSPORT_KEYS

  /** All that a request reads of its transport, its free parameters apart. */
  lemma SameReading(env: Env, a: Parameters, b: Parameters)
    requires AgreeOn(a, b, HEARD)
    ensures Get(a, "request") == Get(b, "request") && Get(a, "request_uri") == Get(b, "request_uri")
    ensures Get(a, "client_id") == Get(b, "client_id")
    ensures Document(env, a) == Document(env, b) && ClientOf(env, a) == ClientOf(env, b)
    ensures forall claims :: MergeFapi(env, a, claims) == MergeFapi(env, b, claims)
  {
    hide StringifyAll, Split, Decrypt, UnverifiedClaim;
    assert "request" in HEARD && "request_uri" in HEARD && "client_id" in HEARD;
    assert forall name :: name in FAPI_TRANSPORT_KEYS ==> name in HEARD;
    assert (map name | name in a && name in FAPI_TRANSPORT_KEYS :: a[name])
        == map name | name in b && name in FAPI_TRANSPORT_KEYS :: b[name];
  }

  /**
    Non-interference: when the resolver recognises a FAPI client, transports
    that agree on the document and on the authentication keys give the same
    result, success or error. A refusal is the same for any client.
  */
  lemma FapiNonInterference(env: Env, a: Parameters, b: Parameters, sessionScope: string)
    requires AgreeOn(a, b, HEARD)
    requires Recognised(env, a) || Resolve(env, a, sessionScope).Failure?
    ensures Resolve(env, a, sessionScope) == Resolve(env, b, sessionScope)
  {
    hide AgreeOn, Merge, MergeFapi, Split, Decrypt, FapiClaims, StandardClaims, UnverifiedClaim;
    SameReading(env, a, b);
  }

  /** What the resolver does not take for a FAPI request keeps every free parameter of its transport. */
  lemma StrangerIsKept(env: Env, params: Parameters, name: string, sessionScope: string)
    requires !Recognised(env, params) && Resolve(env, params, sessionScope).Success?
    requires name !in HEARD && name !in params
    ensures var r := Resolve(env, params[name := ""], sessionScope); r.Success? && name in r.value
  {
    hide MergeFapi, Split, Decrypt, FapiClaims, StandardClaims, UnverifiedClaim;
    SameReading(env, params, params[name := ""]);
  }

  /** There is always one more name. */
  lemma {:induction false} FreshName(names: set<string>) returns (newcomer: string)
    ensures forall n :: n in names ==> |n| < |newcomer|
  {
    newcomer := "";
    if names != {} {
      var n :| n in names;
      newcomer := FreshName(names - {n});
      if |newcomer| <= |n| {
        newcomer := n + "+";
      }
    }
  }

  /**
    The exact law, for every request of every client: its free parameters are
    without influence if and only if it is refused or the resolver recognises a
    FAPI client.
  */
  lemma FapiNonInterferenceIff(env: Env, params: Parameters, sessionScope: string)
    ensures (forall other :: AgreeOn(params, other, HEARD) ==>
               Resolve(env, params, sessionScope) == Resolve(env, other, sessionScope))
      <==> Resolve(env, params, sessionScope).Failure? || Recognised(env, params)
  {
    hide Resolve, Recognised;
    if Resolve(env, params, sessionScope).Failure? || Recognised(env, params) {
      forall other | AgreeOn(params, other, HEARD)
        ensures Resolve(env, params, sessionScope) == Resolve(env, other, sessionScope)
      {
        FapiNonInterference(env, params, other, sessionScope);
      }
    } else {
      var newcomer := FreshName(HEARD + params.Keys + Resolve(env, params, sessionScope).value.Keys);
      StrangerIsKept(env, params, newcomer, sessionScope);
      assert AgreeOn(params, params[newcomer := ""], HEARD);
    }
  }

  /** A server with one FAPI client, which reads unsigned documents by default and whose verifier accepts nothing. */
  function FapiServer(client: Client): Env {
    Env("https://op", ["none"], [], [], Some(map["c" := client]), (url: string) => "",
        Some((asked: Verification) => None), None,
        (segment: string) =>
          if segment == "h" then Some(map["alg" := Str("none")]) else Some(map["client_id" := Str("c")]),
        (v: Value) => "")
  }

  /** Named by the document alone, and not as its issuer, a FAPI client is not recognised: nothing of the result is signed. */
  lemma UnsignedDocumentNamesFapiClient(client: Client, sessionScope: string)
    requires client.fapiEnabled
    ensures var env, params := FapiServer(client), map["request" := "h.p.", "state" := "x"];
      && !Recognised(env, params)
      && Resolve(env, params, sessionScope) == Success(map["client_id" := "c", "state" := "x"])
      && FindClient(env, "c") == Some(client)
  {
    hide Split, StandardClaims, Merge;
    SegmentsOfBoth();
    var env, params := FapiServer(client), map["request" := "h.p.", "state" := "x"];
    assert Document(env, params) == Success("h.p.") && Decrypt(env, "h.p.") == Success("h.p.");
    assert UnverifiedClaim(env, "h.p.", "iss") == "";
    UnsignedDocumentIsRead(client, sessionScope);
    MergedWithState();
  }

  lemma MergedWithState()
    ensures Merge(map["request" := "h.p.", "state" := "x"], map["client_id" := "c"]) == map["client_id" := "c", "state" := "x"]
  {
  }

  lemma UnsignedDocumentIsRead(client: Client, sessionScope: string)
    ensures StandardClaims(FapiServer(client), "h.p.", None, sessionScope) == Success(map["client_id" := "c"])
  {
    hide Split;
    SegmentsOfBoth();
    assert StringifyAll(FapiServer(client), map["client_id" := Str("c")]) == map["client_id" := "c"];
  }

  lemma ClaimsAreVerified(env: Env, plain: string, client: Client)
    requires FapiClaims(env, plain, client).Success?
    ensures var claims := FapiClaims(env, plain, client).value;
      && env.verify.Some? && env.verify.value(FapiVerification(env, plain, client)) == Some(claims)
      && claims.Keys !! EMBEDDED
  {
  }

  /** What the verifier promises: the claims it returns include every claim required. */
  ghost predicate RequiresClaims(env: Env) {
    env.verify.Some? ==> forall asked: Verification, name ::
      env.verify.value(asked).Some? && name in asked.required ==> name in env.verify.value(asked).value
  }

  /** What a merge under FAPI holds. */
  lemma MergeFapiMeaning(env: Env, params: Parameters, claims: Claims)
    ensures var out := MergeFapi(env, params, claims);
      && out.Keys == (params.Keys * FAPI_TRANSPORT_KEYS) + (claims.Keys - EMBEDDED)
      && forall name :: name in out ==>
           out[name] == if name in claims then Stringify(env, claims[name]) else params[name]
  {
    hide Stringify;
  }

  /** A FAPI success is the merge of the transport with verified claims. */
  lemma FapiSuccessIsMerge(env: Env, params: Parameters, sessionScope: string) returns (plain: string, claims: Claims)
    requires Recognised(env, params)
    requires Resolve(env, params, sessionScope).Success?
    ensures FapiClaims(env, plain, ClientOf(env, params).value) == Success(claims)
    ensures Resolve(env, params, sessionScope).value == MergeFapi(env, params, claims)
  {
    hide Split, UnverifiedClaim, MergeFapi, Merge, StandardClaims, FapiClaims, IsEncrypted;
    assert Decrypt(env, "").Success? by { EmptyDocumentHasNoClaims(env); }
    plain := Decrypt(env, Document(env, params).value).value;
    claims := FapiClaims(env, plain, ClientOf(env, params).value).value;
  }

  /**
    In a FAPI success every parameter but the four authentication keys is a
    claim verified under the FAPI algorithms, and those keys too whenever the
    claims hold them; scope, nonce and redirect_uri are always there.
  */
  lemma FapiSuccessIsSigned(env: Env, params: Parameters, sessionScope: string) returns (plain: string, claims: Claims)
    requires RequiresClaims(env)
    requires Recognised(env, params)
    requires Resolve(env, params, sessionScope).Success?
    ensures var out := Resolve(env, params, sessionScope).value;
      && env.verify.Some?
      && env.verify.value(FapiVerification(env, plain, ClientOf(env, params).value)) == Some(claims)
      && {"scope", "nonce", "redirect_uri"} <= out.Keys && out.Keys !! EMBEDDED
      && forall name :: name in out ==>
           if name in claims then out[name] == Stringify(env, claims[name])
           else name in FAPI_TRANSPORT_KEYS && name in params && out[name] == params[name]
  {
    hide Resolve, ClientOf, MergeFapi, Stringify, FapiClaims;
    plain, claims := FapiSuccessIsMerge(env, params, sessionScope);
    ClaimsAreVerified(env, plain, ClientOf(env, params).value);
    MergeFapiMeaning(env, params, claims);
    forall name | name in ["scope", "nonce", "redirect_uri"] ensures name in claims {
      assert name in FapiVerification(env, plain, ClientOf(env, params).value).required;
    }
  }

  /** Two segments, or three with an empty signature, under an algorithm that asks for none. */
  predicate IsUnsigned(env: Env, document: string) {
    var segments := Split(document, '.');
    && (|segments| == 2 || (|segments| == 3 && segments[2] == ""))
    && match env.decodeSegment(segments[0])
       case None => false
       case Some(header) =>
         if "alg" in header then header["alg"].Str? && header["alg"].s in env.unsignedAlgorithms
         else "none" in env.unsignedAlgorithms
  }

  /** The document verifies under the keys of the client, as its profile demands. */
  ghost predicate IsSignedBy(env: Env, document: string, client: Client) {
    && env.verify.Some? && env.issuer != ""
    && exists asked: Verification ::
         && asked.token == document && asked.client == client && asked.issuer == env.issuer
         && asked.algorithms == STANDARD_ALGORITHMS
         && env.verify.value(asked).Some?
         && SatisfiesProfile(client, asked, env.verify.value(asked).value)
  }

  /** Issuer and audience are there; a federated document also has an expiry and a one-time identifier, and no subject. */
  predicate SatisfiesProfile(client: Client, asked: Verification, claims: Claims) {
    && {"iss", "aud"} <= claims.Keys
    && (client.federated ==>
          {"exp", "jti"} <= claims.Keys && "sub" !in claims && asked.replayNamespace.Some?)
  }

  /** Outside FAPI a document is believed only if it may be unsigned and is, or if its client signed it. */
  lemma StandardSuccessIsAuthentic(env: Env, document: string, client: Option<Client>, sessionScope: string)
    requires RequiresClaims(env)
    requires StandardClaims(env, document, client, sessionScope).Success?
    ensures IsUnsigned(env, document) || (client.Some? && IsSignedBy(env, document, client.value))
  {
    hide Split, StringifyAll;
    if !IsUnsigned(env, document) {
      var federated := client.value.federated;
      var asked := Verification(
        document, client.value, env.issuer, STANDARD_ALGORITHMS,
        if federated then FEDERATED_REQUIRED else STANDARD_REQUIRED,
        if federated then Some("federation:" + (if sessionScope != "" then sessionScope else "-")) else None);
      var claims := env.verify.value(asked).value;
      assert "iss" in asked.required && "aud" in asked.required;
      assert federated ==> "exp" in asked.required && "jti" in asked.required;
      assert SatisfiesProfile(client.value, asked, claims);
    }
  }

  /** What the verifier promises: a token it accepts announces one of the algorithms asked for. */
  ghost predicate ReadsHeaders(env: Env) {
    env.verify.Some? ==> forall asked: Verification ::
      env.verify.value(asked).Some? ==> HeaderAlgorithm(env, asked.token) in asked.algorithms
  }

  /**
    The federated profile asks for an expiry, a one-time identifier and no
    subject. They are enforced exactly when the header announces an algorithm
    that is not read unsigned.
  */
  lemma FederatedProfileIff(env: Env, document: string, client: Client, sessionScope: string)
    requires RequiresClaims(env) && ReadsHeaders(env) && "RS256" !in env.unsignedAlgorithms
    requires client.federated && StandardClaims(env, document, Some(client), sessionScope).Success?
    ensures IsSignedBy(env, document, client) <==> HeaderAlgorithm(env, document) !in env.unsignedAlgorithms
  {
    hide Split, StringifyAll, Stringify;
    if HeaderAlgorithm(env, document) !in env.unsignedAlgorithms {
      StandardSuccessIsAuthentic(env, document, Some(client), sessionScope);
      UnsignedAnnouncesIt(env, document);
    }
  }

  lemma UnsignedAnnouncesIt(env: Env, document: string)
    ensures IsUnsigned(env, document) ==> HeaderAlgorithm(env, document) in env.unsignedAlgorithms
  {
    hide Split;
  }

  /** A federated client may send this unsigned document: it names a subject, never expires and can be sent again. */
  lemma UnsignedFederatedDocument(client: Client, sessionScope: string)
    requires client.federated
    ensures var payload := map["iss" := Str("c"), "sub" := Str("c")];
      var env := FapiServer(client).(decodeSegment := (segment: string) =>
        if segment == "h" then Some(map["alg" := Str("none")]) else Some(payload));
      var r := StandardClaims(env, "h.p.", Some(client), sessionScope);
      && r == Success(map["iss" := "c", "sub" := "c"])
      && !IsSignedBy(env, "h.p.", client)
  {
    hide Split;
    SegmentsOfBoth();
    var payload := map["iss" := Str("c"), "sub" := Str("c")];
    var env := FapiServer(client).(decodeSegment := (segment: string) =>
      if segment == "h" then Some(map["alg" := Str("none")]) else Some(payload));
    assert StringifyAll(env, payload) == map["iss" := "c", "sub" := "c"];
    assert UnsignedClaims(env, "h.p.") == Success(StringifyAll(env, payload));
  }

  /** A document is opened only under a key algorithm and a content encryption that the server publishes. */
  lemma OpenedUnderPublishedAlgorithms(env: Env, document: string)
    requires IsEncrypted(document) && Decrypt(env, document).Success?
    ensures exists algorithm, encryption, kid ::
      && algorithm in env.encryptionAlgorithms && encryption in env.encryptionMethods
      && env.decrypt.Some?
      && env.decrypt.value(document, algorithm, encryption, kid) == Decrypt(env, document).value != ""
  {
    hide Split;
    var header := env.decodeSegment(Split(document, '.')[0]).value;
    assert env.decrypt.value(document, header["alg"].s, header["enc"].s, StringClaim(header, "kid"))
        == Decrypt(env, document).value;
  }

  /** Outside FAPI a document's claims win over the transport, and what it does not mention is kept. */
  lemma StandardSuccessPrefersClaims(env: Env, params: Parameters, sessionScope: string)
    returns (plain: string, claims: Parameters)
    requires Document(env, params).Success? && Document(env, params).value != ""
    requires !Recognised(env, params)
    requires Resolve(env, params, sessionScope).Success?
    ensures StandardClaims(env, plain, ClientOf(env, params), sessionScope) == Success(claims)
    ensures var out := Resolve(env, params, sessionScope).value;
      && out.Keys == (params.Keys + claims.Keys) - EMBEDDED
      && forall name :: name in out ==> out[name] == if name in claims then claims[name] else params[name]
  {
    hide StringifyAll, Split, UnverifiedClaim, StandardClaims;
    plain := Decrypt(env, Document(env, params).value).value;
    claims := StandardClaims(env, plain, ClientOf(env, params), sessionScope).value;
  }

  // ---- encryption is transparent ----------------------------------------------------------

  /**
    A request passed as a JWE that opens to a plain document gives exactly the
    result of passing that document itself: same parameters, or same error code
    and same echoed state, under every profile. One request escapes: when a
    `request_uri` comes with it the refusal echoes the state of the document
    but cannot read that of the JWE.
  */
  lemma EncryptionIsTransparentIff(env: Env, params: Parameters, jwe: string, document: string, sessionScope: string)
    requires IsEncrypted(jwe) && !IsEncrypted(document)
    requires Decrypt(env, jwe) == Success(document)
    ensures Resolve(env, params["request" := jwe], sessionScope) == Resolve(env, params["request" := document], sessionScope)
      <==> Get(params, "request_uri") == "" || UnverifiedClaim(env, document, "state") == ""
  {
    hide StringifyAll, Split, FapiClaims, StandardClaims, UnverifiedClaim, ResolveDocument, IsEncrypted, Decrypt;
    var a, b := params["request" := jwe], params["request" := document];
    OpenedIsNotEmpty(env, jwe, document);
    if Get(params, "request_uri") == "" {
      SameDocumentResolved(env, a, b, jwe, document, sessionScope);
    } else {
      JweHasNoClaims(env, jwe);
    }
  }

  lemma OpenedIsNotEmpty(env: Env, jwe: string, document: string)
    requires IsEncrypted(jwe) && Decrypt(env, jwe) == Success(document)
    ensures jwe != "" && document != ""
  {
  }

  /** Five segments hold no readable claim. */
  lemma JweHasNoClaims(env: Env, jwe: string)
    requires IsEncrypted(jwe)
    ensures UnverifiedClaim(env, jwe, "state") == ""
  {
  }

  /** Once the document is known only what is outside `request` and `request_uri` matters. */
  lemma SameDocumentResolved(env: Env, a: Parameters, b: Parameters, jwe: string, document: string, sessionScope: string)
    requires Decrypt(env, jwe) == Success(document) && !IsEncrypted(document)
    requires a - EMBEDDED == b - EMBEDDED
    ensures ResolveDocument(env, a, jwe, sessionScope) == ResolveDocument(env, b, document, sessionScope)
  {
    hide StringifyAll, Split, FapiClaims, StandardClaims, UnverifiedClaim;
    assert Decrypt(env, document) == Success(document);
    assert Get(a, "client_id") == Get(b, "client_id") by {
      assert "client_id" in a <==> "client_id" in a - EMBEDDED;
      assert "client_id" in b <==> "client_id" in b - EMBEDDED;
    }
    assert forall name :: name in FAPI_TRANSPORT_KEYS ==> (name in a <==> name in a - EMBEDDED);
    assert forall name :: name in FAPI_TRANSPORT_KEYS ==> (name in b <==> name in b - EMBEDDED);
    assert (map name | name in a && name in FAPI_TRANSPORT_KEYS :: a[name])
        == map name | name in b && name in FAPI_TRANSPORT_KEYS :: b[name];
  }

  /** A server that opens every JWE to the unsigned document `h.p.`, whose segments all read as one header. */
  function OpeningServer(): Env {
    var header := map["alg" := Str("RSA-OAEP"), "enc" := Str("A256GCM"), "state" := Str("s")];
    Env("https://op", ["none"], ["RSA-OAEP"], ["A256GCM"], None, (url: string) => "", None,
        Some((jwe: string, alg: string, enc: string, kid: string) => "h.p."),
        (segment: string) => Some(header), (v: Value) => "")
  }

  /** With a `request_uri` beside it, the plain document echoes its state in the refusal and its JWE does not. */
  lemma EncryptionHidesTheState(sessionScope: string)
    ensures var env, params := OpeningServer(), map["request_uri" := "https://rp/request"];
      && Decrypt(env, "h.k.i.c.t") == Success("h.p.")
      && Resolve(env, params["request" := "h.p."], sessionScope) == Failure(RequestObjectError("invalid_request", "s"))
      && Resolve(env, params["request" := "h.k.i.c.t"], sessionScope) == Failure(RequestObjectError("invalid_request", ""))
  {
    hide Split, ResolveDocument;
    SegmentsOfBoth();
    assert IsEncrypted("h.k.i.c.t");
    assert UnverifiedClaim(OpeningServer(), "h.p.", "state") == "s";
    assert UnverifiedClaim(OpeningServer(), "h.k.i.c.t", "state") == "";
  }

  lemma SegmentsOfBoth()
    ensures Split("h.p.", '.') == ["h", "p", ""]
    ensures Split("h.k.i.c.t", '.') == ["h", "k", "i", "c", "t"]
  {
    hide Split;
    SplitDot("h", "p.");
    SplitDot("p", "");
    SplitDot("h", "k.i.c.t");
    SplitDot("k", "i.c.t");
    SplitDot("i", "c.t");
    SplitDot("c", "t");
    SplitEnd("t");
    assert "h" + "." + "p." == "h.p." && "p" + "." + "" == "p.";
    assert "h" + "." + "k.i.c.t" == "h.k.i.c.t" && "k" + "." + "i.c.t" == "k.i.c.t";
    assert "i" + "." + "c.t" == "i.c.t" && "c" + "." + "t" == "c.t";
  }

  /** A one-character segment and what follows its dot. */
  lemma SplitDot(first: string, rest: string)
    requires |first| == 1 && first[0] != '.'
    ensures Split(first + "." + rest, '.') == [first] + Split(rest, '.')
  {
    var s := first + "." + rest;
    assert s[1..] == "." + rest && s[1..][1..] == rest;
    assert Split(s[1..], '.') == [""] + Split(rest, '.');
    assert [s[0]] + "" == first;
  }

  lemma SplitEnd(last: string)
    requires |last| == 1 && last[0] != '.'
    ensures Split(last, '.') == [last] && Split("", '.') == [""]
  {
    assert last[1..] == "";
    assert Split(last[1..], '.') == [""];
    assert [last[0]] + "" == last;
  }

  /** A document passed by reference gives the result of the document itself. */
  lemma ReferenceIsTransparent(env: Env, params: Parameters, reference: string, document: string, sessionScope: string)
    requires reference != "" && !(PUSHED_REQUEST_URI_PREFIX <= reference) && document != ""
    requires Get(params, "request") == "" && Get(params, "request_uri") == reference
    requires Decrypt(env, env.fetch(reference)) == Success(document) && env.fetch(reference) != "" && !IsEncrypted(document)
    ensures Resolve(env, params, sessionScope)
         == Resolve(env, params["request" := document]["request_uri" := ""], sessionScope)
  {
    hide Decrypt, ResolveDocument, IsEncrypted;
    SameDocumentResolved(env, params, params["request" := document]["request_uri" := ""],
                         env.fetch(reference), document, sessionScope);
  }

  /** A refusal echoes the state that the readable document carries, and nothing of the transport. */
  lemma EchoedState(env: Env, params: Parameters, sessionScope: string)
    requires Resolve(env, params, sessionScope).Failure?
    ensures var e := Resolve(env, params, sessionScope).error;
      match Document(env, params)
      case Failure(_) => e.state == UnverifiedClaim(env, Get(params, "request"), "state")
      case Success(document) =>
        match Decrypt(env, document)
        case Failure(_) => e.state == UnverifiedClaim(env, Get(params, "request"), "state")
        case Success(plain) => e.state == UnverifiedClaim(env, plain, "state")
  {
    hide Split, UnverifiedClaim;
    EmptyDocumentHasNoClaims(env);
  }

  lemma EmptyDocumentHasNoClaims(env: Env)
    ensures UnverifiedClaim(env, "", "state") == "" && Decrypt(env, "") == Success("")
  {
    assert Split("", '.') == [""];
  }
}
