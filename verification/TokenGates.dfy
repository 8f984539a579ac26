/**
  The three resource-side gates of an access token: `/introspect` (RFC 7662),
  `/userinfo` and `/protected-resource` (RFC 6750, RFC 8705, RFC 9449), over
  one denylist of revoked tokens (RFC 7009).
*/
module TokenGates {
  import opened Wrappers
  import opened Json

  /** Microseconds in a second: instants are in microseconds, `exp` claims in seconds. */
  const SECOND := 1_000_000

  /** The client certificate of a request, by the hash of its DER form when it has one. */
  datatype Certificate = Certificate(derHash: Option<string>)

  /**
    Collaborators common to the gates. `signed` gives the claims of a token
    with a valid signature and issuer; `hash` is the digest under which the
    denylist knows it; `thumbprint` validates a proof for an address, a method
    and a token digest. The proof validator may be missing.
  */
  datatype Env = Env(
    signed: string -> Option<Claims>,
    hash: string -> string,
    intOf: Value -> Option<int>,
    authenticated: (string, string) -> bool,
    accessTokenHash: string -> string,
    thumbprint: Option<(string, string, string, string) -> Option<string>>)

  /**
    What is assumed of the libraries: the empty string is no token, the digest
    has no collision, and `int()` of a JSON number truncates it while `int()`
    of a Boolean is 0 or 1.
  */
  ghost predicate Sound(env: Env) {
    && env.signed("") == None
    && (forall a, b :: env.hash(a) == env.hash(b) ==> a == b)
    && (forall v: Value :: v.Number? || v.Bool? ==> env.intOf(v) == Some(IntOf(v)))
  }

  /** `int(value)` of a number. */
  function IntOf(v: Value): int
    requires v.Number? || v.Bool?
  {
    match v
    case Bool(b) => if b then 1 else 0
    case Number(n) => if n >= 0.0 then n.Floor else -((-n).Floor)
  }

  /**
    `validate_access_token`: signature, issuer, and expiry when an `exp` claim
    is there. Its integer value counts, whatever its JSON type.
  */
  function Validated(env: Env, token: string, now: int): Option<Claims> {
    match env.signed(token)
    case None => None
    case Some(claims) =>
      if "exp" !in claims then Some(claims)
      else
        match env.intOf(claims["exp"])
        case None => None
        case Some(exp) => if exp * SECOND <= now then None else Some(claims)
  }

  // ---- revocation --------------------------------------------------------------------

  type Denylist = map<string, int>

  /** `purge_expired` */
  function Purged(denylist: Denylist, now: int): Denylist {
    map h | h in denylist && denylist[h] > now :: denylist[h]
  }

  /** `_expiry`: only a numeric claim gives a date. */
  function Expiry(claims: Claims): Option<int> {
    if "exp" in claims && (claims["exp"].Number? || claims["exp"].Bool?)
    then Some(IntOf(claims["exp"]) * SECOND) else None
  }

  datatype RevocationResult = Done | InvalidRequest | InvalidClient

  /** The denylist after a revocation. */
  function Revoked(env: Env, denylist: Denylist, token: string, clientId: string, secret: string, now: int): Denylist {
    if token == "" || !env.authenticated(clientId, secret) then denylist
    else
      var purged := Purged(denylist, now);
      match Validated(env, token, now)
      case None => purged
      case Some(claims) =>
        match Expiry(claims)
        case None => purged
        case Some(expiresAt) => if expiresAt <= now then purged else purged[env.hash(token) := expiresAt]
  }

  class RevocationUseCase {
    var denylist: Denylist

    constructor ()
      ensures denylist == map[]
    {
      denylist := map[];
    }

    /** Unknown, invalid and expired tokens are a success that only purges. */
    method Execute(env: Env, token: string, clientId: string, secret: string, now: int)
      returns (r: RevocationResult, purged: nat)
      modifies this
      ensures r == if token == "" then InvalidRequest
                   else if !env.authenticated(clientId, secret) then InvalidClient else Done
      ensures denylist == Revoked(env, old(denylist), token, clientId, secret, now)
      ensures r == Done ==> purged == |old(denylist)| - |Purged(old(denylist), now)|
    {
      purged := 0;
      if token == "" {
        return InvalidRequest, purged;
      }
      if !env.authenticated(clientId, secret) {
        return InvalidClient, purged;
      }
      PurgeCounts(denylist, now);
      purged := |denylist| - |Purged(denylist, now)|;
      denylist := Purged(denylist, now);
      r := Done;
      var claims := Validated(env, token, now);
      if claims == None {
        return;
      }
      var expiresAt := Expiry(claims.value);
      if expiresAt == None || expiresAt.value <= now {
        return;
      }
      denylist := denylist[env.hash(token) := expiresAt.value];
    }
  }

  lemma PurgeCounts(denylist: Denylist, now: int)
    ensures |Purged(denylist, now)| <= |denylist|
  {
    var kept := Purged(denylist, now).Keys;
    assert kept <= denylist.Keys;
    assert denylist.Keys == kept + (denylist.Keys - kept);
  }

  // ---- the gates ------------------------------------------------------------------------

  datatype Presentation = Presentation(
    token: string, certificate: Option<Certificate>, scheme: string, proof: string, htu: string, htm: string)

  datatype GateError = InvalidToken | InvalidDpopToken | InvalidProof

  /** A string member of the `cnf` claim, `""` when it is absent or of another shape. */
  function Confirmation(claims: Claims, member: string): string {
    if "cnf" in claims && claims["cnf"].Obj? then StringClaim(claims["cnf"].members, member) else ""
  }

  /** `certificate_binding_error`, as a test. */
  predicate CertificateMatches(claims: Claims, certificate: Option<Certificate>) {
    var expected := Confirmation(claims, "x5t#S256");
    expected == "" || (certificate.Some? && certificate.value.derHash == Some(expected))
  }

  /** `_bound_jkt` of the protected resource. */
  function BoundThumbprint(claims: Claims): string {
    Confirmation(claims, "jkt")
  }

  /** `_validate_dpop_binding` of the protected resource. */
  function BindingError(env: Env, p: Presentation, claims: Claims): Option<GateError> {
    var bound := BoundThumbprint(claims);
    if bound == "" then None
    else if p.scheme != "dpop" then Some(InvalidDpopToken)
    else if env.thumbprint.None? then Some(InvalidDpopToken)
    else if p.proof == "" then Some(InvalidDpopToken)
    else
      match env.thumbprint.value(p.proof, p.htu, p.htm, env.accessTokenHash(p.token))
      case None => Some(InvalidProof)
      case Some(jkt) => if jkt != bound then Some(InvalidProof) else None
  }

  /** `ProtectedResourceUseCase.execute`: the claims served, or the refusal. */
  function ProtectedResource(env: Env, denylist: Denylist, p: Presentation, now: int): Result<Claims, GateError> {
    match Validated(env, p.token, now)
    case None => Failure(InvalidToken)
    case Some(claims) =>
      if env.hash(p.token) in denylist then Failure(InvalidToken)
      else if !CertificateMatches(claims, p.certificate) then Failure(InvalidToken)
      else
        match BindingError(env, p, claims)
        case Some(e) => Failure(e)
        case None => Success(claims)
  }

  /** `_bound_jkt` of user info. */
  function UserInfoThumbprint(claims: Claims): string {
    if "cnf" !in claims || !claims["cnf"].Obj? then ""
    else
      var cnf := claims["cnf"].members;
      if "jkt" in cnf && cnf["jkt"].Str? then cnf["jkt"].s else ""
  }

  /** `_validate_dpop_binding` of user info. */
  function UserInfoBindingError(env: Env, p: Presentation, claims: Claims): Option<GateError> {
    var bound := UserInfoThumbprint(claims);
    if bound == "" then None
    else if p.scheme != "dpop" then Some(InvalidDpopToken)
    else if env.thumbprint.None? then Some(InvalidDpopToken)
    else if p.proof == "" then Some(InvalidDpopToken)
    else
      match env.thumbprint.value(p.proof, p.htu, p.htm, env.accessTokenHash(p.token))
      case None => Some(InvalidProof)
      case Some(jkt) => if jkt != bound then Some(InvalidProof) else None
  }

  /** The two use cases write the binding step twice, and agree on every presentation. */
  lemma BindingStepsAgree(env: Env, p: Presentation, claims: Claims)
    ensures UserInfoThumbprint(claims) == BoundThumbprint(claims)
    ensures UserInfoBindingError(env, p, claims) == BindingError(env, p, claims)
  {
  }

  /** The gate of `UserInfoUseCase.execute`, down to the subject. */
  function UserInfo(env: Env, denylist: Denylist, p: Presentation, now: int): Result<Value, GateError> {
    match Validated(env, p.token, now)
    case None => Failure(InvalidToken)
    case Some(claims) =>
      if env.hash(p.token) in denylist then Failure(InvalidToken)
      else if !CertificateMatches(claims, p.certificate) then Failure(InvalidToken)
      else
        match UserInfoBindingError(env, p, claims)
        case Some(e) => Failure(e)
        case None =>
          if "sub" !in claims || claims["sub"] == Null then Failure(InvalidToken) else Success(claims["sub"])
  }

  datatype Introspection = Active(claims: Claims) | Inactive | Rejected(status: int)

  const COPIED := ["iss", "sub", "aud", "exp", "iat", "scope"]

  function Copied(claims: Claims, names: seq<string>): Claims {
    map name | name in claims && name in names :: claims[name]
  }

  function ClientMember(claims: Claims): Claims {
    if "aud" in claims && claims["aud"].Str? then map["client_id" := claims["aud"]] else map[]
  }

  function UsernameMember(claims: Claims): Claims {
    if "preferred_username" in claims then map["username" := claims["preferred_username"]]
    else if "sub" in claims then map["username" := claims["sub"]] else map[]
  }

  function ConfirmationMembers(claims: Claims): Claims {
    (if "cnf" in claims && claims["cnf"].Obj? then map["cnf" := claims["cnf"]] else map[])
    + map["token_type" := Str(if BoundThumbprint(claims) != "" then "DPoP" else "Bearer")]
  }

  /** `_select_claims`, as a value. */
  function Selected(claims: Claims): Claims {
    Copied(claims, COPIED) + ClientMember(claims) + UsernameMember(claims) + ConfirmationMembers(claims)
  }

  method SelectClaims(claims: Claims) returns (selected: Claims)
    ensures selected == Selected(claims)
  {
    hide ClientMember, UsernameMember, ConfirmationMembers;
    selected := map[];
    for i := 0 to |COPIED|
      invariant selected == Copied(claims, COPIED[..i])
    {
      assert COPIED[..i + 1] == COPIED[..i] + [COPIED[i]];
      if COPIED[i] in claims {
        selected := selected[COPIED[i] := claims[COPIED[i]]];
      }
    }
    assert COPIED[..|COPIED|] == COPIED;
    selected := AddClient(claims, selected);
    selected := AddUsername(claims, selected);
    selected := AddConfirmation(claims, selected);
  }

  method AddClient(claims: Claims, before: Claims) returns (selected: Claims)
    ensures selected == before + ClientMember(claims)
  {
    selected := before;
    if "aud" in claims && claims["aud"].Str? {
      selected := selected["client_id" := claims["aud"]];
    }
  }

  method AddUsername(claims: Claims, before: Claims) returns (selected: Claims)
    ensures selected == before + UsernameMember(claims)
  {
    selected := before;
    if "preferred_username" in claims {
      selected := selected["username" := claims["preferred_username"]];
    } else if "sub" in claims {
      selected := selected["username" := claims["sub"]];
    }
  }

  method AddConfirmation(claims: Claims, before: Claims) returns (selected: Claims)
    ensures selected == before + ConfirmationMembers(claims)
  {
    selected := before;
    if "cnf" in claims && claims["cnf"].Obj? {
      selected := selected["cnf" := claims["cnf"]];
      var jkt := StringClaim(claims["cnf"].members, "jkt");
      selected := selected["token_type" := Str(if jkt != "" then "DPoP" else "Bearer")];
    } else {
      selected := selected["token_type" := Str("Bearer")];
    }
  }

  /** What a resource server reads in an active introspection, member by member. */
  lemma IntrospectionTells(claims: Claims, name: string)
    ensures var r := Selected(claims);
      if name == "token_type" then
        name in r && (r[name] == Str("DPoP") || r[name] == Str("Bearer"))
        && (r[name] == Str("DPoP") <==> exists jkt :: Confirms(claims, "jkt", jkt))
      else if name == "cnf" then Shows(r, name, claims, name, "cnf" in claims && claims["cnf"].Obj?)
      else if name == "username" then
        Shows(r, name, claims, if "preferred_username" in claims then "preferred_username" else "sub",
              "preferred_username" in claims || "sub" in claims)
      else if name == "client_id" then Shows(r, name, claims, "aud", "aud" in claims && claims["aud"].Str?)
      else Shows(r, name, claims, name, name in claims && name in COPIED)
  {
    hide Selected, BoundThumbprint, Confirms;
    MembersAreApart(claims);
    BoundIff(claims);
    if name in COPIED {
      SelectedElsewhere(claims, name);
    } else {
      SelectedMember(claims, name);
    }
  }

  lemma BoundIff(claims: Claims)
    ensures BoundThumbprint(claims) != "" <==> exists jkt :: Confirms(claims, "jkt", jkt)
  {
    var bound := Confirmation(claims, "jkt");
    ConfirmationIff(claims, "jkt", bound);
    forall jkt ensures Confirms(claims, "jkt", jkt) <==> jkt != "" && bound == jkt {
      ConfirmationIff(claims, "jkt", jkt);
    }
  }

  /** Each step of the selection fills its own members. */
  lemma MembersAreApart(claims: Claims)
    ensures ClientMember(claims).Keys <= {"client_id"} && UsernameMember(claims).Keys <= {"username"}
    ensures ConfirmationMembers(claims).Keys <= {"cnf", "token_type"}
    ensures forall name :: name in COPIED ==> name !in ["client_id", "username", "cnf", "token_type"]
  {
    hide BoundThumbprint;
  }

  /** A copied claim is untouched by the later steps. */
  lemma SelectedElsewhere(claims: Claims, name: string)
    requires name !in ["client_id", "username", "cnf", "token_type"]
    ensures Shows(Selected(claims), name, claims, name, name in claims && name in COPIED)
  {
    hide ClientMember, UsernameMember, ConfirmationMembers, COPIED;
    MembersAreApart(claims);
  }

  /** Any other member comes from its own step alone. */
  lemma SelectedMember(claims: Claims, name: string)
    requires name !in COPIED
    ensures var r := Selected(claims);
      && (name in r <==> name in ClientMember(claims) || name in UsernameMember(claims) || name in ConfirmationMembers(claims))
      && (name in ConfirmationMembers(claims) ==> r[name] == ConfirmationMembers(claims)[name])
      && (name in UsernameMember(claims) ==> r[name] == UsernameMember(claims)[name])
      && (name in ClientMember(claims) ==> r[name] == ClientMember(claims)[name])
  {
    hide ClientMember, UsernameMember, ConfirmationMembers, COPIED;
    MembersAreApart(claims);
  }

  /** The member shows a claim under the condition, and is absent otherwise. */
  predicate Shows(r: Claims, member: string, claims: Claims, claim: string, condition: bool)
    requires condition ==> claim in claims
  {
    if condition then member in r && r[member] == claims[claim] else member !in r
  }

  /** `IntrospectUseCase.execute` */
  function Introspect(env: Env, denylist: Denylist, token: string, clientId: string, secret: string, now: int)
    : Introspection
  {
    if token == "" then Rejected(400)
    else if !env.authenticated(clientId, secret) then Rejected(401)
    else
      match Validated(env, token, now)
      case None => Inactive
      case Some(claims) => if env.hash(token) in denylist then Inactive else Active(Selected(claims))
  }

  // ---- agreement ---------------------------------------------------------------------------

  /** The non-empty text a token's confirmation holds under a name. */
  predicate Confirms(claims: Claims, member: string, text: string) {
    && text != "" && "cnf" in claims && claims["cnf"].Obj?
    && member in claims["cnf"].members && claims["cnf"].members[member] == Str(text)
  }

  lemma ConfirmationIff(claims: Claims, member: string, text: string)
    ensures Confirms(claims, member, text) <==> text != "" && Confirmation(claims, member) == text
  {
  }

  /** A token is live when it is genuine and its expiry, if it has one, is readable and not past. */
  predicate IsLive(env: Env, token: string, now: int) {
    match env.signed(token)
    case None => false
    case Some(claims) =>
      "exp" in claims ==> env.intOf(claims["exp"]).Some? && env.intOf(claims["exp"]).value * 1_000_000 > now
  }

  lemma ValidatedIff(env: Env, token: string, now: int)
    ensures Validated(env, token, now) == if IsLive(env, token, now) then env.signed(token) else None
  {
  }

  /**
    What a resource asks of a token: live, not revoked, presented with the very
    certificate it names if it names one, and with a proof of the very key it
    names if it names one, made for that token, address and method.
  */
  ghost predicate Presentable(env: Env, denylist: Denylist, p: Presentation, now: int) {
    && IsLive(env, p.token, now)
    && env.hash(p.token) !in denylist
    && var claims := env.signed(p.token).value;
       && (forall hash :: Confirms(claims, "x5t#S256", hash) ==>
             p.certificate.Some? && p.certificate.value.derHash == Some(hash))
       && (forall jkt :: Confirms(claims, "jkt", jkt) ==>
             && p.scheme == "dpop" && p.proof != "" && env.thumbprint.Some?
             && env.thumbprint.value(p.proof, p.htu, p.htm, env.accessTokenHash(p.token)) == Some(jkt))
  }

  lemma CertificateMatchesIff(claims: Claims, certificate: Option<Certificate>)
    ensures CertificateMatches(claims, certificate) <==>
      forall hash :: Confirms(claims, "x5t#S256", hash) ==> certificate.Some? && certificate.value.derHash == Some(hash)
  {
    hide Confirms, Confirmation;
    var expected := Confirmation(claims, "x5t#S256");
    ConfirmationIff(claims, "x5t#S256", expected);
    forall hash ensures Confirms(claims, "x5t#S256", hash) <==> hash != "" && expected == hash {
      ConfirmationIff(claims, "x5t#S256", hash);
    }
  }

  /** Why the binding step refuses: the wrong scheme, no validator or no proof, or a proof of another key. */
  lemma BindingErrorIff(env: Env, p: Presentation, claims: Claims)
    ensures var proved := if env.thumbprint.None? then None
                          else env.thumbprint.value(p.proof, p.htu, p.htm, env.accessTokenHash(p.token));
      var usable := p.scheme == "dpop" && p.proof != "" && env.thumbprint.Some?;
      && (BindingError(env, p, claims) == None <==>
            forall jkt :: Confirms(claims, "jkt", jkt) ==> usable && proved == Some(jkt))
      && (BindingError(env, p, claims) == Some(InvalidDpopToken) <==>
            !usable && exists jkt :: Confirms(claims, "jkt", jkt))
  {
    hide Confirms, Confirmation;
    var bound := BoundThumbprint(claims);
    ConfirmationIff(claims, "jkt", bound);
    forall jkt ensures Confirms(claims, "jkt", jkt) <==> jkt != "" && bound == jkt {
      ConfirmationIff(claims, "jkt", jkt);
    }
  }

  /** Each resource accepts exactly what is presentable; user info asks for a subject as well. */
  lemma ResourceAcceptsIff(env: Env, denylist: Denylist, p: Presentation, now: int)
    ensures ProtectedResource(env, denylist, p, now).Success? <==> Presentable(env, denylist, p, now)
    ensures UserInfo(env, denylist, p, now).Success? <==>
      && Presentable(env, denylist, p, now)
      && "sub" in env.signed(p.token).value && env.signed(p.token).value["sub"] != Null
  {
    hide Validated, IsLive, CertificateMatches, BindingError, UserInfoBindingError, Confirms;
    ValidatedIff(env, p.token, now);
    if IsLive(env, p.token, now) {
      assert env.signed(p.token).Some? by { LiveIsSigned(env, p.token, now); }
      var claims := env.signed(p.token).value;
      CertificateMatchesIff(claims, p.certificate);
      BindingErrorIff(env, p, claims);
      BindingStepsAgree(env, p, claims);
    }
  }

  lemma LiveIsSigned(env: Env, token: string, now: int)
    requires IsLive(env, token, now)
    ensures env.signed(token).Some?
  {
  }

  /** How a resource refuses: the token itself, its revocation or its certificate first, then the proof of its key. */
  lemma ResourceRefusal(env: Env, denylist: Denylist, p: Presentation, now: int)
    requires ProtectedResource(env, denylist, p, now).Failure?
    ensures var e := ProtectedResource(env, denylist, p, now).error;
      if !IsLive(env, p.token, now) || env.hash(p.token) in denylist
         || (exists hash :: Confirms(env.signed(p.token).value, "x5t#S256", hash)
                            && !(p.certificate.Some? && p.certificate.value.derHash == Some(hash)))
      then e == InvalidToken
      else if p.scheme == "dpop" && p.proof != "" && env.thumbprint.Some? then e == InvalidProof
      else e == InvalidDpopToken
  {
    hide Validated, IsLive, CertificateMatches, BindingError, Confirms;
    ValidatedIff(env, p.token, now);
    if IsLive(env, p.token, now) {
      assert env.signed(p.token).Some? by { LiveIsSigned(env, p.token, now); }
      var claims := env.signed(p.token).value;
      CertificateMatchesIff(claims, p.certificate);
      BindingErrorIff(env, p, claims);
      BindingErrors(env, p, claims);
    }
  }

  lemma BindingErrors(env: Env, p: Presentation, claims: Claims)
    ensures BindingError(env, p, claims) in {None, Some(InvalidDpopToken), Some(InvalidProof)}
  {
  }

  /** What introspection answers: a caller without token or credentials is turned away, and only a live unrevoked token is active. */
  lemma IntrospectionIff(env: Env, denylist: Denylist, token: string, clientId: string, secret: string, now: int)
    ensures var r := Introspect(env, denylist, token, clientId, secret, now);
      && (r == Rejected(400) <==> token == "")
      && (r == Rejected(401) <==> token != "" && !env.authenticated(clientId, secret))
      && (r.Active? <==> token != "" && env.authenticated(clientId, secret)
                         && IsLive(env, token, now) && env.hash(token) !in denylist)
      && (r.Active? ==> env.signed(token).Some? && r.claims == Selected(env.signed(token).value))
      && (r.Rejected? ==> r.status in {400, 401})
  {
    hide Selected;
  }

  /** A purge drops exactly the entries whose date is past, and changes no other. */
  lemma PurgeIff(denylist: Denylist, now: int, hash: string)
    ensures hash in Purged(denylist, now) <==> hash in denylist && denylist[hash] > now
    ensures hash in Purged(denylist, now) ==> Purged(denylist, now)[hash] == denylist[hash]
  {
  }

  /** The date a revocation is kept until: the whole seconds of a numeric expiry, and none for any other claim. */
  lemma ExpiryIff(claims: Claims, at: int)
    ensures Expiry(claims) == Some(at) <==>
      "exp" in claims
      && match claims["exp"]
         case Number(n) => at == 1_000_000 * (if n < 0.0 then -((-n).Floor) else n.Floor)
         case Bool(b) => at == if b then 1_000_000 else 0
         case _ => false
  {
  }

  /**
    The gates agree from one common state: `/userinfo` accepts a presentation
    exactly when `/protected-resource` does and the token names a subject, with
    the same refusal otherwise, and any acceptance means that an authenticated
    introspection finds the token active.
  */
  lemma GatesAgree(env: Env, denylist: Denylist, p: Presentation, clientId: string, secret: string, now: int)
    requires Sound(env) && env.authenticated(clientId, secret)
    ensures var resource, info := ProtectedResource(env, denylist, p, now), UserInfo(env, denylist, p, now);
      && (info.Success? <==> resource.Success? && "sub" in resource.value && resource.value["sub"] != Null)
      && (info.Success? ==> info.value == resource.value["sub"])
      && (resource.Failure? ==> info.Failure? && info.error == resource.error)
      && (resource.Success? ==>
            Introspect(env, denylist, p.token, clientId, secret, now) == Active(Selected(resource.value)))
  {
    hide BindingError, UserInfoBindingError, CertificateMatches, Selected;
    if Validated(env, p.token, now).Some? {
      BindingStepsAgree(env, p, Validated(env, p.token, now).value);
    }
  }

  /**
    Introspection reports the type `DPoP` exactly when both gates refuse the
    token, otherwise in order and presented with its certificate, under the
    Bearer scheme.
  */
  lemma DpopTypeIff(env: Env, denylist: Denylist, p: Presentation, clientId: string, secret: string, now: int)
    requires Sound(env) && env.authenticated(clientId, secret) && p.scheme == "bearer"
    requires Introspect(env, denylist, p.token, clientId, secret, now).Active?
    requires var claims := env.signed(p.token).value;
      && (forall hash :: Confirms(claims, "x5t#S256", hash) ==>
            p.certificate.Some? && p.certificate.value.derHash == Some(hash))
      && "sub" in claims && claims["sub"] != Null
    ensures var reported := Introspect(env, denylist, p.token, clientId, secret, now).claims;
      reported["token_type"] == Str("DPoP") <==>
        ProtectedResource(env, denylist, p, now).Failure? && UserInfo(env, denylist, p, now).Failure?
  {
    hide Introspect, ProtectedResource, UserInfo, Selected, Confirms, IsLive;
    IntrospectionIff(env, denylist, p.token, clientId, secret, now);
    ResourceAcceptsIff(env, denylist, p, now);
    IntrospectionTells(env.signed(p.token).value, "token_type");
  }

  // ---- once revoked, refused for good ---------------------------------------------------------

  datatype Event = Revoke(token: string, clientId: string, secret: string) | Tick(elapsed: nat)

  datatype State = State(denylist: Denylist, now: int)

  function Step(env: Env, s: State, e: Event): State {
    match e
    case Revoke(token, clientId, secret) => s.(denylist := Revoked(env, s.denylist, token, clientId, secret, s.now))
    case Tick(elapsed) => s.(now := s.now + elapsed)
  }

  function Run(env: Env, s: State, events: seq<Event>): State
    decreases |events|
  {
    if events == [] then s else Run(env, Step(env, s, events[0]), events[1..])
  }

  /** The expiry claim is a JSON number, or a Boolean, which counts as one. */
  predicate HasNumericExpiry(claims: Claims) {
    "exp" in claims && (claims["exp"].Number? || claims["exp"].Bool?)
  }

  /** All three gates refuse the token, however it is presented. */
  ghost predicate RefusedEverywhere(env: Env, s: State, token: string) {
    && (forall p: Presentation :: p.token == token ==>
          ProtectedResource(env, s.denylist, p, s.now).Failure? && UserInfo(env, s.denylist, p, s.now).Failure?)
    && (forall clientId, secret :: !Introspect(env, s.denylist, token, clientId, secret, s.now).Active?)
  }

  lemma RefusedWhen(env: Env, s: State, token: string)
    requires Sound(env)
    ensures Validated(env, token, s.now) == None || env.hash(token) in s.denylist ==> RefusedEverywhere(env, s, token)
  {
  }

  /** A revoked token is on the denylist until its own expiry. */
  ghost predicate Held(env: Env, s: State, token: string, expiresAt: int) {
    expiresAt <= s.now || (env.hash(token) in s.denylist && s.denylist[env.hash(token)] == expiresAt)
  }

  lemma {:induction false} RunHolds(env: Env, s: State, events: seq<Event>, token: string, claims: Claims, expiresAt: int)
    requires Sound(env) && env.signed(token) == Some(claims) && Expiry(claims) == Some(expiresAt)
    requires Held(env, s, token, expiresAt)
    ensures Held(env, Run(env, s, events), token, expiresAt)
    decreases |events|
  {
    if events != [] {
      assert Held(env, Step(env, s, events[0]), token, expiresAt);
      RunHolds(env, Step(env, s, events[0]), events[1..], token, claims, expiresAt);
    }
  }

  /**
    Revocation is final: a live token with a numeric expiry, revoked once, is
    refused by all gates at every later instant, whatever revocations and
    purges come after.
  */
  lemma RevokedIsRefusedForever(env: Env, s: State, token: string, clientId: string, secret: string, later: seq<Event>)
    requires Sound(env) && token != "" && env.authenticated(clientId, secret)
    requires IsLive(env, token, s.now) && HasNumericExpiry(env.signed(token).value)
    ensures RefusedEverywhere(env, Run(env, s, [Revoke(token, clientId, secret)] + later), token)
  {
    var events := [Revoke(token, clientId, secret)] + later;
    var claims := env.signed(token).value;
    var expiresAt := Expiry(claims).value;
    assert events[1..] == later;
    assert Held(env, Step(env, s, events[0]), token, expiresAt);
    RunHolds(env, Step(env, s, events[0]), later, token, claims, expiresAt);
    RefusedWhen(env, Run(env, s, events), token);
  }

  /**
    The exact scope of that law: right after its revocation a live token is
    refused if and only if its `exp` claim is a number. Without one the
    revocation reports success and changes nothing for the token.
  */
  lemma RevocationTakesEffectIff(env: Env, s: State, token: string, clientId: string, secret: string)
    requires Sound(env) && token != "" && env.authenticated(clientId, secret)
    requires IsLive(env, token, s.now) && env.hash(token) !in s.denylist
    ensures RefusedEverywhere(env, Step(env, s, Revoke(token, clientId, secret)), token)
      <==> HasNumericExpiry(env.signed(token).value)
  {
    var after := Step(env, s, Revoke(token, clientId, secret));
    RefusedWhen(env, after, token);
    if !HasNumericExpiry(env.signed(token).value) {
      assert Introspect(env, after.denylist, token, clientId, secret, after.now).Active?;
    }
  }

  const USER_INFO_JWT := "userinfo.jwt"

  /** A server that has signed one user info response: it names its issuer, audience, issue time and subject, and no expiry. */
  function UserInfoServer(): Env {
    Env((token: string) =>
          if token == USER_INFO_JWT
          then Some(map["iss" := Str("https://op"), "aud" := Str("c"), "iat" := Number(0.0), "sub" := Str("u")])
          else None,
        (token: string) => token,
        (v: Value) => if v.Number? || v.Bool? then Some(IntOf(v)) else None,
        (clientId: string, secret: string) => true,
        (token: string) => token,
        None)
  }

  /** Presented as an access token, that response passes all three gates, and revoking it changes nothing. */
  lemma UserInfoResponseSurvivesRevocation(now: int)
    ensures var env, s := UserInfoServer(), State(map[], now);
      var after := Step(env, s, Revoke(USER_INFO_JWT, "c", "secret"));
      var p := Presentation(USER_INFO_JWT, None, "bearer", "", "", "");
      && Sound(env) && after == s
      && ProtectedResource(env, after.denylist, p, now).Success? && UserInfo(env, after.denylist, p, now) == Success(Str("u"))
      && Introspect(env, after.denylist, USER_INFO_JWT, "c", "secret", now).Active?
  {
    hide Selected;
    var claims := UserInfoServer().signed(USER_INFO_JWT).value;
    assert "cnf" !in claims && "exp" !in claims && "sub" in claims;
    assert Purged(map[], now) == map[];
  }
}
