/**
  Entity statements and trust chains (OpenID Federation 1.1, sections 3, 4 and
  6.1): what parsing guarantees, and how the metadata policies of a chain settle
  the metadata of its subject.
*/
module EntityStatements {
  import opened Wrappers
  import opened PythonText
  import Json

  /** A JWK Set, compared only for identity. */
  type Jwks = string

  datatype Audience = NoAudience | One(value: string) | Many(values: seq<string>)

  /** Parameters by entity type. */
  type Metadata = map<string, map<string, Json.Value>>

  /** The two operators of a metadata policy that are applied; the others are accepted and ignored. */
  datatype Constraint = Constraint(value: Option<Json.Value>, default: Option<Json.Value>)

  type Policy = map<string, map<string, Constraint>>

  /**
    The claims of an entity statement. An absent or non-textual `iss` or `sub`
    is the empty string; `hints` is absent when the claim is not a list;
    `wellFormed` stands for the typing rules not written out here.
  */
  datatype Claims = Claims(
    iss: string, sub: string, iat: real, exp: real, jwks: Option<Jwks>, aud: Audience,
    hints: Option<seq<string>>, metadata: Metadata, policy: Policy, wellFormed: bool)

  datatype EntityStatement = EntityStatement(
    issuer: string, subject: string, expiresAt: real, jwks: Jwks,
    authorityHints: seq<string>, metadata: Metadata, policy: Policy)
  {
    predicate IsSelfSigned() { issuer == subject }
  }

  datatype TrustChain = TrustChain(statements: seq<EntityStatement>, tokens: seq<string>)

  const STANDARD_ENTITY_TYPES := [
    "federation_entity", "openid_relying_party", "openid_provider",
    "oauth_authorization_server", "oauth_client", "oauth_resource"]

  // ---- parsing -------------------------------------------------------------------

  const HTTPS := "https://"

  /**
    The pattern of Entity Identifiers: `https`, a host, then possibly a path or
    a query, with no white space and no fragment. Its `$` also matches before
    one final line feed.
  */
  predicate IsEntityIdentifier(s: string)
    ensures IsEntityIdentifier(s) ==> s != ""
  {
    var line := DropFinalLineFeed(s);
    HTTPS <= line && exists host :: 0 < host <= |line| - |HTTPS| && HasHost(line[|HTTPS|..], host)
  }

  function DropFinalLineFeed(s: string): string {
    if s != "" && s[|s| - 1] == '\n' then s[..|s| - 1] else s
  }

  /** The first `host` characters name a host, and the rest is empty, a path or a query. */
  predicate HasHost(rest: string, host: nat)
    requires host <= |rest|
  {
    && (forall i :: 0 <= i < host ==> !IsSpace(rest[i]) && rest[i] !in "/?#")
    && (host < |rest| ==> rest[host] in "/?")
    && (forall i :: host < i < |rest| ==> !IsSpace(rest[i]) && rest[i] !in "?#")
  }

  function FirstDelimiter(rest: string): (i: nat)
    ensures i <= |rest| && (i < |rest| ==> rest[i] in "/?")
    ensures forall k :: 0 <= k < i ==> rest[k] !in "/?"
  {
    if rest == "" || rest[0] in "/?" then 0 else 1 + FirstDelimiter(rest[1..])
  }

  /**
    Which one-line texts are identifiers: those under `https` with a host, no
    white space, no `#`, and no `?` after a `/` or another `?`.
  */
  lemma IdentifierIff(s: string)
    requires s == "" || s[|s| - 1] != '\n'
    ensures IsEntityIdentifier(s) <==>
      && HTTPS <= s
      && var rest := s[|HTTPS|..];
         && rest != "" && rest[0] !in "/?"
         && (forall c :: c in rest ==> !IsSpace(c) && c != '#')
         && (forall i, j :: 0 <= i < j < |rest| && rest[j] == '?' ==> rest[i] !in "/?")
  {
    if HTTPS <= s {
      var rest := s[|HTTPS|..];
      HostIff(rest);
      assert DropFinalLineFeed(s) == s;
    }
  }

  /** One final line feed changes nothing. */
  lemma FinalLineFeed(s: string)
    requires s == "" || s[|s| - 1] != '\n'
    ensures IsEntityIdentifier(s + "\n") <==> IsEntityIdentifier(s)
  {
    hide HasHost;
    assert (s + "\n")[..|s|] == s;
    assert DropFinalLineFeed(s + "\n") == s == DropFinalLineFeed(s);
  }

  lemma HostIff(rest: string)
    ensures (exists host :: 0 < host <= |rest| && HasHost(rest, host)) <==>
      && rest != "" && rest[0] !in "/?"
      && (forall c :: c in rest ==> !IsSpace(c) && c != '#')
      && (forall i, j :: 0 <= i < j < |rest| && rest[j] == '?' ==> rest[i] !in "/?")
  {
    hide IsSpace;
    DelimitersAreNoSpaces();
    forall host | 0 < host <= |rest| && HasHost(rest, host)
      ensures rest[0] !in "/?"
      ensures forall c :: c in rest ==> !IsSpace(c) && c != '#'
      ensures forall i, j :: 0 <= i < j < |rest| && rest[j] == '?' ==> rest[i] !in "/?"
    {
      assert rest[0] !in "/?#";
      forall i | 0 <= i < |rest| ensures !IsSpace(rest[i]) && rest[i] != '#' {
        if i == host {
          assert rest[i] in "/?";
        } else if i < host {
          assert rest[i] !in "/?#";
        } else {
          assert rest[i] !in "?#";
        }
      }
      forall i, j | 0 <= i < j < |rest| && rest[j] == '?' ensures rest[i] !in "/?" {
        assert i < host && rest[i] !in "/?#";
      }
    }
    var host := FirstDelimiter(rest);
    if rest != "" && rest[0] !in "/?" && (forall c :: c in rest ==> !IsSpace(c) && c != '#')
       && (forall i, j :: 0 <= i < j < |rest| && rest[j] == '?' ==> rest[i] !in "/?") {
      forall i | 0 <= i < host ensures !IsSpace(rest[i]) && rest[i] !in "/?#" {
        assert rest[i] in rest && rest[i] !in "/?";
      }
      forall i | host < i < |rest| ensures !IsSpace(rest[i]) && rest[i] !in "?#" {
        assert rest[i] in rest;
      }
      assert HasHost(rest, host);
    }
  }

  lemma DelimitersAreNoSpaces()
    ensures forall c :: c in "/?#" ==> !IsSpace(c)
    ensures forall c :: c in "/?" ==> c in "/?#" && c != '#'
  {
  }

  function HintsIn(c: Claims): seq<string> {
    if c.hints.Some? then c.hints.value else []
  }

  /** `parse_entity_statement`; `None` stands for its exception. */
  function Parse(c: Claims): (r: Option<EntityStatement>)
    ensures r.Some? ==> WellFormed(r.value)
  {
    var hints := HintsIn(c);
    if IsEntityIdentifier(c.iss) && IsEntityIdentifier(c.sub) && c.exp > c.iat && c.jwks.Some? && c.wellFormed
       && (forall t :: t in c.metadata ==> t in STANDARD_ENTITY_TYPES)
       && (forall h :: h in hints ==> IsEntityIdentifier(h))
    then Some(EntityStatement(c.iss, c.sub, c.exp, c.jwks.value, hints, c.metadata, c.policy))
    else None
  }

  /** What parsing guarantees about every statement. */
  predicate WellFormed(s: EntityStatement) {
    && IsEntityIdentifier(s.issuer) && IsEntityIdentifier(s.subject)
    && (forall h :: h in s.authorityHints ==> IsEntityIdentifier(h))
    && (forall t :: t in s.metadata ==> t in STANDARD_ENTITY_TYPES)
  }

  /** The statement says what the claims say, field by field. */
  ghost predicate Says(c: Claims, s: EntityStatement) {
    && s.issuer == c.iss && s.subject == c.sub && s.expiresAt == c.exp
    && c.jwks == Some(s.jwks)
    && s.authorityHints == (if c.hints == None then [] else c.hints.value)
    && s.metadata == c.metadata && s.policy == c.policy
  }

  /** Claims that name two identifiers, expire after their issue, carry keys, and hold only identifiers and standard types. */
  ghost predicate Parseable(c: Claims) {
    && IsEntityIdentifier(c.iss) && IsEntityIdentifier(c.sub)
    && c.iat < c.exp && c.jwks != None && c.wellFormed
    && c.metadata.Keys <= (set t | t in STANDARD_ENTITY_TYPES)
    && (c.hints.Some? ==> forall h :: h in c.hints.value ==> IsEntityIdentifier(h))
  }

  /** Exactly the parseable claims give a statement, and it says exactly what they say. */
  lemma ParsesIff(c: Claims, s: EntityStatement)
    ensures Parse(c) == Some(s) <==> Parseable(c) && Says(c, s)
    ensures Parse(c) == None <==> !Parseable(c)
  {
    hide IsEntityIdentifier, STANDARD_ENTITY_TYPES;
    var types := set t | t in STANDARD_ENTITY_TYPES;
    assert forall t :: t in types <==> t in STANDARD_ENTITY_TYPES;
    assert c.metadata.Keys <= types <==> forall t :: t in c.metadata ==> t in STANDARD_ENTITY_TYPES;
  }

  lemma IdentifiersAreNotEmpty(s: EntityStatement)
    requires WellFormed(s)
    ensures s.issuer != "" && s.subject != "" && "" !in s.authorityHints
  {
    assert !IsEntityIdentifier("");
  }

  // ---- metadata policies -----------------------------------------------------------

  function Current(values: map<string, Json.Value>, parameter: string): Option<Json.Value> {
    if parameter in values then Some(values[parameter]) else None
  }

  /** `_apply_policy_operator`; a null result leaves the parameter as it is. */
  function ApplyOperator(c: Constraint, current: Option<Json.Value>): Option<Json.Value> {
    var settled :=
      if c.value.Some? then c.value
      else if c.default.Some? then if current.Some? then current else c.default
      else None;
    if settled == Some(Json.Null) then None else settled
  }

  function AppliedTo(operators: map<string, Constraint>, values: map<string, Json.Value>): map<string, Json.Value> {
    values
    + map p | p in operators && ApplyOperator(operators[p], Current(values, p)).Some?
        :: ApplyOperator(operators[p], Current(values, p)).value
  }

  /** `_apply_metadata_policy` */
  function Applied(policy: Policy, metadata: Metadata): Metadata {
    map t | t in metadata :: if t in policy then AppliedTo(policy[t], metadata[t]) else metadata[t]
  }

  /** The policies of the statements, one after the other. */
  function AppliedAll(statements: seq<EntityStatement>, metadata: Metadata): Metadata
    decreases |statements|
  {
    if statements == [] then metadata
    else AppliedAll(statements[1..], Applied(statements[0].policy, metadata))
  }

  /** `TrustChain.resolved_metadata` */
  function ResolvedMetadata(chain: TrustChain): Metadata
    requires chain.statements != []
  {
    AppliedAll(chain.statements[1..], chain.statements[0].metadata)
  }

  function Policies(statements: seq<EntityStatement>): (r: seq<Policy>)
    ensures |r| == |statements| && forall i :: 0 <= i < |r| ==> r[i] == statements[i].policy
  {
    seq(|statements|, i requires 0 <= i < |statements| => statements[i].policy)
  }

  function ConstraintOn(policy: Policy, entityType: string, parameter: string): Constraint {
    if entityType in policy && parameter in policy[entityType]
    then policy[entityType][parameter] else Constraint(None, None)
  }

  function NotNull(v: Option<Json.Value>): Option<Json.Value> {
    if v == Some(Json.Null) then None else v
  }

  /** The value imposed nearest the anchor, if any is. */
  function LastImposed(policies: seq<Policy>, entityType: string, parameter: string): Option<Json.Value> {
    if policies == [] then None
    else
      var later := LastImposed(policies[1..], entityType, parameter);
      if later.Some? then later else NotNull(ConstraintOn(policies[0], entityType, parameter).value)
  }

  /** The default suggested nearest the subject without a value being imposed by the same policy, if any is. */
  function FirstSuggested(policies: seq<Policy>, entityType: string, parameter: string): Option<Json.Value> {
    if policies == [] then None
    else
      var c := ConstraintOn(policies[0], entityType, parameter);
      if c.value.None? && NotNull(c.default).Some? then c.default
      else FirstSuggested(policies[1..], entityType, parameter)
  }

  /** What policies settle of a parameter that the subject declares or not. */
  function Settled(policies: seq<Policy>, declared: Option<Json.Value>, entityType: string, parameter: string)
    : Option<Json.Value>
  {
    var imposed := LastImposed(policies, entityType, parameter);
    if imposed.Some? then imposed
    else if declared.Some? then declared
    else FirstSuggested(policies, entityType, parameter)
  }

  /**
    What a chain settles, parameter by parameter: the value imposed nearest the
    anchor, or else what the subject declares, or else the default suggested
    nearest the subject. No policy adds or removes an entity type.
  */
  lemma {:induction false} PolicyMeaning(statements: seq<EntityStatement>, metadata: Metadata,
                                         entityType: string, parameter: string)
    ensures var r := AppliedAll(statements, metadata);
      && r.Keys == metadata.Keys
      && (entityType in metadata ==>
            Current(r[entityType], parameter)
            == Settled(Policies(statements), Current(metadata[entityType], parameter), entityType, parameter))
    decreases |statements|
  {
    if statements != [] {
      assert Policies(statements)[1..] == Policies(statements[1..]);
      PolicyMeaning(statements[1..], Applied(statements[0].policy, metadata), entityType, parameter);
    }
  }

  // ---- the client of a relying party --------------------------------------------------

  const RELYING_PARTY := "openid_relying_party"

  /** `_client_keys`: the number of inline keys, and the reference used when there is no inline set. */
  function ClientKeys(values: map<string, Json.Value>): (nat, string) {
    if "jwks" in values && values["jwks"].Obj?
       && "keys" in values["jwks"].members && values["jwks"].members["keys"].Arr?
    then (|values["jwks"].members["keys"].items|, "")
    else if "jwks_uri" in values && values["jwks_uri"].Str? then (0, values["jwks_uri"].s)
    else (0, "")
  }

  /** `derive_client` finds a client: it has redirections and keys. */
  predicate DerivesClient(resolved: Metadata) {
    RELYING_PARTY in resolved &&
    var values := resolved[RELYING_PARTY];
    && "redirect_uris" in values && values["redirect_uris"].Arr? && values["redirect_uris"].items != []
    && ClientKeys(values) != (0, "")
  }

  /** The metadata registered for a client: those resolved, under its own identifier and authentication method. */
  function RegisteredMetadata(resolved: Metadata, subject: string): map<string, Json.Value> {
    (if RELYING_PARTY in resolved then resolved[RELYING_PARTY] else map[])
      ["client_id" := Json.Str(subject)]["token_endpoint_auth_method" := Json.Str("private_key_jwt")]
  }

  /** A client is found exactly when there are redirections, and inline keys or, without an inline set, their address. */
  lemma DerivesClientIff(resolved: Metadata)
    ensures DerivesClient(resolved) <==>
      RELYING_PARTY in resolved &&
      var values := resolved[RELYING_PARTY];
      && (exists uris :: uris != [] && Current(values, "redirect_uris") == Some(Json.Arr(uris)))
      && ((exists keys :: keys != [] && InlineKeys(values, keys))
          || ((forall keys :: !InlineKeys(values, keys))
              && exists uri :: uri != "" && Current(values, "jwks_uri") == Some(Json.Str(uri))))
  {
    if RELYING_PARTY in resolved {
      var values := resolved[RELYING_PARTY];
      if "redirect_uris" in values && values["redirect_uris"].Arr? {
        assert Current(values, "redirect_uris") == Some(Json.Arr(values["redirect_uris"].items));
      }
      if "jwks" in values && values["jwks"].Obj?
         && "keys" in values["jwks"].members && values["jwks"].members["keys"].Arr? {
        assert InlineKeys(values, values["jwks"].members["keys"].items);
      } else if "jwks_uri" in values && values["jwks_uri"].Str? {
        assert Current(values, "jwks_uri") == Some(Json.Str(values["jwks_uri"].s));
      }
    }
  }

  /** The metadata hold a JWK Set with these keys. */
  predicate InlineKeys(values: map<string, Json.Value>, keys: seq<Json.Value>) {
    && "jwks" in values && values["jwks"].Obj?
    && "keys" in values["jwks"].members && values["jwks"].members["keys"] == Json.Arr(keys)
  }

  /**
    What is registered of a client, parameter by parameter: its own identifier,
    the one authentication method of federated clients, and otherwise what the
    policies of the chain settle of what it declares. Only an applicant that
    declares itself a relying party is registered.
  */
  lemma RegisteredMeaning(chain: TrustChain, subject: string, parameter: string)
    requires chain.statements != [] && DerivesClient(ResolvedMetadata(chain))
    ensures RELYING_PARTY in chain.statements[0].metadata
    ensures Current(RegisteredMetadata(ResolvedMetadata(chain), subject), parameter)
      == if parameter == "client_id" then Some(Json.Str(subject))
         else if parameter == "token_endpoint_auth_method" then Some(Json.Str("private_key_jwt"))
         else Settled(Policies(chain.statements[1..]), Current(chain.statements[0].metadata[RELYING_PARTY], parameter),
                      RELYING_PARTY, parameter)
  {
    hide AppliedAll, ClientKeys, LastImposed, FirstSuggested, Settled;
    PolicyMeaning(chain.statements[1..], chain.statements[0].metadata, RELYING_PARTY, parameter);
  }
}
