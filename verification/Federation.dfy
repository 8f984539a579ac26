/**
  Trust-chain resolution (OpenID Federation 1.1, sections 10.1, 10.2, 10.4 and
  12.2). Network and cryptography are oracles: `fetch` gives the answer to the
  n-th request, so a server may answer differently each time it is asked.
*/
module Federation {
  import opened Wrappers
  import opened PythonText
  import opened EntityStatements
  import Json

  datatype Env = Env(
    entityIdentifier: string,
    trustAnchors: seq<string>,
    now: int,
    fetch: (nat, string) -> Option<string>,
    unverified: string -> Option<Claims>,
    verify: (string, Jwks, string, string) -> Option<Claims>)

  /**
    What the port promises: verified claims are those the token itself carries,
    match the issuer and subject asked for, and are not expired.
  */
  ghost predicate SoundVerifier(env: Env) {
    forall token, jwks, issuer, subject ::
      var c := env.verify(token, jwks, issuer, subject);
      c.Some? ==>
        && env.unverified(token) == c
        && (issuer != "" ==> c.value.iss == issuer)
        && (subject != "" ==> c.value.sub == subject)
        && c.value.exp > env.now as real >= 0.0
  }

  const CONFIGURATION_PATH := "/.well-known/openid-federation"

  // ---- one request at a time ---------------------------------------------------

  /** `statement` is what `token` says of `id` under the keys it carries itself. */
  predicate IsConfigurationOf(env: Env, statement: EntityStatement, token: string, id: string) {
    match env.unverified(token)
    case None => false
    case Some(u) =>
      u.jwks.Some? &&
      match env.verify(token, u.jwks.value, id, id)
      case None => false
      case Some(c) => Parse(c) == Some(statement)
  }

  /** `_fetch_configuration`, asked as the n-th request. */
  function FetchConfiguration(env: Env, n: nat, id: string): (r: Option<(EntityStatement, string)>)
    ensures r.Some? ==> IsConfigurationOf(env, r.value.0, r.value.1, id)
  {
    match env.fetch(n, DropTrailingSlashes(id) + CONFIGURATION_PATH)
    case None => None
    case Some(token) =>
      match env.unverified(token)
      case None => None
      case Some(u) =>
        if u.jwks.None? then None
        else
          match env.verify(token, u.jwks.value, id, id)
          case None => None
          case Some(c) =>
            match Parse(c)
            case None => None
            case Some(statement) => Some((statement, token))
  }

  /** `statement` is what `token` says of `subject` under the keys of `superior`. */
  predicate Attests(env: Env, superior: EntityStatement, subject: string, statement: EntityStatement, token: string) {
    match env.verify(token, superior.jwks, superior.issuer, subject)
    case None => false
    case Some(c) => Parse(c) == Some(statement)
  }

  function SubordinateUrl(superior: EntityStatement, subject: string): string {
    var endpoint := FetchEndpoint(superior);
    endpoint + (if '?' in endpoint then "&" else "?") + "sub=" + subject
  }

  /** `_federation_endpoint` for `federation_fetch_endpoint`, empty when it is absent or not a string. */
  function FetchEndpoint(statement: EntityStatement): string {
    if "federation_entity" in statement.metadata
    then Json.StringClaim(statement.metadata["federation_entity"], "federation_fetch_endpoint") else ""
  }

  /** `_fetch_subordinate_statement`: the answer and the number of the next request. */
  function FetchSubordinate(env: Env, n: nat, superior: EntityStatement, subject: string)
    : (r: (Option<(EntityStatement, string)>, nat))
    ensures r.0.Some? ==> Attests(env, superior, subject, r.0.value.0, r.0.value.1)
  {
    if FetchEndpoint(superior) == "" then (None, n)
    else
      match env.fetch(n, SubordinateUrl(superior, subject))
      case None => (None, n + 1)
      case Some(token) =>
        match env.verify(token, superior.jwks, superior.issuer, subject)
        case None => (None, n + 1)
        case Some(c) =>
          match Parse(c)
          case None => (None, n + 1)
          case Some(statement) => (Some((statement, token)), n + 1)
  }

  /** A configuration is obtained exactly when the address served a token that is one. */
  lemma FetchedConfigurationIff(env: Env, n: nat, id: string, statement: EntityStatement, token: string)
    ensures FetchConfiguration(env, n, id) == Some((statement, token))
      <==> env.fetch(n, DropTrailingSlashes(id) + "/.well-known/openid-federation") == Some(token)
           && IsConfigurationOf(env, statement, token, id)
  {
    hide Parse, DropTrailingSlashes;
  }

  /** A subordinate statement is obtained exactly when there is an endpoint and it served a token that attests the subject. */
  lemma FetchedSubordinateIff(env: Env, n: nat, superior: EntityStatement, subject: string,
                              statement: EntityStatement, token: string)
    ensures var endpoint := FetchEndpoint(superior);
      var url := if '?' in endpoint then endpoint + "&sub=" + subject else endpoint + "?sub=" + subject;
      FetchSubordinate(env, n, superior, subject).0 == Some((statement, token))
      <==> endpoint != "" && env.fetch(n, url) == Some(token) && Attests(env, superior, subject, statement, token)
    ensures FetchSubordinate(env, n, superior, subject).1 == if FetchEndpoint(superior) == "" then n else n + 1
  {
    hide Parse, FetchEndpoint;
    var endpoint := FetchEndpoint(superior);
    assert endpoint + "&" + "sub=" + subject == endpoint + "&sub=" + subject;
    assert endpoint + "?" + "sub=" + subject == endpoint + "?sub=" + subject;
  }

  /** The statement says what the token claims, field by field. */
  ghost predicate SaidBy(env: Env, token: string, statement: EntityStatement) {
    env.unverified(token).Some? && Says(env.unverified(token).value, statement)
  }

  /** Whatever is obtained is what its token claims. */
  lemma ObtainedIsSaid(env: Env, superior: EntityStatement, subject: string, statement: EntityStatement, token: string)
    requires SoundVerifier(env)
    requires IsConfigurationOf(env, statement, token, subject) || Attests(env, superior, subject, statement, token)
    ensures SaidBy(env, token, statement)
  {
    hide Parse, Says;
    var u := env.unverified(token);
    if IsConfigurationOf(env, statement, token, subject) {
      ParsesIff(env.verify(token, u.value.jwks.value, subject, subject).value, statement);
    } else {
      ParsesIff(env.verify(token, superior.jwks, superior.issuer, subject).value, statement);
    }
  }

  /** A configuration is self-signed by the entity asked for, well formed and not expired. */
  lemma ConfigurationFacts(env: Env, statement: EntityStatement, token: string, id: string)
    requires SoundVerifier(env) && id != ""
    requires IsConfigurationOf(env, statement, token, id)
    ensures statement.issuer == statement.subject == id && WellFormed(statement)
    ensures statement.expiresAt > env.now as real >= 0.0
  {
  }

  /** A subordinate statement is issued by the superior about the subject, and not expired. */
  lemma AttestationFacts(env: Env, superior: EntityStatement, subject: string, statement: EntityStatement, token: string)
    requires SoundVerifier(env) && superior.issuer != "" && subject != ""
    requires Attests(env, superior, subject, statement, token)
    ensures statement.issuer == superior.issuer && statement.subject == subject
    ensures statement.expiresAt > env.now as real >= 0.0
  {
  }

  /** A stable fetcher makes the number of a request irrelevant. */
  lemma StableRequests(env: Env, n: nat, id: string, superior: EntityStatement, subject: string)
    requires Stable(env)
    ensures FetchConfiguration(env, n, id) == FetchConfiguration(env, 0, id)
    ensures FetchSubordinate(env, n, superior, subject).0 == FetchSubordinate(env, 0, superior, subject).0
  {
  }

  datatype Found = Nobody(next: nat) | Superior(hint: string, statement: EntityStatement, token: string, next: nat)

  /** The first hint not seen yet whose configuration can be fetched. */
  function FirstSuperior(env: Env, hints: seq<string>, seen: set<string>, n: nat): (r: Found)
    ensures r.Superior? ==>
      r.hint in hints && r.hint !in seen && IsConfigurationOf(env, r.statement, r.token, r.hint)
      && exists k: nat :: FetchConfiguration(env, k, r.hint).Some?
  {
    if hints == [] then Nobody(n)
    else if hints[0] in seen then FirstSuperior(env, hints[1..], seen, n)
    else
      match FetchConfiguration(env, n, hints[0])
      case Some((statement, token)) => Superior(hints[0], statement, token, n + 1)
      case None => FirstSuperior(env, hints[1..], seen, n + 1)
  }

  /** `_next_superior` */
  method NextSuperior(env: Env, statement: EntityStatement, seen: set<string>, n: nat)
    returns (superior: Option<EntityStatement>, seen': set<string>, next: nat)
    ensures match FirstSuperior(env, statement.authorityHints, seen, n)
      case Nobody(m) => superior == None && seen' == seen && next == m
      case Superior(hint, found, _, m) => superior == Some(found) && seen' == seen + {hint} && next == m
  {
    var hints := statement.authorityHints;
    next := n;
    assert hints[0..] == hints;
    for i := 0 to |hints|
      invariant FirstSuperior(env, hints[i..], seen, next) == FirstSuperior(env, hints, seen, n)
    {
      var hint := hints[i];
      assert hints[i..][1..] == hints[i + 1..];
      if hint in seen {
        continue;
      }
      var fetched := FetchConfiguration(env, next, hint);
      next := next + 1;
      if fetched.Some? {
        return Some(fetched.value.0), seen + {hint}, next;
      }
    }
    return None, seen, next;
  }

  /** `_is_trust_anchor` */
  predicate IsTrustAnchor(env: Env, statement: EntityStatement, trustAnchor: string) {
    statement.IsSelfSigned() &&
    if trustAnchor != "" then statement.issuer == trustAnchor
    else statement.issuer in env.trustAnchors || statement.authorityHints == []
  }

  /**
    Which configurations end a climb: the one of the anchor asked for, or else
    those of the trust anchors of the server and of entities without superior.
  */
  lemma AnchorIff(env: Env, statement: EntityStatement, anchor: string)
    requires statement.issuer == statement.subject != ""
    ensures anchor != "" ==> (IsTrustAnchor(env, statement, anchor) <==> statement.subject == anchor)
    ensures anchor == "" ==>
      (IsTrustAnchor(env, statement, anchor) <==> statement.subject in env.trustAnchors || |statement.authorityHints| == 0)
    ensures !IsTrustAnchor(env, statement.(subject := ""), anchor)
  {
  }

  // ---- the climb -----------------------------------------------------------------

  /** One superior visited, and what it says of the subject. */
  datatype Hop = Hop(superior: EntityStatement, superiorToken: string, subordinate: EntityStatement, token: string)

  datatype Climbed = Stuck(next: nat) | Reached(hops: seq<Hop>, next: nat)

  /** Only identifiers of `universe` ever have a configuration to fetch. */
  ghost predicate Finite(env: Env, universe: set<string>) {
    forall n: nat, id :: FetchConfiguration(env, n, id).Some? ==> id in universe
  }

  /** The whole climb from `current`; every visited superior leaves the identifiers still to see. */
  ghost function Climb(env: Env, anchor: string, current: EntityStatement, subject: string,
                       seen: set<string>, n: nat, universe: set<string>): Climbed
    requires Finite(env, universe)
    decreases |universe - seen|
  {
    if IsTrustAnchor(env, current, anchor) then Reached([], n)
    else
      match FirstSuperior(env, current.authorityHints, seen, n)
      case Nobody(m) => Stuck(m)
      case Superior(hint, superior, superiorToken, m) =>
        match FetchSubordinate(env, m, superior, subject)
        case (None, k) => Stuck(k)
        case (Some((subordinate, token)), k) =>
          SeenGrows(universe, seen, hint);
          After([Hop(superior, superiorToken, subordinate, token)],
                Climb(env, anchor, superior, subject, seen + {hint}, k, universe))
  }

  /** One turn of the climb. */
  lemma ClimbStep(env: Env, anchor: string, current: EntityStatement, subject: string,
                  seen: set<string>, n: nat, universe: set<string>)
    requires Finite(env, universe)
    ensures var c := Climb(env, anchor, current, subject, seen, n, universe);
      if IsTrustAnchor(env, current, anchor) then c == Reached([], n)
      else match FirstSuperior(env, current.authorityHints, seen, n)
        case Nobody(m) => c == Stuck(m)
        case Superior(hint, superior, superiorToken, m) =>
          && |universe - (seen + {hint})| < |universe - seen|
          && var (sub, k) := FetchSubordinate(env, m, superior, subject);
            c == if sub == None then Stuck(k)
                 else After([Hop(superior, superiorToken, sub.value.0, sub.value.1)],
                            Climb(env, anchor, superior, subject, seen + {hint}, k, universe))
  {
    var found := FirstSuperior(env, current.authorityHints, seen, n);
    if found.Superior? {
      SeenGrows(universe, seen, found.hint);
    }
  }

  lemma SeenGrows(universe: set<string>, seen: set<string>, hint: string)
    requires hint in universe && hint !in seen
    ensures |universe - (seen + {hint})| < |universe - seen|
  {
    assert universe - (seen + {hint}) == (universe - seen) - {hint};
  }

  /** The outcome of a climb whose first superiors are `hops`. */
  function After(hops: seq<Hop>, rest: Climbed): Climbed {
    if rest.Reached? then Reached(hops + rest.hops, rest.next) else rest
  }

  lemma AfterNothing(hops: seq<Hop>, rest: Climbed)
    ensures After([], rest) == rest
    ensures rest.Stuck? ==> After(hops, rest) == rest
    ensures After(hops, Reached([], rest.next)) == Reached(hops, rest.next)
  {
    if rest.Reached? {
      assert [] + rest.hops == rest.hops;
    }
    assert hops + [] == hops;
  }

  lemma AfterAfter(hops: seq<Hop>, hop: Hop, rest: Climbed)
    ensures After(hops, After([hop], rest)) == After(hops + [hop], rest)
  {
    if rest.Reached? {
      assert (hops + [hop]) + rest.hops == hops + ([hop] + rest.hops);
    }
  }

  function Subordinates(hops: seq<Hop>): seq<EntityStatement> {
    seq(|hops|, i requires 0 <= i < |hops| => hops[i].subordinate)
  }

  function Tokens(hops: seq<Hop>): seq<string> {
    seq(|hops|, i requires 0 <= i < |hops| => hops[i].token)
  }

  lemma NoHops()
    ensures Subordinates([]) == [] && Tokens([]) == []
  {
  }

  lemma FirstSubordinate(hops: seq<Hop>)
    ensures |Subordinates(hops)| == |hops|
    ensures hops != [] ==> Subordinates(hops)[0] == hops[0].subordinate
  {
  }

  lemma AppendHop(hops: seq<Hop>, hop: Hop)
    ensures Subordinates(hops + [hop]) == Subordinates(hops) + [hop.subordinate]
    ensures Tokens(hops + [hop]) == Tokens(hops) + [hop.token]
  {
  }

  /** The entity configuration the climb stands on after `hops`. */
  function Top(statement: EntityStatement, hops: seq<Hop>): EntityStatement {
    if hops == [] then statement else hops[|hops| - 1].superior
  }

  function AnchorIdentifier(statement: EntityStatement, anchor: string, hops: seq<Hop>): string {
    if anchor != "" then anchor else Top(statement, hops).issuer
  }

  /** What `resolve_chain_from` returns, and the number of the next request. */
  ghost function ResolvedFrom(env: Env, statement: EntityStatement, anchor: string, token: string,
                              n: nat, universe: set<string>): (Option<TrustChain>, nat)
    requires Finite(env, universe)
  {
    match Climb(env, anchor, statement, statement.subject, {statement.subject}, n, universe)
    case Stuck(m) => (None, m)
    case Reached(hops, m) => Anchored(env, statement, anchor, token, hops, m)
  }

  /** The final checks: the anchor is trusted and reachable, and the first superior attests the keys of the subject. */
  function Anchored(env: Env, statement: EntityStatement, anchor: string, token: string, hops: seq<Hop>, n: nat)
    : (Option<TrustChain>, nat)
  {
    var anchorId := AnchorIdentifier(statement, anchor, hops);
    if env.trustAnchors != [] && anchorId !in env.trustAnchors then (None, n)
    else
      match FetchConfiguration(env, n, anchorId)
      case None => (None, n + 1)
      case Some((configuration, configurationToken)) =>
        if hops != [] && !SubjectKeysAttested(env, token, statement, hops[0].subordinate) then (None, n + 1)
        else (Some(ChainOf(statement, token, hops, configuration, configurationToken)), n + 1)
  }

  function ChainOf(statement: EntityStatement, token: string, hops: seq<Hop>,
                   configuration: EntityStatement, configurationToken: string): TrustChain
  {
    TrustChain([statement] + Subordinates(hops) + [configuration], [token] + Tokens(hops) + [configurationToken])
  }

  /** `_subject_attested_keys` */
  predicate SubjectKeysAttested(env: Env, token: string, statement: EntityStatement, subordinate: EntityStatement) {
    env.verify(token, subordinate.jwks, statement.issuer, statement.subject).Some?
  }

  lemma ResolvedByClimb(env: Env, statement: EntityStatement, anchor: string, token: string, n: nat, universe: set<string>)
    requires Finite(env, universe)
    ensures ResolvedFrom(env, statement, anchor, token, n, universe)
      == match Climb(env, anchor, statement, statement.subject, {statement.subject}, n, universe)
         case Stuck(m) => (None, m)
         case Reached(hops, m) => Anchored(env, statement, anchor, token, hops, m)
  {
    hide Climb, Anchored;
  }

  method ResolveChainFrom(env: Env, statement: EntityStatement, trustAnchor: string, statementToken: string,
                          n: nat, ghost universe: set<string>)
    returns (r: Option<TrustChain>, next: nat)
    requires Finite(env, universe)
    ensures (r, next) == ResolvedFrom(env, statement, trustAnchor, statementToken, n, universe)
  {
    hide Parse, IsConfigurationOf, Attests, FetchConfiguration, FetchSubordinate, FirstSuperior, Climb, Finite,
      Subordinates, Tokens, After, IsTrustAnchor, SubjectKeysAttested, SubordinateUrl, WellFormed, ResolvedFrom;
    ResolvedByClimb(env, statement, trustAnchor, statementToken, n, universe);
    var subject := statement.subject;
    var chain, tokens := [statement], [statementToken];
    var current := statement;
    var seen := {subject};
    next := n;
    ghost var hops: seq<Hop> := [];
    ghost var whole := Climb(env, trustAnchor, statement, subject, seen, n, universe);
    AfterNothing([], whole);
    NoHops();
    while !IsTrustAnchor(env, current, trustAnchor)
      invariant current == Top(statement, hops)
      invariant chain == [statement] + Subordinates(hops) && tokens == [statementToken] + Tokens(hops)
      invariant whole == After(hops, Climb(env, trustAnchor, current, subject, seen, next, universe))
      decreases |universe - seen|
    {
      ClimbStep(env, trustAnchor, current, subject, seen, next, universe);
      AfterNothing(hops, Climb(env, trustAnchor, current, subject, seen, next, universe));
      ghost var found := FirstSuperior(env, current.authorityHints, seen, next);
      var superior, seen', afterSuperior := NextSuperior(env, current, seen, next);
      next := afterSuperior;
      if superior == None {
        return None, next;
      }
      var (subordinate, afterSubordinate) := FetchSubordinate(env, next, superior.value, subject);
      next := afterSubordinate;
      if subordinate == None {
        return None, next;
      }
      ghost var hop := Hop(superior.value, found.token, subordinate.value.0, subordinate.value.1);
      AfterAfter(hops, hop, Climb(env, trustAnchor, superior.value, subject, seen', next, universe));
      AppendHop(hops, hop);
      chain := chain + [subordinate.value.0];
      tokens := tokens + [subordinate.value.1];
      hops := hops + [hop];
      current, seen := superior.value, seen';
    }
    ClimbStep(env, trustAnchor, current, subject, seen, next, universe);
    AfterNothing(hops, Climb(env, trustAnchor, current, subject, seen, next, universe));
    var anchorIdentifier := if trustAnchor != "" then trustAnchor else current.issuer;
    if env.trustAnchors != [] && anchorIdentifier !in env.trustAnchors {
      return None, next;
    }
    var fetched := FetchConfiguration(env, next, anchorIdentifier);
    next := next + 1;
    if fetched == None {
      return None, next;
    }
    FirstSubordinate(hops);
    if |chain| >= 2 && !SubjectKeysAttested(env, statementToken, chain[0], chain[1]) {
      return None, next;
    }
    return Some(TrustChain(chain + [fetched.value.0], tokens + [fetched.value.1])), next;
  }

  // ---- soundness -----------------------------------------------------------------

  /** The hints of the entity configuration just below the i-th superior. */
  function HintsBelow(from: EntityStatement, hops: seq<Hop>, i: nat): seq<string>
    requires i < |hops|
  {
    if i == 0 then from.authorityHints else hops[i - 1].superior.authorityHints
  }

  /** A superior named by the hints below it, self-signed, that attests the subject under its own keys. */
  predicate SoundHop(env: Env, subject: string, from: EntityStatement, hops: seq<Hop>, i: nat)
    requires i < |hops|
  {
    var hop := hops[i];
    && hop.superior.issuer in HintsBelow(from, hops, i)
    && hop.superior.IsSelfSigned() && WellFormed(hop.superior)
    && IsConfigurationOf(env, hop.superior, hop.superiorToken, hop.superior.issuer)
    && Attests(env, hop.superior, subject, hop.subordinate, hop.token)
    && hop.subordinate.issuer == hop.superior.issuer
    && hop.subordinate.subject == subject
  }

  ghost predicate SoundHops(env: Env, subject: string, from: EntityStatement, seen: set<string>, hops: seq<Hop>) {
    && (forall i :: 0 <= i < |hops| ==> SoundHop(env, subject, from, hops, i))
    && (forall i :: 0 <= i < |hops| ==> hops[i].superior.issuer !in seen)
    && (forall i, j :: 0 <= i < j < |hops| ==> hops[i].superior.issuer != hops[j].superior.issuer)
  }

  lemma SameHop(env: Env, subject: string, from: EntityStatement, hop: Hop, above: seq<Hop>, i: nat)
    requires i <= |above|
    requires if i == 0 then SoundHop(env, subject, from, [hop], 0) else SoundHop(env, subject, hop.superior, above, i - 1)
    ensures SoundHop(env, subject, from, [hop] + above, i)
  {
    hide IsConfigurationOf, Attests, WellFormed;
    if i > 0 {
      assert ([hop] + above)[i] == above[i - 1];
    }
  }

  /** A sound first superior below a sound climb. */
  lemma SoundHopBelow(env: Env, subject: string, from: EntityStatement, seen: set<string>, hop: Hop, above: seq<Hop>)
    requires SoundHop(env, subject, from, [hop], 0) && hop.superior.issuer !in seen
    requires SoundHops(env, subject, hop.superior, seen + {hop.superior.issuer}, above)
    ensures SoundHops(env, subject, from, seen, [hop] + above)
  {
    hide IsConfigurationOf, Attests, WellFormed, SoundHop;
    var hops := [hop] + above;
    forall i | 0 <= i < |hops|
      ensures SoundHop(env, subject, from, hops, i) && hops[i].superior.issuer !in seen
    {
      SameHop(env, subject, from, hop, above, i);
      if i > 0 {
        assert hops[i] == above[i - 1];
      }
    }
    forall i, j | 0 <= i < j < |hops| ensures hops[i].superior.issuer != hops[j].superior.issuer {
      assert hops[j] == above[j - 1];
      if i > 0 {
        assert hops[i] == above[i - 1];
      }
    }
  }

  lemma TopAbove(from: EntityStatement, hop: Hop, above: seq<Hop>)
    ensures Top(from, [hop] + above) == Top(hop.superior, above)
  {
  }

  lemma {:induction false} ClimbSound(env: Env, anchor: string, current: EntityStatement, subject: string,
                                      seen: set<string>, n: nat, universe: set<string>)
    requires Finite(env, universe) && SoundVerifier(env)
    requires WellFormed(current) && subject != ""
    ensures var c := Climb(env, anchor, current, subject, seen, n, universe);
      c.Reached? ==>
        && SoundHops(env, subject, current, seen, c.hops)
        && IsTrustAnchor(env, Top(current, c.hops), anchor)
        && |c.hops| <= |universe - seen|
    decreases |universe - seen|
  {
    hide Parse, IsConfigurationOf, Attests, FetchConfiguration, FetchSubordinate, Climb, SoundHops, Top, IsTrustAnchor;
    var c := Climb(env, anchor, current, subject, seen, n, universe);
    ClimbStep(env, anchor, current, subject, seen, n, universe);
    if c.Reached? {
      if IsTrustAnchor(env, current, anchor) {
        NothingClimbed(env, subject, current, seen);
      } else {
        var found := FirstSuperior(env, current.authorityHints, seen, n);
        var (sub, k) := FetchSubordinate(env, found.next, found.statement, subject);
        var hop := Hop(found.statement, found.token, sub.value.0, sub.value.1);
        ConfigurationFacts(env, found.statement, found.token, found.hint);
        AttestationFacts(env, found.statement, subject, hop.subordinate, hop.token);
        ClimbSound(env, anchor, found.statement, subject, seen + {found.hint}, k, universe);
        var above := Climb(env, anchor, found.statement, subject, seen + {found.hint}, k, universe).hops;
        SoundHopBelow(env, subject, current, seen, hop, above);
        TopAbove(current, hop, above);
      }
    }
  }

  lemma NothingClimbed(env: Env, subject: string, from: EntityStatement, seen: set<string>)
    ensures SoundHops(env, subject, from, seen, []) && Top(from, []) == from
  {
  }

  /** Everything a returned chain guarantees, given the superiors visited. */
  ghost predicate SoundChain(env: Env, statement: EntityStatement, anchor: string, token: string,
                             chain: TrustChain, hops: seq<Hop>)
  {
    var anchorId := AnchorIdentifier(statement, anchor, hops);
    var last := |hops| + 1;
    && |chain.statements| == |chain.tokens| == |hops| + 2
    && chain.statements[0] == statement && chain.tokens[0] == token
    && (forall i :: 0 <= i < |hops| ==>
          chain.statements[i + 1] == hops[i].subordinate && chain.tokens[i + 1] == hops[i].token)
    && SoundHops(env, statement.subject, statement, {statement.subject}, hops)
    && IsTrustAnchor(env, Top(statement, hops), anchor)
    && IsConfigurationOf(env, chain.statements[last], chain.tokens[last], anchorId)
    && chain.statements[last].issuer == chain.statements[last].subject == anchorId
    && (env.trustAnchors != [] ==> anchorId in env.trustAnchors)
    && (hops != [] ==>
          env.verify(token, chain.statements[1].jwks, statement.issuer, statement.subject).Some?)
  }

  /** Chain soundness, for any fetcher, and a bound on its length. */
  lemma ResolvedChainIsSound(env: Env, statement: EntityStatement, anchor: string, token: string,
                             n: nat, universe: set<string>) returns (hops: seq<Hop>)
    requires Finite(env, universe) && SoundVerifier(env) && WellFormed(statement)
    requires ResolvedFrom(env, statement, anchor, token, n, universe).0.Some?
    ensures var chain := ResolvedFrom(env, statement, anchor, token, n, universe).0.value;
      SoundChain(env, statement, anchor, token, chain, hops) && |chain.statements| <= |universe| + 2
  {
    hide Parse, IsConfigurationOf, Attests, FetchConfiguration, FetchSubordinate, Climb, SoundHops, Finite,
      IsTrustAnchor, IsEntityIdentifier, WellFormed, Subordinates, Tokens;
    var subject := statement.subject;
    IdentifiersAreNotEmpty(statement);
    ClimbSound(env, anchor, statement, subject, {subject}, n, universe);
    var c := Climb(env, anchor, statement, subject, {subject}, n, universe);
    hops := c.hops;
    var anchorId := AnchorIdentifier(statement, anchor, hops);
    var (configuration, configurationToken) := FetchConfiguration(env, c.next, anchorId).value;
    TopIsWellFormed(env, statement, hops);
    ConfigurationFacts(env, configuration, configurationToken, anchorId);
    CardinalityOfDifference(universe, {subject});
    ChainElements(statement, hops, configuration, token, configurationToken);
  }

  lemma ChainElements(statement: EntityStatement, hops: seq<Hop>, last: EntityStatement, token: string, lastToken: string)
    ensures var statements, tokens := [statement] + Subordinates(hops) + [last], [token] + Tokens(hops) + [lastToken];
      && |statements| == |tokens| == |hops| + 2
      && statements[0] == statement && tokens[0] == token
      && statements[|hops| + 1] == last && tokens[|hops| + 1] == lastToken
      && forall i :: 0 <= i < |hops| ==> statements[i + 1] == hops[i].subordinate && tokens[i + 1] == hops[i].token
  {
  }

  lemma SoundChainLengths(env: Env, statement: EntityStatement, anchor: string, token: string,
                          chain: TrustChain, hops: seq<Hop>)
    requires SoundChain(env, statement, anchor, token, chain, hops)
    ensures |chain.statements| == |chain.tokens| == |hops| + 2
  {
  }

  lemma TopIsWellFormed(env: Env, statement: EntityStatement, hops: seq<Hop>)
    requires WellFormed(statement) && SoundHops(env, statement.subject, statement, {statement.subject}, hops)
    ensures Top(statement, hops).issuer != ""
  {
    if hops != [] {
      assert SoundHop(env, statement.subject, statement, hops, |hops| - 1);
    }
  }

  lemma {:induction false} CardinalityOfDifference(a: set<string>, b: set<string>)
    ensures |a - b| <= |a|
  {
    assert a == (a - b) + (a * b);
    assert (a - b) !! (a * b);
  }

  /**
    Section 10.2 links each statement to the next by `ES[j].iss == ES[j+1].sub`.
    Every superior is asked about the leaf, so this holds of a returned chain
    exactly when at most one superior was visited.
  */
  lemma LinkedIffOneSuperior(env: Env, statement: EntityStatement, anchor: string, token: string,
                             chain: TrustChain, hops: seq<Hop>)
    requires SoundVerifier(env) && WellFormed(statement) && statement.IsSelfSigned()
    requires SoundChain(env, statement, anchor, token, chain, hops)
    ensures (forall j :: 0 <= j < |chain.statements| - 1 ==> chain.statements[j].issuer == chain.statements[j + 1].subject)
      <==> |hops| <= 1
  {
    hide IsConfigurationOf, Attests, SubjectKeysAttested, WellFormed;
    if hops != [] {
      assert SoundHop(env, statement.subject, statement, hops, 0);
    }
    if |hops| >= 2 {
      assert SoundHop(env, statement.subject, statement, hops, 1);
      assert chain.statements[1] == hops[0].subordinate && chain.statements[2] == hops[1].subordinate;
      assert chain.statements[1].issuer != chain.statements[1 + 1].subject;
    } else {
      assert Top(statement, hops).issuer == AnchorIdentifier(statement, anchor, hops);
    }
  }

  /** The climb ends where it starts, or at the first superior it finds. */
  predicate AnchorWithinReach(env: Env, statement: EntityStatement, anchor: string, n: nat) {
    IsTrustAnchor(env, statement, anchor) ||
    match FirstSuperior(env, statement.authorityHints, {statement.subject}, n)
    case Nobody(_) => false
    case Superior(_, superior, _, _) => IsTrustAnchor(env, superior, anchor)
  }

  lemma HopsWithinReach(env: Env, anchor: string, statement: EntityStatement, n: nat, universe: set<string>)
    requires Finite(env, universe)
    requires Climb(env, anchor, statement, statement.subject, {statement.subject}, n, universe).Reached?
    ensures |Climb(env, anchor, statement, statement.subject, {statement.subject}, n, universe).hops| <= 1
      <==> AnchorWithinReach(env, statement, anchor, n)
  {
    hide FetchConfiguration, FetchSubordinate, FirstSuperior, IsTrustAnchor, IsConfigurationOf, Attests, Climb, Finite;
    var subject, seen := statement.subject, {statement.subject};
    ClimbStep(env, anchor, statement, subject, seen, n, universe);
    var found := FirstSuperior(env, statement.authorityHints, seen, n);
    if !IsTrustAnchor(env, statement, anchor) && found.Superior? {
      var k := FetchSubordinate(env, found.next, found.statement, subject).1;
      var seen' := seen + {found.hint};
      ClimbStep(env, anchor, found.statement, subject, seen', k, universe);
      var next := FirstSuperior(env, found.statement.authorityHints, seen', k);
    }
  }

  /**
    The same link, from what is known before the climb: a chain that is
    returned for a self-signed statement is linked exactly when the statement
    is a trust anchor itself or the first superior it reaches is one.
  */
  lemma LinkedIffAnchorWithinReach(env: Env, statement: EntityStatement, anchor: string, token: string,
                                   n: nat, universe: set<string>)
    requires Finite(env, universe) && SoundVerifier(env) && WellFormed(statement) && statement.IsSelfSigned()
    requires ResolvedFrom(env, statement, anchor, token, n, universe).0.Some?
    ensures var s := ResolvedFrom(env, statement, anchor, token, n, universe).0.value.statements;
      (forall j :: 0 <= j < |s| - 1 ==> s[j].issuer == s[j + 1].subject)
      <==> AnchorWithinReach(env, statement, anchor, n)
  {
    hide Climb, Finite, SoundVerifier, FetchConfiguration, IsConfigurationOf, IsTrustAnchor, AnchorWithinReach, WellFormed,
      SubjectKeysAttested, SoundHops;
    var hops := ResolvedChainIsSound(env, statement, anchor, token, n, universe);
    var chain := ResolvedFrom(env, statement, anchor, token, n, universe).0.value;
    LinkedIffOneSuperior(env, statement, anchor, token, chain, hops);
    HopsWithinReach(env, anchor, statement, n, universe);
    SoundChainLengths(env, statement, anchor, token, chain, hops);
    FirstSubordinate(Climb(env, anchor, statement, statement.subject, {statement.subject}, n, universe).hops);
  }

  // ---- what the climb chooses ------------------------------------------------------

  /** A fetcher that always gives the same answer to the same address. */
  ghost predicate Stable(env: Env) {
    forall n: nat, url :: env.fetch(n, url) == env.fetch(0, url)
  }

  /** `superior` answers for the first hint that is neither seen nor unreachable. */
  ghost predicate Chosen(env: Env, hints: seq<string>, seen: set<string>, superior: EntityStatement, token: string) {
    exists j :: 0 <= j < |hints|
      && hints[j] !in seen && FetchConfiguration(env, 0, hints[j]) == Some((superior, token))
      && forall i :: 0 <= i < j ==> hints[i] in seen || FetchConfiguration(env, 0, hints[i]) == None
  }

  /** A path of chosen superiors that each attest the subject, up to the first trust anchor. */
  ghost predicate Ladder(env: Env, anchor: string, current: EntityStatement, subject: string,
                         seen: set<string>, hops: seq<Hop>)
    decreases |hops|
  {
    if hops == [] then IsTrustAnchor(env, current, anchor)
    else
      && !IsTrustAnchor(env, current, anchor)
      && Chosen(env, current.authorityHints, seen, hops[0].superior, hops[0].superiorToken)
      && FetchSubordinate(env, 0, hops[0].superior, subject).0 == Some((hops[0].subordinate, hops[0].token))
      && Ladder(env, anchor, hops[0].superior, subject, seen + {hops[0].superior.issuer}, hops[1..])
  }

  lemma {:induction false} FirstIsChosen(env: Env, hints: seq<string>, seen: set<string>, n: nat,
                                         superior: EntityStatement, token: string)
    requires Stable(env) && SoundVerifier(env) && "" !in hints
    ensures var r := FirstSuperior(env, hints, seen, n);
      (r.Superior? && r.statement == superior && r.token == token) <==> Chosen(env, hints, seen, superior, token)
    decreases |hints|
  {
    hide Parse, IsConfigurationOf, Attests, FetchConfiguration, FetchSubordinate;
    if hints != [] {
      var rest := hints[1..];
      StableRequests(env, n, hints[0], superior, "");
      var skipped := hints[0] in seen || FetchConfiguration(env, 0, hints[0]) == None;
      if skipped {
        FirstIsChosen(env, rest, seen, if hints[0] in seen then n else n + 1, superior, token);
        if Chosen(env, rest, seen, superior, token) {
          var j :| 0 <= j < |rest|
            && rest[j] !in seen && FetchConfiguration(env, 0, rest[j]) == Some((superior, token))
            && forall i :: 0 <= i < j ==> rest[i] in seen || FetchConfiguration(env, 0, rest[i]) == None;
          forall i | 0 <= i < j + 1 ensures hints[i] in seen || FetchConfiguration(env, 0, hints[i]) == None {
            if i > 0 {
              assert hints[i] == rest[i - 1];
            }
          }
          assert hints[j + 1] == rest[j];
        }
        if Chosen(env, hints, seen, superior, token) {
          var j :| 0 <= j < |hints|
            && hints[j] !in seen && FetchConfiguration(env, 0, hints[j]) == Some((superior, token))
            && forall i :: 0 <= i < j ==> hints[i] in seen || FetchConfiguration(env, 0, hints[i]) == None;
          assert rest[j - 1] == hints[j];
          assert forall i :: 0 <= i < j - 1 ==> rest[i] == hints[i + 1];
        }
      }
    }
  }

  /**
    With stable answers the climb succeeds exactly along the one path where
    each superior is the first reachable hint and attests the leaf: it neither
    misses that path nor takes another.
  */
  lemma {:induction false} ClimbIffLadder(env: Env, anchor: string, current: EntityStatement, subject: string,
                                          seen: set<string>, n: nat, universe: set<string>, hops: seq<Hop>)
    requires Finite(env, universe) && SoundVerifier(env) && Stable(env) && WellFormed(current)
    ensures var c := Climb(env, anchor, current, subject, seen, n, universe);
      (c.Reached? && c.hops == hops) <==> Ladder(env, anchor, current, subject, seen, hops)
    decreases |universe - seen|
  {
    hide Parse, IsConfigurationOf, Attests, FetchConfiguration, FetchSubordinate, FirstSuperior, IsTrustAnchor,
      IsEntityIdentifier, Chosen, Finite, Climb, Stable, SoundVerifier;
    IdentifiersAreNotEmpty(current);
    ClimbStep(env, anchor, current, subject, seen, n, universe);
    if !IsTrustAnchor(env, current, anchor) {
      var c := Climb(env, anchor, current, subject, seen, n, universe);
      var found := FirstSuperior(env, current.authorityHints, seen, n);
      if found.Superior? {
        FirstIsChosen(env, current.authorityHints, seen, n, found.statement, found.token);
        ConfigurationFacts(env, found.statement, found.token, found.hint);
        StableRequests(env, found.next, "", found.statement, subject);
        var (sub, k) := FetchSubordinate(env, found.next, found.statement, subject);
        assert sub == FetchSubordinate(env, 0, found.statement, subject).0;
        if sub.Some? && hops != [] {
          ClimbIffLadder(env, anchor, found.statement, subject, seen + {found.hint}, k, universe, hops[1..]);
          assert hops == [hops[0]] + hops[1..];
        }
      }
      if hops != [] {
        FirstIsChosen(env, current.authorityHints, seen, n, hops[0].superior, hops[0].superiorToken);
      }
    }
  }

  // ---- when the climb ends -----------------------------------------------------------

  /** After that many turns of the loop the climb has neither reached an anchor nor failed. */
  ghost predicate StillClimbing(env: Env, anchor: string, current: EntityStatement, subject: string,
                                seen: set<string>, n: nat, turns: nat)
    decreases turns
  {
    turns == 0 ||
    (!IsTrustAnchor(env, current, anchor) &&
     match FirstSuperior(env, current.authorityHints, seen, n)
     case Nobody(_) => false
     case Superior(hint, superior, _, m) =>
       var (sub, k) := FetchSubordinate(env, m, superior, subject);
       sub.Some? && StillClimbing(env, anchor, superior, subject, seen + {hint}, k, turns - 1))
  }

  /** With finitely many fetchable configurations, no climb takes more turns than there are identifiers left to see. */
  lemma {:induction false} ClimbIsBounded(env: Env, anchor: string, current: EntityStatement, subject: string,
                                          seen: set<string>, n: nat, turns: nat, universe: set<string>)
    requires Finite(env, universe)
    requires StillClimbing(env, anchor, current, subject, seen, n, turns)
    ensures turns <= |universe - seen|
    decreases turns
  {
    hide FetchConfiguration, FetchSubordinate, FirstSuperior, IsConfigurationOf, Attests, IsTrustAnchor;
    if turns > 0 {
      var found := FirstSuperior(env, current.authorityHints, seen, n);
      SeenGrows(universe, seen, found.hint);
      var k := FetchSubordinate(env, found.next, found.statement, subject).1;
      ClimbIsBounded(env, anchor, found.statement, subject, seen + {found.hint}, k, turns - 1, universe);
    }
  }

  // ---- the bound is only a measure ------------------------------------------------------

  /** The climb does not depend on the universe that bounds it. */
  lemma {:induction false} ClimbIgnoresUniverse(env: Env, anchor: string, current: EntityStatement, subject: string,
                                                seen: set<string>, n: nat, u: set<string>, v: set<string>)
    requires Finite(env, u) && Finite(env, v)
    ensures Climb(env, anchor, current, subject, seen, n, u) == Climb(env, anchor, current, subject, seen, n, v)
    decreases |u - seen|
  {
    hide Climb, FirstSuperior, FetchSubordinate, FetchConfiguration, IsTrustAnchor, IsConfigurationOf, Attests, After;
    ClimbStep(env, anchor, current, subject, seen, n, u);
    ClimbStep(env, anchor, current, subject, seen, n, v);
    var found := FirstSuperior(env, current.authorityHints, seen, n);
    if !IsTrustAnchor(env, current, anchor) && found.Superior? {
      var k := FetchSubordinate(env, found.next, found.statement, subject).1;
      ClimbIgnoresUniverse(env, anchor, found.statement, subject, seen + {found.hint}, k, u, v);
    }
  }

  lemma ResolvedIgnoresUniverse(env: Env, statement: EntityStatement, anchor: string, token: string, n: nat,
                                u: set<string>, v: set<string>)
    requires Finite(env, u) && Finite(env, v)
    ensures ResolvedFrom(env, statement, anchor, token, n, u) == ResolvedFrom(env, statement, anchor, token, n, v)
  {
    hide Climb, Anchored;
    ClimbIgnoresUniverse(env, anchor, statement, statement.subject, {statement.subject}, n, u, v);
  }

  // ---- responses built on a chain ----------------------------------------------------

  /** `int(x)` of a timestamp: truncation towards zero. */
  function Truncate(x: real): int {
    if x >= 0.0 then x.Floor else -((-x).Floor)
  }

  /** The whole number nearest to the instant among those no farther from zero. */
  lemma TruncateMeaning(x: real)
    ensures var n := Truncate(x) as real;
      if x >= 0.0 then 0.0 <= n <= x < n + 1.0 else n - 1.0 < x <= n <= 0.0
  {
  }

  /** `_chain_expiration` */
  function ChainExpiration(statements: seq<EntityStatement>): (exp: int)
    requires statements != []
    ensures forall s :: s in statements ==> exp <= Truncate(s.expiresAt)
    ensures exists s :: s in statements && exp == Truncate(s.expiresAt)
  {
    var head := Truncate(statements[0].expiresAt);
    if |statements| == 1 then head
    else
      var rest := ChainExpiration(statements[1..]);
      if rest < head then rest else head
  }

  datatype RegistrationResponse = RegistrationResponse(
    iss: string, sub: string, iat: int, exp: int, aud: string, trustAnchor: string, authorityHint: string,
    metadata: map<string, Json.Value>, jwks: Jwks)

  datatype ResolveResponse = ResolveResponse(
    iss: string, sub: string, iat: int, exp: int, metadata: Metadata, trustChain: seq<string>)

  datatype RegistrationError = InvalidClient | InvalidTrustChain | InvalidClientMetadata

  /** `_is_single_audience` */
  predicate IsSingleAudience(aud: Audience, expected: string) {
    match aud
    case NoAudience => false
    case One(value) => value == expected
    case Many(values) => values == [expected]
  }

  /** `_validated_registration_statement` */
  function ValidatedRegistration(env: Env, token: string): Result<EntityStatement, RegistrationError> {
    match env.unverified(token)
    case None => Failure(InvalidClient)
    case Some(u) =>
      if u.iss == "" || u.iss != u.sub || u.jwks.None? then Failure(InvalidClient)
      else
        match env.verify(token, u.jwks.value, u.iss, u.sub)
        case None => Failure(InvalidClient)
        case Some(verified) => RegistrationStatement(env, verified)
  }

  /** What the verified claims of a request are accepted as. */
  function RegistrationStatement(env: Env, verified: Claims): Result<EntityStatement, RegistrationError> {
    if !IsSingleAudience(verified.aud, env.entityIdentifier) then Failure(InvalidClient)
    else if verified.hints.None? || verified.hints.value == [] then Failure(InvalidTrustChain)
    else
      match Parse(verified)
      case None => Failure(InvalidClient)
      case Some(statement) => Success(statement)
  }

  /** The claims of a token that names one entity as issuer and subject and verifies under its own keys. */
  ghost function SelfVerified(env: Env, token: string): Option<Claims> {
    var u := env.unverified(token);
    if u.Some? && u.value.iss == u.value.sub != "" && u.value.jwks.Some?
    then env.verify(token, u.value.jwks.value, u.value.iss, u.value.sub) else None
  }

  /** The token's claims name this server as their one audience. */
  predicate IsAddressed(env: Env, claims: Claims) {
    claims.aud == One(env.entityIdentifier) || claims.aud == Many([env.entityIdentifier])
  }

  predicate IsHinting(claims: Claims) {
    claims.hints != None && claims.hints != Some([])
  }

  /**
    Which requests are accepted, as which statement, and why the others are
    refused: a self-verified token for this server alone that hints at superiors
    and parses; only the lack of hints is a matter of the chain.
  */
  lemma RegistrationIff(env: Env, token: string, statement: EntityStatement)
    ensures var claims, r := SelfVerified(env, token), ValidatedRegistration(env, token);
      && (r == Success(statement) <==>
            && claims.Some? && IsAddressed(env, claims.value) && IsHinting(claims.value)
            && Parseable(claims.value) && Says(claims.value, statement))
      && (r == Failure(InvalidTrustChain) <==>
            claims.Some? && IsAddressed(env, claims.value) && !IsHinting(claims.value))
      && (r.Failure? ==> r.error != InvalidClientMetadata)
  {
    hide ValidatedRegistration, SelfVerified, Parse, Parseable, Says, IsSingleAudience, IsAddressed, IsHinting;
    OfSelfVerified(env, token);
    var claims := SelfVerified(env, token);
    if claims.Some? {
      ParsesIff(claims.value, statement);
      AddressedIff(env, claims.value);
    }
  }

  lemma OfSelfVerified(env: Env, token: string)
    ensures ValidatedRegistration(env, token)
      == match SelfVerified(env, token)
         case None => Failure(InvalidClient)
         case Some(claims) => RegistrationStatement(env, claims)
  {
    hide RegistrationStatement;
  }

  lemma AddressedIff(env: Env, claims: Claims)
    ensures IsAddressed(env, claims) <==> IsSingleAudience(claims.aud, env.entityIdentifier)
    ensures !IsHinting(claims) <==> claims.hints.None? || claims.hints.value == []
  {
  }

  lemma ValidatedFacts(env: Env, token: string)
    requires SoundVerifier(env) && ValidatedRegistration(env, token).Success?
    ensures var s := ValidatedRegistration(env, token).value;
      && WellFormed(s) && s.IsSelfSigned() && s.authorityHints != [] && s.expiresAt > env.now as real
      && SaidBy(env, token, s)
  {
    hide IsEntityIdentifier;
    RegistrationIff(env, token, ValidatedRegistration(env, token).value);
  }

  /** `_immediate_superior` */
  function ImmediateSuperior(chain: TrustChain): string
    requires chain.statements != []
  {
    if |chain.statements| >= 2 then chain.statements[1].issuer else chain.statements[0].issuer
  }

  /** `_registration_claims` */
  function RegistrationClaims(env: Env, statement: EntityStatement, chain: TrustChain): RegistrationResponse
    requires chain.statements != []
  {
    RegistrationResponse(env.entityIdentifier, statement.subject, env.now, ChainExpiration(chain.statements),
                         statement.subject, chain.statements[|chain.statements| - 1].issuer,
                         ImmediateSuperior(chain),
                         RegisteredMetadata(ResolvedMetadata(chain), statement.subject), statement.jwks)
  }

  /**
    `explicit_register`. A granted response never outlives any statement of its
    chain, names a trusted anchor and a superior the applicant itself hinted
    at, and carries the applicant's own keys.
  */
  method ExplicitRegister(env: Env, token: string, n: nat, ghost universe: set<string>)
    returns (r: Result<RegistrationResponse, RegistrationError>)
    requires Finite(env, universe) && SoundVerifier(env)
    ensures match ValidatedRegistration(env, token)
      case Failure(e) => r == Failure(e)
      case Success(statement) =>
        match ResolvedFrom(env, statement, "", token, n, universe).0
        case None => r == Failure(InvalidTrustChain)
        case Some(chain) =>
          if !RegistersClient(chain) then r == Failure(InvalidClientMetadata)
          else r.Success? && Granted(env, statement, chain, r.value)
  {
    hide Parse, IsConfigurationOf, Attests, FetchConfiguration, FetchSubordinate, ResolvedFrom, SoundChain, SaidBy;
    var validated := ValidatedRegistration(env, token);
    if validated.Failure? {
      return Failure(validated.error);
    }
    var statement := validated.value;
    var resolved, _ := ResolveChainFrom(env, statement, "", token, n, universe);
    if resolved == None {
      return Failure(InvalidTrustChain);
    }
    ValidatedFacts(env, token);
    ghost var hops := ResolvedChainIsSound(env, statement, "", token, n, universe);
    SoundChainLengths(env, statement, "", token, resolved.value, hops);
    if !DerivesClient(ResolvedMetadata(resolved.value)) {
      return Failure(InvalidClientMetadata);
    }
    GrantFollows(env, statement, token, resolved.value, hops);
    return Success(RegistrationClaims(env, statement, resolved.value));
  }

  /** The instant is the earliest expiry of the chain, in whole seconds, and is not past. */
  ghost predicate ExpiresWith(chain: TrustChain, exp: int, now: int) {
    && now <= exp
    && (forall s :: s in chain.statements ==> exp as real <= s.expiresAt)
    && (exists s :: s in chain.statements && exp == Truncate(s.expiresAt))
  }

  /** The metadata that the chain settles have redirections and keys. */
  predicate RegistersClient(chain: TrustChain) {
    chain.statements != [] && DerivesClient(ResolvedMetadata(chain))
  }

  /** Every statement of the chain is what its own token claims. */
  ghost predicate TokensSay(env: Env, chain: TrustChain) {
    && |chain.statements| == |chain.tokens|
    && forall i :: 0 <= i < |chain.tokens| ==> SaidBy(env, chain.tokens[i], chain.statements[i])
  }

  lemma ChainIsSaid(env: Env, statement: EntityStatement, anchor: string, token: string, chain: TrustChain, hops: seq<Hop>)
    requires SoundVerifier(env) && SoundChain(env, statement, anchor, token, chain, hops) && SaidBy(env, token, statement)
    ensures TokensSay(env, chain)
  {
    hide SaidBy, IsConfigurationOf, Attests, SoundVerifier, IsTrustAnchor, AnchorIdentifier;
    var last, anchorId := |hops| + 1, AnchorIdentifier(statement, anchor, hops);
    forall i | 0 <= i < |chain.tokens| ensures SaidBy(env, chain.tokens[i], chain.statements[i]) {
      if 0 < i <= |hops| {
        assert SoundHop(env, statement.subject, statement, hops, i - 1);
        ObtainedIsSaid(env, hops[i - 1].superior, statement.subject, chain.statements[i], chain.tokens[i]);
      } else if i == last {
        ObtainedIsSaid(env, statement, anchorId, chain.statements[i], chain.tokens[i]);
      }
    }
  }

  /** The policies that tokens claim. */
  ghost function ClaimedPolicies(env: Env, tokens: seq<string>): seq<Policy>
    requires forall t :: t in tokens ==> env.unverified(t).Some?
  {
    seq(|tokens|, i requires 0 <= i < |tokens| => assert tokens[i] in tokens; env.unverified(tokens[i]).value.policy)
  }

  /**
    What a grant registers, read off the tokens of its chain: the client's own
    identifier and method, and otherwise what the policies claimed by the other
    tokens settle of what the applicant's token declares.
  */
  lemma GrantSettles(env: Env, statement: EntityStatement, chain: TrustChain, r: RegistrationResponse, parameter: string)
    requires Granted(env, statement, chain, r)
    ensures forall t :: t in chain.tokens ==> env.unverified(t).Some?
    ensures |chain.tokens| >= 2
    ensures var declared := env.unverified(chain.tokens[0]).value.metadata;
      RELYING_PARTY in declared &&
      Current(r.metadata, parameter)
        == if parameter == "client_id" then Some(Json.Str(statement.subject))
           else if parameter == "token_endpoint_auth_method" then Some(Json.Str("private_key_jwt"))
           else Settled(ClaimedPolicies(env, chain.tokens[1..]), Current(declared[RELYING_PARTY], parameter),
                        RELYING_PARTY, parameter)
  {
    hide ResolvedMetadata, RegisteredMetadata, DerivesClient, Settled, ExpiresWith;
    forall i | 0 <= i < |chain.tokens| ensures SaidBy(env, chain.tokens[i], chain.statements[i]) {}
    assert ClaimedPolicies(env, chain.tokens[1..]) == Policies(chain.statements[1..]);
    RegisteredMeaning(chain, statement.subject, parameter);
  }

  ghost predicate Granted(env: Env, statement: EntityStatement, chain: TrustChain, r: RegistrationResponse) {
    && r.iss == env.entityIdentifier
    && r.sub == r.aud == statement.subject
    && r.jwks == statement.jwks
    && r.iat == env.now
    && RegistersClient(chain)
    && r.metadata == RegisteredMetadata(ResolvedMetadata(chain), statement.subject)
    && |chain.statements| >= 2
    && TokensSay(env, chain)
    && r.trustAnchor == chain.statements[|chain.statements| - 1].issuer
    && r.authorityHint == chain.statements[1].issuer
    && ExpiresWith(chain, r.exp, env.now)
    && (env.trustAnchors != [] ==> r.trustAnchor in env.trustAnchors)
    && (statement.issuer !in env.trustAnchors ==> r.authorityHint in statement.authorityHints)
  }

  /** The ends of a sound chain: a trusted anchor, and a superior hinted at by whoever is not an anchor itself. */
  lemma ChainEnds(env: Env, statement: EntityStatement, token: string, chain: TrustChain, hops: seq<Hop>)
    requires SoundChain(env, statement, "", token, chain, hops) && statement.authorityHints != []
    ensures var s := chain.statements;
      && |s| >= 2
      && (env.trustAnchors != [] ==> s[|s| - 1].issuer in env.trustAnchors)
      && (statement.issuer !in env.trustAnchors ==> s[1].issuer in statement.authorityHints)
  {
    hide IsConfigurationOf, Attests, WellFormed;
    if statement.issuer !in env.trustAnchors {
      assert hops != [];
      assert SoundHop(env, statement.subject, statement, hops, 0);
    }
  }

  lemma GrantFollows(env: Env, statement: EntityStatement, token: string, chain: TrustChain, hops: seq<Hop>)
    requires SoundVerifier(env) && WellFormed(statement) && SoundChain(env, statement, "", token, chain, hops)
    requires statement.expiresAt > env.now as real && statement.authorityHints != [] && RegistersClient(chain)
    requires SaidBy(env, token, statement)
    ensures Granted(env, statement, chain, RegistrationClaims(env, statement, chain))
  {
    hide SaidBy, TokensSay, SoundChain, SoundVerifier, WellFormed, RegistersClient, ResolvedMetadata, RegisteredMetadata;
    ChainEnds(env, statement, token, chain, hops);
    StatementsAreAlive(env, statement, "", token, chain, hops);
    ChainIsSaid(env, statement, "", token, chain, hops);
    ExpirationWithinLifetimes(chain.statements, env.now);
  }

  lemma StatementsAreAlive(env: Env, statement: EntityStatement, anchor: string, token: string,
                           chain: TrustChain, hops: seq<Hop>)
    requires SoundVerifier(env) && WellFormed(statement) && SoundChain(env, statement, anchor, token, chain, hops)
    requires statement.expiresAt > env.now as real
    ensures forall s :: s in chain.statements ==> s.expiresAt > env.now as real >= 0.0
  {
    hide Parse, IsConfigurationOf, Attests, FetchConfiguration, FetchSubordinate, SoundVerifier, IsTrustAnchor,
      IsEntityIdentifier, WellFormed;
    IdentifiersAreNotEmpty(statement);
    TopIsWellFormed(env, statement, hops);
    var last, anchorId := |hops| + 1, AnchorIdentifier(statement, anchor, hops);
    ConfigurationFacts(env, chain.statements[last], chain.tokens[last], anchorId);
    forall i | 0 <= i < |chain.statements| ensures chain.statements[i].expiresAt > env.now as real >= 0.0 {
      if 0 < i <= |hops| {
        var hop := hops[i - 1];
        assert SoundHop(env, statement.subject, statement, hops, i - 1);
        IdentifiersAreNotEmpty(hop.superior);
        AttestationFacts(env, hop.superior, statement.subject, hop.subordinate, hop.token);
      }
    }
  }

  lemma ExpirationWithinLifetimes(statements: seq<EntityStatement>, now: int)
    requires statements != [] && now >= 0
    requires forall s :: s in statements ==> s.expiresAt > now as real
    ensures now <= ChainExpiration(statements)
    ensures forall s :: s in statements ==> ChainExpiration(statements) as real <= s.expiresAt
  {
    forall s | s in statements ensures now <= Truncate(s.expiresAt) && Truncate(s.expiresAt) as real <= s.expiresAt {
      assert s.expiresAt.Floor as real <= s.expiresAt < (s.expiresAt.Floor + 1) as real;
    }
  }

  /**
    `resolve_entity`: the response lists the tokens of a sound chain of the
    subject, and expires no later than any of its statements.
  */
  method ResolveEntity(env: Env, subject: string, trustAnchor: string, n: nat, ghost universe: set<string>)
    returns (r: Option<ResolveResponse>)
    requires Finite(env, universe) && SoundVerifier(env) && subject != ""
    ensures match FetchConfiguration(env, n, subject)
      case None => r == None
      case Some((statement, token)) =>
        match ResolvedFrom(env, statement, trustAnchor, token, n + 1, universe).0
        case None => r == None
        case Some(chain) =>
          && r.Some?
          && r.value.iss == env.entityIdentifier && r.value.sub == subject && r.value.iat == env.now
          && chain.statements != [] && r.value.metadata == ResolvedMetadata(chain)
          && r.value.trustChain == chain.tokens && TokensSay(env, chain)
          && ExpiresWith(chain, r.value.exp, env.now)
  {
    hide Parse, IsConfigurationOf, Attests, FetchConfiguration, FetchSubordinate, ResolvedFrom, SoundChain, SaidBy;
    var fetched := FetchConfiguration(env, n, subject);
    if fetched == None {
      return None;
    }
    var (statement, token) := fetched.value;
    ConfigurationFacts(env, statement, token, subject);
    var resolved, _ := ResolveChainFrom(env, statement, trustAnchor, token, n + 1, universe);
    if resolved == None {
      return None;
    }
    var chain := resolved.value;
    ghost var hops := ResolvedChainIsSound(env, statement, trustAnchor, token, n + 1, universe);
    SoundChainLengths(env, statement, trustAnchor, token, chain, hops);
    if chain.tokens == [] {
      return None;
    }
    StatementsAreAlive(env, statement, trustAnchor, token, chain, hops);
    ObtainedIsSaid(env, statement, subject, statement, token);
    ChainIsSaid(env, statement, trustAnchor, token, chain, hops);
    ExpirationWithinLifetimes(chain.statements, env.now);
    return Some(ResolveResponse(env.entityIdentifier, subject, env.now, ChainExpiration(chain.statements),
                                ResolvedMetadata(chain), chain.tokens));
  }
}
