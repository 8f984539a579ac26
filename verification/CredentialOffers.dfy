/**
  Credential offers and their pre-authorized codes (OpenID for Verifiable
  Credential Issuance 1.0, section 4.1), over two stores and a clock.
*/
module CredentialOffers {
  import opened Wrappers
  import opened PythonText
  import opened Json
  import ResourceIndicators

  datatype Code = Code(subject: string, txCode: string, expiresAt: int, isConsumed: bool)

  datatype Offer = Offer(
    configurationIds: seq<string>, subject: string, code: string, clientId: string,
    txCodeRequired: bool, createdAt: int, expiresAt: int)
  {
    /** `is_expired` */
    predicate IsExpired(now: int) { now > expiresAt }
  }

  /** The `credential_offer` object handed to the wallet. */
  datatype Payload = Payload(issuer: string, configurationIds: seq<string>, code: string, txCodeRequired: bool)

  datatype CredentialError = CredentialError(error: string, status: int)

  const SUPPORTED := ["puridentityserver-sdjwt-vc", "puridentityserver-mso-mdoc"]
  const REQUIRED_SCOPE := "openid4vci"

  /** `text` is `str(value or "")`; `claimsOf` validates an access token. */
  datatype Env = Env(issuer: string, ttl: nat, claimsOf: string -> Option<Claims>, text: Value -> string)

  datatype Caller = Caller(subject: string, clientId: string, machine: bool)

  /** The response to a creation: the offer by value, its address, and the transaction code, empty when none is asked for. */
  datatype Announcement = Announcement(offer: Payload, uri: string, txCode: string)

  function Announced(env: Env, offer: Offer, offerId: string, txCode: string): Announcement {
    Announcement(PayloadOf(env, offer), DropTrailingSlashes(env.issuer) + "/credential-offer/" + offerId, txCode)
  }

  function ClaimText(env: Env, claims: Claims, name: string): string {
    if name in claims then env.text(claims[name]) else ""
  }

  /** `_caller` */
  function CallerOf(env: Env, accessToken: string): Result<Caller, CredentialError> {
    match env.claimsOf(accessToken)
    case None => Failure(CredentialError("invalid_token", 401))
    case Some(claims) =>
      if REQUIRED_SCOPE !in Words(ClaimText(env, claims, "scope")) then
        Failure(CredentialError("insufficient_scope", 403))
      else
        var subject, clientId := ClaimText(env, claims, "sub"), ClaimText(env, claims, "client_id");
        if subject == "" then Failure(CredentialError("invalid_token", 401))
        else Success(Caller(subject, clientId, clientId != "" && clientId == subject))
  }

  /** `_configuration_ids`: each identifier once, in order; the first supported one when none is asked for. */
  function ConfigurationIds(requested: seq<string>): Result<seq<string>, CredentialError> {
    if exists id :: id in requested && id !in SUPPORTED
    then Failure(CredentialError("unknown_credential_configuration", 400))
    else
      var ids := ResourceIndicators.Distinct(requested);
      Success(if ids == [] then [SUPPORTED[0]] else ids)
  }

  /** `_offer_subject` */
  function OfferSubject(caller: Caller, requested: string): Result<string, CredentialError> {
    if requested != "" then
      if !caller.machine && requested != caller.subject then Failure(CredentialError("invalid_request", 403))
      else Success(requested)
    else if caller.machine then Failure(CredentialError("invalid_request", 400))
    else Success(caller.subject)
  }

  function PayloadOf(env: Env, offer: Offer): Payload {
    Payload(DropTrailingSlashes(env.issuer), offer.configurationIds, offer.code, offer.txCodeRequired)
  }

  /** What a creation stores: the code and the offer, with one expiry for both. */
  function Created(env: Env, accessToken: string, requested: seq<string>, subject: string, txCode: string,
                   code: string, now: int): Result<(Code, Offer), CredentialError>
  {
    match CallerOf(env, accessToken)
    case Failure(e) => Failure(e)
    case Success(caller) =>
      match ConfigurationIds(requested)
      case Failure(e) => Failure(e)
      case Success(ids) =>
        match OfferSubject(caller, subject)
        case Failure(e) => Failure(e)
        case Success(holder) =>
          var expiresAt := now + env.ttl;
          Success((Code(holder, txCode, expiresAt, false),
                   Offer(ids, holder, code, caller.clientId, txCode != "", now, expiresAt)))
  }

  /** What `resolve` serves. */
  function Served(env: Env, codes: map<string, Code>, offers: map<string, Offer>, offerId: string, now: int): Option<Payload> {
    if offerId !in offers || offers[offerId].IsExpired(now) then None
    else
      var offer := offers[offerId];
      if offer.code !in codes || codes[offer.code].isConsumed || codes[offer.code].expiresAt < now then None
      else Some(PayloadOf(env, offer))
  }

  class CredentialOfferUseCase {
    var codes: map<string, Code>
    var offers: map<string, Offer>

    constructor ()
      ensures codes == map[] && offers == map[]
    {
      codes, offers := map[], map[];
    }

    /** `code`, `offerId` and `txCode` (empty when none is asked for) are the random values drawn. */
    method Create(env: Env, accessToken: string, requested: seq<string>, subject: string, txCode: string,
                  code: string, offerId: string, now: int) returns (r: Result<Announcement, CredentialError>)
      modifies this
      ensures match Created(env, accessToken, requested, subject, txCode, code, now)
        case Failure(e) => r == Failure(e) && codes == old(codes) && offers == old(offers)
        case Success((newCode, offer)) =>
          && r == Success(Announced(env, offer, offerId, txCode))
          && codes == old(codes)[code := newCode] && offers == old(offers)[offerId := offer]
    {
      var created := Created(env, accessToken, requested, subject, txCode, code, now);
      match created {
        case Failure(e) => r := Failure(e);
        case Success((newCode, offer)) =>
          codes := codes[code := newCode];
          offers := offers[offerId := offer];
          r := Success(Announced(env, offer, offerId, txCode));
      }
    }

    method Resolve(env: Env, offerId: string, now: int) returns (r: Result<Payload, CredentialError>)
      ensures match Served(env, codes, offers, offerId, now)
        case Some(payload) => r == Success(payload)
        case None => r == Failure(CredentialError("not_found", 404))
    {
      if offerId !in offers || now > offers[offerId].expiresAt {
        return Failure(CredentialError("not_found", 404));
      }
      var offer := offers[offerId];
      if offer.code !in codes || codes[offer.code].isConsumed || codes[offer.code].expiresAt < now {
        return Failure(CredentialError("not_found", 404));
      }
      return Success(PayloadOf(env, offer));
    }
  }

  // ---- one creation ------------------------------------------------------------------------

  /**
    Who may hold an offered credential: a user only for themselves, a machine
    only for a subject it names; the offered configurations are all supported,
    each once, and never none.
  */
  lemma CreationIsAuthorized(env: Env, accessToken: string, requested: seq<string>, subject: string, txCode: string,
                             code: string, now: int)
    requires Created(env, accessToken, requested, subject, txCode, code, now).Success?
    ensures var (saved, offer) := Created(env, accessToken, requested, subject, txCode, code, now).value;
      var caller := CallerOf(env, accessToken).value;
      && CallerOf(env, accessToken).Success? && caller.subject != ""
      && (!caller.machine ==> offer.subject == caller.subject)
      && (caller.machine ==> subject != "" && offer.subject == subject)
      && saved.subject == offer.subject && saved.expiresAt == offer.expiresAt && offer.code == code
      && offer.configurationIds != []
      && (forall id :: id in offer.configurationIds ==> id in SUPPORTED)
      && (forall id :: id in requested ==> id in offer.configurationIds)
      && (forall i, j :: 0 <= i < j < |offer.configurationIds| ==> offer.configurationIds[i] != offer.configurationIds[j])
  {
    hide ConfigurationIds, ClaimText, Words;
    ConfigurationsOffered(requested);
  }

  /** A live token with the issuance scope and a subject. */
  predicate MayOffer(env: Env, accessToken: string) {
    match env.claimsOf(accessToken)
    case None => false
    case Some(claims) => "openid4vci" in Words(ClaimText(env, claims, "scope")) && ClaimText(env, claims, "sub") != ""
  }

  /** When a creation goes through: the caller may offer, all configurations are supported, and the holder fits the caller. */
  lemma CreationSucceedsIff(env: Env, accessToken: string, requested: seq<string>, subject: string, txCode: string,
                            code: string, now: int)
    ensures Created(env, accessToken, requested, subject, txCode, code, now).Success? <==>
      && MayOffer(env, accessToken)
      && (forall id :: id in requested ==> id in SUPPORTED)
      && var claims := env.claimsOf(accessToken).value;
         var own, clientId := ClaimText(env, claims, "sub"), ClaimText(env, claims, "client_id");
         if clientId == own then subject != "" else subject in ["", own]
  {
    hide ClaimText, Words;
  }

  /** A claim that is there counts by its text, and one that is not counts as empty. */
  lemma ClaimTextMeaning(env: Env, claims: Claims, name: string)
    ensures name in claims ==> ClaimText(env, claims, name) == env.text(claims[name])
    ensures name !in claims ==> ClaimText(env, claims, name) == ""
  {
  }

  /** What a creation stores and announces, field by field. */
  lemma CreatedMeaning(env: Env, accessToken: string, requested: seq<string>, subject: string, txCode: string,
                       code: string, offerId: string, now: int)
    requires Created(env, accessToken, requested, subject, txCode, code, now).Success?
    ensures var (saved, offer) := Created(env, accessToken, requested, subject, txCode, code, now).value;
      var claims := env.claimsOf(accessToken).value;
      && env.claimsOf(accessToken).Some?
      && saved == Code(offer.subject, txCode, now + env.ttl, false)
      && offer.subject == (if subject == "" then ClaimText(env, claims, "sub") else subject)
      && offer.code == code && offer.clientId == ClaimText(env, claims, "client_id")
      && (offer.txCodeRequired <==> txCode != "")
      && offer.createdAt == now && offer.expiresAt == now + env.ttl
      && offer.configurationIds == (if requested == [] then ["puridentityserver-sdjwt-vc"]
                                    else ResourceIndicators.Distinct(requested))
      && var told := Announced(env, offer, offerId, txCode);
         && told.offer == Payload(DropTrailingSlashes(env.issuer), offer.configurationIds, code, txCode != "")
         && told.uri == DropTrailingSlashes(env.issuer) + "/credential-offer/" + offerId
         && told.txCode == txCode
  {
    hide ClaimText, Words, ResourceIndicators.Distinct, DropTrailingSlashes;
    if requested == [] {
      ResourceIndicators.DistinctOfNone();
    } else {
      ConfigurationsOffered(requested);
    }
  }

  /** Why a creation is refused, by the first fault: the token, its scope, its subject, the configurations, the holder. */
  lemma CreationRefusal(env: Env, accessToken: string, requested: seq<string>, subject: string, txCode: string,
                        code: string, now: int)
    requires Created(env, accessToken, requested, subject, txCode, code, now).Failure?
    ensures Created(env, accessToken, requested, subject, txCode, code, now).error
      == if env.claimsOf(accessToken) == None then CredentialError("invalid_token", 401)
         else
           var claims := env.claimsOf(accessToken).value;
           var own, clientId := ClaimText(env, claims, "sub"), ClaimText(env, claims, "client_id");
           if "openid4vci" !in Words(ClaimText(env, claims, "scope")) then CredentialError("insufficient_scope", 403)
           else if own == "" then CredentialError("invalid_token", 401)
           else if !(forall id :: id in requested ==> id in ["puridentityserver-sdjwt-vc", "puridentityserver-mso-mdoc"])
           then CredentialError("unknown_credential_configuration", 400)
           else CredentialError("invalid_request", if subject == "" then 400 else 403)
  {
    hide ClaimText, Words, ResourceIndicators.Distinct;
  }

  lemma ConfigurationsOffered(requested: seq<string>)
    requires ConfigurationIds(requested).Success?
    ensures var ids := ConfigurationIds(requested).value;
      && ids != []
      && ids == (if requested == [] then [SUPPORTED[0]] else ResourceIndicators.Distinct(requested))
      && (forall id :: id in ids ==> id in SUPPORTED)
      && (forall id :: id in requested ==> id in ids)
      && (forall i, j :: 0 <= i < j < |ids| ==> ids[i] != ids[j])
  {
    hide ResourceIndicators.Distinct;
    var at := ResourceIndicators.DistinctMeaning(requested);
    var ids := ResourceIndicators.Distinct(requested);
    assert requested == [] ==> ids == [] by { ResourceIndicators.DistinctOfNone(); }
    assert requested != [] ==> requested[0] in requested;
    forall i, j | 0 <= i < j < |ids| ensures ids[i] != ids[j] {
      assert requested[..at[j]][at[i]] == ids[i];
    }
    forall id | id in requested ensures id in ids {
      assert id in SUPPORTED && id != "";
    }
  }

  // ---- every run -----------------------------------------------------------------------------

  datatype Event =
    | Create(accessToken: string, requested: seq<string>, subject: string, txCode: string, code: string, offerId: string)
    | OtherCode(code: string, value: Code)
    | Consume(code: string)
    | Tick(elapsed: nat)

  /** The stores and the clock, with every code and offer identifier ever drawn. */
  datatype State = State(codes: map<string, Code>, offers: map<string, Offer>, now: int, drawn: set<string>)

  function CreatedBy(env: Env, s: State, e: Event): Result<(Code, Offer), CredentialError>
    requires e.Create?
  {
    Created(env, e.accessToken, e.requested, e.subject, e.txCode, e.code, s.now)
  }

  /** Other flows save codes in the same store; the token endpoint consumes them. */
  function Step(env: Env, s: State, e: Event): State {
    match e
    case Create(_, _, _, _, code, offerId) =>
      (match CreatedBy(env, s, e)
       case Failure(_) => s
       case Success((saved, offer)) =>
         State(s.codes[code := saved], s.offers[offerId := offer], s.now, s.drawn + {code, offerId}))
    case OtherCode(code, value) => s.(codes := s.codes[code := value], drawn := s.drawn + {code})
    case Consume(code) =>
      if code in s.codes then s.(codes := s.codes[code := s.codes[code].(isConsumed := true)]) else s
    case Tick(elapsed) => s.(now := s.now + elapsed)
  }

  function Run(env: Env, s: State, events: seq<Event>): State
    decreases |events|
  {
    if events == [] then s else Run(env, Step(env, s, events[0]), events[1..])
  }

  /** Random values are new with respect to all drawn before. */
  ghost predicate Admissible(env: Env, s: State, events: seq<Event>)
    decreases |events|
  {
    events == [] ||
    (&& (events[0].Create? ==> events[0].code !in s.drawn && events[0].offerId !in s.drawn)
     && (events[0].OtherCode? ==> events[0].code !in s.drawn)
     && Admissible(env, Step(env, s, events[0]), events[1..]))
  }

  ghost predicate HasConsumption(events: seq<Event>, code: string) {
    exists i :: 0 <= i < |events| && events[i] == Consume(code)
  }

  /** The offer as created, and its code as created but for its consumption. */
  ghost predicate Tracked(s: State, offerId: string, offer: Offer, saved: Code, consumed: bool) {
    && {offerId, offer.code} <= s.drawn
    && offerId in s.offers && s.offers[offerId] == offer
    && offer.code in s.codes && s.codes[offer.code] == saved.(isConsumed := consumed)
  }

  lemma {:induction false} RunTracks(env: Env, s: State, events: seq<Event>, offerId: string, offer: Offer,
                                     saved: Code, consumed: bool)
    requires Tracked(s, offerId, offer, saved, consumed) && Admissible(env, s, events)
    ensures Tracked(Run(env, s, events), offerId, offer, saved, consumed || HasConsumption(events, offer.code))
    decreases |events|
  {
    hide Created;
    if events != [] {
      var e, rest := events[0], events[1..];
      var consumed' := consumed || e == Consume(offer.code);
      RunTracks(env, Step(env, s, e), rest, offerId, offer, saved, consumed');
      if HasConsumption(events, offer.code) && e != Consume(offer.code) {
        var i :| 0 <= i < |events| && events[i] == Consume(offer.code);
        assert rest[i - 1] == Consume(offer.code);
      }
      if HasConsumption(rest, offer.code) {
        var i :| 0 <= i < |rest| && rest[i] == Consume(offer.code);
        assert events[i + 1] == Consume(offer.code);
      }
      if e == Consume(offer.code) {
        assert events[0] == Consume(offer.code);
      }
    }
  }

  /**
    The life of an offer, over every later run of creations, other codes,
    consumptions and ticks: it is served exactly until its code is consumed or
    its one expiry has passed, always with the payload given at its creation;
    and the expiry tests on the offer and on its code always agree.
  */
  lemma OfferLifecycle(env: Env, s: State, create: Event, later: seq<Event>)
    requires create.Create? && Admissible(env, s, [create] + later)
    requires CreatedBy(env, s, create).Success?
    ensures var (saved, offer) := CreatedBy(env, s, create).value;
      var end := Run(env, s, [create] + later);
      && Served(env, end.codes, end.offers, create.offerId, end.now)
         == (if end.now <= offer.expiresAt && !HasConsumption(later, create.code) then Some(PayloadOf(env, offer)) else None)
      && create.code in end.codes && (offer.IsExpired(end.now) <==> end.codes[create.code].expiresAt < end.now)
  {
    var (saved, offer) := CreatedBy(env, s, create).value;
    CreationIsAuthorized(env, create.accessToken, create.requested, create.subject, create.txCode, create.code, s.now);
    assert ([create] + later)[1..] == later;
    RunTracks(env, Step(env, s, create), later, create.offerId, offer, saved, false);
  }
}
