# Protocol core of PurIdentityServer: model and proofs

PurIdentityServer is an OpenID Connect provider. Its use cases are hand-written
protocol logic over small ports: stores, clocks, signers, fetchers. This project
models that logic and proves what it promises over every input and every run.

| file | models |
|---|---|
| `EntityStatements.dfy` | entity statements, their parsing, and the metadata that the policies of a chain settle |
| `Federation.dfy` | the climb from an entity to a trust anchor, explicit registration and the resolve endpoint |
| `Towers.dfy` | two concrete federations, one without end, over which the climb is carried out |
| `PushedAuthorization.dfy` | pushed authorization requests: push, resolve, complete, over a store and a clock |
| `Authorization.dfy` | validation of an authorization request and transport of its response |
| `RequestObject.dfy` | request objects: by value or reference, encrypted or not, unsigned, signed, FAPI |
| `SigningKeys.dfy` | retirement, purge, proactive rotation, rotation on demand and publication of keys |
| `ResourceIndicators.dfy` | the `resource` parameter: a list folded into JSON text and parsed back |
| `SessionState.dfy` | salted `session_state` values |
| `TokenGates.dfy` | the denylist and the three gates of an access token |
| `Presentations.dfy`, `CredentialOffers.dfy`, `Ciba.dfy` | the one-shot ledgers: presentation nonces, credential offers, user decisions |
| `PythonText.dfy`, `Json.dfy`, `Wrappers.dfy` | string operations, JSON values, options and results |

Conventions. A call of a use case is one atomic step. An object that changes its
store is a class, and each of its methods is proved equal to a function of the old
state; properties over runs are proved about that function. Instants are integers
and `now` never decreases. Networks, signatures, hashes and parsers are
function-valued fields of an `Env`, about which nothing is assumed beyond the
predicates `SoundVerifier`, `RequiresClaims`, `ReadsHeaders` and `Sound` and the `requires` clauses
of each lemma. Random references are new with respect to everything ever issued
(`Admissible`).

## Where the code departs from its own documentation

The model follows the code. Each departure comes with a lemma at an input on which
it shows and, but for the endless climb, with its exact condition.

- Section 10.2 of OpenID Federation 1.1 links each statement of a chain to the next.
  Every superior is asked about the leaf, so the link holds exactly when the statement
  is a trust anchor or the first superior it reaches is one
  (`LinkedIffAnchorWithinReach`; `UnlinkedChain` goes through two superiors).
- The climb has no bound of its own: over a tower of ever longer paths it never ends
  (`EndlessClimb`). Finitely many fetchable identifiers are enough for it to end
  (`ClimbIsBounded`); that they are needed is not claimed.
- A FAPI client is promised that no request is taken without a signed request object
  (`docs/configuration.md`, line 34) and that a push keeps only signed claims. The
  resolver recognises the client by the transport `client_id`, or else by the issuer of
  the document. Free parameters are without influence exactly when a request is refused
  or a FAPI client is so recognised (`FapiNonInterferenceIff`), and at push exactly when
  there is a resolver and it recognises one (`PushIsSignedIff`). A client named by another
  claim of an unsigned document, or only by its assertion, is missed
  (`UnsignedDocumentNamesFapiClient`, `AssertionHidesTheClient`).
- A request object of a federated client is said to need `exp` and `jti` and to carry no
  `sub`. That is enforced exactly when its header announces an algorithm that is not read
  unsigned (`FederatedProfileIff`, `UnsignedFederatedDocument`).
- `_error_response_mode` announces that errors of a token flow go to the fragment.
  A refusal raised while tokens are issued goes to the query, and a code may already
  be saved (`TokenFlowErrorInQueryIff`, `HybridErrorInQuery`).
- An error may be redirected only to a verified address, except the two errors raised
  before the client is looked up (`RedirectableTargetIff`, `UnknownClientIsRedirected`).
- An encrypted request object is to be treated as the document it opens to. With a
  `request_uri` beside it, the refusal of the plain document echoes its `state` and
  that of the encrypted one cannot (`EncryptionIsTransparentIff`, `EncryptionHidesTheState`).
- A response in the clear is written without encoding its values, so what a client reads
  is what it is told exactly when no value holds an ampersand (`ResponseReachesClient`,
  `AmpersandIsNotReadBack`).
- An error about a pushed reference takes its mode from the pushed `response_mode`
  alone, so a token flow without an explicit mode, or with `jwt`, is answered in the
  query (`ErrorModesAgreeIff`, `DefaultTokenModeIsLost`).
- A valid proof of possession is said to set the `dpop_jkt` of a pushed request that
  declares none; when the parameter is present but empty it does not (`ProofBindsIff`,
  `EmptyThumbprintIsUnbound`).
- A malformed `session_state` is said to be rejected without computation; a
  well-shaped one with a character outside ASCII makes the comparison raise
  (`RaisesIff`, `AccentedValueRaises`). A value binds one session exactly
  when its client id, origin and session identifier hold no space
  (`BindsOneSessionIff`, `SpacesBreakTheBinding`).
- A sole resource value that is itself the text of a JSON array does not survive the
  codec (`RoundTripIff`, `ArrayTextIsLost`).
- With proactive rotation off, a key retired without any deletion leaves its algorithm
  with no active key (`ActiveAfterPublicationIff`, `RetiredWithoutSuccessor`). An
  algorithm without key pairs in the unfiltered rotation list makes every publication
  raise (`PublicationGoesThroughIff`, `SymmetricRotationRaises`).
- Revoking a live token whose `exp` is not a JSON number reports success and changes
  nothing for it (`RevocationTakesEffectIff`). Access tokens always carry an integer
  `exp`; a signed user info response carries none, has the server's issuer and
  signature, and so passes the same validation (`UserInfoResponseSurvivesRevocation`).

## Model

| member | source | states |
|---|---|---|
| Federation.FetchConfiguration | src/puridentityserver/application/federation.py:452-485 | a configuration obtained is what its token says of the identifier asked for, under the keys the token itself carries |
| Federation.FetchedConfigurationIff | src/puridentityserver/application/federation.py:452-485 | a configuration is obtained exactly when the well-known address served a token that is one |
| Federation.ConfigurationFacts | src/puridentityserver/application/federation.py:452-485 | it is self-signed by that identifier, well formed and not expired |
| Federation.FetchSubordinate | src/puridentityserver/application/federation.py:487-515 | a subordinate statement obtained verifies under the superior's keys with the superior as issuer and the subject asked for |
| Federation.FetchedSubordinateIff | src/puridentityserver/application/federation.py:487-515 | a subordinate statement is obtained exactly when the endpoint, with or without a query of its own, served a token that attests the subject; without an endpoint nothing is asked |
| Federation.ObtainedIsSaid | src/puridentityserver/application/federation.py:452-515 | whatever is obtained says field by field what its own token claims |
| Federation.AttestationFacts | src/puridentityserver/application/federation.py:487-515 | it names that issuer and that subject, and is not expired |
| Federation.FirstSuperior | src/puridentityserver/application/federation.py:439-450 | the superior found is named by an unseen hint and answers for it with its own configuration |
| Federation.NextSuperior | src/puridentityserver/application/federation.py:439-450 | the loop over the hints picks that superior and marks exactly its hint as seen |
| Federation.FirstIsChosen | src/puridentityserver/application/federation.py:439-450 | with stable answers the superior is the one of the first hint that is neither seen nor unreachable, both ways |
| Federation.ResolveChainFrom | src/puridentityserver/application/federation.py:160-205 | for any fetcher, the imperative climb terminates and returns what the recursive climb and the final checks give, including the requests it makes |
| Federation.ClimbSound | src/puridentityserver/application/federation.py:172-186 | every superior is self-signed, named in the hints below it, visited once, and attests the original subject under its own keys; the climb stops on an anchor |
| Federation.AnchorIff | src/puridentityserver/application/federation.py:422-437 | which configurations end a climb: the anchor asked for, or else a configured one or one without superiors |
| Federation.ClimbIffLadder | src/puridentityserver/application/federation.py:172-186 | with stable answers the climb succeeds exactly along the one path of first reachable superiors that all attest the leaf |
| Federation.ClimbIsBounded | src/puridentityserver/application/federation.py:172-186 | no climb takes more turns than there are fetchable identifiers not yet seen |
| Towers.TowersAreSound | src/puridentityserver/infrastructure/federation.py:69-130 | the federations used as examples respect everything promised of a verifier, one token carrying one set of claims |
| Towers.EndlessClimb | src/puridentityserver/application/federation.py:172-186 | without that bound there is a federation over which the loop never ends |
| Towers.UnlinkedChain | src/puridentityserver/application/federation.py:181-185 | a chain through two superiors is returned and breaks the link of section 10.2 |
| Federation.ClimbIgnoresUniverse | src/puridentityserver/application/federation.py:172-186 | the climb is the same whatever finite set bounds it |
| Federation.ResolvedIgnoresUniverse | src/puridentityserver/application/federation.py:160-205 | and so is the chain returned |
| Federation.ResolvedChainIsSound | src/puridentityserver/application/federation.py:160-221 | a returned chain starts with the given statement, has one verified statement per superior about the original subject, ends with the configuration of a trusted anchor, verifies under the attested keys, and pairs every statement with its token |
| Federation.ChainIsSaid | src/puridentityserver/application/federation.py:160-205 | policy, metadata, keys and hints of every statement of a returned chain are those its own token claims |
| Federation.LinkedIffOneSuperior | src/puridentityserver/application/federation.py:181-185 | the link of section 10.2 holds along a sound chain exactly when at most one superior was visited |
| Federation.LinkedIffAnchorWithinReach | src/puridentityserver/application/federation.py:172-186 | so it holds along a returned chain exactly when the statement, or the first superior it reaches, is a trust anchor |
| Federation.ChainExpiration | src/puridentityserver/application/federation.py:527-533 | the expiry of a chain is the least of its statements' expiries: a lower bound that is attained |
| Federation.TruncateMeaning | src/puridentityserver/application/federation.py:527-533 | an instant counts by its whole seconds, towards zero |
| Federation.StatementsAreAlive | src/puridentityserver/application/federation.py:160-205 | no statement of a returned chain is expired |
| Federation.ExplicitRegister | src/puridentityserver/application/federation.py:223-259 | each refusal has its code; a grant expires with the shortest-lived statement of its chain, names the anchor and the immediate superior of that chain (trusted, and hinted at by the applicant), carries the applicant's keys, the issue time and the metadata the chain settles |
| Federation.RegistrationIff | src/puridentityserver/application/federation.py:261-302 | which registration requests are accepted, as which statement, and with which code the others are refused |
| Federation.ValidatedFacts | src/puridentityserver/application/federation.py:261-302 | an accepted registration request is self-signed, alive, well formed, has hints, and says what its token claims |
| Federation.GrantFollows | src/puridentityserver/application/federation.py:304-337 | the claims of the response satisfy those guarantees whenever the chain is sound |
| Federation.GrantSettles | src/puridentityserver/application/federation.py:244-259 | what a grant registers, parameter by parameter, read off the tokens of its chain: the policies they claim settle what the applicant's token declares |
| Federation.ResolveEntity | src/puridentityserver/application/federation.py:362-387 | a resolve response carries the tokens of the chain found, for the subject asked for, the metadata it settles and the issue time, and expires with the shortest-lived statement |
| EntityStatements.Parse | src/puridentityserver/domain/federation.py:333-380 | a parsed statement names an issuer, a subject and hints that are Entity Identifiers, and only standard entity types |
| EntityStatements.IdentifierIff | src/puridentityserver/domain/federation.py:104 | a one-line text is an Entity Identifier exactly when it is under `https`, has a host, no white space and no fragment, and at most one query mark where a query may begin |
| EntityStatements.FinalLineFeed | src/puridentityserver/domain/federation.py:104 | one final line feed is tolerated |
| EntityStatements.ParsesIff | src/puridentityserver/domain/federation.py:333-380 | exactly the parseable claims give a statement, and it says field by field what they say: keys, hints, metadata and policy included |
| EntityStatements.PolicyMeaning | src/puridentityserver/domain/federation.py:227-270 | parameter by parameter a chain settles the value imposed nearest the anchor, else what the subject declares, else the default suggested nearest the subject; entity types never change |
| EntityStatements.DerivesClientIff | src/puridentityserver/domain/federation.py:273-323 | a client is found exactly when there are redirections, and inline keys or, without an inline set, their address |
| EntityStatements.RegisteredMeaning | src/puridentityserver/application/federation.py:317-335 | parameter by parameter, what is registered: the own identifier and method, and otherwise what the policies settle; only a declared relying party is registered |
| PushedAuthorization.PushedAuthorizationUseCase.Push | src/puridentityserver/application/par.py:274-373 | a refused push stores nothing; an accepted one adds one record under the new reference and changes nothing else |
| PushedAuthorization.PushedAuthorizationUseCase.Resolve | src/puridentityserver/application/par.py:407-470 | what is answered and what the visit leaves of the store |
| PushedAuthorization.PushedAuthorizationUseCase.Complete | src/puridentityserver/application/par.py:472-487 | a known reference is marked consumed, nothing else changes |
| PushedAuthorization.PushThenResolve | src/puridentityserver/application/par.py:304-368 | for every parameter map, request object and proof, the request rebuilt from the kept parameters is the one validated, passes validation again, and has a registered redirection; the secret is not kept |
| PushedAuthorization.PushAcceptedIff | src/puridentityserver/application/par.py:274-373 | when a push is accepted and as what: it names no reference, its request object opens, its client is active and authenticates, without a secret if public, PKCE is there under FAPI, the proof agrees, and the request is acceptable |
| PushedAuthorization.PushRefusal | src/puridentityserver/application/par.py:274-349 | the answer to every refused push, by the first step that refuses it |
| PushedAuthorization.AuthenticatedIff | src/puridentityserver/application/par.py:226-272 | which client a push authenticates |
| PushedAuthorization.ProofCheckedIff | src/puridentityserver/application/par.py:375-405 | when a proof passes, and with which thumbprint |
| PushedAuthorization.PushIsAuthenticated | src/puridentityserver/application/par.py:226-323 | an accepted push comes from an active client that authenticates with the opened request object, with PKCE under S256 for both FAPI profiles |
| PushedAuthorization.PushIsSignedIff | src/puridentityserver/application/par.py:281-319 | the free parameters of an accepted push are without influence exactly when there is a resolver and it recognises a FAPI client |
| PushedAuthorization.PushKeepsVerifiedClaims | src/puridentityserver/application/par.py:281-369 | then everything it keeps, but for the authentication keys and the thumbprint of the proof, is a verified claim |
| PushedAuthorization.AssertionHidesTheClient | src/puridentityserver/application/par.py:240-244 | a FAPI client named only by its assertion pushes without a request object, and all that is kept is unsigned |
| PushedAuthorization.ProofBindsIff | src/puridentityserver/application/par.py:325-329 | a push with a proof needs a valid proof that agrees with the declared thumbprint, and binds the request to its key exactly when no empty thumbprint is declared |
| PushedAuthorization.EmptyThumbprintIsUnbound | src/puridentityserver/application/par.py:325-329 | a push with a valid proof and an empty thumbprint is accepted and bound to no key |
| PushedAuthorization.RebuiltFromKept | src/puridentityserver/application/par.py:452-470 | leaving the client secret out changes no field of the rebuilt request |
| PushedAuthorization.PushErrorsStayDirect | src/puridentityserver/application/par.py:119-136 | a refused push never announces a redirection, answers 401 exactly for `invalid_client`, and never leaks `invalid_redirect_uri` |
| PushedAuthorization.ErrorModesAgreeIff | src/puridentityserver/application/par.py:139-165 | the error mode of a known reference is the one of the direct route exactly for explicit fragment or form_post, or when no token is returned |
| PushedAuthorization.DefaultTokenModeIsLost | src/puridentityserver/application/par.py:139-165 | a dead reference to a token flow without a mode is reported in the query, where the direct route uses the fragment |
| PushedAuthorization.RunKeepsInvariant | src/puridentityserver/application/par.py:351-373 | in every reachable store each record is as pushed but for its consumption, and its redirection was registered for its client at push time |
| PushedAuthorization.ResolveErrorsCarryRegisteredTargets | src/puridentityserver/application/par.py:432-450 | so an error about a known reference carries a registered redirection and the pushed state, and an error about an unknown one carries neither |
| PushedAuthorization.ReferenceLifecycle | src/puridentityserver/application/par.py:407-487 | over every later run a reference resolves exactly for the pushing client, before its expiry and while not completed, always to the request that was validated |
| PushedAuthorization.DeadForever | src/puridentityserver/application/par.py:424-442 | once dead for its own client it never resolves again for anyone, despite the deferred deletion |
| PushedAuthorization.OtherClientsLeaveItAlone | src/puridentityserver/application/par.py:444-450 | a visit by another client changes nothing while the reference is live |
| Authorization.ParseMaxAge | src/puridentityserver/application/authorize.py:1184-1200 | a non-negative age is returned exactly for a non-negative integer |
| Authorization.ModesMeaning | src/puridentityserver/application/authorize.py:1064-1105 | which mode answers a request and which its errors, for every mode asked for |
| Authorization.ValidTypesIff | src/puridentityserver/application/authorize.py:95-105 | the supported response types are exactly the non-empty subsets of code, id_token and token |
| Authorization.ValidateAcceptsIff | src/puridentityserver/application/authorize.py:307-407 | the ladder of checks accepts exactly the acceptable requests, described on the words and parameters of the request, and never resolves a token flow to the query |
| Authorization.RefusedForFirstFault | src/puridentityserver/application/authorize.py:207-407 | the code and the mode of every refusal, by the first fault in the order of the checks |
| Authorization.RedirectableTargetIff | src/puridentityserver/application/authorize.py:327-352 | an error may be redirected exactly when its redirection is registered for an active client, or it was raised before the client lookup |
| Authorization.UnknownClientIsRedirected | src/puridentityserver/application/authorize.py:327-332 | an empty response type is refused to any address, with no client registered |
| Authorization.LateRefusalReasons | src/puridentityserver/application/authorize.py:354-398 | what each refusal after the client lookup tells of the request, whatever the order of the checks |
| Authorization.RefusalReasons | src/puridentityserver/application/authorize.py:323-398 | `invalid_client` and `invalid_redirect_uri` have exact conditions; `invalid_target` and `invalid_scope` come only after a verified redirection and for a real fault |
| Authorization.AuthorizeUseCase.Execute | src/puridentityserver/application/authorize.py:669-717 | the result issued and the at most one code saved; nothing else in the store changes |
| Authorization.SavedCodeIsBound | src/puridentityserver/application/authorize.py:753-789 | a saved code is issued for an acceptable request only, holds each of its parameters, and has one subject material for the whole flow |
| Authorization.FirstSupportedMeaning | src/puridentityserver/application/authorize.py:1226-1231 | the level recorded is the first one asked for that is supported, and empty exactly when none is |
| Authorization.BeforeHashOfFragment | src/puridentityserver/application/authorize.py:1045-1061 | what precedes the fragment of a built address was already in its base |
| Authorization.TokensStayOutOfTheQuery | src/puridentityserver/application/authorize.py:719-751 | over all response types, modes and signer failures, a response with tokens is a form post to the registered address, carries only the signed envelope, or adds nothing before the `#` |
| Authorization.LookupSplit | src/puridentityserver/application/authorize.py:990-1028 | a parameter added later never hides one added before |
| Authorization.ResponseCarries | src/puridentityserver/application/authorize.py:990-1028 | each artefact is found under its own name with its own value, and no name is present without its artefact |
| Authorization.ResultHolds | src/puridentityserver/application/authorize.py:669-717 | a result holds exactly the artefacts its response types ask for, the lifetime of tokens, the state of the request and the resolved mode |
| Authorization.PairsAreReadBackIff | src/puridentityserver/application/authorize.py:1045-1061 | pairs written into an address are read back exactly when no value holds an ampersand |
| Authorization.ResponseReachesClient | src/puridentityserver/application/authorize.py:699-751 | in every mode what reaches the client tells each artefact of the result, the state and what goes with them under its own name, exactly when non-empty: in the body of a form post, in the envelope, or read back from the address |
| Authorization.AmpersandIsNotReadBack | src/puridentityserver/application/authorize.py:735-751 | a state with an ampersand is not read back as it was given |
| Authorization.TokenFlowErrorInQueryIff | src/puridentityserver/application/authorize.py:791-898 | a refusal of a token flow is put in the query exactly when the request was valid and the id_token material is missing; that is also exactly when a code can be left behind |
| Authorization.ValidationKeepsTokensOut | src/puridentityserver/application/authorize.py:1089-1105 | no refusal of the validation sends a token flow to the query |
| Authorization.HybridErrorInQuery | src/puridentityserver/application/authorize.py:791-898 | a valid hybrid request without id_token material is refused in the query with its code saved |
| RequestObject.FapiNonInterference | src/puridentityserver/application/request_object.py:236-275 | when a FAPI client is recognised, or the request is refused, transports that agree on the document and the authentication keys give the same result, success or error |
| RequestObject.DocumentMeaning | src/puridentityserver/application/request_object.py:387-407 | where the document comes from, and when its reference is refused |
| RequestObject.OpensIff | src/puridentityserver/application/request_object.py:446-484 | which documents open, and to what |
| RequestObject.ReadingMeaning | src/puridentityserver/application/request_object.py:486-494 | what is read of a document before any verification, and how a value becomes a parameter |
| RequestObject.StringifiedMeaning | src/puridentityserver/application/request_object.py:559-563 | every claim becomes a parameter under its own name |
| RequestObject.GoverningMeaning | src/puridentityserver/application/request_object.py:262-266 | the client of the transport governs a request, or else the issuer of its document, among the known ones |
| RequestObject.OneClientIsNamed | src/puridentityserver/application/request_object.py:588-609 | when the transport and the document name two clients the answer is exactly `invalid_request`; a success names at most one |
| RequestObject.FapiClaimsIff | src/puridentityserver/application/request_object.py:343-379 | which claims the FAPI profile accepts, and the code of its refusals |
| RequestObject.UnsignedClaimsIff | src/puridentityserver/application/request_object.py:517-536 | which documents are read unsigned, and to what |
| RequestObject.StandardClaimsIff | src/puridentityserver/application/request_object.py:277-341 | which parameters a document gives outside FAPI |
| RequestObject.StandardRefusal | src/puridentityserver/application/request_object.py:277-341 | the code of every refusal outside FAPI |
| RequestObject.ResolvesIff | src/puridentityserver/application/request_object.py:236-275 | when a request resolves, and to what |
| RequestObject.ResolveRefusal | src/puridentityserver/application/request_object.py:236-275 | the code of every refusal, by the first step that refuses |
| RequestObject.FapiNonInterferenceIff | src/puridentityserver/application/request_object.py:236-275 | for every request of every client, free parameters are without influence exactly when it is refused or a FAPI client is recognised |
| RequestObject.UnsignedDocumentNamesFapiClient | src/puridentityserver/application/request_object.py:262-273 | an unsigned document that names a FAPI client in `client_id` alone is accepted, with an unsigned parameter of the transport beside it |
| RequestObject.FapiSuccessIsMerge | src/puridentityserver/application/request_object.py:343-379 | every success under a recognised FAPI client, encrypted or by reference, is made of verified claims |
| RequestObject.MergeFapiMeaning | src/puridentityserver/application/request_object.py:573-585 | which names survive a FAPI merge, and that a claim wins over the transport |
| RequestObject.FapiSuccessIsSigned | src/puridentityserver/application/request_object.py:343-379 | in a success under a recognised FAPI client every parameter but the authentication keys is a verified claim, the mandatory ones are present, and no embedded document is left |
| RequestObject.StandardSuccessPrefersClaims | src/puridentityserver/application/request_object.py:566-570 | outside FAPI the document's claims win over the transport and the rest of the transport is kept |
| RequestObject.StandardSuccessIsAuthentic | src/puridentityserver/application/request_object.py:277-341 | outside FAPI a document is believed only if it is unsigned where that is allowed, or signed by its client with the claims its profile demands |
| RequestObject.FederatedProfileIff | src/puridentityserver/application/request_object.py:277-341 | the federated profile is enforced exactly when the header announces an algorithm that is not read unsigned |
| RequestObject.UnsignedFederatedDocument | src/puridentityserver/application/request_object.py:296-298 | an unsigned federated document with a subject and no expiry is accepted |
| RequestObject.OpenedUnderPublishedAlgorithms | src/puridentityserver/application/request_object.py:446-484 | a document is decrypted only under a published key algorithm and content encryption |
| RequestObject.EncryptionIsTransparentIff | src/puridentityserver/application/request_object.py:428-484 | a JWE that opens to a plain document gives exactly the result of that document, error code and echoed state included, under every profile, except exactly when a `request_uri` comes with a document that has a state |
| RequestObject.EncryptionHidesTheState | src/puridentityserver/application/request_object.py:387-407 | such a request: the plain form echoes its state and the encrypted form does not |
| RequestObject.SameDocumentResolved | src/puridentityserver/application/request_object.py:236-275 | once the document is known, encryption and the two embedding parameters change nothing |
| RequestObject.ReferenceIsTransparent | src/puridentityserver/application/request_object.py:387-407 | so does a document passed by reference, encrypted or not |
| RequestObject.EchoedState | src/puridentityserver/application/request_object.py:639-653 | a refusal echoes the state of the readable document, and nothing of the transport |
| SigningKeys.KeyManager.EnsureActiveKey | src/puridentityserver/infrastructure/jwks.py:171-175 | a key is generated only when the algorithm has no active one |
| SigningKeys.KeyManager.RotateKey | src/puridentityserver/infrastructure/jwks.py:129-140 | the new pair is stored and active, the former active keys of the algorithm are retired, nothing else changes |
| SigningKeys.KeyManager.MarkExpiredKeys | src/puridentityserver/infrastructure/jwks.py:112-127 | the loop applies the daily policy to every key and counts the deletions |
| SigningKeys.Retired | src/puridentityserver/infrastructure/jwks.py:138-139 | key by key, exactly the active keys of the algorithm become inactive |
| SigningKeys.AlgorithmsMeaning | src/puridentityserver/application/jwks.py:18-24 | which algorithms have key pairs, and which are rotated: those listed, or else every managed one |
| SigningKeys.FilterKeepsOrder | src/puridentityserver/infrastructure/jwks.py:101-103 | active and retired keys keep the order of the store and none is lost |
| SigningKeys.Newest | src/puridentityserver/application/jwks.py:200 | the key chosen is an active one of the algorithm and none is more recent; there is one exactly when some key signs |
| SigningKeys.DailyMeaning | src/puridentityserver/infrastructure/jwks.py:112-127 | exactly the keys beyond the grace period are deleted, and exactly the active keys within their period stay active |
| SigningKeys.DailyDeletesIff | src/puridentityserver/infrastructure/jwks.py:119-127 | something is deleted exactly when some key is expired |
| SigningKeys.JWKSetUseCase.Initialise | src/puridentityserver/application/jwks.py:90-102 | the state of both families after the start-up generation, including where it raises |
| SigningKeys.JWKSetUseCase.GetActiveKeys | src/puridentityserver/application/jwks.py:104-107 | the daily policy is applied, then the active keys are returned |
| SigningKeys.JWKSetUseCase.MarkExpiredKeys | src/puridentityserver/application/jwks.py:164-177 | keys are generated again only after a purge that deleted something |
| SigningKeys.JWKSetUseCase.RotateOldKeys | src/puridentityserver/application/jwks.py:179-203 | the loop refreshes each rotated algorithm in turn and stops where it raises |
| SigningKeys.JWKSetUseCase.EncryptionKeysToPublish | src/puridentityserver/application/jwks.py:149-162 | the active encryption keys, one being generated only when there is none |
| SigningKeys.JWKSetUseCase.GetPublishedKeys | src/puridentityserver/application/jwks.py:109-130 | both stores after a publication and the whole list: active signing keys, retired ones newest first, encryption keys; nothing when it raises |
| SigningKeys.NewestFirstSorts | src/puridentityserver/infrastructure/jwks.py:157-169 | the retired keys are in decreasing order of creation and none is lost or repeated |
| SigningKeys.SortedByAge | src/puridentityserver/infrastructure/jwks.py:165-169 | in that order no key precedes a more recent one |
| SigningKeys.JWKSetUseCase.RotateSigningKeys | src/puridentityserver/application/jwks.py:132-147 | the state after a rotation on demand |
| SigningKeys.EnsuredAllExtends | src/puridentityserver/application/jwks.py:166-177 | generating missing keys loses no key, and goes through exactly for algorithms with key pairs |
| SigningKeys.RefreshedAllExtends | src/puridentityserver/application/jwks.py:179-203 | a proactive rotation loses no key, leaves every rotated algorithm a young active key and spoils none of the others |
| SigningKeys.RotatedAllExtends | src/puridentityserver/application/jwks.py:132-147 | a rotation on demand loses no key |
| SigningKeys.RotationOnDemandReplaces | src/puridentityserver/application/jwks.py:132-147 | afterwards every algorithm it names signs with a key made by this rotation and with no older one |
| SigningKeys.PublicationKeeps | src/puridentityserver/application/jwks.py:109-130 | a publication keeps exactly the stored keys that are not expired |
| SigningKeys.RunTracks | src/puridentityserver/application/jwks.py:109-147 | over every interleaving of start-ups, readings, signatures, publications, rotations and ticks a key is lost only once expired |
| SigningKeys.PublishedUntilExpiry | src/puridentityserver/application/jwks.py:109-147 | so a key is in a later published set exactly while the publication goes through and its age is below rotation plus grace |
| SigningKeys.RunKeepsWellFormed | src/puridentityserver/application/jwks.py:90-203 | every store reached from the empty one holds only keys of usable algorithms, created in the past, under given identifiers |
| SigningKeys.PublicationRefreshes | src/puridentityserver/application/jwks.py:179-203 | with proactive rotation on, in every run from the empty store, a publication that goes through publishes for every rotated algorithm an active key younger than the rotation age |
| SigningKeys.PublicationGoesThroughIff | src/puridentityserver/application/jwks.py:205-209 | exactly when a publication goes through instead of raising |
| SigningKeys.SymmetricRotationRaises | src/puridentityserver/application/jwks.py:205-209 | with HS256 in the rotation list no publication goes through and nothing is published |
| SigningKeys.ActiveAfterPublicationIff | src/puridentityserver/application/jwks.py:164-177 | with proactive rotation off, exactly when an algorithm has an active key after a publication |
| SigningKeys.RetiredWithoutSuccessor | src/puridentityserver/application/jwks.py:164-177 | a hundred days after start-up, with rotation at ninety and thirty of grace, the only key published is retired |
| ResourceIndicators.ParseResourceParameter | src/puridentityserver/application/resource_indicators.py:26-53 | the loop returns the distinct non-empty texts of the decoded candidates |
| ResourceIndicators.DistinctMeaning | src/puridentityserver/application/resource_indicators.py:48-52 | every result is a first occurrence, in order of those occurrences, and no non-empty text is lost |
| ResourceIndicators.CleanedValues | src/puridentityserver/application/resource_indicators.py:56-65 | the values encoded are stripped, non-empty and pairwise distinct |
| ResourceIndicators.ReadEscaped | src/puridentityserver/application/resource_indicators.py:70 | every string survives JSON escaping and unescaping, control characters included |
| ResourceIndicators.ReadEncodedItems | src/puridentityserver/application/resource_indicators.py:70 | the items of an encoded array are read back in order |
| ResourceIndicators.DecodeEncodedArray | src/puridentityserver/application/resource_indicators.py:39-46 | every array the encoder writes is decoded to exactly the list it was given |
| ResourceIndicators.DecodesIff | src/puridentityserver/application/resource_indicators.py:39-46 | the decoder accepts exactly the JSON arrays of strings, in every spelling and layout, as the strings they spell |
| ResourceIndicators.SpelledWhenRead | src/puridentityserver/application/resource_indicators.py:41 | every character read was one of its spellings: itself, a short escape, or one or two UTF-16 units |
| ResourceIndicators.RoundTripIff | src/puridentityserver/application/resource_indicators.py:26-70 | parsing the encoding of any list of strings gives the cleaned list, except exactly when a sole value is the text of a JSON array |
| ResourceIndicators.ArrayTextIsLost | src/puridentityserver/application/resource_indicators.py:39-46 | the list holding only `[]` is a value on which the round trip fails |
| SessionState.Base64UrlRoundTrip | src/puridentityserver/application/session_management.py:65-70 | unpadded base64url loses nothing, for byte strings of every length |
| SessionState.SplitRecoversSalt | src/puridentityserver/application/session_management.py:57-63 | the last dot separates digest and salt, whatever the digest part |
| SessionState.AcceptedIff | src/puridentityserver/application/session_management.py:43-63 | the accepted values are exactly the encodings under some salt of the alphabet |
| SessionState.RaisesIff | src/puridentityserver/application/session_management.py:63 | the comparison raises exactly on well-shaped values outside ASCII |
| SessionState.AccentedValueRaises | src/puridentityserver/application/session_management.py:63 | an accented letter, a dot and a letter make the comparison raise, for every session |
| SessionState.PayloadInjective | src/puridentityserver/application/session_management.py:67 | without spaces in the client and the origin, equal payloads mean equal sessions |
| SessionState.CreatedIsAcceptedIff | src/puridentityserver/application/session_management.py:26-63 | a created value is accepted for another session exactly when the two payloads have one digest |
| SessionState.BoundToItsSession | src/puridentityserver/application/session_management.py:26-63 | absent a collision, a value verifies for exactly the client, origin and session it was made for |
| SessionState.SpacesBreakTheBinding | src/puridentityserver/application/session_management.py:67 | with a space in the client or the origin two sessions can share one value |
| SessionState.PayloadIsOwnIff | src/puridentityserver/application/session_management.py:67 | a payload belongs to one session alone exactly when that session holds no space |
| SessionState.BindsOneSessionIff | src/puridentityserver/application/session_management.py:26-63 | under a digest without collisions a value verifies for no other session exactly when its own session holds no space |
| TokenGates.RevocationUseCase.Execute | src/puridentityserver/application/revocation.py:80-111 | the result, the new denylist and the number of entries purged |
| TokenGates.RunHolds | src/puridentityserver/application/revocation.py:97-111 | over every run of revocations, purges and ticks a revoked token stays on the denylist until its own expiry |
| TokenGates.RevokedIsRefusedForever | src/puridentityserver/application/revocation.py:97-119 | a live token with a numeric expiry, revoked once, is refused by all three gates at every later instant |
| TokenGates.RevocationTakesEffectIff | src/puridentityserver/application/revocation.py:113-119 | the revocation of a live token takes effect exactly when its expiry claim is a number |
| TokenGates.UserInfoResponseSurvivesRevocation | src/puridentityserver/infrastructure/tokens.py:159-178 | a signed user info response without expiry passes all three gates and is unaffected by its revocation |
| TokenGates.ConfirmationIff | src/puridentityserver/application/protected_resource.py:192-202 | which text of the confirmation of a token binds it |
| TokenGates.CertificateMatchesIff | src/puridentityserver/application/tls_binding.py:14-36 | a token that names a certificate passes with that very certificate only; on any other the certificate has no influence |
| TokenGates.BindingErrorIff | src/puridentityserver/application/protected_resource.py:139-189 | a token that names a key passes with a proof of that very key only, and how the others are refused |
| TokenGates.ResourceAcceptsIff | src/puridentityserver/application/protected_resource.py:110-189 | each resource accepts exactly a live, unrevoked token presented with the certificate and the key its claims name; user info asks for a subject as well |
| TokenGates.ResourceRefusal | src/puridentityserver/application/protected_resource.py:110-189 | which error answers each refused presentation |
| TokenGates.IntrospectionIff | src/puridentityserver/application/introspect.py:79-104 | what introspection answers, in all four cases |
| TokenGates.PurgeIff | src/puridentityserver/application/revocation.py:97 | a purge drops exactly the entries whose date is past |
| TokenGates.ExpiryIff | src/puridentityserver/application/revocation.py:113-119 | the date a revocation is kept until, for every claim |
| TokenGates.BindingStepsAgree | src/puridentityserver/application/userinfo.py:271-361 | the binding step, written separately in each use case, gives the same verdict on every presentation |
| TokenGates.GatesAgree | src/puridentityserver/application/userinfo.py:157-181 | user info accepts exactly what the protected resource accepts with a subject, with the same refusals otherwise, and either acceptance means an active introspection |
| TokenGates.DpopTypeIff | src/puridentityserver/application/protected_resource.py:139-202 | introspection reports `DPoP` exactly when both gates refuse the otherwise valid token under the Bearer scheme |
| TokenGates.SelectClaims | src/puridentityserver/application/introspect.py:106-133 | the step-by-step filling gives the selection as a value |
| TokenGates.IntrospectionTells | src/puridentityserver/application/introspect.py:106-133 | member by member, which claim an introspection shows and when |
| Presentations.PresentationVerifier.CreatePresentationRequest | src/puridentityserver/application/oid4vp.py:45-55 | the new nonce is outstanding, and no other changes |
| Presentations.Texts | src/puridentityserver/application/oid4vp.py:122-130 | the tokens collected are exactly the non-empty strings among the values |
| Presentations.PresentedIff | src/puridentityserver/application/oid4vp.py:122-130 | which texts are presented by each form of `vp_token` |
| Presentations.AcceptedIff | src/puridentityserver/application/oid4vp.py:95-109 | which responses are accepted and which nonces they spend, on the claims of their tokens |
| Presentations.PresentationVerifier.ValidatePresentationResponse | src/puridentityserver/application/oid4vp.py:84-109 | a response with any bad token changes nothing; the nonces of an accepted one are spent together |
| Presentations.RunBalances | src/puridentityserver/application/oid4vp.py:43-109 | over any run outstanding nonces are those issued and not spent in accepted responses |
| Presentations.LedgerBalances | src/puridentityserver/application/oid4vp.py:43-109 | the same from the empty ledger; no nonce serves two responses |
| Presentations.SpentNonceIsRefused | src/puridentityserver/application/oid4vp.py:103-107 | a response that presents a spent nonce changes nothing |
| CredentialOffers.CredentialOfferUseCase.Create | src/puridentityserver/application/oid4vci.py:874-935 | a refusal stores nothing; a success stores one code and one offer and returns the offer, its address and the transaction code |
| CredentialOffers.CredentialOfferUseCase.Resolve | src/puridentityserver/application/oid4vci.py:937-951 | an offer not served is a single error, whatever the reason |
| CredentialOffers.CreationIsAuthorized | src/puridentityserver/application/oid4vci.py:953-1000 | a user offers only to themselves and a machine only to a subject it names; code and offer share holder and expiry |
| CredentialOffers.CreationSucceedsIff | src/puridentityserver/application/oid4vci.py:874-1000 | a creation goes through exactly for a caller with the scope and a subject, supported configurations, and a holder that fits the caller |
| CredentialOffers.CreatedMeaning | src/puridentityserver/application/oid4vci.py:903-935 | what a creation stores and announces, field by field, the transaction code included |
| CredentialOffers.CreationRefusal | src/puridentityserver/application/oid4vci.py:953-1000 | the error of every refused creation, by its first fault |
| CredentialOffers.ClaimTextMeaning | src/puridentityserver/application/oid4vci.py:962-968 | an absent claim counts as empty |
| CredentialOffers.ConfigurationsOffered | src/puridentityserver/application/oid4vci.py:975-985 | the configurations offered are supported, each once, never none, and include all those asked for |
| CredentialOffers.RunTracks | src/puridentityserver/application/oid4vci.py:903-951 | over every run an offer stays as created, and its code but for its consumption |
| CredentialOffers.OfferLifecycle | src/puridentityserver/application/oid4vci.py:903-951 | an offer is served with its constant payload exactly until consumption or expiry, and the two expiry tests agree |
| Ciba.CibaApprovalUseCase.Execute | src/puridentityserver/application/backchannel_authorize.py:638-662 | the decision, the notification log and the answer; a wrong code or unknown id changes nothing |
| Ciba.NormalizeMeaning | src/puridentityserver/domain/authorization.py:531-537 | user codes are read letter by letter and digit by digit, without regard to case or to anything else |
| Ciba.CibaApprovalUseCase.NotifyPing | src/puridentityserver/application/backchannel_authorize.py:696-710 | a ping is sent only in its mode, with an endpoint, a token and a notifier |
| Ciba.CibaApprovalUseCase.NotifyPush | src/puridentityserver/application/backchannel_authorize.py:664-694 | likewise for a push, whose content is rendered from the tokens issued, for an approval only |
| Ciba.OnlyApprovedPushesCarryContent | src/puridentityserver/application/backchannel_authorize.py:664-694 | no tokens travel with a refusal or with a ping |
| Ciba.FirstDecisionStands | src/puridentityserver/application/backchannel_authorize.py:638-662 | after any calls a pending request has the decision of the first call that addressed it, pending if none, and exactly that decision's notification was sent |
| Ciba.DecisionIsKept | src/puridentityserver/application/backchannel_authorize.py:650-651 | a decided request keeps its record and sends nothing more |
| Ciba.RequestsStay | src/puridentityserver/application/backchannel_authorize.py:638-662 | no call creates or removes a request |
| Ciba.ResolveTtl | src/puridentityserver/application/backchannel_authorize.py:583-604 | refused exactly for a non-positive or unreadable value; otherwise the allowed lifetime nearest to the one asked for, in `[min(min_ttl, ttl), ttl]` |

## Left out

- Signatures, encryption, digests and thumbprints are oracles; only the assumptions named above are made about them.
- Federation.ResolveChainFrom: asks that finitely many identifiers have fetchable configurations, because otherwise the loop need not end (`EndlessClimb`); the bound is ghost and changes no result (`ResolvedIgnoresUniverse`).
- EntityStatements.Parse: the typing of claims, of constraints and of policies is one flag; metadata whose entity types are not objects, on which the code may raise another exception, is not modelled.
- Federation.ExplicitRegister: the signature of the response is left out, and so are the texts of its errors.
- ResourceIndicators.RoundTripIff: arrays holding anything but strings, and lone surrogates, are left to an oracle for `json.loads`, of which it asks that decoding a text never gives back just that text.
- TokenGates.RevokedIsRefusedForever: an expiry beyond what a date can hold, which raises in the code, is not modelled.
- TokenGates.GatesAgree: `/protected-resource` returns the subject and scope as text; the model returns the claims they are read from. The rendering and signing of user info after the gate are left out.
- RequestObject.EchoedState: a non-textual `alg` is rendered by `str()` in the code and as JSON here; the verifier keeps its replay store, so two calls of one request are compared under one verifier answer.
- PushedAuthorization.ReferenceLifecycle: the answer of `resolve` does not re-check the registries, which may have changed since; validity is stated for the registries of the push.
- Authorization.AuthorizeUseCase.Execute: contents of tokens, resolution of audiences and sorting of scope names are oracles.
- Authorization.RealmMatches: scope names are compared as text; the registries of scopes and resources answer as sets.
- SigningKeys.NewestFirstSorts: identifiers of keys are numbers in order of creation, where the code compares random text to break a tie between equal instants.
- SigningKeys.PublishedUntilExpiry: instants and durations share one unit; the encryption family has its own store.
- CredentialOffers.OfferLifecycle: the digest of a transaction code is the code itself; other flows are one event that saves a new code.
- Ciba.CibaApprovalUseCase.Execute: user codes are upper-cased on ASCII letters only, and tokens and rendered notifications are texts given by oracles.
- `int()` of a text parameter, URL syntax, claims parameters and authorization details are parsers given as oracles.
- Error descriptions, interleavings inside one call, and the HTTP, persistence and network layers.
- Discovery, consent, device authorization, logout, subordinate statements, token endpoint, dynamic registration and credential issuance: not part of this model.
