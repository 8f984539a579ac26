/** The nonce ledger of presentation requests (OpenID for Verifiable Presentations). */
module Presentations {
  import opened Wrappers
  import opened Json

  /** A `vp_token` as it arrives: absent, one text, a list, or an object in member order. */
  datatype VpToken = Missing | Text(s: string) | List(items: seq<Value>) | Query(members: seq<(string, Value)>)

  /** Signature, audience and expiry check of one token: its claims, or `None`. */
  type Verifier = string -> Option<Claims>

  datatype Response = Received | InvalidRequest | InvalidPresentation

  function Texts(values: seq<Value>): (r: seq<string>)
    ensures forall t :: t in r <==> t != "" && Str(t) in values
  {
    if values == [] then []
    else (if values[0].Str? && values[0].s != "" then [values[0].s] else []) + Texts(values[1..])
  }

  /** `_all_tokens` */
  function AllTokens(vp: VpToken): seq<string> {
    match vp
    case Missing => []
    case Text(s) => if s != "" then [s] else []
    case List(items) => Texts(items)
    case Query(members) => Texts(seq(|members|, i requires 0 <= i < |members| => members[i].1))
  }

  function NonceOf(verify: Verifier, token: string): Option<string> {
    match verify(token)
    case None => None
    case Some(claims) => if "nonce" in claims && claims["nonce"].Str? then Some(claims["nonce"].s) else None
  }

  function Nonces(verify: Verifier, tokens: seq<string>): set<string> {
    set t | t in tokens && NonceOf(verify, t).Some? :: NonceOf(verify, t).value
  }

  /** There is a token, and each one is genuine and answers an outstanding request. */
  predicate Accepted(verify: Verifier, outstanding: set<string>, tokens: seq<string>) {
    tokens != [] && forall t :: t in tokens ==> NonceOf(verify, t).Some? && NonceOf(verify, t).value in outstanding
  }

  /** The text is one of those presented, alone, in a list or under any member. */
  ghost predicate Presents(vp: VpToken, t: string) {
    t != "" &&
    match vp
    case Missing => false
    case Text(s) => s == t
    case List(items) => Str(t) in items
    case Query(members) => exists i :: 0 <= i < |members| && members[i].1 == Str(t)
  }

  /** The token is genuine and answers the request of that nonce. */
  predicate Answers(verify: Verifier, token: string, nonce: string) {
    match verify(token)
    case None => false
    case Some(claims) => "nonce" in claims && claims["nonce"] == Str(nonce)
  }

  lemma PresentedIff(vp: VpToken, t: string)
    ensures t in AllTokens(vp) <==> Presents(vp, t)
  {
    if vp.Query? {
      var values := seq(|vp.members|, i requires 0 <= i < |vp.members| => vp.members[i].1);
      assert forall i :: 0 <= i < |vp.members| ==> values[i] == vp.members[i].1;
      assert Str(t) in values <==> exists i :: 0 <= i < |vp.members| && vp.members[i].1 == Str(t);
    }
  }

  /** Which responses are accepted, and which nonces they spend: everything presented answers some outstanding request. */
  lemma AcceptedIff(verify: Verifier, outstanding: set<string>, vp: VpToken, nonce: string)
    ensures Accepted(verify, outstanding, AllTokens(vp)) <==>
      && (exists t :: Presents(vp, t))
      && (forall t :: Presents(vp, t) ==> exists n :: n in outstanding && Answers(verify, t, n))
    ensures nonce in Nonces(verify, AllTokens(vp)) <==> exists t :: Presents(vp, t) && Answers(verify, t, nonce)
  {
    hide AllTokens, Presents;
    var tokens := AllTokens(vp);
    forall t ensures t in tokens <==> Presents(vp, t) {
      PresentedIff(vp, t);
    }
    forall t, n ensures NonceOf(verify, t) == Some(n) <==> Answers(verify, t, n) {
    }
    if tokens != [] {
      assert tokens[0] in tokens;
    }
    forall t | t in tokens
      ensures (NonceOf(verify, t).Some? && NonceOf(verify, t).value in outstanding)
        <==> exists n :: n in outstanding && Answers(verify, t, n)
    {
      if NonceOf(verify, t).Some? {
        assert Answers(verify, t, NonceOf(verify, t).value);
      }
    }
  }

  class PresentationVerifier {
    var nonces: set<string>

    constructor ()
      ensures nonces == {}
    {
      nonces := {};
    }

    method CreatePresentationRequest(nonce: string)
      modifies this
      ensures nonces == old(nonces) + {nonce}
    {
      nonces := nonces + {nonce};
    }

    /** All the nonces of an accepted response are spent together; any bad token leaves the ledger as it was. */
    method ValidatePresentationResponse(verify: Verifier, vp: VpToken) returns (r: Response)
      modifies this
      ensures var tokens := AllTokens(vp);
        && r == (if tokens == [] then InvalidRequest
                 else if Accepted(verify, old(nonces), tokens) then Received else InvalidPresentation)
        && nonces == (if r == Received then old(nonces) - Nonces(verify, tokens) else old(nonces))
    {
      var tokens := AllTokens(vp);
      if tokens == [] {
        return InvalidRequest;
      }
      var spent: set<string> := {};
      for i := 0 to |tokens|
        invariant nonces == old(nonces)
        invariant forall t :: t in tokens[..i] ==> NonceOf(verify, t).Some? && NonceOf(verify, t).value in nonces
        invariant spent == Nonces(verify, tokens[..i])
      {
        var nonce := NonceOf(verify, tokens[i]);
        assert tokens[i] in tokens;
        if nonce == None || nonce.value !in nonces {
          return InvalidPresentation;
        }
        assert tokens[..i + 1] == tokens[..i] + [tokens[i]];
        spent := spent + {nonce.value};
      }
      assert tokens[..|tokens|] == tokens;
      var left := spent;
      while left != {}
        invariant left <= spent
        invariant nonces == old(nonces) - (spent - left)
        decreases left
      {
        var nonce :| nonce in left;
        nonces := nonces - {nonce};
        left := left - {nonce};
      }
      r := Received;
    }
  }

  // ---- every run ---------------------------------------------------------------------

  datatype Event = Create(nonce: string) | Respond(verify: Verifier, vp: VpToken)

  /** The ledger, with the history of nonces issued and of those each accepted response spent. */
  datatype State = State(outstanding: set<string>, issued: set<string>, accepted: seq<set<string>>)

  function Step(s: State, e: Event): State {
    match e
    case Create(nonce) => s.(outstanding := s.outstanding + {nonce}, issued := s.issued + {nonce})
    case Respond(verify, vp) =>
      var tokens := AllTokens(vp);
      if !Accepted(verify, s.outstanding, tokens) then s
      else s.(outstanding := s.outstanding - Nonces(verify, tokens), accepted := s.accepted + [Nonces(verify, tokens)])
  }

  function Run(s: State, events: seq<Event>): State
    decreases |events|
  {
    if events == [] then s else Run(Step(s, events[0]), events[1..])
  }

  /** Every created nonce is new with respect to all issued before. */
  ghost predicate Admissible(s: State, events: seq<Event>)
    decreases |events|
  {
    events == [] ||
    ((events[0].Create? ==> events[0].nonce !in s.issued) && Admissible(Step(s, events[0]), events[1..]))
  }

  ghost predicate Spent(s: State, nonce: string) {
    exists i :: 0 <= i < |s.accepted| && nonce in s.accepted[i]
  }

  /**
    The ledger balances: outstanding nonces are those issued and not yet spent,
    each accepted response spent at least one, and no nonce served two responses.
  */
  ghost predicate Balanced(s: State) {
    && (forall n :: n in s.outstanding <==> n in s.issued && !Spent(s, n))
    && (forall n :: Spent(s, n) ==> n in s.issued)
    && (forall i :: 0 <= i < |s.accepted| ==> s.accepted[i] != {})
    && (forall i, j :: 0 <= i < j < |s.accepted| ==> s.accepted[i] !! s.accepted[j])
  }

  lemma StepBalances(s: State, e: Event)
    requires Balanced(s) && (e.Create? ==> e.nonce !in s.issued)
    ensures Balanced(Step(s, e))
  {
    var after := Step(s, e);
    if e.Respond? && after != s {
      var spent := Nonces(e.verify, AllTokens(e.vp));
      assert NonceOf(e.verify, AllTokens(e.vp)[0]).value in spent;
      assert after.accepted == s.accepted + [spent];
      forall n ensures Spent(after, n) <==> Spent(s, n) || n in spent {
        if Spent(s, n) {
          var i :| 0 <= i < |s.accepted| && n in s.accepted[i];
          assert n in after.accepted[i];
        }
        if n in spent {
          assert n in after.accepted[|s.accepted|];
        }
      }
      forall i | 0 <= i < |s.accepted| ensures s.accepted[i] !! spent {
        forall n | n in s.accepted[i] ensures n !in spent {
          assert Spent(s, n);
        }
      }
    } else if e.Create? {
      assert forall n :: Spent(after, n) <==> Spent(s, n);
    }
  }

  /** The ledger balances after every run from the empty one. */
  lemma {:induction false} RunBalances(s: State, events: seq<Event>)
    requires Balanced(s) && Admissible(s, events)
    ensures Balanced(Run(s, events))
    decreases |events|
  {
    hide Balanced, Step;
    if events != [] {
      StepBalances(s, events[0]);
      RunBalances(Step(s, events[0]), events[1..]);
    }
  }

  lemma LedgerBalances(events: seq<Event>)
    requires Admissible(State({}, {}, []), events)
    ensures Balanced(Run(State({}, {}, []), events))
  {
    RunBalances(State({}, {}, []), events);
  }

  /** A response that presents a spent nonce is refused, in every state of every run. */
  lemma SpentNonceIsRefused(s: State, verify: Verifier, vp: VpToken, token: string)
    requires Balanced(s) && token in AllTokens(vp)
    requires NonceOf(verify, token).Some? && Spent(s, NonceOf(verify, token).value)
    ensures Step(s, Respond(verify, vp)) == s
  {
    assert NonceOf(verify, token).value !in s.outstanding;
  }
}
