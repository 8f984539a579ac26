/**
  User decisions on backchannel authentication requests (OpenID Connect CIBA
  1.0, sections 7.1, 9 and 10.2). Notifications are recorded in a log.
*/
module Ciba {
  import opened Wrappers

  datatype Status = Pending | Approved | Denied

  datatype Request = Request(
    status: Status, deliveryMode: string, notificationToken: string, notificationEndpoint: string, userCode: string)

  /** What is sent to a client; only a push may carry content. */
  datatype Notification = Notification(mode: string, url: string, token: string, authReqId: string, content: Option<string>)

  /**
    The token use case, as far as pushes go: it may issue tokens for a request
    (none when it refuses) and may render a notification from them.
  */
  datatype TokenUseCase = TokenUseCase(
    issue: Option<Request -> Option<string>>,
    render: Option<(Request, string, Option<string>) -> string>)

  /** The digest of an identifier, which notifiers are injected, and the token use case if there is one. */
  datatype Env = Env(hash: string -> string, hasPing: bool, hasPush: bool, tokens: Option<TokenUseCase>)

  function Upper(c: char): char {
    if 'a' <= c <= 'z' then 'A' + (c - 'a') else c
  }

  /** `normalize_user_code`, on ASCII letters. */
  function NormalizeUserCode(code: string): string {
    if code == "" then ""
    else
      var c := Upper(code[0]);
      (if '0' <= c <= '9' || 'A' <= c <= 'Z' then [c] else "") + NormalizeUserCode(code[1..])
  }

  /**
    Which codes are one: spelling is read letter by letter and digit by digit,
    without regard to case, and everything else is ignored.
  */
  lemma {:induction false} NormalizeMeaning(first: string, rest: string, c: char)
    ensures NormalizeUserCode(first + rest) == NormalizeUserCode(first) + NormalizeUserCode(rest)
    ensures NormalizeUserCode([c])
      == if '0' <= c <= '9' || 'A' <= c <= 'Z' then [c]
         else if 'a' <= c <= 'z' then [(c as int - 32) as char] else ""
    ensures NormalizeUserCode("") == ""
  {
    if first == "" {
      assert first + rest == rest;
    } else {
      assert (first + rest)[1..] == first[1..] + rest;
      NormalizeMeaning(first[1..], rest, c);
    }
  }

  predicate CodeMatches(request: Request, userCode: string) {
    request.userCode != "" ==> NormalizeUserCode(userCode) == NormalizeUserCode(request.userCode)
  }

  /** The content of a push: rendered for an approval only, from the tokens issued for the request. */
  function PushContent(env: Env, request: Request, authReqId: string, allow: bool): Option<string> {
    if !allow || env.tokens.None? || env.tokens.value.render.None? then None
    else
      var issued := if env.tokens.value.issue.Some? then env.tokens.value.issue.value(request) else None;
      Some(env.tokens.value.render.value(request, authReqId, issued))
  }

  /** The notification a decision sends, if its mode has a notifier, an endpoint and a token. */
  function Notifications(env: Env, request: Request, authReqId: string, allow: bool): seq<Notification> {
    if request.notificationEndpoint != "" && request.notificationToken != ""
       && ((request.deliveryMode == "ping" && env.hasPing) || (request.deliveryMode == "push" && env.hasPush))
    then [Notification(request.deliveryMode, request.notificationEndpoint, request.notificationToken, authReqId,
                       if request.deliveryMode == "push" then PushContent(env, request, authReqId, allow) else None)]
    else []
  }

  datatype State = State(requests: map<string, Request>, log: seq<Notification>)

  /** A call decides a request when it names one still pending and gives its user code. */
  predicate Decides(env: Env, requests: map<string, Request>, authReqId: string, userCode: string) {
    var h := env.hash(authReqId);
    authReqId != "" && h in requests && requests[h].status == Pending && CodeMatches(requests[h], userCode)
  }

  function Decided(env: Env, s: State, authReqId: string, allow: bool, userCode: string): State {
    if !Decides(env, s.requests, authReqId, userCode) then s
    else
      var h := env.hash(authReqId);
      State(s.requests[h := s.requests[h].(status := if allow then Approved else Denied)],
            s.log + Notifications(env, s.requests[h], authReqId, allow))
  }

  class CibaApprovalUseCase {
    var requests: map<string, Request>
    ghost var log: seq<Notification>

    ghost function Model(): State
      reads this
    {
      State(requests, log)
    }

    constructor (requests: map<string, Request>)
      ensures Model() == State(requests, [])
    {
      this.requests, log := requests, [];
    }

    /** Answers `false` for an unknown request or a wrong user code; a decision already made is acknowledged. */
    method Execute(env: Env, authReqId: string, allow: bool, userCode: string) returns (ok: bool)
      modifies this
      ensures Model() == Decided(env, old(Model()), authReqId, allow, userCode)
      ensures ok <==> (
        && authReqId != "" && env.hash(authReqId) in old(requests)
        && (old(requests)[env.hash(authReqId)].status == Pending ==>
              CodeMatches(old(requests)[env.hash(authReqId)], userCode)))
    {
      if authReqId == "" {
        return false;
      }
      var h := env.hash(authReqId);
      if h !in requests {
        return false;
      }
      var stored := requests[h];
      if stored.status != Pending {
        return true;
      }
      if stored.userCode != "" && NormalizeUserCode(userCode) != NormalizeUserCode(stored.userCode) {
        return false;
      }
      if allow {
        requests := requests[h := stored.(status := Approved)];
      } else {
        requests := requests[h := stored.(status := Denied)];
      }
      NotifyPing(env, stored, authReqId);
      NotifyPush(env, stored, authReqId, allow);
      return true;
    }

    method NotifyPing(env: Env, stored: Request, authReqId: string)
      modifies this`log
      ensures log == old(log) + if stored.deliveryMode == "ping" then Notifications(env, stored, authReqId, false) else []
    {
      if env.hasPing && stored.deliveryMode == "ping" && stored.notificationEndpoint != "" && stored.notificationToken != "" {
        log := log + [Notification("ping", stored.notificationEndpoint, stored.notificationToken, authReqId, None)];
      }
    }

    method NotifyPush(env: Env, stored: Request, authReqId: string, allow: bool)
      modifies this`log
      ensures log == old(log) + if stored.deliveryMode == "push" then Notifications(env, stored, authReqId, allow) else []
    {
      if env.hasPush && stored.deliveryMode == "push" && stored.notificationEndpoint != "" && stored.notificationToken != "" {
        var content: Option<string> := None;
        if allow && env.tokens.Some? {
          var issued: Option<string> := None;
          if env.tokens.value.issue.Some? {
            issued := env.tokens.value.issue.value(stored);
          }
          if env.tokens.value.render.Some? {
            content := Some(env.tokens.value.render.value(stored, authReqId, issued));
          }
        }
        log := log + [Notification("push", stored.notificationEndpoint, stored.notificationToken, authReqId, content)];
      }
    }
  }

  /** No tokens travel with a refusal or with a ping. */
  lemma OnlyApprovedPushesCarryContent(env: Env, request: Request, authReqId: string, allow: bool)
    ensures forall n :: n in Notifications(env, request, authReqId, allow) && n.content.Some? ==>
      n.mode == "push" && allow
  {
  }

  // ---- every sequence of calls ---------------------------------------------------------------

  datatype Call = Call(authReqId: string, allow: bool, userCode: string)

  function Run(env: Env, s: State, calls: seq<Call>): State
    decreases |calls|
  {
    if calls == [] then s
    else Run(env, Decided(env, s, calls[0].authReqId, calls[0].allow, calls[0].userCode), calls[1..])
  }

  /** The call concerns the request `h` and carries its user code. */
  predicate Addresses(env: Env, c: Call, h: string, request: Request) {
    c.authReqId != "" && env.hash(c.authReqId) == h && CodeMatches(request, c.userCode)
  }

  function FirstAddressing(env: Env, calls: seq<Call>, h: string, request: Request): (r: Option<Call>)
    ensures r.Some? ==> r.value in calls && Addresses(env, r.value, h, request)
    ensures r.None? ==> forall c :: c in calls ==> !Addresses(env, c, h, request)
  {
    if calls == [] then None
    else if Addresses(env, calls[0], h, request) then Some(calls[0])
    else FirstAddressing(env, calls[1..], h, request)
  }

  /** The notifications about one request, in order. */
  function About(env: Env, log: seq<Notification>, h: string): seq<Notification> {
    if log == [] then []
    else About(env, log[..|log| - 1], h)
         + (if env.hash(log[|log| - 1].authReqId) == h then [log[|log| - 1]] else [])
  }

  lemma AboutAppend(env: Env, log: seq<Notification>, more: seq<Notification>, h: string)
    requires |more| <= 1
    ensures About(env, log + more, h)
      == About(env, log, h) + if more != [] && env.hash(more[0].authReqId) == h then more else []
  {
    if more == [] {
      assert log + more == log;
    } else {
      assert (log + more)[..|log|] == log;
    }
  }

  /** Once decided, a request keeps its record and sends nothing more. */
  lemma {:induction false} DecisionIsKept(env: Env, s: State, calls: seq<Call>, h: string)
    requires h in s.requests && s.requests[h].status != Pending
    ensures var end := Run(env, s, calls);
      h in end.requests && end.requests[h] == s.requests[h] && About(env, end.log, h) == About(env, s.log, h)
    decreases |calls|
  {
    if calls != [] {
      var c := calls[0];
      var next := Decided(env, s, c.authReqId, c.allow, c.userCode);
      if next != s {
        AboutAppend(env, s.log, Notifications(env, s.requests[env.hash(c.authReqId)], c.authReqId, c.allow), h);
      }
      DecisionIsKept(env, next, calls[1..], h);
    }
  }

  /**
    Each request is decided at most once: after any sequence of calls its
    status is the decision of the first call that addressed it, pending if
    there was none; nothing else of its record changes; and exactly the
    notification of that decision was sent about it.
  */
  lemma {:induction false} FirstDecisionStands(env: Env, s: State, calls: seq<Call>, h: string)
    requires h in s.requests && s.requests[h].status == Pending
    ensures var end, request := Run(env, s, calls), s.requests[h];
      h in end.requests &&
      match FirstAddressing(env, calls, h, request)
      case None => end.requests[h] == request && About(env, end.log, h) == About(env, s.log, h)
      case Some(c) =>
        && end.requests[h] == request.(status := if c.allow then Approved else Denied)
        && About(env, end.log, h) == About(env, s.log, h) + Notifications(env, request, c.authReqId, c.allow)
    decreases |calls|
  {
    hide CodeMatches;
    if calls != [] {
      var c := calls[0];
      var next := Decided(env, s, c.authReqId, c.allow, c.userCode);
      if next != s {
        AboutAppend(env, s.log, Notifications(env, s.requests[env.hash(c.authReqId)], c.authReqId, c.allow), h);
      }
      if Addresses(env, c, h, s.requests[h]) {
        DecisionIsKept(env, next, calls[1..], h);
      } else {
        FirstDecisionStands(env, next, calls[1..], h);
      }
    }
  }

  /** No call creates or removes a request, and a call that decides nothing changes nothing. */
  lemma {:induction false} RequestsStay(env: Env, s: State, calls: seq<Call>)
    ensures Run(env, s, calls).requests.Keys == s.requests.Keys
    decreases |calls|
  {
    if calls != [] {
      RequestsStay(env, Decided(env, s, calls[0].authReqId, calls[0].allow, calls[0].userCode), calls[1..]);
    }
  }

  // ---- lifetime of a request -------------------------------------------------------------------

  function Distance(a: int, b: int): nat {
    if a < b then b - a else a - b
  }

  /** No lifetime the server allows is closer to the one asked for. */
  ghost predicate IsNearest(granted: int, asked: int, minTtl: int, ttl: int) {
    forall allowed :: (if minTtl < ttl then minTtl else ttl) <= allowed <= ttl
      ==> Distance(granted, asked) <= Distance(allowed, asked)
  }

  /** `_resolve_ttl`; `toInt` is `int()`, `None` stands for the refusal. */
  function ResolveTtl(requested: string, ttl: int, minTtl: int, toInt: string -> Option<int>): (r: Option<int>)
    ensures r.None? <==> requested != "" && (toInt(requested).None? || toInt(requested).value <= 0)
    ensures r.Some? ==> (if minTtl < ttl then minTtl else ttl) <= r.value <= ttl
    ensures requested == "" ==> r == Some(ttl)
    ensures r.Some? && requested != "" ==> IsNearest(r.value, toInt(requested).value, minTtl, ttl)
  {
    if requested == "" then Some(ttl)
    else
      match toInt(requested)
      case None => None
      case Some(n) =>
        if n <= 0 then None
        else
          var floor := if minTtl < ttl then minTtl else ttl;
          var capped := if n < ttl then n else ttl;
          Some(if floor > capped then floor else capped)
  }
}
