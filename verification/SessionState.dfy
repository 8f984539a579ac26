/**
  Salted `session_state` values (OpenID Connect Session Management 1.0,
  sections 2 and 3.2). The digest is an uninterpreted function of the payload.
*/
module SessionState {
  type Byte = x: int | 0 <= x < 256

  /** SHA-256 of an encoded payload. */
  type Digest = string -> seq<Byte>

  // ---- unpadded base64url (RFC 4648, section 5) -------------------------------

  function Char64(n: int): char
    requires 0 <= n < 64
  {
    if n < 26 then 'A' + n as char
    else if n < 52 then 'a' + (n - 26) as char
    else if n < 62 then '0' + (n - 52) as char
    else if n == 62 then '-' else '_'
  }

  function Value64(c: char): (n: int)
    ensures -1 <= n < 64
    ensures forall k :: 0 <= k < 64 && Char64(k) == c ==> n == k
    ensures 0 <= n ==> Char64(n) == c
  {
    if 'A' <= c <= 'Z' then c as int - 'A' as int
    else if 'a' <= c <= 'z' then c as int - 'a' as int + 26
    else if '0' <= c <= '9' then c as int - '0' as int + 52
    else if c == '-' then 62 else if c == '_' then 63 else -1
  }

  /** The characters a salt may contain. */
  predicate InAlphabet(s: string) {
    forall c :: c in s ==> 0 <= Value64(c)
  }

  /** `base64.urlsafe_b64encode(...).rstrip(b"=")` */
  function Base64Url(b: seq<Byte>): (s: string)
    ensures InAlphabet(s)
    ensures s == "" <==> b == []
  {
    if b == [] then ""
    else if |b| == 1 then [Char64(b[0] / 4), Char64(b[0] % 4 * 16)]
    else if |b| == 2 then [Char64(b[0] / 4), Char64(b[0] % 4 * 16 + b[1] / 16), Char64(b[1] % 16 * 4)]
    else Group(b[0], b[1], b[2]) + Base64Url(b[3..])
  }

  /** The four characters of three bytes. */
  function Group(x: Byte, y: Byte, z: Byte): (s: string)
    ensures |s| == 4 && InAlphabet(s)
  {
    [Char64(x / 4), Char64(x % 4 * 16 + y / 16), Char64(y % 16 * 4 + z / 64), Char64(z % 64)]
  }

  type Sextet = x: int | 0 <= x < 64

  function Byte0(v0: Sextet, v1: Sextet): Byte { v0 * 4 + v1 / 16 }
  function Byte1(v1: Sextet, v2: Sextet): Byte { v1 % 16 * 16 + v2 / 4 }
  function Byte2(v2: Sextet, v3: Sextet): Byte { v2 % 4 * 64 + v3 }

  function Bytes(s: string): seq<Byte>
    requires InAlphabet(s)
  {
    if |s| < 2 then []
    else if |s| == 2 then [Byte0(Value64(s[0]), Value64(s[1]))]
    else if |s| == 3 then [Byte0(Value64(s[0]), Value64(s[1])), Byte1(Value64(s[1]), Value64(s[2]))]
    else
      [Byte0(Value64(s[0]), Value64(s[1])), Byte1(Value64(s[1]), Value64(s[2])), Byte2(Value64(s[2]), Value64(s[3]))]
      + Bytes(s[4..])
  }

  /** The unpadded encoding loses nothing, whatever the number of bytes: it is injective. */
  lemma {:induction false} Base64UrlRoundTrip(b: seq<Byte>)
    ensures Bytes(Base64Url(b)) == b
  {
    hide Group, Char64, Value64, Byte0, Byte1, Byte2;
    if |b| >= 3 {
      GroupRoundTrip(b[0], b[1], b[2], Base64Url(b[3..]));
      Base64UrlRoundTrip(b[3..]);
      assert b == [b[0], b[1], b[2]] + b[3..];
    } else if |b| == 2 {
      TwoBytes(b[0], b[1]);
      assert b == [b[0], b[1]];
    } else if |b| == 1 {
      OneByte(b[0]);
      assert b == [b[0]];
    }
  }

  lemma OneByte(x: Byte)
    ensures Bytes(Base64Url([x])) == [x]
  {
    Sextets(x, 0, 0);
    assert 0 / 16 == 0;
  }

  lemma TwoBytes(x: Byte, y: Byte)
    ensures Bytes(Base64Url([x, y])) == [x, y]
  {
    Sextets(x, y, 0);
    assert 0 / 64 == 0;
  }

  /** Four characters hold three bytes. */
  lemma GroupRoundTrip(x: Byte, y: Byte, z: Byte, rest: string)
    requires InAlphabet(rest)
    ensures Bytes(Group(x, y, z) + rest) == [x, y, z] + Bytes(rest)
  {
    var g := Group(x, y, z);
    Sextets(x, y, z);
    assert Value64(g[0]) == x / 4;
    assert Value64(g[1]) == x % 4 * 16 + y / 16;
    assert Value64(g[2]) == y % 16 * 4 + z / 64;
    assert Value64(g[3]) == z % 64;
    assert (g + rest)[4..] == rest;
  }

  lemma Sextets(x: Byte, y: Byte, z: Byte)
    ensures var v0, v1, v2, v3 := x / 4, x % 4 * 16 + y / 16, y % 16 * 4 + z / 64, z % 64;
      Byte0(v0, v1) == x && Byte1(v1, v2) == y && Byte2(v2, v3) == z
  {
    assert 0 <= y / 16 < 16 && 0 <= z / 64 < 4;
    assert (x % 4 * 16 + y / 16) / 16 == x % 4 && (x % 4 * 16 + y / 16) % 16 == y / 16;
    assert (y % 16 * 4 + z / 64) / 4 == y % 16 && (y % 16 * 4 + z / 64) % 4 == z / 64;
  }

  // ---- values -----------------------------------------------------------------

  datatype Session = Session(clientId: string, origin: string, sessionId: string)

  function Payload(s: Session, salt: string): string {
    s.clientId + " " + s.origin + " " + s.sessionId + " " + salt
  }

  /** `_encode` */
  function EncodeState(digest: Digest, s: Session, salt: string): string {
    Base64Url(digest(Payload(s, salt))) + "." + salt
  }

  /** `create_session_state`, with the 32 random bytes of `secrets.token_urlsafe(32)` as a parameter. */
  function CreateSessionState(digest: Digest, s: Session, random: seq<Byte>): string
    requires |random| == 32
  {
    EncodeState(digest, s, Base64Url(random))
  }

  /** `Raises` stands for the `TypeError` of `secrets.compare_digest` on text outside ASCII. */
  datatype Verdict = Accepted | Rejected | Raises

  /** The index of the last dot, or -1. */
  function LastDot(s: string): (i: int)
    ensures -1 <= i < |s|
    ensures i >= 0 ==> s[i] == '.'
    ensures forall k :: i < k < |s| ==> s[k] != '.'
  {
    if s == "" then -1 else if s[|s| - 1] == '.' then |s| - 1 else LastDot(s[..|s| - 1])
  }

  predicate Ascii(s: string) {
    forall c :: c in s ==> c < 128 as char
  }

  predicate WellShaped(state: string) {
    var dot := LastDot(state);
    ' ' !in state && 0 < dot < |state| - 1 && InAlphabet(state[dot + 1..])
  }

  /** `verify_session_state` */
  function VerifySessionState(digest: Digest, s: Session, state: string): Verdict {
    if state == "" || ' ' in state || '.' !in state then Rejected
    else
      var dot := LastDot(state);
      var value, salt := state[..dot], state[dot + 1..];
      if value == "" || salt == "" || !InAlphabet(salt) then Rejected
      else
        var expected := EncodeState(digest, s, salt);
        if !Ascii(expected) || !Ascii(state) then Raises
        else if expected == state then Accepted else Rejected
  }

  // ---- what a verdict means -----------------------------------------------------

  lemma AlphabetText(s: string)
    requires InAlphabet(s)
    ensures Ascii(s) && '.' !in s && ' ' !in s
  {
  }

  /** The last dot of `value.salt` is the separator: splitting recovers the salt. */
  lemma {:induction false} SplitRecoversSalt(value: string, salt: string)
    requires InAlphabet(salt)
    ensures LastDot(value + "." + salt) == |value|
  {
    var s := value + "." + salt;
    AlphabetText(salt);
    assert s[|value|] == '.';
    forall k | |value| < k < |s| ensures s[k] != '.' {
      assert s[k] == salt[k - |value| - 1];
    }
  }

  /** The accepted values are exactly those that `_encode` gives for some salt of the alphabet. */
  lemma AcceptedIff(digest: Digest, s: Session, state: string)
    requires forall payload :: digest(payload) != []
    ensures VerifySessionState(digest, s, state) == Accepted
      <==> exists salt :: salt != "" && InAlphabet(salt) && state == EncodeState(digest, s, salt)
  {
    if VerifySessionState(digest, s, state) == Accepted {
      var salt := state[LastDot(state) + 1..];
      assert state == EncodeState(digest, s, salt);
    }
    forall salt | salt != "" && InAlphabet(salt) && state == EncodeState(digest, s, salt)
      ensures VerifySessionState(digest, s, state) == Accepted
    {
      VerdictOnPair(digest, s, Base64Url(digest(Payload(s, salt))), salt);
    }
  }

  /**
    A malformed value is announced as rejected without computation; one case
    escapes: a well-shaped value with a character outside ASCII makes the
    comparison raise, and no other value does.
  */
  lemma RaisesIff(digest: Digest, s: Session, state: string)
    ensures VerifySessionState(digest, s, state) == Raises
      <==> WellShaped(state) && exists c :: c in state && c as int >= 128
  {
    var dot := LastDot(state);
    if '.' in state && 0 < dot < |state| - 1 && InAlphabet(state[dot + 1..]) {
      var salt := state[dot + 1..];
      AlphabetText(salt);
      AlphabetText(Base64Url(digest(Payload(s, salt))));
    }
  }

  /** Such a value: an accented letter, a dot and one character of salt, whatever the session. */
  lemma AccentedValueRaises(digest: Digest, s: Session)
    ensures VerifySessionState(digest, s, "\U{E9}.A") == Raises
  {
    hide VerifySessionState, LastDot, WellShaped;
    AccentedValueIsWellShaped();
    assert "\U{E9}.A"[0] in "\U{E9}.A" && "\U{E9}.A"[0] as int >= 128;
    RaisesIff(digest, s, "\U{E9}.A");
  }

  lemma AccentedValueIsWellShaped()
    ensures WellShaped("\U{E9}.A")
  {
    hide LastDot;
    var state := "\U{E9}.A";
    assert Value64('A') == 0;
    SplitRecoversSalt("\U{E9}", "A");
    assert state == "\U{E9}" + "." + "A" && state[2..] == "A";
  }

  lemma {:induction false} SplitAtFirstSpace(a: string, x: string, b: string, y: string)
    requires ' ' !in a && ' ' !in b
    requires a + " " + x == b + " " + y
    ensures a == b && x == y
  {
    var s := a + " " + x;
    assert s[|a|] == ' ' && s[|b|] == ' ';
    assert forall k :: 0 <= k < |a| ==> s[k] == a[k];
    assert forall k :: 0 <= k < |b| ==> s[k] == b[k];
    assert |a| == |b|;
    assert s[..|a|] == a && s[..|b|] == b;
    assert s[|a| + 1..] == x && s[|b| + 1..] == y;
  }

  /** With no space in the client and the origin, the joined payload determines all three inputs. */
  lemma PayloadInjective(s: Session, t: Session, salt: string)
    requires ' ' !in s.clientId && ' ' !in s.origin && ' ' !in t.clientId && ' ' !in t.origin
    ensures Payload(s, salt) == Payload(t, salt) <==> s == t
  {
    if Payload(s, salt) == Payload(t, salt) {
      var sTail, tTail := s.sessionId + " " + salt, t.sessionId + " " + salt;
      assert Payload(s, salt) == s.clientId + " " + (s.origin + " " + sTail);
      assert Payload(t, salt) == t.clientId + " " + (t.origin + " " + tTail);
      SplitAtFirstSpace(s.clientId, s.origin + " " + sTail, t.clientId, t.origin + " " + tTail);
      SplitAtFirstSpace(s.origin, sTail, t.origin, tTail);
      assert sTail[..|s.sessionId|] == s.sessionId && tTail[..|t.sessionId|] == t.sessionId;
    }
  }

  /** A value of the right shape is accepted exactly when it carries the expected digest. */
  lemma VerdictOnPair(digest: Digest, t: Session, value: string, salt: string)
    requires value != "" && salt != "" && InAlphabet(value) && InAlphabet(salt)
    ensures VerifySessionState(digest, t, value + "." + salt)
      == if Base64Url(digest(Payload(t, salt))) == value then Accepted else Rejected
  {
    var state := value + "." + salt;
    var expected := Base64Url(digest(Payload(t, salt)));
    SplitRecoversSalt(value, salt);
    AlphabetText(salt);
    AlphabetText(value);
    AlphabetText(expected);
    assert state[|value|] == '.';
    assert state[|value| + 1..] == salt && state[..|value|] == value;
    if expected + "." + salt == state {
      SplitRecoversSalt(expected, salt);
      assert expected == state[..|expected|];
    }
  }

  /**
    A created value is accepted for another session exactly when the two
    payloads have the same digest.
  */
  lemma CreatedIsAcceptedIff(digest: Digest, s: Session, t: Session, random: seq<Byte>)
    requires |random| == 32
    requires forall payload :: digest(payload) != []
    ensures VerifySessionState(digest, t, CreateSessionState(digest, s, random)) == Accepted
      <==> digest(Payload(s, Base64Url(random))) == digest(Payload(t, Base64Url(random)))
  {
    var salt := Base64Url(random);
    VerdictOnPair(digest, t, Base64Url(digest(Payload(s, salt))), salt);
    Base64UrlRoundTrip(digest(Payload(s, salt)));
    Base64UrlRoundTrip(digest(Payload(t, salt)));
  }

  /**
    The binding law: absent a collision between the two payloads, a value made
    for one session verifies for exactly that client, origin and session.
  */
  lemma BoundToItsSession(digest: Digest, s: Session, t: Session, random: seq<Byte>)
    requires |random| == 32
    requires forall payload :: digest(payload) != []
    requires ' ' !in s.clientId && ' ' !in s.origin && ' ' !in t.clientId && ' ' !in t.origin
    requires var salt := Base64Url(random);
      digest(Payload(s, salt)) == digest(Payload(t, salt)) ==> Payload(s, salt) == Payload(t, salt)
    ensures VerifySessionState(digest, t, CreateSessionState(digest, s, random)) == Accepted <==> s == t
  {
    CreatedIsAcceptedIff(digest, s, t, random);
    PayloadInjective(s, t, Base64Url(random));
  }

  /** Without that proviso on spaces the binding is lost: two sessions share one value. */
  lemma SpacesBreakTheBinding(digest: Digest, random: seq<Byte>)
    requires |random| == 32
    requires forall payload :: digest(payload) != []
    ensures var s, t := Session("a b", "c", "d"), Session("a", "b c", "d");
      s != t && VerifySessionState(digest, t, CreateSessionState(digest, s, random)) == Accepted
  {
    var s, t := Session("a b", "c", "d"), Session("a", "b c", "d");
    assert Payload(s, Base64Url(random)) == Payload(t, Base64Url(random));
    CreatedIsAcceptedIff(digest, s, t, random);
  }

  // ---- which sessions a value binds ---------------------------------------------------

  function Spaces(s: string): nat {
    if s == "" then 0 else (if s[0] == ' ' then 1 else 0) + Spaces(s[1..])
  }

  lemma {:induction false} SpacesAdd(a: string, b: string)
    ensures Spaces(a + b) == Spaces(a) + Spaces(b)
  {
    if a == "" {
      assert a + b == b;
    } else {
      assert (a + b)[1..] == a[1..] + b;
      SpacesAdd(a[1..], b);
    }
  }

  lemma {:induction false} NoSpaces(s: string)
    ensures Spaces(s) == 0 <==> ' ' !in s
  {
    if s != "" {
      NoSpaces(s[1..]);
      assert s == [s[0]] + s[1..];
    }
  }

  lemma SpacesOfPayload(s: Session, salt: string)
    ensures Spaces(Payload(s, salt)) == Spaces(s.clientId) + Spaces(s.origin) + Spaces(s.sessionId) + Spaces(salt) + 3
  {
    var p1 := s.clientId + " ";
    var p2 := p1 + s.origin;
    var p3 := p2 + " ";
    var p4 := p3 + s.sessionId;
    var p5 := p4 + " ";
    SpacesAdd(s.clientId, " ");
    SpacesAdd(p1, s.origin);
    SpacesAdd(p2, " ");
    SpacesAdd(p3, s.sessionId);
    SpacesAdd(p4, " ");
    SpacesAdd(p5, salt);
    assert Spaces(" ") == 1;
  }

  /** A session is free of spaces in its three inputs. */
  predicate SpaceFree(s: Session) {
    ' ' !in s.clientId && ' ' !in s.origin && ' ' !in s.sessionId
  }

  lemma SpaceFreeIff(s: Session)
    ensures SpaceFree(s) <==> Spaces(s.clientId) + Spaces(s.origin) + Spaces(s.sessionId) == 0
  {
    NoSpaces(s.clientId);
    NoSpaces(s.origin);
    NoSpaces(s.sessionId);
  }

  /** The two halves of a text around a space. */
  lemma SplitAtSpace(s: string) returns (x: string, y: string)
    requires ' ' in s
    ensures s == x + " " + y
  {
    var i :| 0 <= i < |s| && s[i] == ' ';
    x, y := s[..i], s[i + 1..];
  }

  /** A session with a space shares its payload with another. */
  lemma Twin(s: Session, salt: string) returns (t: Session)
    requires !SpaceFree(s)
    ensures t != s && Payload(t, salt) == Payload(s, salt)
  {
    if ' ' in s.clientId {
      var x, y := SplitAtSpace(s.clientId);
      t := Session(x, y + " " + s.origin, s.sessionId);
    } else if ' ' in s.origin {
      var x, y := SplitAtSpace(s.origin);
      t := Session(s.clientId + " " + x, y, s.sessionId);
    } else {
      var x, y := SplitAtSpace(s.sessionId);
      t := Session(s.clientId, s.origin + " " + x, y);
    }
  }

  /** A payload belongs to one session alone exactly when that session has no space. */
  lemma PayloadIsOwnIff(s: Session, salt: string)
    requires ' ' !in salt
    ensures (forall t: Session :: Payload(t, salt) == Payload(s, salt) ==> t == s) <==> SpaceFree(s)
  {
    hide Payload;
    if SpaceFree(s) {
      forall t: Session | Payload(t, salt) == Payload(s, salt) ensures t == s {
        SpacesOfPayload(s, salt);
        SpacesOfPayload(t, salt);
        SpaceFreeIff(s);
        SpaceFreeIff(t);
        PayloadInjective(s, t, salt);
      }
    } else {
      var t := Twin(s, salt);
    }
  }

  /**
    The exact scope of the binding, from the session alone: under a digest
    without collisions a value verifies for no other session if and only if its
    own client, origin and session identifier hold no space.
  */
  lemma BindsOneSessionIff(digest: Digest, s: Session, random: seq<Byte>)
    requires |random| == 32
    requires forall payload :: digest(payload) != []
    requires forall p, q :: digest(p) == digest(q) ==> p == q
    ensures (forall t: Session ::
               VerifySessionState(digest, t, CreateSessionState(digest, s, random)) == Accepted ==> t == s)
      <==> SpaceFree(s)
  {
    hide Payload, VerifySessionState, CreateSessionState;
    var salt := Base64Url(random);
    AlphabetText(salt);
    PayloadIsOwnIff(s, salt);
    forall t: Session
      ensures VerifySessionState(digest, t, CreateSessionState(digest, s, random)) == Accepted
        <==> Payload(t, salt) == Payload(s, salt)
    {
      CreatedIsAcceptedIff(digest, s, t, random);
    }
  }
}
