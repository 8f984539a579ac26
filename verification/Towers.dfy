/**
  Two federations that one host could serve: towers of entities in which each
  one hints at the entity whose path has one more `+`, and every superior
  attests anyone. One has as many levels as asked for, the other has no end.
*/
module Towers {
  import opened Wrappers
  import opened PythonText
  import opened EntityStatements
  import opened Federation
  import Json

  /** The number of levels, if there is an end. */
  type Height = Option<nat>

  const HOST := "tower.example"

  const ROOT := HTTPS + HOST + "/"

  function Pluses(k: nat): (s: string)
    ensures |s| == k && forall c :: c in s ==> c == '+'
  {
    seq(k, _ => '+')
  }

  /** The entity of level `k`. */
  function Id(k: nat): (s: string)
    ensures |s| == |ROOT| + k
  {
    ROOT + Pluses(k)
  }

  function LeadingPluses(s: string): (k: nat)
    ensures k <= |s| && s[..k] == Pluses(k)
    ensures k < |s| ==> s[k] != '+'
  {
    if s == "" || s[0] != '+' then 0 else 1 + LeadingPluses(s[1..])
  }

  function EndpointOf(id: string): Metadata {
    map["federation_entity" := map["federation_fetch_endpoint" := Json.Str(id)]]
  }

  function HintsOf(height: Height, k: nat): seq<string> {
    if height == Some(k) then [] else [Id(k + 1)]
  }

  /** What the entity of level `k` says of a subject, itself or another. */
  function Speaks(height: Height, k: nat, subject: string): Claims {
    Claims(Id(k), subject, 0.0, 1.0, Some("keys"), NoAudience, Some(HintsOf(height, k)), EndpointOf(Id(k)), map[], true)
  }

  const FETCH := "?sub="

  /** A token is the address it is served at, and says what that address is for. */
  function Payload(height: Height, token: string): Option<Claims> {
    if !(ROOT <= token) then None
    else
      var k := LeadingPluses(token[|ROOT|..]);
      var tail := token[|ROOT| + k..];
      if k == 0 || (height.Some? && height.value < k) then None
      else if tail == CONFIGURATION_PATH then Some(Speaks(height, k, Id(k)))
      else if FETCH <= tail then Some(Speaks(height, k, tail[|FETCH|..]))
      else None
  }

  /** Every address serves itself; verification compares the claims the token carries. */
  function Tower(height: Height): Env {
    Env("https://op", [], 0,
        (n: nat, url: string) => Some(url),
        (token: string) => Payload(height, token),
        (token: string, jwks: Jwks, issuer: string, subject: string) =>
          match Payload(height, token)
          case None => None
          case Some(c) =>
            if (issuer != "" && c.iss != issuer) || (subject != "" && c.sub != subject) then None else Some(c))
  }

  /** These are federations a sound verifier can face. */
  lemma TowersAreSound(height: Height)
    ensures SoundVerifier(Tower(height))
  {
  }

  function Entity(height: Height, k: nat): (e: EntityStatement)
    ensures e.issuer == e.subject == Id(k)
  {
    EntityStatement(Id(k), Id(k), 1.0, "keys", HintsOf(height, k), EndpointOf(Id(k)), map[])
  }

  lemma IdIsIdentifier(k: nat)
    requires k > 0
    ensures IsEntityIdentifier(Id(k))
  {
    hide IsSpace;
    var s, rest := Id(k), HOST + "/" + Pluses(k);
    assert s[|s| - 1] == Pluses(k)[k - 1];
    assert s[|HTTPS|..] == rest;
    assert rest[|HOST|] == '/';
    HostIsPlain();
    forall i | 0 <= i < |HOST| ensures !IsSpace(rest[i]) && rest[i] !in "/?#" {
      assert rest[i] == HOST[i] && HOST[i] in HOST;
    }
    forall i | |HOST| < i < |rest| ensures !IsSpace(rest[i]) && rest[i] !in "?#" {
      assert rest[i] == Pluses(k)[i - |HOST| - 1] == '+';
    }
    assert HasHost(rest, |HOST|);
  }

  lemma HostIsPlain()
    ensures forall c :: c in HOST ==> !IsSpace(c) && c !in "/?#"
    ensures !IsSpace('+')
  {
  }

  lemma EntitiesAreWellFormed(height: Height, k: nat)
    requires k > 0
    ensures WellFormed(Entity(height, k))
  {
    hide IsEntityIdentifier;
    IdIsIdentifier(k);
    IdIsIdentifier(k + 1);
  }

  lemma {:induction false} LeadingOf(k: nat, tail: string)
    requires tail == "" || tail[0] != '+'
    ensures LeadingPluses(Pluses(k) + tail) == k
  {
    if k > 0 {
      LeadingOf(k - 1, tail);
      assert (Pluses(k) + tail)[1..] == Pluses(k - 1) + tail;
    }
  }

  /** The addresses of a level are read back. */
  lemma AddressIsRead(height: Height, k: nat, tail: string)
    requires k > 0 && (height.Some? ==> k <= height.value)
    requires tail != "" && tail[0] != '+'
    ensures Payload(height, Id(k) + tail)
      == if tail == CONFIGURATION_PATH then Some(Speaks(height, k, Id(k)))
         else if FETCH <= tail then Some(Speaks(height, k, tail[|FETCH|..])) else None
  {
    var token := Id(k) + tail;
    assert ROOT <= token;
    assert token[|ROOT|..] == Pluses(k) + tail;
    LeadingOf(k, tail);
    assert token[|ROOT| + k..] == tail;
  }

  lemma SlashFree(k: nat)
    requires k > 0
    ensures DropTrailingSlashes(Id(k)) == Id(k) && '?' !in Id(k)
  {
    assert Id(k)[|Id(k)| - 1] == Pluses(k)[k - 1] == '+';
    forall c | c in Id(k) ensures c != '?' {
      assert c in ROOT || c in Pluses(k);
    }
  }

  /** The configuration served for a level. */
  function ConfigurationToken(k: nat): string {
    Id(k) + CONFIGURATION_PATH
  }

  lemma ConfigurationIsServed(height: Height, k: nat, n: nat)
    requires k > 0 && (height.Some? ==> k <= height.value)
    ensures FetchConfiguration(Tower(height), n, Id(k)) == Some((Entity(height, k), ConfigurationToken(k)))
  {
    hide IsEntityIdentifier, DropTrailingSlashes, Payload;
    SlashFree(k);
    AddressIsRead(height, k, CONFIGURATION_PATH);
    IdIsIdentifier(k);
    SaysIsParsed(height, k, Id(k));
  }

  lemma SubordinateIsServed(height: Height, k: nat, n: nat, subject: string)
    requires k > 0 && (height.Some? ==> k <= height.value) && IsEntityIdentifier(subject)
    ensures var (r, next) := FetchSubordinate(Tower(height), n, Entity(height, k), subject);
      && next == n + 1 && r.Some? && r.value.1 == Id(k) + FETCH + subject
      && r.value.0 == Entity(height, k).(subject := subject)
  {
    hide IsEntityIdentifier, Payload, Id, Parse, FetchEndpoint, SubordinateUrl;
    var url := Id(k) + FETCH + subject;
    SubordinateAddress(height, k, subject);
    AddressIsRead(height, k, FETCH + subject);
    assert url == Id(k) + (FETCH + subject) && (FETCH + subject)[|FETCH|..] == subject;
    SaysIsParsed(height, k, subject);
  }

  lemma SubordinateAddress(height: Height, k: nat, subject: string)
    requires k > 0
    ensures FetchEndpoint(Entity(height, k)) == Id(k) && Id(k) != ""
    ensures SubordinateUrl(Entity(height, k), subject) == Id(k) + FETCH + subject
  {
    hide IsEntityIdentifier;
    SlashFree(k);
    assert FetchEndpoint(Entity(height, k)) == Id(k);
    assert Id(k) + "?" + "sub=" + subject == Id(k) + FETCH + subject;
  }

  lemma SaysIsParsed(height: Height, k: nat, subject: string)
    requires k > 0 && IsEntityIdentifier(subject)
    ensures Parse(Speaks(height, k, subject)) == Some(Entity(height, k).(subject := subject))
  {
    hide IsEntityIdentifier, Id;
    EntitiesAreWellFormed(height, k);
  }

  /** One level up. */
  lemma NextLevel(height: Height, k: nat, seen: set<string>, n: nat)
    requires k > 0 && (height.Some? ==> k < height.value) && Id(k + 1) !in seen
    ensures !IsTrustAnchor(Tower(height), Entity(height, k), "")
    ensures FirstSuperior(Tower(height), Entity(height, k).authorityHints, seen, n)
      == Superior(Id(k + 1), Entity(height, k + 1), ConfigurationToken(k + 1), n + 1)
  {
    hide FetchConfiguration;
    ConfigurationIsServed(height, k + 1, n);
  }

  // ---- a tower without end ------------------------------------------------------------

  /** Over the endless tower the loop of the climb never ends. */
  lemma {:induction false} EndlessClimb(k: nat, subject: string, seen: set<string>, n: nat, turns: nat)
    requires k > 0 && IsEntityIdentifier(subject)
    requires forall s :: s in seen ==> |s| <= |Id(k)|
    ensures StillClimbing(Tower(None), "", Entity(None, k), subject, seen, n, turns)
    decreases turns
  {
    hide Tower, FetchConfiguration, FetchSubordinate, FirstSuperior, IsTrustAnchor, IsConfigurationOf, Attests,
      IsEntityIdentifier, Entity, Id;
    if turns > 0 {
      NextLevel(None, k, seen, n);
      SubordinateIsServed(None, k + 1, n + 1, subject);
      EndlessClimb(k + 1, subject, seen + {Id(k + 1)}, n + 2, turns - 1);
    }
  }

  // ---- a tower of three levels ----------------------------------------------------------

  const Three: Height := Some(3)

  const Levels := {Id(1), Id(2), Id(3)}

  lemma ThreeIsFinite()
    ensures Finite(Tower(Three), Levels)
  {
    forall n: nat, id | FetchConfiguration(Tower(Three), n, id).Some? ensures id in Levels {
      OnlyLevels(n, id);
    }
  }

  lemma OnlyLevels(n: nat, id: string)
    requires FetchConfiguration(Tower(Three), n, id).Some?
    ensures id in Levels
  {
    hide Parse;
    var token := DropTrailingSlashes(id) + CONFIGURATION_PATH;
    var k := LeadingPluses(token[|ROOT|..]);
    assert k in {1, 2, 3};
  }

  lemma Distinct(i: nat, j: nat)
    requires i != j
    ensures Id(i) != Id(j)
  {
    assert |Id(i)| != |Id(j)|;
  }

  /** The climb from the first level visits the two above it. */
  lemma ThreeLevelClimb()
    requires Finite(Tower(Three), Levels)
    ensures var e := Entity(Three, 1);
      var c := Climb(Tower(Three), "", e, e.subject, {e.subject}, 0, Levels);
      && c.Reached? && |c.hops| == 2 && c.next == 4
      && c.hops[0].subordinate == Entity(Three, 2).(subject := Id(1))
      && c.hops[1].subordinate == Entity(Three, 3).(subject := Id(1))
      && c.hops[1].superior == Entity(Three, 3)
  {
    hide Tower, Climb, Finite, FetchConfiguration, FetchSubordinate, FirstSuperior, IsTrustAnchor, IsEntityIdentifier,
      IsConfigurationOf, Attests, Id, Entity, Levels;
    var env, subject := Tower(Three), Id(1);
    IdIsIdentifier(1);
    Distinct(1, 2);
    Distinct(1, 3);
    Distinct(2, 3);
    var seen1, seen2, seen3 := {Id(1)}, {Id(1)} + {Id(2)}, {Id(1)} + {Id(2)} + {Id(3)};
    NextLevel(Three, 1, seen1, 0);
    SubordinateIsServed(Three, 2, 1, subject);
    NextLevel(Three, 2, seen2, 2);
    SubordinateIsServed(Three, 3, 3, subject);
    ClimbStep(env, "", Entity(Three, 1), subject, seen1, 0, Levels);
    ClimbStep(env, "", Entity(Three, 2), subject, seen2, 2, Levels);
    ClimbStep(env, "", Entity(Three, 3), subject, seen3, 4, Levels);
    TopIsAnchor();
  }

  lemma TopIsAnchor()
    ensures IsTrustAnchor(Tower(Three), Entity(Three, 3), "")
  {
  }

  /**
    A chain that is returned and breaks the link of section 10.2: it goes
    through two superiors, and the first of them does not attest the second.
  */
  lemma UnlinkedChain()
    ensures SoundVerifier(Tower(Three)) && Finite(Tower(Three), Levels)
    ensures var r := ResolvedFrom(Tower(Three), Entity(Three, 1), "", ConfigurationToken(1), 0, Levels).0;
      && r.Some? && |r.value.statements| == 4
      && r.value.statements[1].issuer == Id(2) != Id(1) == r.value.statements[2].subject
  {
    hide Climb, Finite, FetchConfiguration, IsEntityIdentifier, Id, Levels, Payload;
    TowersAreSound(Three);
    ThreeIsFinite();
    ThreeLevelClimb();
    ConfigurationIsServed(Three, 3, 4);
    Distinct(1, 2);
    AddressIsRead(Three, 1, CONFIGURATION_PATH);
  }
}
