/**
  Signing-key lifecycle (OpenID Connect Core 1.0, section 10.1): daily
  retirement and purge, proactive rotation at publication, rotation on demand.
  Instants and durations are integers in one unit.
*/
module SigningKeys {

  datatype Algorithm =
    | RS256 | RS384 | RS512 | PS256 | PS384 | PS512 | ES256 | ES384 | ES512
    | HS256 | HS384 | HS512
    | NoSignature

  predicate IsSymmetric(a: Algorithm) {
    a.HS256? || a.HS384? || a.HS512?
  }

  /** Generating a pair raises for the other algorithms. */
  predicate HasKeyPair(a: Algorithm) {
    !IsSymmetric(a) && !a.NoSignature?
  }

  datatype KeyPair = KeyPair(kid: nat, algorithm: Algorithm, createdAt: int, isActive: bool)

  /** The stored keys in insertion order; identifiers below `nextKid` have been given out. */
  datatype Store = Store(keys: seq<KeyPair>, nextKid: nat)

  /** A store, and whether the operation that led to it went through or raised half-way. */
  datatype Outcome = Outcome(store: Store, ok: bool)

  datatype Config = Config(
    algorithms: seq<Algorithm>, rotationPeriod: nat, gracePeriod: nat,
    rotationAge: int, rotationAlgorithms: seq<Algorithm>)

  // ---- the key manager port --------------------------------------------------------

  /** `k` is an active key of the algorithm. */
  predicate Signs(k: KeyPair, a: Algorithm) {
    k.algorithm == a && k.isActive
  }

  function Active(keys: seq<KeyPair>): seq<KeyPair> {
    Filter(keys, true)
  }

  function Filter(keys: seq<KeyPair>, active: bool): (r: seq<KeyPair>)
    ensures forall k :: k in r <==> k in keys && k.isActive == active
  {
    if keys == [] then []
    else if keys[0].isActive == active then [keys[0]] + Filter(keys[1..], active)
    else Filter(keys[1..], active)
  }

  predicate HasActive(keys: seq<KeyPair>, a: Algorithm) {
    exists k :: k in keys && Signs(k, a)
  }

  /** The active keys of one algorithm become inactive; nothing else changes. */
  function Retired(keys: seq<KeyPair>, a: Algorithm): (r: seq<KeyPair>)
    ensures |r| == |keys|
    ensures forall i :: 0 <= i < |keys| ==> r[i] == if Signs(keys[i], a) then keys[i].(isActive := false) else keys[i]
  {
    seq(|keys|, i requires 0 <= i < |keys| => if Signs(keys[i], a) then keys[i].(isActive := false) else keys[i])
  }

  function Generated(s: Store, a: Algorithm, now: int): Store {
    Store(s.keys + [KeyPair(s.nextKid, a, now, true)], s.nextKid + 1)
  }

  /** `ensure_active_key` */
  function Ensured(s: Store, a: Algorithm, now: int): Outcome {
    if HasActive(s.keys, a) then Outcome(s, true)
    else if HasKeyPair(a) then Outcome(Generated(s, a, now), true)
    else Outcome(s, false)
  }

  /** `rotate_key`: the new pair is stored before the current ones are retired. */
  function Rotated(s: Store, a: Algorithm, now: int): Outcome {
    if HasKeyPair(a)
    then Outcome(Store(Retired(s.keys, a) + [KeyPair(s.nextKid, a, now, true)], s.nextKid + 1), true)
    else Outcome(s, false)
  }

  /** Newer creation first, then greater identifier. */
  predicate Precedes(j: KeyPair, k: KeyPair) {
    j.createdAt > k.createdAt || (j.createdAt == k.createdAt && j.kid >= k.kid)
  }

  function Inserted(k: KeyPair, sorted: seq<KeyPair>): seq<KeyPair> {
    if sorted == [] || Precedes(k, sorted[0]) then [k] + sorted
    else [sorted[0]] + Inserted(k, sorted[1..])
  }

  /** `sorted(keys, key=(created_at, kid), reverse=True)` */
  function NewestFirst(keys: seq<KeyPair>): seq<KeyPair> {
    if keys == [] then [] else Inserted(keys[0], NewestFirst(keys[1..]))
  }

  ghost predicate Sorted(keys: seq<KeyPair>) {
    keys == [] || ((forall k :: k in keys[1..] ==> Precedes(keys[0], k)) && Sorted(keys[1..]))
  }

  lemma {:induction false} InsertedSorts(k: KeyPair, sorted: seq<KeyPair>)
    requires Sorted(sorted)
    ensures Sorted(Inserted(k, sorted)) && multiset(Inserted(k, sorted)) == multiset{k} + multiset(sorted)
  {
    if sorted != [] {
      assert sorted == [sorted[0]] + sorted[1..];
      if Precedes(k, sorted[0]) {
        assert Inserted(k, sorted)[1..] == sorted;
      } else {
        var rest := Inserted(k, sorted[1..]);
        InsertedSorts(k, sorted[1..]);
        assert Inserted(k, sorted)[1..] == rest;
        assert forall j :: j in rest <==> j in multiset(rest);
      }
    }
  }

  lemma {:induction false} SortedByAge(keys: seq<KeyPair>, i: nat, j: nat)
    requires Sorted(keys) && i < j < |keys|
    ensures keys[i].createdAt > keys[j].createdAt
      || (keys[i].createdAt == keys[j].createdAt && keys[i].kid >= keys[j].kid)
  {
    if i > 0 {
      SortedByAge(keys[1..], i - 1, j - 1);
    } else {
      assert keys[1..][j - 1] in keys[1..];
    }
  }

  /** The list is in order and holds the same keys. */
  lemma {:induction false} NewestFirstSorts(keys: seq<KeyPair>)
    ensures Sorted(NewestFirst(keys)) && multiset(NewestFirst(keys)) == multiset(keys)
    ensures forall k :: k in NewestFirst(keys) <==> k in keys
  {
    if keys != [] {
      NewestFirstSorts(keys[1..]);
      InsertedSorts(keys[0], NewestFirst(keys[1..]));
      assert keys == [keys[0]] + keys[1..];
    }
    assert forall k :: k in NewestFirst(keys) <==> k in multiset(NewestFirst(keys));
  }

  /** `mark_expired_keys`: purge beyond the grace period, retirement beyond the rotation period. */
  function Daily(keys: seq<KeyPair>, config: Config, now: int): seq<KeyPair> {
    if keys == [] then [] else DailyOne(keys[0], config, now) + Daily(keys[1..], config, now)
  }

  function DailyOne(k: KeyPair, config: Config, now: int): seq<KeyPair> {
    if now - k.createdAt >= config.rotationPeriod + config.gracePeriod then []
    else if now - k.createdAt >= config.rotationPeriod && k.isActive then [k.(isActive := false)]
    else [k]
  }

  lemma NothingToPurge(config: Config, now: int)
    ensures Daily([], config, now) == []
  {
  }

  lemma DailyStep(keys: seq<KeyPair>, i: nat, kept: seq<KeyPair>, config: Config, now: int)
    requires i < |keys|
    ensures kept + Daily(keys[i..], config, now)
      == (kept + DailyOne(keys[i], config, now)) + Daily(keys[i + 1..], config, now)
  {
    assert keys[i..][1..] == keys[i + 1..];
  }

  class KeyManager {
    var keys: seq<KeyPair>
    var nextKid: nat

    function State(): Store
      reads this
    {
      Store(keys, nextKid)
    }

    constructor ()
      ensures State() == Store([], 0)
    {
      keys, nextKid := [], 0;
    }

    method GenerateKeyPair(a: Algorithm, now: int) returns (ok: bool)
      modifies this
      ensures ok == HasKeyPair(a)
      ensures State() == if ok then Generated(old(State()), a, now) else old(State())
    {
      ok := HasKeyPair(a);
      if ok {
        keys, nextKid := keys + [KeyPair(nextKid, a, now, true)], nextKid + 1;
      }
    }

    method GetActiveKeys() returns (active: seq<KeyPair>)
      ensures active == Active(keys)
    {
      active := Active(keys);
    }

    method GetRetiredKeys() returns (retired: seq<KeyPair>)
      ensures retired == NewestFirst(Filter(keys, false))
    {
      retired := NewestFirst(Filter(keys, false));
    }

    method EnsureActiveKey(a: Algorithm, now: int) returns (ok: bool)
      modifies this
      ensures Outcome(State(), ok) == Ensured(old(State()), a, now)
    {
      if exists k :: k in keys && Signs(k, a) {
        ok := true;
      } else {
        ok := GenerateKeyPair(a, now);
      }
    }

    method RotateKey(a: Algorithm, now: int) returns (ok: bool)
      modifies this
      ensures Outcome(State(), ok) == Rotated(old(State()), a, now)
    {
      var current := |keys|;
      ok := GenerateKeyPair(a, now);
      if ok {
        keys := Retired(keys[..current], a) + keys[current..];
      }
    }

    /** Returns the number of keys deleted. */
    method MarkExpiredKeys(config: Config, now: int) returns (removed: nat)
      modifies this
      ensures State() == Store(Daily(old(keys), config, now), old(nextKid))
      ensures removed == |old(keys)| - |keys|
    {
      hide Daily;
      var before, kept := keys, [];
      removed := 0;
      assert before[0..] == before && kept + Daily(before, config, now) == Daily(before, config, now);
      for i := 0 to |before|
        invariant keys == before && nextKid == old(nextKid)
        invariant kept + Daily(before[i..], config, now) == Daily(before, config, now)
        invariant removed == i - |kept|
      {
        var key := before[i];
        DailyStep(before, i, kept, config, now);
        if now - key.createdAt >= config.rotationPeriod + config.gracePeriod {
          removed := removed + 1;
          assert kept + [] == kept;
        } else if now - key.createdAt >= config.rotationPeriod && key.isActive {
          kept := kept + [key.(isActive := false)];
        } else {
          kept := kept + [key];
        }
      }
      keys := kept;
      assert before[|before|..] == [];
      NothingToPurge(config, now);
      assert kept + [] == kept;
    }
  }

  // ---- the use case -----------------------------------------------------------------

  /** `_managed_algorithms` */
  function Managed(algorithms: seq<Algorithm>): (r: seq<Algorithm>)
    ensures forall a :: a in r <==> a in algorithms && !IsSymmetric(a)
  {
    if algorithms == [] then []
    else (if IsSymmetric(algorithms[0]) then [] else [algorithms[0]]) + Managed(algorithms[1..])
  }

  /** `_rotation_algorithms` */
  function RotationAlgorithms(config: Config): seq<Algorithm> {
    if config.rotationAlgorithms != [] then config.rotationAlgorithms else Managed(config.algorithms)
  }

  /** Which algorithms sign, and which are rotated: those listed, or else every managed one. */
  lemma AlgorithmsMeaning(config: Config, a: Algorithm)
    ensures IsSymmetric(a) <==> a in [HS256, HS384, HS512]
    ensures HasKeyPair(a) <==> a in [RS256, RS384, RS512, PS256, PS384, PS512, ES256, ES384, ES512]
    ensures config.rotationAlgorithms != [] ==> RotationAlgorithms(config) == config.rotationAlgorithms
    ensures config.rotationAlgorithms == [] ==>
      (a in RotationAlgorithms(config) <==> a in config.algorithms && a !in [HS256, HS384, HS512])
  {
  }

  function EnsuredAll(s: Store, algorithms: seq<Algorithm>, now: int): Outcome
    decreases |algorithms|
  {
    if algorithms == [] then Outcome(s, true)
    else
      var first := Ensured(s, algorithms[0], now);
      if first.ok then EnsuredAll(first.store, algorithms[1..], now) else first
  }

  function RotatedAll(s: Store, algorithms: seq<Algorithm>, now: int): Outcome
    decreases |algorithms|
  {
    if algorithms == [] then Outcome(s, true)
    else
      var first := Rotated(s, algorithms[0], now);
      if first.ok then RotatedAll(first.store, algorithms[1..], now) else first
  }

  predicate HasYoungActive(keys: seq<KeyPair>, a: Algorithm, age: int, now: int) {
    exists k :: k in keys && Signs(k, a) && now - k.createdAt < age
  }

  /** One algorithm of the proactive rotation: its newest active key is replaced when it is too old. */
  function Refreshed(s: Store, a: Algorithm, age: int, now: int): Outcome {
    if !HasActive(s.keys, a) then Ensured(s, a, now)
    else if HasYoungActive(s.keys, a, age, now) then Outcome(s, true)
    else Rotated(s, a, now)
  }

  function RefreshedAll(s: Store, algorithms: seq<Algorithm>, age: int, now: int): Outcome
    decreases |algorithms|
  {
    if algorithms == [] then Outcome(s, true)
    else
      var first := Refreshed(s, algorithms[0], age, now);
      if first.ok then RefreshedAll(first.store, algorithms[1..], age, now) else first
  }

  /** `_mark_expired_keys`: keys are generated again only after a purge that deleted something. */
  function AfterDaily(s: Store, config: Config, now: int): Outcome {
    var keys := Daily(s.keys, config, now);
    var purged := Store(keys, s.nextKid);
    if |keys| < |s.keys| then EnsuredAll(purged, Managed(config.algorithms), now) else Outcome(purged, true)
  }

  /** The store after a publication. */
  function AfterPublication(s: Store, config: Config, now: int): Outcome {
    var daily := AfterDaily(s, config, now);
    if !daily.ok || config.rotationAge <= 0 then daily
    else RefreshedAll(daily.store, RotationAlgorithms(config), config.rotationAge, now)
  }

  /** The list a publication returns: every signing key, active ones first, or nothing when it raised. */
  function PublishedKeys(r: Outcome): seq<KeyPair> {
    if r.ok then Active(r.store.keys) + NewestFirst(Filter(r.store.keys, false)) else []
  }

  /** `_encryption_keys_to_publish`: a key is generated only when none is active. */
  function AfterEncryption(s: Store, now: int): Store {
    if Active(s.keys) == [] then Generated(s, RS256, now) else s
  }

  lemma EncryptionGenerates(s: Store, now: int)
    requires Active(s.keys) == []
    ensures Ensured(s, RS256, now) == Outcome(Generated(s, RS256, now), true)
  {
    assert forall k :: k in s.keys && Signs(k, RS256) ==> k in Active(s.keys);
  }

  class JWKSetUseCase {
    const config: Config
    const manager: KeyManager
    /** The family of encryption keys, when there is one. */
    const encryption: KeyManager?

    ghost predicate Valid() {
      encryption != manager
    }

    constructor (config: Config, manager: KeyManager, encryption: KeyManager?)
      requires encryption != manager
      ensures this.config == config && this.manager == manager && this.encryption == encryption && Valid()
    {
      this.config, this.manager, this.encryption := config, manager, encryption;
    }

    method EnsureEach(algorithms: seq<Algorithm>, now: int) returns (ok: bool)
      modifies manager
      ensures Outcome(manager.State(), ok) == EnsuredAll(old(manager.State()), algorithms, now)
    {
      assert algorithms[0..] == algorithms;
      for i := 0 to |algorithms|
        invariant EnsuredAll(manager.State(), algorithms[i..], now) == EnsuredAll(old(manager.State()), algorithms, now)
      {
        assert algorithms[i..][1..] == algorithms[i + 1..];
        ok := manager.EnsureActiveKey(algorithms[i], now);
        if !ok {
          return;
        }
      }
      ok := true;
    }

    /** The encryption family gets its key once the signing families have theirs. */
    method Initialise(now: int) returns (ok: bool)
      requires Valid()
      modifies manager, encryption
      ensures Outcome(manager.State(), ok) == EnsuredAll(old(manager.State()), Managed(config.algorithms), now)
      ensures encryption != null ==>
        encryption.State() == if ok then Ensured(old(encryption.State()), RS256, now).store else old(encryption.State())
    {
      ok := EnsureEach(Managed(config.algorithms), now);
      if ok && encryption != null {
        var _ := encryption.EnsureActiveKey(RS256, now);
      }
    }

    method GetActiveKeys(now: int) returns (ok: bool, active: seq<KeyPair>)
      modifies manager
      ensures Outcome(manager.State(), ok) == AfterDaily(old(manager.State()), config, now)
      ensures active == if ok then Active(manager.keys) else []
    {
      active := [];
      ok := MarkExpiredKeys(now);
      if ok {
        active := manager.GetActiveKeys();
      }
    }

    method EncryptionKeysToPublish(now: int) returns (keys: seq<KeyPair>)
      modifies encryption
      ensures if encryption == null then keys == []
        else encryption.State() == AfterEncryption(old(encryption.State()), now) && keys == Active(encryption.keys)
    {
      keys := [];
      if encryption == null {
        return;
      }
      keys := encryption.GetActiveKeys();
      if keys == [] {
        EncryptionGenerates(encryption.State(), now);
        var _ := encryption.EnsureActiveKey(RS256, now);
        keys := encryption.GetActiveKeys();
      }
    }

    method MarkExpiredKeys(now: int) returns (ok: bool)
      modifies manager
      ensures Outcome(manager.State(), ok) == AfterDaily(old(manager.State()), config, now)
    {
      var removed := manager.MarkExpiredKeys(config, now);
      ok := true;
      if removed > 0 {
        ok := EnsureEach(Managed(config.algorithms), now);
      }
    }

    method RotateOldKeys(now: int) returns (ok: bool)
      modifies manager
      ensures Outcome(manager.State(), ok)
        == if config.rotationAge <= 0 then Outcome(old(manager.State()), true)
           else RefreshedAll(old(manager.State()), RotationAlgorithms(config), config.rotationAge, now)
    {
      if config.rotationAge <= 0 {
        return true;
      }
      var algorithms := RotationAlgorithms(config);
      assert algorithms[0..] == algorithms;
      for i := 0 to |algorithms|
        invariant RefreshedAll(manager.State(), algorithms[i..], config.rotationAge, now)
          == RefreshedAll(old(manager.State()), algorithms, config.rotationAge, now)
      {
        var a := algorithms[i];
        assert algorithms[i..][1..] == algorithms[i + 1..];
        var newest := Newest(manager.keys, a);
        if newest == [] {
          ok := manager.EnsureActiveKey(a, now);
          if !ok {
            return;
          }
          continue;
        }
        if now - newest[0].createdAt < config.rotationAge {
          continue;
        }
        ok := manager.RotateKey(a, now);
        if !ok {
          return;
        }
      }
      ok := true;
    }

    /** The published key set; when it raises nothing is returned and the encryption family is untouched. */
    method GetPublishedKeys(now: int) returns (ok: bool, published: seq<KeyPair>)
      requires Valid()
      modifies manager, encryption
      ensures Outcome(manager.State(), ok) == AfterPublication(old(manager.State()), config, now)
      ensures encryption != null ==>
        encryption.State() == if ok then AfterEncryption(old(encryption.State()), now) else old(encryption.State())
      ensures published == PublishedKeys(AfterPublication(old(manager.State()), config, now))
        + if ok && encryption != null then Active(encryption.keys) else []
    {
      published := [];
      ok := MarkExpiredKeys(now);
      if !ok {
        return;
      }
      ok := RotateOldKeys(now);
      if !ok {
        return;
      }
      published := manager.GetActiveKeys();
      var retired := manager.GetRetiredKeys();
      published := published + retired;
      var encrypting := EncryptionKeysToPublish(now);
      published := published + encrypting;
    }

    method RotateSigningKeys(now: int) returns (ok: bool)
      modifies manager
      ensures Outcome(manager.State(), ok) == RotatedAll(old(manager.State()), Managed(config.algorithms), now)
    {
      hide Rotated, Managed;
      var algorithms := Managed(config.algorithms);
      assert algorithms[0..] == algorithms;
      for i := 0 to |algorithms|
        invariant RotatedAll(manager.State(), algorithms[i..], now) == RotatedAll(old(manager.State()), algorithms, now)
      {
        assert algorithms[i..][1..] == algorithms[i + 1..];
        ok := manager.RotateKey(algorithms[i], now);
        if !ok {
          return;
        }
      }
      ok := true;
    }
  }

  /** `max(active, key=created_at)` over the active keys of one algorithm, as a list of at most one. */
  function Newest(keys: seq<KeyPair>, a: Algorithm): (r: seq<KeyPair>)
    ensures r == [] <==> !HasActive(keys, a)
    ensures r != [] ==> |r| == 1 && r[0] in keys && Signs(r[0], a)
    ensures r != [] ==> forall k :: k in keys && Signs(k, a) ==> k.createdAt <= r[0].createdAt
  {
    if keys == [] then []
    else
      var rest := Newest(keys[1..], a);
      if !Signs(keys[0], a) then
        assert forall k :: k in keys && Signs(k, a) ==> k in keys[1..];
        rest
      else if rest == [] || keys[0].createdAt >= rest[0].createdAt then
        assert forall k :: k in keys && Signs(k, a) ==> k == keys[0] || k in keys[1..];
        [keys[0]]
      else
        assert forall k :: k in keys && Signs(k, a) ==> k == keys[0] || k in keys[1..];
        rest
  }

  // ---- which keys survive ---------------------------------------------------------------

  /** The key itself is in the store, active or not. */
  ghost predicate Stored(keys: seq<KeyPair>, k: KeyPair) {
    exists j :: j in keys && j.(isActive := k.isActive) == k
  }

  /** Keys were generated for usable algorithms, not in the future, under identifiers given out. */
  ghost predicate WellFormed(s: Store, now: int) {
    forall k :: k in s.keys ==> k.kid < s.nextKid && k.createdAt <= now && HasKeyPair(k.algorithm)
  }

  /** From `a` to `b` no key is lost and only new identifiers appear. */
  ghost predicate Extends(a: Store, b: Store) {
    && a.nextKid <= b.nextKid
    && (forall k :: Stored(a.keys, k) ==> Stored(b.keys, k))
    && (forall k :: Stored(b.keys, k) && k.kid < a.nextKid ==> Stored(a.keys, k))
  }

  lemma RetiredKeepsStored(keys: seq<KeyPair>, a: Algorithm, k: KeyPair)
    ensures Stored(Retired(keys, a), k) <==> Stored(keys, k)
  {
    var r := Retired(keys, a);
    if Stored(keys, k) {
      var i :| 0 <= i < |keys| && keys[i].(isActive := k.isActive) == k;
      assert r[i] in r;
    }
    if Stored(r, k) {
      var i :| 0 <= i < |r| && r[i].(isActive := k.isActive) == k;
      assert keys[i] in keys;
    }
  }

  lemma AppendKeepsStored(keys: seq<KeyPair>, added: KeyPair, k: KeyPair)
    ensures Stored(keys + [added], k) <==> Stored(keys, k) || added.(isActive := k.isActive) == k
  {
    assert forall j :: j in keys + [added] <==> j in keys || j == added;
    assert added in keys + [added];
  }

  lemma EnsuredExtends(s: Store, a: Algorithm, now: int)
    requires WellFormed(s, now)
    ensures var r := Ensured(s, a, now);
      && Extends(s, r.store) && WellFormed(r.store, now)
      && (r.ok <==> HasKeyPair(a)) && (r.ok ==> HasActive(r.store.keys, a))
  {
    var added := KeyPair(s.nextKid, a, now, true);
    forall k ensures Stored(s.keys + [added], k) <==> Stored(s.keys, k) || added.(isActive := k.isActive) == k {
      AppendKeepsStored(s.keys, added, k);
    }
    assert added in s.keys + [added];
  }

  lemma RotatedExtends(s: Store, a: Algorithm, now: int)
    requires WellFormed(s, now)
    ensures var r := Rotated(s, a, now);
      && Extends(s, r.store) && WellFormed(r.store, now) && (r.ok <==> HasKeyPair(a))
      && (r.ok ==> KeyPair(s.nextKid, a, now, true) in r.store.keys)
      && (r.ok ==> forall k :: k in r.store.keys && Signs(k, a) ==> k.kid == s.nextKid)
  {
    var added := KeyPair(s.nextKid, a, now, true);
    var before := Retired(s.keys, a);
    forall k ensures Stored(before + [added], k) <==> Stored(s.keys, k) || added.(isActive := k.isActive) == k {
      AppendKeepsStored(before, added, k);
      RetiredKeepsStored(s.keys, a, k);
    }
  }

  lemma RefreshedExtends(s: Store, a: Algorithm, age: int, now: int)
    requires WellFormed(s, now) && age > 0
    ensures var r := Refreshed(s, a, age, now);
      && Extends(s, r.store) && WellFormed(r.store, now) && (r.ok <==> HasKeyPair(a))
      && (r.ok ==> HasYoungActive(r.store.keys, a, age, now))
  {
    EnsuredExtends(s, a, now);
    RotatedExtends(s, a, now);
    var added := KeyPair(s.nextKid, a, now, true);
    if !HasActive(s.keys, a) && HasKeyPair(a) {
      assert added in Ensured(s, a, now).store.keys && Signs(added, a);
    } else if HasKeyPair(a) && !HasYoungActive(s.keys, a, age, now) {
      assert added in Rotated(s, a, now).store.keys && Signs(added, a);
    }
  }

  /** Refreshing one algorithm leaves the young active keys of all others alone. */
  lemma RefreshedKeepsYoung(s: Store, a: Algorithm, b: Algorithm, age: int, now: int)
    requires HasYoungActive(s.keys, b, age, now)
    ensures HasYoungActive(Refreshed(s, a, age, now).store.keys, b, age, now)
  {
    if a != b && Refreshed(s, a, age, now).store != s {
      var i :| 0 <= i < |s.keys| && Signs(s.keys[i], b) && now - s.keys[i].createdAt < age;
      var after := Refreshed(s, a, age, now).store.keys;
      assert after[i] == s.keys[i] && after[i] in after;
    }
  }

  lemma {:induction false} EnsuredAllExtends(s: Store, algorithms: seq<Algorithm>, now: int)
    requires WellFormed(s, now)
    ensures var r := EnsuredAll(s, algorithms, now);
      && Extends(s, r.store) && WellFormed(r.store, now)
      && (r.ok <==> forall a :: a in algorithms ==> HasKeyPair(a))
    decreases |algorithms|
  {
    hide Extends, WellFormed, Stored, Ensured;
    if algorithms == [] {
      ExtendsItself(s);
    } else {
      EnsuredExtends(s, algorithms[0], now);
      var first := Ensured(s, algorithms[0], now);
      assert algorithms == [algorithms[0]] + algorithms[1..];
      if first.ok {
        EnsuredAllExtends(first.store, algorithms[1..], now);
        ExtendsThrough(s, first.store, EnsuredAll(s, algorithms, now).store);
      }
    }
  }

  lemma ExtendsItself(s: Store)
    ensures Extends(s, s)
  {
  }

  lemma ExtendsThrough(a: Store, b: Store, c: Store)
    requires Extends(a, b) && Extends(b, c)
    ensures Extends(a, c)
  {
  }

  lemma {:induction false} RotatedAllExtends(s: Store, algorithms: seq<Algorithm>, now: int)
    requires WellFormed(s, now)
    ensures var r := RotatedAll(s, algorithms, now); Extends(s, r.store) && WellFormed(r.store, now)
    decreases |algorithms|
  {
    hide Extends, WellFormed, Stored, Rotated;
    if algorithms == [] {
      ExtendsItself(s);
    } else {
      RotatedExtends(s, algorithms[0], now);
      var first := Rotated(s, algorithms[0], now);
      if first.ok {
        RotatedAllExtends(first.store, algorithms[1..], now);
        ExtendsThrough(s, first.store, RotatedAll(s, algorithms, now).store);
      }
    }
  }

  lemma {:induction false} RefreshedAllExtends(s: Store, algorithms: seq<Algorithm>, age: int, now: int)
    requires WellFormed(s, now) && age > 0
    ensures var r := RefreshedAll(s, algorithms, age, now);
      && Extends(s, r.store) && WellFormed(r.store, now)
      && (r.ok <==> forall a :: a in algorithms ==> HasKeyPair(a))
      && (r.ok ==> forall a :: a in algorithms ==> HasYoungActive(r.store.keys, a, age, now))
      && (forall b :: HasYoungActive(s.keys, b, age, now) ==> HasYoungActive(r.store.keys, b, age, now))
    decreases |algorithms|
  {
    hide Extends, WellFormed, Stored, Refreshed, HasYoungActive;
    if algorithms == [] {
      ExtendsItself(s);
    } else {
      var a := algorithms[0];
      RefreshedExtends(s, a, age, now);
      var first := Refreshed(s, a, age, now);
      assert algorithms == [a] + algorithms[1..];
      forall b | HasYoungActive(s.keys, b, age, now) ensures HasYoungActive(first.store.keys, b, age, now) {
        RefreshedKeepsYoung(s, a, b, age, now);
      }
      if first.ok {
        RefreshedAllExtends(first.store, algorithms[1..], age, now);
        ExtendsThrough(s, first.store, RefreshedAll(s, algorithms, age, now).store);
      }
    }
  }

  /** Active and retired keys keep the order of the store, and none is lost. */
  lemma {:induction false} FilterKeepsOrder(keys: seq<KeyPair>, more: seq<KeyPair>, active: bool)
    ensures Filter(keys + more, active) == Filter(keys, active) + Filter(more, active)
    ensures |Filter(keys, true)| + |Filter(keys, false)| == |keys|
  {
    if keys == [] {
      assert keys + more == more;
    } else {
      assert (keys + more)[1..] == keys[1..] + more;
      FilterKeepsOrder(keys[1..], more, active);
    }
  }

  /** The algorithm signs with a key made by this rotation, and with no older one. */
  ghost predicate SignsOnlyAnew(keys: seq<KeyPair>, a: Algorithm, firstKid: nat, now: int) {
    && HasActive(keys, a)
    && forall k :: k in keys && Signs(k, a) ==> k.kid >= firstKid && k.createdAt == now
  }

  lemma RotatedAnew(s: Store, a: Algorithm, b: Algorithm, firstKid: nat, now: int)
    requires Rotated(s, a, now).ok && firstKid <= s.nextKid
    requires a != b ==> SignsOnlyAnew(s.keys, b, firstKid, now)
    ensures SignsOnlyAnew(Rotated(s, a, now).store.keys, b, firstKid, now)
  {
    var added := KeyPair(s.nextKid, a, now, true);
    var before := Retired(s.keys, a);
    var after := before + [added];
    assert added in after;
    forall k | k in after && Signs(k, b) ensures k.kid >= firstKid && k.createdAt == now {
      if k in before {
        var i :| 0 <= i < |before| && before[i] == k;
        assert s.keys[i] == k;
      }
    }
    if a != b {
      var i :| 0 <= i < |s.keys| && Signs(s.keys[i], b);
      assert after[i] == s.keys[i];
    }
  }

  /** A rotation on demand that goes through replaces the signing key of every algorithm it names. */
  lemma {:induction false} RotationOnDemandReplaces(s: Store, algorithms: seq<Algorithm>, firstKid: nat, now: int, b: Algorithm)
    requires RotatedAll(s, algorithms, now).ok && firstKid <= s.nextKid
    requires b in algorithms || SignsOnlyAnew(s.keys, b, firstKid, now)
    ensures SignsOnlyAnew(RotatedAll(s, algorithms, now).store.keys, b, firstKid, now)
    decreases |algorithms|
  {
    hide SignsOnlyAnew;
    if algorithms != [] {
      var first := Rotated(s, algorithms[0], now);
      assert algorithms == [algorithms[0]] + algorithms[1..];
      if b == algorithms[0] || SignsOnlyAnew(s.keys, b, firstKid, now) {
        RotatedAnew(s, algorithms[0], b, firstKid, now);
      }
      RotationOnDemandReplaces(first.store, algorithms[1..], firstKid, now, b);
    }
  }

  predicate Expired(k: KeyPair, config: Config, now: int) {
    now - k.createdAt >= config.rotationPeriod + config.gracePeriod
  }

  /** The daily policy deletes exactly the expired keys, and leaves active exactly the active ones still in their period. */
  lemma {:induction false} DailyMeaning(keys: seq<KeyPair>, config: Config, now: int, k: KeyPair)
    ensures Stored(Daily(keys, config, now), k) <==> Stored(keys, k) && !Expired(k, config, now)
    ensures k.isActive ==> (k in Daily(keys, config, now) <==> k in keys && now - k.createdAt < config.rotationPeriod)
    ensures k in Daily(keys, config, now) ==> Stored(keys, k)
    ensures |Daily(keys, config, now)| <= |keys|
  {
    if keys != [] {
      var rest := Daily(keys[1..], config, now);
      DailyMeaning(keys[1..], config, now, k);
      var one := DailyOne(keys[0], config, now);
      assert forall j :: j in keys <==> j == keys[0] || j in keys[1..];
      assert forall j :: j in one + rest <==> j in one || j in rest;
      if one != [] {
        assert one[0] in one + rest;
      }
    }
  }

  /** Something is deleted exactly when some key is expired. */
  lemma {:induction false} DailyDeletesIff(keys: seq<KeyPair>, config: Config, now: int)
    ensures |Daily(keys, config, now)| <= |keys|
    ensures |Daily(keys, config, now)| < |keys| <==> exists k :: k in keys && Expired(k, config, now)
  {
    if keys != [] {
      DailyDeletesIff(keys[1..], config, now);
      assert forall j :: j in keys <==> j == keys[0] || j in keys[1..];
      var one, rest := DailyOne(keys[0], config, now), Daily(keys[1..], config, now);
      assert |Daily(keys, config, now)| == |one| + |rest|;
      assert one == [] <==> Expired(keys[0], config, now);
    }
  }

  /** The daily policy with its regeneration keeps exactly the unexpired keys, and only adds new ones. */
  lemma AfterDailyKeeps(s: Store, config: Config, now: int, k: KeyPair)
    requires WellFormed(s, now) && k.kid < s.nextKid
    ensures var r := AfterDaily(s, config, now);
      && (Stored(r.store.keys, k) <==> Stored(s.keys, k) && !Expired(k, config, now))
      && WellFormed(r.store, now) && s.nextKid <= r.store.nextKid
  {
    hide WellFormed, Daily, Managed;
    var purged := Store(Daily(s.keys, config, now), s.nextKid);
    DailyMeaning(s.keys, config, now, k);
    DailyWellFormed(s, config, now);
    EnsuredAllExtends(purged, Managed(config.algorithms), now);
  }

  /** A publication keeps exactly the keys that were stored and are not expired, and only adds new ones. */
  lemma PublicationKeeps(s: Store, config: Config, now: int, k: KeyPair)
    requires WellFormed(s, now) && k.kid < s.nextKid
    ensures var r := AfterPublication(s, config, now);
      && (Stored(r.store.keys, k) <==> Stored(s.keys, k) && !Expired(k, config, now))
      && WellFormed(r.store, now) && s.nextKid <= r.store.nextKid
  {
    hide WellFormed, AfterDaily, RotationAlgorithms;
    AfterDailyKeeps(s, config, now, k);
    var daily := AfterDaily(s, config, now);
    if daily.ok && config.rotationAge > 0 {
      RefreshedAllExtends(daily.store, RotationAlgorithms(config), config.rotationAge, now);
    }
  }

  lemma DailyWellFormed(s: Store, config: Config, now: int)
    requires WellFormed(s, now)
    ensures WellFormed(Store(Daily(s.keys, config, now), s.nextKid), now)
  {
    forall k | k in Daily(s.keys, config, now)
      ensures k.kid < s.nextKid && k.createdAt <= now && HasKeyPair(k.algorithm)
    {
      DailyMeaning(s.keys, config, now, k);
    }
  }

  // ---- every interleaving ------------------------------------------------------------------

  /** `Ensure` is the signing of a token, which generates a key when its algorithm has none. */
  datatype Event = Initialise | GetActive | Ensure(a: Algorithm) | Publish | RotateOnDemand | Tick(elapsed: nat)

  datatype State = State(store: Store, now: int)

  function Step(config: Config, s: State, e: Event): State {
    match e
    case Initialise => s.(store := EnsuredAll(s.store, Managed(config.algorithms), s.now).store)
    case GetActive => s.(store := AfterDaily(s.store, config, s.now).store)
    case Ensure(a) => s.(store := Ensured(s.store, a, s.now).store)
    case Publish => s.(store := AfterPublication(s.store, config, s.now).store)
    case RotateOnDemand => s.(store := RotatedAll(s.store, Managed(config.algorithms), s.now).store)
    case Tick(elapsed) => s.(now := s.now + elapsed)
  }

  function Run(config: Config, s: State, events: seq<Event>): State
    decreases |events|
  {
    if events == [] then s else Run(config, Step(config, s, events[0]), events[1..])
  }

  /** A key is lost only once expired. */
  ghost predicate Tracked(config: Config, s: State, k: KeyPair) {
    && WellFormed(s.store, s.now) && k.kid < s.store.nextKid
    && (Stored(s.store.keys, k) || Expired(k, config, s.now))
  }

  lemma StepTracks(config: Config, s: State, e: Event, k: KeyPair)
    requires Tracked(config, s, k)
    ensures Tracked(config, Step(config, s, e), k)
  {
    hide EnsuredAll, RotatedAll, AfterDaily, AfterPublication, Ensured;
    match e {
      case Initialise => EnsuredAllExtends(s.store, Managed(config.algorithms), s.now);
      case GetActive => AfterDailyKeeps(s.store, config, s.now, k);
      case Ensure(a) => EnsuredExtends(s.store, a, s.now);
      case Publish => PublicationKeeps(s.store, config, s.now, k);
      case RotateOnDemand => RotatedAllExtends(s.store, Managed(config.algorithms), s.now);
      case Tick(_) =>
    }
  }

  lemma {:induction false} RunTracks(config: Config, s: State, events: seq<Event>, k: KeyPair)
    requires Tracked(config, s, k)
    ensures Tracked(config, Run(config, s, events), k)
    decreases |events|
  {
    hide Tracked, Step;
    if events != [] {
      StepTracks(config, s, events[0], k);
      RunTracks(config, Step(config, s, events[0]), events[1..], k);
    }
  }

  lemma StepKeepsWellFormed(config: Config, s: State, e: Event)
    requires WellFormed(s.store, s.now)
    ensures WellFormed(Step(config, s, e).store, Step(config, s, e).now)
  {
    hide EnsuredAll, RotatedAll, AfterDaily, AfterPublication, Managed, Ensured;
    match e {
      case Initialise => EnsuredAllExtends(s.store, Managed(config.algorithms), s.now);
      case GetActive => AfterDailyWellFormed(s.store, config, s.now);
      case Ensure(a) => EnsuredExtends(s.store, a, s.now);
      case Publish => PublicationWellFormed(s.store, config, s.now);
      case RotateOnDemand => RotatedAllExtends(s.store, Managed(config.algorithms), s.now);
      case Tick(_) =>
    }
  }

  lemma AfterDailyWellFormed(s: Store, config: Config, now: int)
    requires WellFormed(s, now)
    ensures WellFormed(AfterDaily(s, config, now).store, now)
  {
    hide WellFormed, Daily, Managed, EnsuredAll;
    DailyWellFormed(s, config, now);
    EnsuredAllExtends(Store(Daily(s.keys, config, now), s.nextKid), Managed(config.algorithms), now);
  }

  lemma PublicationWellFormed(s: Store, config: Config, now: int)
    requires WellFormed(s, now)
    ensures WellFormed(AfterPublication(s, config, now).store, now)
  {
    hide WellFormed, AfterDaily, RotationAlgorithms, RefreshedAll;
    AfterDailyWellFormed(s, config, now);
    if config.rotationAge > 0 {
      RefreshedAllExtends(AfterDaily(s, config, now).store, RotationAlgorithms(config), config.rotationAge, now);
    }
  }

  const Empty := Store([], 0)

  /** Every store that a run reaches from the empty one is well formed. */
  lemma {:induction false} RunKeepsWellFormed(config: Config, s: State, events: seq<Event>)
    requires WellFormed(s.store, s.now) || s.store == Empty
    ensures WellFormed(Run(config, s, events).store, Run(config, s, events).now)
    decreases |events|
  {
    hide Step;
    if events != [] {
      StepKeepsWellFormed(config, s, events[0]);
      RunKeepsWellFormed(config, Step(config, s, events[0]), events[1..]);
    }
  }

  /** What a publication of this store needs in order not to raise. */
  predicate CanPublish(s: Store, config: Config, now: int) {
    && ((exists k :: k in s.keys && Expired(k, config, now)) ==> NoSignature !in config.algorithms)
    && (config.rotationAge > 0 ==> forall a :: a in RotationAlgorithms(config) ==> HasKeyPair(a))
  }

  /**
    When a publication goes through. It raises exactly when a purge asks for a
    key of algorithm `none`, or when proactive rotation is on for an algorithm
    without key pairs: the configured list is not filtered.
  */
  lemma PublicationGoesThroughIff(s: Store, config: Config, now: int)
    requires WellFormed(s, now)
    ensures AfterPublication(s, config, now).ok <==> CanPublish(s, config, now)
  {
    hide WellFormed, RefreshedAll, EnsuredAll, Daily, RotationAlgorithms, Expired;
    DailyDeletesIff(s.keys, config, now);
    var purged := Store(Daily(s.keys, config, now), s.nextKid);
    DailyWellFormed(s, config, now);
    EnsuredAllExtends(purged, Managed(config.algorithms), now);
    var daily := AfterDaily(s, config, now);
    if config.rotationAge > 0 {
      RefreshedAllExtends(daily.store, RotationAlgorithms(config), config.rotationAge, now);
    }
  }

  /** One unsuitable algorithm in the rotation list silences every publication, whatever the store. */
  lemma SymmetricRotationRaises(s: Store, now: int)
    requires WellFormed(s, now)
    ensures var r := AfterPublication(s, Config([RS256], 90, 30, 1, [HS256]), now);
      !r.ok && PublishedKeys(r) == []
  {
    hide AfterPublication;
    var config := Config([RS256], 90, 30, 1, [HS256]);
    PublicationGoesThroughIff(s, config, now);
    assert HS256 in RotationAlgorithms(config) && !HasKeyPair(HS256);
  }

  /**
    No key disappears early, and none lingers: over every interleaving of
    start-ups, readings, signatures, publications, rotations and ticks, a key that was in
    the store at some moment is in a later published set exactly while the
    publication goes through and its age is below the rotation period plus the
    grace period.
  */
  lemma PublishedUntilExpiry(config: Config, s: State, events: seq<Event>, k: KeyPair)
    requires WellFormed(s.store, s.now) && k in s.store.keys
    ensures var end := Run(config, s, events);
      Stored(PublishedKeys(AfterPublication(end.store, config, end.now)), k)
      <==> CanPublish(end.store, config, end.now) && end.now - k.createdAt < config.rotationPeriod + config.gracePeriod
  {
    hide AfterPublication, Run, CanPublish, PublishedKeys;
    assert k.(isActive := k.isActive) == k;
    RunTracks(config, s, events, k);
    var end := Run(config, s, events);
    PublicationKeeps(end.store, config, end.now, k);
    PublicationGoesThroughIff(end.store, config, end.now);
    PublishedMembers(AfterPublication(end.store, config, end.now));
  }

  lemma PublishedMembers(r: Outcome)
    ensures forall k :: k in PublishedKeys(r) <==> r.ok && k in r.store.keys
  {
    NewestFirstSorts(Filter(r.store.keys, false));
  }

  /**
    With proactive rotation on, in every run from the empty store, a publication
    that goes through publishes, for every rotated algorithm, an active key
    younger than the rotation age.
  */
  lemma PublicationRefreshes(config: Config, start: int, events: seq<Event>, a: Algorithm)
    requires config.rotationAge > 0 && a in RotationAlgorithms(config)
    ensures var end := Run(config, State(Empty, start), events);
      CanPublish(end.store, config, end.now) ==>
        HasYoungActive(PublishedKeys(AfterPublication(end.store, config, end.now)), a, config.rotationAge, end.now)
  {
    hide AfterPublication, Run, CanPublish, WellFormed;
    var end := Run(config, State(Empty, start), events);
    RunKeepsWellFormed(config, State(Empty, start), events);
    PublicationGoesThroughIff(end.store, config, end.now);
    if CanPublish(end.store, config, end.now) {
      PublicationRefreshesStore(end.store, config, end.now, a);
    }
  }

  lemma PublicationRefreshesStore(s: Store, config: Config, now: int, a: Algorithm)
    requires WellFormed(s, now) && config.rotationAge > 0 && a in RotationAlgorithms(config)
    requires AfterPublication(s, config, now).ok
    ensures HasYoungActive(PublishedKeys(AfterPublication(s, config, now)), a, config.rotationAge, now)
  {
    hide RefreshedAll, AfterDaily, RotationAlgorithms, WellFormed, PublishedKeys;
    AfterDailyWellFormed(s, config, now);
    RefreshedAllExtends(AfterDaily(s, config, now).store, RotationAlgorithms(config), config.rotationAge, now);
    PublishedMembers(AfterPublication(s, config, now));
  }

  /**
    With proactive rotation off, a publication does not always leave a managed
    algorithm with an active key: a key retired at the end of its period is
    replaced only when the same publication also deletes some key.
  */
  lemma ActiveAfterPublicationIff(s: Store, config: Config, now: int, a: Algorithm)
    requires WellFormed(s, now) && config.rotationAge <= 0
    requires AfterPublication(s, config, now).ok
    ensures HasActive(AfterPublication(s, config, now).store.keys, a) <==>
      || (exists k :: k in s.keys && Signs(k, a) && now - k.createdAt < config.rotationPeriod)
      || ((exists k :: k in s.keys && Expired(k, config, now)) && a in Managed(config.algorithms))
  {
    hide EnsuredAll, Daily, Managed, WellFormed;
    DailyDeletesIff(s.keys, config, now);
    var keys := Daily(s.keys, config, now);
    var purged := Store(keys, s.nextKid);
    forall k: KeyPair | k.isActive ensures k in keys <==> k in s.keys && now - k.createdAt < config.rotationPeriod {
      DailyMeaning(s.keys, config, now, k);
    }
    if |keys| < |s.keys| {
      EnsuredAllActivates(purged, Managed(config.algorithms), now, a);
    }
  }

  /** The first key of a server started a hundred days ago, retired after ninety and not yet deleted, has no successor. */
  lemma RetiredWithoutSuccessor()
    ensures var config := Config([RS256], 90, 30, 0, []);
      var end := Run(config, State(Empty, 0), [Initialise, Tick(100)]);
      var r := AfterPublication(end.store, config, end.now);
      r.ok && PublishedKeys(r) == [KeyPair(0, RS256, 0, false)] && !HasActive(r.store.keys, RS256)
  {
    var config := Config([RS256], 90, 30, 0, []);
    var first := KeyPair(0, RS256, 0, true);
    assert Managed([RS256]) == [RS256];
    assert EnsuredAll(Empty, [RS256], 0) == Outcome(Store([first], 1), true);
    assert Run(config, State(Empty, 0), [Initialise, Tick(100)]) == State(Store([first], 1), 100);
    assert Daily([first], config, 100) == [first.(isActive := false)];
  }

  lemma {:induction false} EnsuredAllActivates(s: Store, algorithms: seq<Algorithm>, now: int, a: Algorithm)
    requires EnsuredAll(s, algorithms, now).ok
    ensures HasActive(EnsuredAll(s, algorithms, now).store.keys, a) <==> HasActive(s.keys, a) || a in algorithms
    decreases |algorithms|
  {
    if algorithms != [] {
      var first := Ensured(s, algorithms[0], now);
      if !HasActive(s.keys, algorithms[0]) {
        var added := KeyPair(s.nextKid, algorithms[0], now, true);
        assert forall k :: k in s.keys + [added] <==> k in s.keys || k == added;
        assert added in first.store.keys && Signs(added, algorithms[0]);
      }
      EnsuredAllActivates(first.store, algorithms[1..], now, a);
    }
  }
}
