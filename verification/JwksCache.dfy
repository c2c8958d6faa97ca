/**
 The JWKS key cache: the fields, and the critical sections that read or change them under `mu`.
 Time is an integer read from a monotone clock.
 */
module JwksCaches {
  import opened Common

  type PublicKey = nat

  datatype CachedKey = CachedKey(key: PublicKey, alg: string, kty: string, kid: string)

  /** One entry of a JWK Set (RFC 7517, section 5); `parsed` is None when its key material is not usable. */
  datatype Jwk = Jwk(kid: string, kty: string, alg: string, parsed: Option<PublicKey>)

  type Keys = map<string, CachedKey>

  datatype Error = EmptyKid | Unavailable | UnknownKid

  datatype Answer = Found(key: CachedKey) | Failed(error: Error)

  datatype Config = Config(ttl: int, staleMaxAge: int)

  /** Before the first success the age is past every stale limit. */
  function Age(cfg: Config, lastSuccessAt: Option<int>, now: int): int {
    match lastSuccessAt
    case None => cfg.staleMaxAge + 1
    case Some(at) => now - at
  }

  /** The map a response yields: unusable keys are skipped and, for a repeated kid, the last one wins. */
  function KeysOf(jwks: seq<Jwk>): Keys {
    if jwks == [] then map[]
    else
      var rest := KeysOf(jwks[..|jwks| - 1]);
      var k := jwks[|jwks| - 1];
      if k.parsed.None? then rest else rest[k.kid := CachedKey(k.parsed.value, k.alg, k.kty, k.kid)]
  }

  predicate UsableFor(jwk: Jwk, kid: string) {
    jwk.kid == kid && jwk.parsed.Some?
  }

  /** A kid is cached exactly when the response has a usable key for it, and then with the last such key. */
  lemma {:induction false} KeysOfLastUsable(jwks: seq<Jwk>, kid: string)
    returns (last: int)
    ensures kid in KeysOf(jwks) <==> exists i :: 0 <= i < |jwks| && UsableFor(jwks[i], kid)
    ensures kid in KeysOf(jwks) ==> 0 <= last < |jwks| && UsableFor(jwks[last], kid)
    ensures kid in KeysOf(jwks) ==> forall j :: last < j < |jwks| ==> !UsableFor(jwks[j], kid)
    ensures kid in KeysOf(jwks) ==>
      KeysOf(jwks)[kid] == CachedKey(jwks[last].parsed.value, jwks[last].alg, jwks[last].kty, kid)
  {
    last := -1;
    if jwks != [] {
      var n := |jwks| - 1;
      last := KeysOfLastUsable(jwks[..n], kid);
      if UsableFor(jwks[n], kid) {
        last := n;
      } else {
        assert KeysOf(jwks[..n]).Keys - {kid} <= KeysOf(jwks).Keys;
        assert kid in KeysOf(jwks) <==> kid in KeysOf(jwks[..n]);
        if i :| 0 <= i < |jwks| && UsableFor(jwks[i], kid) {
          assert jwks[..n][i] == jwks[i];
        }
        if kid in KeysOf(jwks[..n]) {
          assert jwks[..n][last] == jwks[last];
        }
      }
    }
  }

  /** The fields of the cache object. */
  datatype Fields = Fields(cache: Keys, lastSuccessAt: Option<int>, refreshing: bool)

  /** What a lookup of `kid` answers and leaves behind when nobody interferes. A key younger than ttl is returned as it
      is. One younger than staleMaxAge is returned too, and a background refresh is spawned unless one is alive. A
      key that is fresh only once fetchMu is held is returned as it is. Otherwise the answer is the response's. */
  predicate Serves(cfg: Config, was: Fields, kid: string, t0: int, t1: int, t2: int, response: Option<seq<Jwk>>,
      now: Fields, answer: Answer, spawned: bool)
  {
    var age := Age(cfg, was.lastSuccessAt, t0);
    if kid == "" then answer == Failed(EmptyKid) && now == was && !spawned
    else if kid in was.cache && age < cfg.ttl then answer == Found(was.cache[kid]) && now == was && !spawned
    else if kid in was.cache && age < cfg.staleMaxAge then
      && answer == Found(was.cache[kid]) && spawned == !was.refreshing
      && now.refreshing && now.cache == was.cache && now.lastSuccessAt == was.lastSuccessAt
    else if kid in was.cache && Age(cfg, was.lastSuccessAt, t1) < cfg.ttl then
      answer == Found(was.cache[kid]) && now == was && !spawned
    else if response.None? then answer == Failed(Unavailable) && now == was && !spawned
    else
      && now.cache == KeysOf(response.value) && now.lastSuccessAt == Some(t2)
      && now.refreshing == was.refreshing && !spawned
      && answer == (if kid in now.cache then Found(now.cache[kid]) else Failed(UnknownKid))
  }

  class JwksCache {
    const cfg: Config
    var cache: Keys
    var lastSuccessAt: Option<int>
    var refreshing: bool

    constructor (cfg: Config)
      ensures this.cfg == cfg && cache == map[] && lastSuccessAt == None && !refreshing
    {
      this.cfg := cfg;
      cache, lastSuccessAt, refreshing := map[], None, false;
    }

    function State(): Fields
      reads this
    {
      Fields(cache, lastSuccessAt, refreshing)
    }

    function CacheAge(now: int): int
      reads this
    {
      Age(cfg, lastSuccessAt, now)
    }

    /** The readiness probe: a fetch has succeeded, less than staleMaxAge ago. */
    method Reachable(now: int) returns (ok: bool)
      ensures ok <==> lastSuccessAt.Some? && now - lastSuccessAt.value < cfg.staleMaxAge
    {
      if lastSuccessAt.None? { return false; }
      return CacheAge(now) < cfg.staleMaxAge;
    }

    /** The read section of GetKey, under mu.RLock. */
    method Read(kid: string, now: int) returns (age: int, found: Option<CachedKey>)
      ensures age == Age(cfg, lastSuccessAt, now) && found == Lookup(cache, kid)
    {
      age := CacheAge(now);
      found := if kid in cache then Some(cache[kid]) else None;
    }

    /** Claims the background refresh, under mu.Lock; false when one is already running. */
    method ClaimRefresh() returns (claimed: bool)
      modifies this`refreshing
      ensures refreshing && claimed == !old(refreshing)
    {
      claimed := !refreshing;
      if claimed { refreshing := true; }
    }

    /** The background goroutine's deferred section. */
    method ReleaseRefresh()
      modifies this`refreshing
      ensures !refreshing
    {
      refreshing := false;
    }

    /** The tail of refresh: build the map outside the lock, then swap it in under mu.Lock. */
    method Install(jwks: seq<Jwk>, now: int)
      modifies this`cache, this`lastSuccessAt
      ensures cache == KeysOf(jwks) && lastSuccessAt == Some(now)
    {
      var newCache: Keys := map[];
      for i := 0 to |jwks|
        invariant newCache == KeysOf(jwks[..i])
      {
        assert jwks[..i + 1][..i] == jwks[..i];
        var k := jwks[i];
        if k.parsed.None? { continue; }
        newCache := newCache[k.kid := CachedKey(k.parsed.value, k.alg, k.kty, k.kid)];
      }
      assert jwks[..|jwks|] == jwks;
      cache := newCache;
      lastSuccessAt := Some(now);
    }

    /** The background goroutine: refresh once, keep the old keys if that fails, and clear the flag either way. */
    method BackgroundRefresh(response: Option<seq<Jwk>>, now: int)
      modifies this
      ensures !refreshing
      ensures response.Some? ==> cache == KeysOf(response.value) && lastSuccessAt == Some(now)
      ensures response.None? ==> cache == old(cache) && lastSuccessAt == old(lastSuccessAt)
    {
      if response.Some? { Install(response.value, now); }
      ReleaseRefresh();
    }

    /** GetKey with no other caller around. The clock reads `t0`, `t1`, `t2` at its three reads; `response` is what
        a blocking fetch would answer. `spawned` tells whether a background refresh was started. */
    method GetKey(kid: string, t0: int, t1: int, t2: int, response: Option<seq<Jwk>>)
      returns (answer: Answer, spawned: bool)
      requires t0 <= t1 <= t2
      modifies this
      ensures Serves(cfg, old(State()), kid, t0, t1, t2, response, State(), answer, spawned)
    {
      spawned := false;
      if kid == "" { return Failed(EmptyKid), false; }
      var age, found := Read(kid, t0);
      if found.Some? {
        if age < cfg.ttl { return Found(found.value), false; }
        if age < cfg.staleMaxAge {
          spawned := ClaimRefresh();
          return Found(found.value), spawned;
        }
      }
      age, found := Read(kid, t1);
      if found.Some? && age < cfg.ttl { return Found(found.value), false; }
      if response.None? { return Failed(Unavailable), false; }
      Install(response.value, t2);
      age, found := Read(kid, t2);
      if found.None? { return Failed(UnknownKid), false; }
      return Found(found.value), false;
    }
  }
}
