/**
 Every interleaving of GetKey calls, background refreshes and clock ticks on one JwksCache.
 A step is one critical section: a read or a write under `mu`, or taking or releasing `fetchMu`.
 A fetch fails, or answers with a JWK Set.
 */
module JwksProtocol {
  import opened Common
  import opened JwksCaches

  type CallId = nat

  datatype Call =
    | Begun(kid: string, start: int)
    | Stale(kid: string, start: int, key: CachedKey)           // will return `key`, may spawn a refresh first
    | WaitFetchMu(kid: string, start: int)
    | Recheck(kid: string, start: int)                         // holds fetchMu
    | Fetching(kid: string, start: int)                        // holds fetchMu, request in flight
    | Installing(kid: string, start: int, jwks: seq<Jwk>)      // holds fetchMu, response parsed
    | Releasing(kid: string, start: int, pending: Option<Answer>) // holds fetchMu; None: read the cache again
    | ReadBack(kid: string, start: int)
    | Returned(kid: string, start: int, answer: Answer)

  datatype Background = BgFetching | BgInstalling(jwks: seq<Jwk>) | BgLeaving

  /** A successful refresh: when it was installed, and the keys it installed. */
  datatype Installed = Installed(at: int, keys: Keys)

  datatype Sys = Sys(
    now: int,
    cache: Keys,
    lastSuccessAt: Option<int>,
    refreshing: bool,
    fetchMu: Option<CallId>,
    calls: map<CallId, Call>,
    background: map<CallId, Background>,  // named after the call that spawned it
    installs: seq<Installed>)

  datatype Label =
    | Tick(d: nat)
    | GetKey(c: CallId, kid: string)
    | Step(c: CallId)
    | FetchOk(c: CallId, jwks: seq<Jwk>)
    | FetchError(c: CallId)
    | BgStep(c: CallId)
    | BgFetchOk(c: CallId, jwks: seq<Jwk>)
    | BgFetchError(c: CallId)

  function Init(now: int): Sys {
    Sys(now, map[], None, false, None, map[], map[], [])
  }

  function Goto(s: Sys, c: CallId, pc: Call): Sys {
    s.(calls := s.calls[c := pc])
  }

  function DoInstall(s: Sys, jwks: seq<Jwk>): Sys {
    s.(cache := KeysOf(jwks), lastSuccessAt := Some(s.now), installs := s.installs + [Installed(s.now, KeysOf(jwks))])
  }

  /** One step of call `c` that needs no answer from the network. */
  function StepCall(cfg: Config, s: Sys, c: CallId): Sys
    requires c in s.calls
  {
    var age := Age(cfg, s.lastSuccessAt, s.now);
    match s.calls[c]
    case Begun(kid, start) =>
      if kid in s.cache && age < cfg.ttl then Goto(s, c, Returned(kid, start, Found(s.cache[kid])))
      else if kid in s.cache && age < cfg.staleMaxAge then Goto(s, c, Stale(kid, start, s.cache[kid]))
      else Goto(s, c, WaitFetchMu(kid, start))
    case Stale(kid, start, key) =>
      var n := Goto(s, c, Returned(kid, start, Found(key)));
      if s.refreshing then n else n.(refreshing := true, background := s.background[c := BgFetching])
    case WaitFetchMu(kid, start) =>
      if s.fetchMu.Some? then s else Goto(s, c, Recheck(kid, start)).(fetchMu := Some(c))
    case Recheck(kid, start) =>
      if kid in s.cache && age < cfg.ttl then Goto(s, c, Releasing(kid, start, Some(Found(s.cache[kid]))))
      else Goto(s, c, Fetching(kid, start))
    case Installing(kid, start, jwks) =>
      Goto(DoInstall(s, jwks), c, Releasing(kid, start, None))
    case Releasing(kid, start, pending) =>
      Goto(s, c, if pending.Some? then Returned(kid, start, pending.value) else ReadBack(kid, start)).(fetchMu := None)
    case ReadBack(kid, start) =>
      Goto(s, c, Returned(kid, start, if kid in s.cache then Found(s.cache[kid]) else Failed(UnknownKid)))
    case Fetching(_, _) => s
    case Returned(_, _, _) => s
  }

  function Next(cfg: Config, s: Sys, l: Label): Sys {
    match l
    case Tick(d) => s.(now := s.now + d)
    case GetKey(c, kid) =>
      if c in s.calls then s
      else Goto(s, c, if kid == "" then Returned(kid, s.now, Failed(EmptyKid)) else Begun(kid, s.now))
    case Step(c) => if c in s.calls then StepCall(cfg, s, c) else s
    case FetchOk(c, jwks) =>
      if c in s.calls && s.calls[c].Fetching? then Goto(s, c, Installing(s.calls[c].kid, s.calls[c].start, jwks)) else s
    case FetchError(c) =>
      if c in s.calls && s.calls[c].Fetching?
      then Goto(s, c, Releasing(s.calls[c].kid, s.calls[c].start, Some(Failed(Unavailable)))) else s
    case BgStep(c) =>
      if c !in s.background then s
      else
        (match s.background[c]
         case BgFetching => s
         case BgInstalling(jwks) => DoInstall(s, jwks).(background := s.background[c := BgLeaving])
         case BgLeaving => s.(refreshing := false, background := s.background - {c}))
    case BgFetchOk(c, jwks) =>
      if c in s.background && s.background[c].BgFetching?
      then s.(background := s.background[c := BgInstalling(jwks)]) else s
    case BgFetchError(c) =>
      if c in s.background && s.background[c].BgFetching?
      then s.(background := s.background[c := BgLeaving]) else s
  }

  function Run(cfg: Config, s: Sys, ls: seq<Label>): Sys {
    if ls == [] then s else Next(cfg, Run(cfg, s, ls[..|ls| - 1]), ls[|ls| - 1])
  }

  // ----- the invariant -----

  /** An install recent enough for a call that started at `start`. */
  predicate Recent(cfg: Config, at: int, start: int) {
    at > start - cfg.ttl || at > start - cfg.staleMaxAge || at >= start
  }

  /** `key` was installed under `kid` by a refresh that is recent enough for a call started at `start`. */
  ghost predicate FreshFor(cfg: Config, installs: seq<Installed>, kid: string, start: int, key: CachedKey) {
    exists i :: 0 <= i < |installs| && kid in installs[i].keys && installs[i].keys[kid] == key
        && Recent(cfg, installs[i].at, start)
  }

  predicate HoldsFetchMu(pc: Call) {
    pc.Recheck? || pc.Fetching? || pc.Installing? || pc.Releasing?
  }

  /** The cache holds exactly what the last install left. */
  ghost predicate CacheOk(s: Sys) {
    && (s.installs == [] ==> s.cache == map[] && s.lastSuccessAt == None)
    && (s.installs != [] ==>
      && s.cache == s.installs[|s.installs| - 1].keys
      && s.lastSuccessAt == Some(s.installs[|s.installs| - 1].at))
    && (forall i, j :: 0 <= i <= j < |s.installs| ==> s.installs[i].at <= s.installs[j].at)
    && (forall i :: 0 <= i < |s.installs| ==> s.installs[i].at <= s.now)
  }

  ghost predicate CallOk(cfg: Config, s: Sys, c: CallId)
    requires c in s.calls
  {
    var pc := s.calls[c];
    && pc.start <= s.now
    && (HoldsFetchMu(pc) <==> s.fetchMu == Some(c))
    && (pc.Stale? ==> FreshFor(cfg, s.installs, pc.kid, pc.start, pc.key))
    && (pc.Releasing? && pc.pending.Some? && pc.pending.value.Found? ==>
      FreshFor(cfg, s.installs, pc.kid, pc.start, pc.pending.value.key))
    && (pc.Returned? && pc.answer.Found? ==> FreshFor(cfg, s.installs, pc.kid, pc.start, pc.answer.key))
    && ((pc.Releasing? && pc.pending.None?) || pc.ReadBack? ==>
      s.lastSuccessAt.Some? && s.lastSuccessAt.value >= pc.start)
  }

  ghost predicate CallsOk(cfg: Config, s: Sys) {
    forall c :: c in s.calls ==> CallOk(cfg, s, c)
  }

  /** `refreshing` is set exactly while a background refresh is alive, and there is never a second one. */
  ghost predicate FlagOk(s: Sys) {
    && (s.refreshing <==> exists c :: c in s.background)
    && (forall b, c :: b in s.background && c in s.background ==> b == c)
  }

  ghost predicate Inv(cfg: Config, s: Sys) {
    && CacheOk(s)
    && CallsOk(cfg, s)
    && (s.fetchMu.Some? ==> s.fetchMu.value in s.calls)
    && FlagOk(s)
  }

  lemma CachedIsFresh(cfg: Config, s: Sys, kid: string, start: int)
    requires CacheOk(s) && kid in s.cache && s.lastSuccessAt.Some? && Recent(cfg, s.lastSuccessAt.value, start)
    ensures FreshFor(cfg, s.installs, kid, start, s.cache[kid])
  {
  }

  lemma FreshForGrows(cfg: Config, installs: seq<Installed>, more: Installed, kid: string, start: int, key: CachedKey)
    requires FreshFor(cfg, installs, kid, start, key)
    ensures FreshFor(cfg, installs + [more], kid, start, key)
  {
    var i :| 0 <= i < |installs| && kid in installs[i].keys && installs[i].keys[kid] == key
        && Recent(cfg, installs[i].at, start);
    assert (installs + [more])[i] == installs[i];
  }

  lemma InstallKeepsCalls(cfg: Config, s: Sys, jwks: seq<Jwk>, c: CallId)
    requires CacheOk(s) && c in s.calls && CallOk(cfg, s, c)
    ensures CacheOk(DoInstall(s, jwks)) && CallOk(cfg, DoInstall(s, jwks), c)
  {
    var pc := s.calls[c];
    var m := Installed(s.now, KeysOf(jwks));
    if pc.Stale? {
      FreshForGrows(cfg, s.installs, m, pc.kid, pc.start, pc.key);
    } else if pc.Releasing? && pc.pending.Some? && pc.pending.value.Found? {
      FreshForGrows(cfg, s.installs, m, pc.kid, pc.start, pc.pending.value.key);
    } else if pc.Returned? && pc.answer.Found? {
      FreshForGrows(cfg, s.installs, m, pc.kid, pc.start, pc.answer.key);
    }
  }

  /** The stepping call itself, one lemma per kind of step. */
  lemma LookupKeepsOwn(cfg: Config, s: Sys, c: CallId)
    requires CacheOk(s) && c in s.calls && CallOk(cfg, s, c)
    requires s.calls[c].Begun? || s.calls[c].Recheck? || s.calls[c].ReadBack?
    ensures CallOk(cfg, StepCall(cfg, s, c), c)
  {
    var pc := s.calls[c];
    if pc.kid in s.cache && s.lastSuccessAt.Some? && Recent(cfg, s.lastSuccessAt.value, pc.start) {
      CachedIsFresh(cfg, s, pc.kid, pc.start);
    }
  }

  lemma InstallKeepsOwn(cfg: Config, s: Sys, c: CallId)
    requires c in s.calls && CallOk(cfg, s, c) && s.calls[c].Installing?
    ensures CallOk(cfg, StepCall(cfg, s, c), c)
  {
  }

  lemma MoveKeepsOwn(cfg: Config, s: Sys, c: CallId)
    requires c in s.calls && CallOk(cfg, s, c)
    requires s.calls[c].Stale? || s.calls[c].WaitFetchMu? || s.calls[c].Releasing?
    ensures CallOk(cfg, StepCall(cfg, s, c), c)
  {
  }

  lemma StepKeepsOwn(cfg: Config, s: Sys, c: CallId)
    requires Inv(cfg, s) && c in s.calls
    ensures CallOk(cfg, StepCall(cfg, s, c), c)
  {
    assert CallOk(cfg, s, c);
    match s.calls[c]
    case Begun(_, _) => LookupKeepsOwn(cfg, s, c);
    case Recheck(_, _) => LookupKeepsOwn(cfg, s, c);
    case ReadBack(_, _) => LookupKeepsOwn(cfg, s, c);
    case Installing(_, _, _) => InstallKeepsOwn(cfg, s, c);
    case Stale(_, _, _) => MoveKeepsOwn(cfg, s, c);
    case WaitFetchMu(_, _) => MoveKeepsOwn(cfg, s, c);
    case Releasing(_, _, _) => MoveKeepsOwn(cfg, s, c);
    case Fetching(_, _) => assert StepCall(cfg, s, c) == s;
    case Returned(_, _, _) => assert StepCall(cfg, s, c) == s;
  }

  lemma NextKeepsFlag(cfg: Config, s: Sys, l: Label)
    requires FlagOk(s)
    ensures FlagOk(Next(cfg, s, l))
  {
    var n := Next(cfg, s, l);
    if l.Step? && l.c in s.calls && s.calls[l.c].Stale? && !s.refreshing {
      assert l.c in n.background;
    } else if (l.BgStep? || l.BgFetchOk? || l.BgFetchError?) && l.c in s.background && l.c in n.background {
      assert s.refreshing;
    }
  }

  lemma InstallKeepsCache(s: Sys, jwks: seq<Jwk>)
    requires CacheOk(s)
    ensures CacheOk(DoInstall(s, jwks)) && s.installs <= DoInstall(s, jwks).installs
  {
  }

  /** The fields CacheOk reads, apart from the clock. */
  predicate SameCache(s: Sys, n: Sys) {
    n.cache == s.cache && n.lastSuccessAt == s.lastSuccessAt && n.installs == s.installs
  }

  /** A step either leaves the cache alone or installs one response in it. */
  lemma StepTouchesCache(cfg: Config, s: Sys, c: CallId)
    requires c in s.calls
    ensures var n := StepCall(cfg, s, c);
      n.now == s.now && SameCache(if s.calls[c].Installing? then DoInstall(s, s.calls[c].jwks) else s, n)
  {
    match s.calls[c]
    case Begun(_, _) =>
    case Stale(_, _, _) =>
    case WaitFetchMu(_, _) =>
    case Recheck(_, _) =>
    case Fetching(_, _) =>
    case Installing(_, _, _) =>
    case Releasing(_, _, _) =>
    case ReadBack(_, _) =>
    case Returned(_, _, _) =>
  }

  lemma NextTouchesCache(cfg: Config, s: Sys, l: Label)
    ensures var n := Next(cfg, s, l);
      && n.now >= s.now
      && (if l.Step? && l.c in s.calls && s.calls[l.c].Installing? then
            n.now == s.now && SameCache(DoInstall(s, s.calls[l.c].jwks), n)
          else if l.BgStep? && l.c in s.background && s.background[l.c].BgInstalling? then
            n.now == s.now && SameCache(DoInstall(s, s.background[l.c].jwks), n)
          else SameCache(s, n))
  {
    if l.Step? && l.c in s.calls { StepTouchesCache(cfg, s, l.c); }
  }

  lemma NextKeepsCache(cfg: Config, s: Sys, l: Label)
    requires CacheOk(s)
    ensures CacheOk(Next(cfg, s, l))
  {
    NextTouchesCache(cfg, s, l);
    if l.Step? && l.c in s.calls && s.calls[l.c].Installing? { InstallKeepsCache(s, s.calls[l.c].jwks); }
    if l.BgStep? && l.c in s.background && s.background[l.c].BgInstalling? {
      InstallKeepsCache(s, s.background[l.c].jwks);
    }
  }

  /** What CallOk looks at. */
  lemma CallOkFrame(cfg: Config, s: Sys, n: Sys, d: CallId)
    requires d in s.calls && CallOk(cfg, s, d)
    requires d in n.calls && n.calls[d] == s.calls[d] && n.now >= s.now
    requires n.installs == s.installs && n.lastSuccessAt == s.lastSuccessAt
    requires n.fetchMu == Some(d) <==> s.fetchMu == Some(d)
    ensures CallOk(cfg, n, d)
  {
  }

  /** A call that is not the one stepping: its claims survive, since installs are never withdrawn. */
  lemma StepKeepsOthers(cfg: Config, s: Sys, c: CallId, d: CallId)
    requires CacheOk(s) && c in s.calls && d in s.calls && c != d
    requires CallOk(cfg, s, c) && CallOk(cfg, s, d)
    ensures CallOk(cfg, StepCall(cfg, s, c), d)
  {
    var n := StepCall(cfg, s, c);
    StepMovesOne(cfg, s, c, d);
    if s.calls[c].Installing? {
      InstallKeepsCalls(cfg, s, s.calls[c].jwks, d);
      CallOkFrame(cfg, DoInstall(s, s.calls[c].jwks), n, d);
    } else {
      CallOkFrame(cfg, s, n, d);
    }
  }

  lemma OtherStepsKeepCall(cfg: Config, s: Sys, l: Label, d: CallId)
    requires CacheOk(s) && d in s.calls && CallOk(cfg, s, d) && !l.Step?
    ensures d in Next(cfg, s, l).calls && CallOk(cfg, Next(cfg, s, l), d)
  {
    var n := Next(cfg, s, l);
    match l {
      case BgStep(b) =>
        if b in s.background && s.background[b].BgInstalling? {
          InstallKeepsCalls(cfg, s, s.background[b].jwks, d);
          CallOkFrame(cfg, DoInstall(s, s.background[b].jwks), n, d);
        }
      case FetchOk(c, jwks) =>
      case FetchError(c) =>
      case _ => CallOkFrame(cfg, s, n, d);
    }
  }

  lemma StepMovesOne(cfg: Config, s: Sys, c: CallId, d: CallId)
    requires c in s.calls && d in s.calls && d != c
    ensures d in StepCall(cfg, s, c).calls && StepCall(cfg, s, c).calls[d] == s.calls[d]
  {
    match s.calls[c]
    case Begun(_, _) =>
    case Stale(_, _, _) =>
    case WaitFetchMu(_, _) =>
    case Recheck(_, _) =>
    case Fetching(_, _) =>
    case Installing(_, _, _) =>
    case Releasing(_, _, _) =>
    case ReadBack(_, _) =>
    case Returned(_, _, _) =>
  }

  lemma StepKeepsHolder(cfg: Config, s: Sys, c: CallId)
    requires c in s.calls
    ensures StepCall(cfg, s, c).fetchMu in {s.fetchMu, None, Some(c)}
    ensures StepCall(cfg, s, c).calls.Keys == s.calls.Keys
  {
    match s.calls[c]
    case Begun(_, _) =>
    case Stale(_, _, _) =>
    case WaitFetchMu(_, _) =>
    case Recheck(_, _) =>
    case Fetching(_, _) =>
    case Installing(_, _, _) =>
    case Releasing(_, _, _) =>
    case ReadBack(_, _) =>
    case Returned(_, _, _) =>
  }

  lemma MutexHolderIsKnown(cfg: Config, s: Sys, l: Label)
    requires s.fetchMu.Some? ==> s.fetchMu.value in s.calls
    ensures Next(cfg, s, l).fetchMu.Some? ==> Next(cfg, s, l).fetchMu.value in Next(cfg, s, l).calls
  {
    if l.Step? && l.c in s.calls { StepKeepsHolder(cfg, s, l.c); }
  }

  lemma NextKeepsCall(cfg: Config, s: Sys, l: Label, d: CallId)
    requires Inv(cfg, s) && d in s.calls
    ensures d in Next(cfg, s, l).calls && CallOk(cfg, Next(cfg, s, l), d)
  {
    assert CallOk(cfg, s, d);
    if !l.Step? {
      OtherStepsKeepCall(cfg, s, l, d);
    } else if l.c in s.calls {
      assert Next(cfg, s, l) == StepCall(cfg, s, l.c);
      if l.c == d { StepKeepsOwn(cfg, s, d); } else { StepKeepsOthers(cfg, s, l.c, d); }
      StepKeepsHolder(cfg, s, l.c);
    } else {
      assert Next(cfg, s, l) == s;
    }
  }

  lemma NextKeepsInv(cfg: Config, s: Sys, l: Label)
    requires Inv(cfg, s)
    ensures Inv(cfg, Next(cfg, s, l))
  {
    NextKeepsFlag(cfg, s, l);
    NextKeepsCache(cfg, s, l);
    MutexHolderIsKnown(cfg, s, l);
    NewCallsAreOk(cfg, s, l);
    forall d | d in s.calls ensures d in Next(cfg, s, l).calls && CallOk(cfg, Next(cfg, s, l), d) {
      NextKeepsCall(cfg, s, l, d);
    }
  }

  lemma NewCallsAreOk(cfg: Config, s: Sys, l: Label)
    requires s.fetchMu.Some? ==> s.fetchMu.value in s.calls
    ensures forall d :: d in Next(cfg, s, l).calls && d !in s.calls ==> CallOk(cfg, Next(cfg, s, l), d)
  {
    if l.Step? && l.c in s.calls { StepKeepsHolder(cfg, s, l.c); }
  }

  lemma {:induction false} RunKeepsInv(cfg: Config, s: Sys, ls: seq<Label>)
    requires Inv(cfg, s)
    ensures Inv(cfg, Run(cfg, s, ls))
  {
    if ls != [] {
      RunKeepsInv(cfg, s, ls[..|ls| - 1]);
      NextKeepsInv(cfg, Run(cfg, s, ls[..|ls| - 1]), ls[|ls| - 1]);
    }
  }

  // ----- freshness -----

  /** Every key a call returns was installed by a successful refresh, and not long before the call started. */
  lemma ReturnedKeyIsFresh(cfg: Config, now: int, ls: seq<Label>, c: CallId)
    ensures
      var s := Run(cfg, Init(now), ls);
      c in s.calls && s.calls[c].Returned? && s.calls[c].answer.Found? ==>
        FreshFor(cfg, s.installs, s.calls[c].kid, s.calls[c].start, s.calls[c].answer.key)
  {
    RunKeepsInv(cfg, Init(now), ls);
    var s := Run(cfg, Init(now), ls);
    if c in s.calls { assert CallOk(cfg, s, c); }
  }

  /** The promise an operator reads from `staleMaxAge`: no call ever returns a key that was installed
      staleMaxAge or more before the call started. */
  ghost predicate StaleBounded(cfg: Config) {
    forall now: int, ls: seq<Label>, c: CallId ::
      var s := Run(cfg, Init(now), ls);
      c in s.calls && s.calls[c].Returned? && s.calls[c].answer.Found? ==> WithinStale(cfg, s, s.calls[c])
  }

  ghost predicate WithinStale(cfg: Config, s: Sys, pc: Call)
    requires pc.Returned? && pc.answer.Found?
  {
    exists i :: 0 <= i < |s.installs| && pc.kid in s.installs[i].keys
      && s.installs[i].keys[pc.kid] == pc.answer.key && s.installs[i].at > pc.start - cfg.staleMaxAge
  }

  /** The options are not checked against each other: the promise holds for every run exactly when
      staleMaxAge is positive and no smaller than ttl. */
  lemma StaleBoundedIff(cfg: Config)
    ensures StaleBounded(cfg) <==> 0 < cfg.staleMaxAge && cfg.ttl <= cfg.staleMaxAge
  {
    if 0 < cfg.staleMaxAge && cfg.ttl <= cfg.staleMaxAge {
      forall now: int, ls: seq<Label>, c: CallId
        ensures
          var s := Run(cfg, Init(now), ls);
          c in s.calls && s.calls[c].Returned? && s.calls[c].answer.Found? ==> WithinStale(cfg, s, s.calls[c])
      {
        ReturnedKeyIsFresh(cfg, now, ls, c);
      }
    } else {
      var ls := FirstFetch(cfg);
      var s := Run(cfg, Init(0), ls);
      if cfg.staleMaxAge <= 0 {
        assert !WithinStale(cfg, s, s.calls[0]);
      } else {
        RunSnoc(cfg, Init(0), ls, Tick(cfg.staleMaxAge));
        var ls1 := ls + [Tick(cfg.staleMaxAge)];
        RunSnoc(cfg, Init(0), ls1, GetKey(1, KID));
        var ls2 := ls1 + [GetKey(1, KID)];
        RunSnoc(cfg, Init(0), ls2, Step(1));
        var t := Run(cfg, Init(0), ls2 + [Step(1)]);
        assert t.calls[1] == Returned(KID, cfg.staleMaxAge, Found(KEY));
        assert !WithinStale(cfg, t, t.calls[1]);
      }
    }
  }

  const KID := "k1"
  const KEY := CachedKey(7, "RS256", "RSA", KID)

  lemma RunSnoc(cfg: Config, s: Sys, ls: seq<Label>, l: Label)
    ensures Run(cfg, s, ls + [l]) == Next(cfg, Run(cfg, s, ls), l)
  {
  }

  function Before(pc: Call, mu: Option<CallId>): Sys {
    Sys(0, map[], None, false, mu, map[0 := pc], map[], [])
  }

  function After(pc: Call, mu: Option<CallId>): Sys {
    Sys(0, map[KID := KEY], Some(0), false, mu, map[0 := pc], map[], [Installed(0, map[KID := KEY])])
  }

  const JWKS := [Jwk(KID, "RSA", "RS256", Some(7))]

  lemma KeysOfJwks()
    ensures KeysOf(JWKS) == map[KID := KEY]
  {
  }

  lemma UpToFetch(cfg: Config) returns (ls: seq<Label>)
    ensures Run(cfg, Init(0), ls) == Before(Fetching(KID, 0), Some(0))
  {
    ls := Extend(cfg, [], Init(0), GetKey(0, KID), Before(Begun(KID, 0), None));
    ls := Extend(cfg, ls, Before(Begun(KID, 0), None), Step(0), Before(WaitFetchMu(KID, 0), None));
    ls := Extend(cfg, ls, Before(WaitFetchMu(KID, 0), None), Step(0), Before(Recheck(KID, 0), Some(0)));
    ls := Extend(cfg, ls, Before(Recheck(KID, 0), Some(0)), Step(0), Before(Fetching(KID, 0), Some(0)));
  }

  /** One call on an empty cache fetches one key at time 0 and returns it. */
  lemma FirstFetch(cfg: Config) returns (ls: seq<Label>)
    ensures Run(cfg, Init(0), ls) == After(Returned(KID, 0, Found(KEY)), None)
  {
    KeysOfJwks();
    ls := UpToFetch(cfg);
    ls := Extend(cfg, ls, Before(Fetching(KID, 0), Some(0)), FetchOk(0, JWKS),
        Before(Installing(KID, 0, JWKS), Some(0)));
    ls := Extend(cfg, ls, Before(Installing(KID, 0, JWKS), Some(0)), Step(0), After(Releasing(KID, 0, None), Some(0)));
    ls := Extend(cfg, ls, After(Releasing(KID, 0, None), Some(0)), Step(0), After(ReadBack(KID, 0), None));
    ls := Extend(cfg, ls, After(ReadBack(KID, 0), None), Step(0), After(Returned(KID, 0, Found(KEY)), None));
  }

  /** A run that reaches `s`, followed by one step to `n`. */
  lemma Extend(cfg: Config, ls: seq<Label>, s: Sys, l: Label, n: Sys) returns (more: seq<Label>)
    requires Run(cfg, Init(0), ls) == s
    requires Next(cfg, s, l) == n
    ensures more == ls + [l] && Run(cfg, Init(0), more) == n
  {
    more := ls + [l];
    RunSnoc(cfg, Init(0), ls, l);
  }

  // ----- concurrency -----

  /** At most one background refresh and one blocking fetch exist at any time; `refreshing` says exactly whether
      the first one does, and a non-empty cache has a success time. */
  lemma BoundedFetches(cfg: Config, now: int, ls: seq<Label>)
    ensures
      var s := Run(cfg, Init(now), ls);
      && (s.refreshing <==> s.background != map[])
      && |s.background| <= 1
      && (forall c, d ::
        c in s.calls && d in s.calls && HoldsFetchMu(s.calls[c]) && HoldsFetchMu(s.calls[d]) ==> c == d)
      && (s.cache != map[] ==> s.lastSuccessAt.Some?)
  {
    RunKeepsInv(cfg, Init(now), ls);
    var s := Run(cfg, Init(now), ls);
    if c :| c in s.background {
      assert s.background.Keys == {c};
    }
    forall c | c in s.calls ensures HoldsFetchMu(s.calls[c]) ==> s.fetchMu == Some(c) {
      assert CallOk(cfg, s, c);
    }
  }

  lemma {:induction false} InstallsGrow(cfg: Config, s: Sys, ls: seq<Label>)
    ensures s.installs <= Run(cfg, s, ls).installs
  {
    if ls != [] {
      InstallsGrow(cfg, s, ls[..|ls| - 1]);
      NextTouchesCache(cfg, Run(cfg, s, ls[..|ls| - 1]), ls[|ls| - 1]);
    }
  }

  /** The success time never goes back. */
  lemma LastSuccessIsMonotone(cfg: Config, now: int, ls: seq<Label>, more: seq<Label>)
    ensures
      var s, n := Run(cfg, Init(now), ls), Run(cfg, Init(now), ls + more);
      s.lastSuccessAt.Some? ==> n.lastSuccessAt.Some? && s.lastSuccessAt.value <= n.lastSuccessAt.value
  {
    RunKeepsInv(cfg, Init(now), ls);
    RunKeepsInv(cfg, Init(now), ls + more);
    RunConcat(cfg, Init(now), ls, more);
    InstallsGrow(cfg, Run(cfg, Init(now), ls), more);
  }

  lemma {:induction false} RunConcat(cfg: Config, s: Sys, ls: seq<Label>, more: seq<Label>)
    ensures Run(cfg, s, ls + more) == Run(cfg, Run(cfg, s, ls), more)
  {
    if more == [] {
      assert ls + more == ls;
    } else {
      RunConcat(cfg, s, ls, more[..|more| - 1]);
      assert (ls + more)[..|ls + more| - 1] == ls + more[..|more| - 1];
    }
  }

  predicate HasFresh(cfg: Config, s: Sys, kid: string) {
    kid in s.cache && Age(cfg, s.lastSuccessAt, s.now) < cfg.ttl
  }

  predicate FetchingFor(pc: Call, kid: string) {
    pc.kid == kid && (pc.Fetching? || pc.Installing?)
  }

  /** Waiting callers coalesce: while the cache keeps a fresh entry for `kid`, no call starts a blocking fetch
      for it; calls that queued on fetchMu return the entry another caller installed. */
  lemma {:induction false} NoFetchWhileFresh(cfg: Config, s: Sys, ls: seq<Label>, kid: string, c: CallId)
    requires forall i :: 0 <= i <= |ls| ==> HasFresh(cfg, Run(cfg, s, ls[..i]), kid)
    requires c in Run(cfg, s, ls).calls && FetchingFor(Run(cfg, s, ls).calls[c], kid)
    ensures c in s.calls && FetchingFor(s.calls[c], kid)
  {
    if ls != [] {
      var init := ls[..|ls| - 1];
      assert HasFresh(cfg, Run(cfg, s, ls[..|ls| - 1]), kid);
      forall i | 0 <= i <= |init| ensures HasFresh(cfg, Run(cfg, s, init[..i]), kid) {
        assert init[..i] == ls[..i];
      }
      StartsNoFetch(cfg, Run(cfg, s, init), ls[|ls| - 1], kid, c);
      NoFetchWhileFresh(cfg, s, init, kid, c);
    }
  }

  lemma StartsNoFetch(cfg: Config, s: Sys, l: Label, kid: string, c: CallId)
    requires HasFresh(cfg, s, kid)
    requires c in Next(cfg, s, l).calls && FetchingFor(Next(cfg, s, l).calls[c], kid)
    ensures c in s.calls && FetchingFor(s.calls[c], kid)
  {
    if l.Step? && l.c in s.calls {
      StepStartsNoFetch(cfg, s, l.c, kid, c);
    }
  }

  lemma StepStartsNoFetch(cfg: Config, s: Sys, d: CallId, kid: string, c: CallId)
    requires HasFresh(cfg, s, kid) && d in s.calls
    requires c in StepCall(cfg, s, d).calls && FetchingFor(StepCall(cfg, s, d).calls[c], kid)
    ensures c in s.calls && FetchingFor(s.calls[c], kid)
  {
    StepKeepsHolder(cfg, s, d);
    if c != d { StepMovesOne(cfg, s, d, c); }
  }

  /** A caller that gets fetchMu when the earlier holder has just installed its kid takes that key and leaves. */
  lemma WaiterTakesInstalledKey(cfg: Config, s: Sys, c: CallId)
    requires Inv(cfg, s) && c in s.calls && s.calls[c].Recheck? && HasFresh(cfg, s, s.calls[c].kid)
    ensures
      var n := Next(cfg, Next(cfg, s, Step(c)), Step(c));
      && c in n.calls && n.calls[c] == Returned(s.calls[c].kid, s.calls[c].start,
          Found(s.installs[|s.installs| - 1].keys[s.calls[c].kid]))
      && n.fetchMu == None && n.installs == s.installs
  {
    assert CallOk(cfg, s, c);
    var m := Next(cfg, s, Step(c));
    assert m.calls[c] == Releasing(s.calls[c].kid, s.calls[c].start, Some(Found(s.cache[s.calls[c].kid])));
  }

  /** A call that waits for fetchMu or holds it to look again, or has found a key. */
  predicate Coalesced(pc: Call, kid: string) {
    && pc.kid == kid
    && (pc.WaitFetchMu? || pc.Recheck?
        || (pc.Releasing? && pc.pending.Some? && pc.pending.value.Found?)
        || (pc.Returned? && pc.answer.Found?))
  }

  /** The key such a call has found, if it has. */
  function FoundKey(pc: Call): Option<CachedKey> {
    if pc.Releasing? && pc.pending.Some? && pc.pending.value.Found? then Some(pc.pending.value.key)
    else if pc.Returned? && pc.answer.Found? then Some(pc.answer.key)
    else None
  }

  ghost predicate CachedDuring(cfg: Config, s: Sys, ls: seq<Label>, kid: string, key: CachedKey) {
    exists i :: 0 <= i <= |ls| && kid in Run(cfg, s, ls[..i]).cache && Run(cfg, s, ls[..i]).cache[kid] == key
  }

  lemma CachedDuringSnoc(cfg: Config, s: Sys, ls: seq<Label>, l: Label, kid: string, key: CachedKey)
    requires CachedDuring(cfg, s, ls, kid, key)
    ensures CachedDuring(cfg, s, ls + [l], kid, key)
  {
    var i :| 0 <= i <= |ls| && kid in Run(cfg, s, ls[..i]).cache && Run(cfg, s, ls[..i]).cache[kid] == key;
    assert (ls + [l])[..i] == ls[..i];
  }

  lemma CachedNow(cfg: Config, s: Sys, ls: seq<Label>, l: Label, kid: string)
    requires kid in Run(cfg, s, ls).cache
    ensures CachedDuring(cfg, s, ls + [l], kid, Run(cfg, s, ls).cache[kid])
  {
    assert (ls + [l])[..|ls|] == ls;
  }

  /** One step of a coalesced call while its kid is fresh: it stays so, and what it finds is what the cache has. */
  lemma CoalescedStep(cfg: Config, s: Sys, l: Label, kid: string, c: CallId)
    requires HasFresh(cfg, s, kid) && c in s.calls && Coalesced(s.calls[c], kid)
    ensures var n := Next(cfg, s, l);
      && c in n.calls && Coalesced(n.calls[c], kid)
      && (FoundKey(n.calls[c]) == FoundKey(s.calls[c]) || FoundKey(n.calls[c]) == Some(s.cache[kid]))
  {
    if l.Step? && l.c in s.calls {
      if l.c == c { CoalescedOwnStep(cfg, s, kid, c); } else { StepMovesOne(cfg, s, l.c, c); }
    }
  }

  lemma CoalescedOwnStep(cfg: Config, s: Sys, kid: string, c: CallId)
    requires HasFresh(cfg, s, kid) && c in s.calls && Coalesced(s.calls[c], kid)
    ensures var n := StepCall(cfg, s, c);
      && c in n.calls && Coalesced(n.calls[c], kid)
      && (FoundKey(n.calls[c]) == FoundKey(s.calls[c]) || FoundKey(n.calls[c]) == Some(s.cache[kid]))
  {
    match s.calls[c]
    case WaitFetchMu(_, _) =>
    case Recheck(_, _) =>
    case Releasing(_, _, _) =>
    case Returned(_, _, _) =>
    case _ =>
  }

  /** `kid` is fresh after every prefix of the run. */
  ghost predicate StaysFresh(cfg: Config, s: Sys, ls: seq<Label>, kid: string) {
    forall i :: 0 <= i <= |ls| ==> HasFresh(cfg, Run(cfg, s, ls[..i]), kid)
  }

  lemma StaysFreshPrefix(cfg: Config, s: Sys, init: seq<Label>, l: Label, kid: string)
    requires StaysFresh(cfg, s, init + [l], kid)
    ensures StaysFresh(cfg, s, init, kid) && HasFresh(cfg, Run(cfg, s, init), kid)
  {
    forall i | 0 <= i <= |init| ensures HasFresh(cfg, Run(cfg, s, init[..i]), kid) {
      assert (init + [l])[..i] == init[..i];
    }
    assert init[..|init|] == init;
  }

  /** Call `c` has not fetched, and what it has found the cache had during the run. */
  ghost predicate Served(cfg: Config, s: Sys, ls: seq<Label>, n: Sys, kid: string, c: CallId) {
    && c in n.calls && Coalesced(n.calls[c], kid)
    && (FoundKey(n.calls[c]).Some? ==> CachedDuring(cfg, s, ls, kid, FoundKey(n.calls[c]).value))
  }

  lemma ServedStep(cfg: Config, s: Sys, ls: seq<Label>, l: Label, kid: string, c: CallId)
    requires Served(cfg, s, ls, Run(cfg, s, ls), kid, c) && HasFresh(cfg, Run(cfg, s, ls), kid)
    ensures Served(cfg, s, ls + [l], Next(cfg, Run(cfg, s, ls), l), kid, c)
  {
    var m := Run(cfg, s, ls);
    CoalescedStep(cfg, m, l, kid, c);
    CachedNow(cfg, s, ls, l, kid);
    if FoundKey(m.calls[c]).Some? { CachedDuringSnoc(cfg, s, ls, l, kid, FoundKey(m.calls[c]).value); }
  }

  /** In every run in which its kid stays fresh, a caller that waits on fetchMu or has just got it never fetches: all it
      ever does is wait, look again, and return a key the cache had meanwhile. */
  lemma {:induction false} WaiterNeverFetches(cfg: Config, s: Sys, ls: seq<Label>, kid: string, c: CallId)
    requires StaysFresh(cfg, s, ls, kid)
    requires c in s.calls && s.calls[c].kid == kid && (s.calls[c].WaitFetchMu? || s.calls[c].Recheck?)
    ensures Served(cfg, s, ls, Run(cfg, s, ls), kid, c)
  {
    if ls != [] {
      var init, l := ls[..|ls| - 1], ls[|ls| - 1];
      assert ls == init + [l];
      StaysFreshPrefix(cfg, s, init, l, kid);
      WaiterNeverFetches(cfg, s, init, kid, c);
      ServedStep(cfg, s, init, l, kid, c);
    }
  }
}
