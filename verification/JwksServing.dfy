/**
 What a caller of GetKey gets, over the runs of module JwksProtocol: a cached key young enough is served whatever
 becomes of the fetches, a stale one leaves a refresh behind, and only a call that found nothing to serve can fail.
 A call or a refresh that runs alone does what the methods of JwksCache promise.
 */
module JwksServing {
  import opened Common
  import opened JwksCaches
  import opened JwksProtocol

  // ----- the first read decides -----

  /** `kid` is cached, and fresh or at least not too stale to serve. */
  predicate Servable(cfg: Config, s: Sys, kid: string) {
    && kid in s.cache
    && (Age(cfg, s.lastSuccessAt, s.now) < cfg.ttl || Age(cfg, s.lastSuccessAt, s.now) < cfg.staleMaxAge)
  }

  /** Step `k` of the run is the first read of call `c`. */
  ghost predicate FirstReadAt(cfg: Config, s: Sys, ls: seq<Label>, c: CallId, k: nat) {
    && k < |ls| && ls[k] == Step(c)
    && c in Run(cfg, s, ls[..k]).calls && Run(cfg, s, ls[..k]).calls[c].Begun?
  }

  /** Where a call can be whose first read was made in state `m`: on its way out with the key it saw, or, when there
      was none to serve, on the way to fetchMu and its answer. */
  predicate Follows(cfg: Config, m: Sys, c: CallId, pc: Call)
    requires c in m.calls && m.calls[c].Begun?
  {
    var Begun(kid, start) := m.calls[c];
    && !pc.Begun? && pc.kid == kid && pc.start == start
    && (HasFresh(cfg, m, kid) ==> pc == Returned(kid, start, Found(m.cache[kid])))
    && (Servable(cfg, m, kid) ==>
      pc == Stale(kid, start, m.cache[kid]) || pc == Returned(kid, start, Found(m.cache[kid])))
    && (!Servable(cfg, m, kid) ==> !pc.Stale?)
  }

  lemma FirstReadFollows(cfg: Config, s: Sys, c: CallId)
    requires c in s.calls && s.calls[c].Begun?
    ensures var n := Next(cfg, s, Step(c)); c in n.calls && Follows(cfg, s, c, n.calls[c])
  {
  }

  lemma OwnStepFollows(cfg: Config, m: Sys, s: Sys, c: CallId)
    requires c in m.calls && m.calls[c].Begun? && c in s.calls && Follows(cfg, m, c, s.calls[c])
    ensures c in StepCall(cfg, s, c).calls && Follows(cfg, m, c, StepCall(cfg, s, c).calls[c])
  {
    match s.calls[c]
    case Stale(_, _, _) =>
    case WaitFetchMu(_, _) =>
    case Recheck(_, _) =>
    case Fetching(_, _) =>
    case Installing(_, _, _) =>
    case Releasing(_, _, _) =>
    case ReadBack(_, _) =>
    case Returned(_, _, _) =>
  }

  lemma LaterStepFollows(cfg: Config, m: Sys, s: Sys, l: Label, c: CallId)
    requires c in m.calls && m.calls[c].Begun? && c in s.calls && Follows(cfg, m, c, s.calls[c])
    ensures c in Next(cfg, s, l).calls && Follows(cfg, m, c, Next(cfg, s, l).calls[c])
  {
    if l.Step? && l.c in s.calls {
      if l.c == c { OwnStepFollows(cfg, m, s, c); } else { StepMovesOne(cfg, s, l.c, c); }
    }
  }

  lemma NewCallBegins(cfg: Config, s: Sys, l: Label, c: CallId)
    requires c in Next(cfg, s, l).calls && c !in s.calls
    ensures Next(cfg, s, l).calls[c].Begun? || Next(cfg, s, l).calls[c].kid == ""
  {
    if l.Step? && l.c in s.calls { StepKeepsHolder(cfg, s, l.c); }
  }

  lemma BegunStays(cfg: Config, s: Sys, l: Label, c: CallId)
    requires c in s.calls && s.calls[c].Begun? && l != Step(c)
    ensures c in Next(cfg, s, l).calls && Next(cfg, s, l).calls[c] == s.calls[c]
  {
    if l.Step? && l.c in s.calls { StepMovesOne(cfg, s, l.c, c); }
  }

  lemma FirstReadSnoc(cfg: Config, s: Sys, ls: seq<Label>, l: Label, c: CallId, k: nat)
    requires FirstReadAt(cfg, s, ls, c, k)
    ensures FirstReadAt(cfg, s, ls + [l], c, k) && (ls + [l])[..k] == ls[..k]
  {
    assert (ls + [l])[..k] == ls[..k];
  }

  /** In every interleaving a call for a non-empty kid that is past its start made one first read, and what it saw
      there decides: a fresh key is returned as it was read, a key younger than staleMaxAge is returned whatever
      the fetches do, and a call goes to wait for fetchMu only when it saw neither. */
  lemma {:induction false} FirstReadDecides(cfg: Config, now: int, ls: seq<Label>, c: CallId) returns (k: nat)
    requires
      var s := Run(cfg, Init(now), ls);
      c in s.calls && !s.calls[c].Begun? && s.calls[c].kid != ""
    ensures FirstReadAt(cfg, Init(now), ls, c, k)
    ensures Follows(cfg, Run(cfg, Init(now), ls[..k]), c, Run(cfg, Init(now), ls).calls[c])
  {
    var init, l := ls[..|ls| - 1], ls[|ls| - 1];
    assert ls == init + [l];
    var s := Run(cfg, Init(now), init);
    if c !in s.calls {
      NewCallBegins(cfg, s, l, c);
      assert false;
    } else if s.calls[c].Begun? {
      k := |init|;
      if l == Step(c) { FirstReadFollows(cfg, s, c); } else { BegunStays(cfg, s, l, c); }
    } else {
      CallKeepsKid(cfg, s, l, c);
      k := FirstReadDecides(cfg, now, init, c);
      FirstReadSnoc(cfg, Init(now), init, l, c, k);
      LaterStepFollows(cfg, Run(cfg, Init(now), init[..k]), s, l, c);
    }
  }

  lemma CallKeepsKid(cfg: Config, s: Sys, l: Label, c: CallId)
    requires c in s.calls
    ensures c in Next(cfg, s, l).calls && Next(cfg, s, l).calls[c].kid == s.calls[c].kid
  {
    if l.Step? && l.c in s.calls {
      if l.c == c { StepKeepsKid(cfg, s, c); } else { StepMovesOne(cfg, s, l.c, c); }
    }
  }

  lemma StepKeepsKid(cfg: Config, s: Sys, c: CallId)
    requires c in s.calls
    ensures c in StepCall(cfg, s, c).calls && StepCall(cfg, s, c).calls[c].kid == s.calls[c].kid
  {
    match s.calls[c]
    case Begun(_, _) =>
    case Stale(_, _, _) =>
    case WaitFetchMu(_, _) =>
    case Recheck(_, _) =>
    case Fetching(_, _) =>
    case Installing(_, _, _) =>
    case Releasing(_, _, _) =>
    case ReadBack(_, _) =>
    case Returned(_, _, _) =>
  }

  /** A call fails for an unavailable key set, or for an unknown kid, only if its first read found no key to serve. */
  lemma FailsOnlyIfNotServable(cfg: Config, now: int, ls: seq<Label>, c: CallId) returns (k: nat)
    requires
      var s := Run(cfg, Init(now), ls);
      && c in s.calls && s.calls[c].Returned? && s.calls[c].kid != ""
      && s.calls[c].answer.Failed?
    ensures FirstReadAt(cfg, Init(now), ls, c, k)
    ensures !Servable(cfg, Run(cfg, Init(now), ls[..k]), Run(cfg, Init(now), ls).calls[c].kid)
  {
    k := FirstReadDecides(cfg, now, ls, c);
  }

  lemma {:induction false} FollowsInRun(cfg: Config, m: Sys, s: Sys, ls: seq<Label>, c: CallId)
    requires c in m.calls && m.calls[c].Begun? && c in s.calls && Follows(cfg, m, c, s.calls[c])
    ensures c in Run(cfg, s, ls).calls && Follows(cfg, m, c, Run(cfg, s, ls).calls[c])
  {
    if ls != [] {
      FollowsInRun(cfg, m, s, ls[..|ls| - 1], c);
      LaterStepFollows(cfg, m, Run(cfg, s, ls[..|ls| - 1]), ls[|ls| - 1], c);
    }
  }

  /** A call about to make its first read on a servable kid returns that cached key in every continuation in which it
      returns, and one more step of its own always suffices. */
  lemma ServableIsServed(cfg: Config, s: Sys, more: seq<Label>, c: CallId)
    requires c in s.calls && s.calls[c].Begun? && Servable(cfg, s, s.calls[c].kid)
    ensures
      var key := s.cache[s.calls[c].kid];
      var n := Run(cfg, Next(cfg, s, Step(c)), more);
      && c in n.calls
      && (n.calls[c].Returned? ==> n.calls[c].answer == Found(key))
      && c in Next(cfg, n, Step(c)).calls
      && Next(cfg, n, Step(c)).calls[c] == Returned(s.calls[c].kid, s.calls[c].start, Found(key))
  {
    FirstReadFollows(cfg, s, c);
    FollowsInRun(cfg, s, Next(cfg, s, Step(c)), more, c);
  }

  // ----- a stale hit leaves a refresh behind -----

  lemma StaleStep(cfg: Config, s: Sys, c: CallId)
    requires FlagOk(s) && c in s.calls && s.calls[c].Stale?
    ensures var n := Next(cfg, s, Step(c));
      && n.refreshing && |n.background| == 1
      && n.background == (if s.background == map[] then map[c := BgFetching] else s.background)
      && n.cache == s.cache && n.lastSuccessAt == s.lastSuccessAt && n.fetchMu == s.fetchMu
  {
    if b :| b in s.background {
      assert s.background.Keys == {b};
      assert |s.background| == |s.background.Keys|;
    }
  }

  lemma {:induction false} StaleStays(cfg: Config, s: Sys, ls: seq<Label>, c: CallId)
    requires c in s.calls && s.calls[c].Stale? && Step(c) !in ls
    ensures c in Run(cfg, s, ls).calls && Run(cfg, s, ls).calls[c] == s.calls[c]
  {
    if ls != [] {
      var m, l := Run(cfg, s, ls[..|ls| - 1]), ls[|ls| - 1];
      StaleStays(cfg, s, ls[..|ls| - 1], c);
      if l.Step? && l.c in m.calls { StepMovesOne(cfg, m, l.c, c); }
    }
  }

  /** A first read that meets its kid at least ttl but less than staleMaxAge old: however the other calls move in
      between, the call's next step returns the key it read and leaves `refreshing` set with exactly one background
      refresh, which is its own when none was alive. */
  lemma StaleHitRefreshes(cfg: Config, now: int, ls: seq<Label>, between: seq<Label>, c: CallId)
    requires
      var s := Run(cfg, Init(now), ls);
      && c in s.calls && s.calls[c].Begun? && s.calls[c].kid in s.cache
      && cfg.ttl <= Age(cfg, s.lastSuccessAt, s.now) < cfg.staleMaxAge
    requires Step(c) !in between
    ensures
      var s := Run(cfg, Init(now), ls);
      var m := Run(cfg, Next(cfg, s, Step(c)), between);
      var n := Next(cfg, m, Step(c));
      && c in n.calls && n.calls[c] == Returned(s.calls[c].kid, s.calls[c].start, Found(s.cache[s.calls[c].kid]))
      && n.refreshing && |n.background| == 1
      && n.background == (if m.background == map[] then map[c := BgFetching] else m.background)
      && n.fetchMu == m.fetchMu && n.cache == m.cache
  {
    var s := Run(cfg, Init(now), ls);
    var r := Next(cfg, s, Step(c));
    assert r.calls[c] == Stale(s.calls[c].kid, s.calls[c].start, s.cache[s.calls[c].kid]);
    RunKeepsInv(cfg, Init(now), ls);
    NextKeepsInv(cfg, s, Step(c));
    RunKeepsInv(cfg, r, between);
    StaleStays(cfg, r, between, c);
    StaleStep(cfg, Run(cfg, r, between), c);
  }

  // ----- running alone -----

  function FieldsOf(s: Sys): Fields {
    Fields(s.cache, s.lastSuccessAt, s.refreshing)
  }

  /** What the network answers a fetch: a JWK Set, or nothing. */
  function Response(c: CallId, response: Option<seq<Jwk>>): Label {
    if response.Some? then FetchOk(c, response.value) else FetchError(c)
  }

  /** The labels of one call that nobody interrupts, with the clock moving while it waits. */
  function Alone(c: CallId, kid: string, d1: nat, response: Option<seq<Jwk>>, d2: nat): seq<Label> {
    [GetKey(c, kid), Step(c), Tick(d1)]
    + [Step(c), Step(c), Response(c, response), Tick(d2)]
    + [Step(c), Step(c), Step(c)]
  }

  lemma RunThree(cfg: Config, s: Sys, a: Label, b: Label, d: Label)
    ensures Run(cfg, s, [a, b, d]) == Next(cfg, Next(cfg, Next(cfg, s, a), b), d)
  {
    RunSnoc(cfg, s, [], a);
    assert [] + [a] == [a];
    RunSnoc(cfg, s, [a], b);
    assert [a] + [b] == [a, b];
    RunSnoc(cfg, s, [a, b], d);
    assert [a, b] + [d] == [a, b, d];
  }

  lemma RunFour(cfg: Config, s: Sys, a: Label, b: Label, d: Label, e: Label)
    ensures Run(cfg, s, [a, b, d, e]) == Next(cfg, Next(cfg, Next(cfg, Next(cfg, s, a), b), d), e)
  {
    RunThree(cfg, s, a, b, d);
    RunSnoc(cfg, s, [a, b, d], e);
    assert [a, b, d] + [e] == [a, b, d, e];
  }

  /** The call has returned `answer`, left the fields as `fields`, spawned a refresh or not, and freed fetchMu. */
  predicate Ended(s: Sys, n: Sys, c: CallId, kid: string, fields: Fields, answer: Answer, spawned: bool) {
    && n.calls == s.calls[c := Returned(kid, s.now, answer)]
    && FieldsOf(n) == fields && n.fetchMu == None
    && n.background == if spawned then s.background[c := BgFetching] else s.background
  }

  /** `m` is `s` after the start, the first read and a delay of call `c`. */
  predicate ReadsAlone(cfg: Config, s: Sys, m: Sys, c: CallId, kid: string, d: nat) {
    && m.now == s.now + d && FieldsOf(m) == FieldsOf(s) && m.fetchMu == None && m.background == s.background
    && m.calls == s.calls[c :=
      if kid == "" then Returned(kid, s.now, Failed(EmptyKid))
      else if HasFresh(cfg, s, kid) then Returned(kid, s.now, Found(s.cache[kid]))
      else if Servable(cfg, s, kid) then Stale(kid, s.now, s.cache[kid])
      else WaitFetchMu(kid, s.now)]
  }

  lemma FirstReadAlone(cfg: Config, s: Sys, c: CallId, kid: string, d: nat)
    requires c !in s.calls && s.fetchMu == None
    ensures ReadsAlone(cfg, s, Run(cfg, s, [GetKey(c, kid), Step(c), Tick(d)]), c, kid, d)
  {
    RunThree(cfg, s, GetKey(c, kid), Step(c), Tick(d));
    GotoTwice(s, c, Begun(kid, s.now), Next(cfg, Next(cfg, s, GetKey(c, kid)), Step(c)).calls[c]);
  }

  lemma GotoTwice(s: Sys, c: CallId, x: Call, y: Call)
    ensures s.calls[c := x][c := y] == s.calls[c := y]
  {
  }

  /** `s` with call `c` at `pc`, holding fetchMu. */
  function Held(s: Sys, c: CallId, pc: Call): Sys {
    s.(calls := s.calls[c := pc], fetchMu := Some(c))
  }

  lemma RecheckAlone(cfg: Config, s: Sys, c: CallId, kid: string, start: int)
    ensures Next(cfg, Held(s, c, Recheck(kid, start)), Step(c)) == Held(s, c,
        if HasFresh(cfg, s, kid) then Releasing(kid, start, Some(Found(s.cache[kid]))) else Fetching(kid, start))
  {
    var h := Held(s, c, Recheck(kid, start));
    assert h.calls[c] == Recheck(kid, start);
    GotoTwice(s, c, h.calls[c], StepCall(cfg, h, c).calls[c]);
  }

  lemma ResponseAlone(cfg: Config, s: Sys, c: CallId, kid: string, start: int, response: Option<seq<Jwk>>)
    ensures Next(cfg, Held(s, c, Fetching(kid, start)), Response(c, response)) == Held(s, c,
        if response.None? then Releasing(kid, start, Some(Failed(Unavailable)))
        else Installing(kid, start, response.value))
  {
    var h := Held(s, c, Fetching(kid, start));
    assert h.calls[c] == Fetching(kid, start);
    GotoTwice(s, c, h.calls[c], Next(cfg, h, Response(c, response)).calls[c]);
  }

  /** From the queue for fetchMu to the answer of the network. */
  lemma FetchAlone(cfg: Config, s: Sys, c: CallId, response: Option<seq<Jwk>>, d: nat)
    requires c in s.calls && s.calls[c].WaitFetchMu? && s.fetchMu == None
    ensures
      var WaitFetchMu(kid, start) := s.calls[c];
      Run(cfg, s, [Step(c), Step(c), Response(c, response), Tick(d)]) == Held(s.(now := s.now + d), c,
        if HasFresh(cfg, s, kid) then Releasing(kid, start, Some(Found(s.cache[kid])))
        else if response.None? then Releasing(kid, start, Some(Failed(Unavailable)))
        else Installing(kid, start, response.value))
  {
    var WaitFetchMu(kid, start) := s.calls[c];
    RunFour(cfg, s, Step(c), Step(c), Response(c, response), Tick(d));
    assert Next(cfg, s, Step(c)) == Held(s, c, Recheck(kid, start));
    RecheckAlone(cfg, s, c, kid, start);
    if !HasFresh(cfg, s, kid) { ResponseAlone(cfg, s, c, kid, start, response); }
  }

  lemma ReleaseAlone(cfg: Config, s: Sys, c: CallId, kid: string, start: int, pending: Option<Answer>)
    ensures Next(cfg, Held(s, c, Releasing(kid, start, pending)), Step(c))
      == Goto(s.(fetchMu := None), c,
          if pending.Some? then Returned(kid, start, pending.value) else ReadBack(kid, start))
  {
    var h := Held(s, c, Releasing(kid, start, pending));
    assert h.calls[c] == Releasing(kid, start, pending);
    GotoTwice(s, c, h.calls[c], StepCall(cfg, h, c).calls[c]);
  }

  lemma InstallAlone(cfg: Config, s: Sys, c: CallId, kid: string, start: int, jwks: seq<Jwk>)
    ensures Next(cfg, Held(s, c, Installing(kid, start, jwks)), Step(c))
      == Held(DoInstall(s, jwks), c, Releasing(kid, start, None))
  {
    var h := Held(s, c, Installing(kid, start, jwks));
    assert h.calls[c] == Installing(kid, start, jwks);
    GotoTwice(s, c, h.calls[c], StepCall(cfg, h, c).calls[c]);
  }

  lemma ReadBackAlone(cfg: Config, s: Sys, c: CallId, kid: string, start: int)
    ensures Next(cfg, Goto(s, c, ReadBack(kid, start)), Step(c))
      == Goto(s, c, Returned(kid, start, if kid in s.cache then Found(s.cache[kid]) else Failed(UnknownKid)))
  {
    var h := Goto(s, c, ReadBack(kid, start));
    assert h.calls[c] == ReadBack(kid, start);
    GotoTwice(s, c, h.calls[c], StepCall(cfg, h, c).calls[c]);
  }

  /** From the answer of the network to the caller. */
  lemma ReturnAlone(cfg: Config, s: Sys, c: CallId, kid: string, start: int, answer: Answer)
    ensures Run(cfg, Held(s, c, Releasing(kid, start, Some(answer))), [Step(c), Step(c), Step(c)])
      == Goto(s.(fetchMu := None), c, Returned(kid, start, answer))
  {
    var h := Held(s, c, Releasing(kid, start, Some(answer)));
    RunThree(cfg, h, Step(c), Step(c), Step(c));
    ReleaseAlone(cfg, s, c, kid, start, Some(answer));
  }

  lemma InstallAndReturnAlone(cfg: Config, s: Sys, c: CallId, kid: string, start: int, jwks: seq<Jwk>)
    ensures
      var m := DoInstall(s, jwks);
      Run(cfg, Held(s, c, Installing(kid, start, jwks)), [Step(c), Step(c), Step(c)])
      == Goto(m.(fetchMu := None), c,
          Returned(kid, start, if kid in m.cache then Found(m.cache[kid]) else Failed(UnknownKid)))
  {
    var m := DoInstall(s, jwks);
    RunThree(cfg, Held(s, c, Installing(kid, start, jwks)), Step(c), Step(c), Step(c));
    InstallAlone(cfg, s, c, kid, start, jwks);
    ReleaseAlone(cfg, m, c, kid, start, None);
    ReadBackAlone(cfg, m.(fetchMu := None), c, kid, start);
  }

  lemma ReturnedStays(cfg: Config, s: Sys, c: CallId, response: Option<seq<Jwk>>, d: nat)
    requires c in s.calls && s.calls[c].Returned?
    ensures Run(cfg, s, [Step(c), Step(c), Response(c, response), Tick(d)]) == s.(now := s.now + d)
    ensures Run(cfg, s, [Step(c), Step(c), Step(c)]) == s
  {
    RunFour(cfg, s, Step(c), Step(c), Response(c, response), Tick(d));
    RunThree(cfg, s, Step(c), Step(c), Step(c));
  }

  lemma StaleAlone(cfg: Config, s: Sys, c: CallId, response: Option<seq<Jwk>>, d: nat)
    requires c in s.calls && s.calls[c].Stale?
    ensures
      var Stale(kid, start, key) := s.calls[c];
      var n := Run(cfg, s, [Step(c), Step(c), Response(c, response), Tick(d)]);
      && n.calls == s.calls[c := Returned(kid, start, Found(key))]
      && n.refreshing && n.cache == s.cache && n.lastSuccessAt == s.lastSuccessAt && n.fetchMu == s.fetchMu
      && n.background == if s.refreshing then s.background else s.background[c := BgFetching]
  {
    RunFour(cfg, s, Step(c), Step(c), Response(c, response), Tick(d));
  }

  /** A call that waits for fetchMu, through its recheck or its fetch to its return. */
  lemma BlockingAlone(cfg: Config, m: Sys, c: CallId, response: Option<seq<Jwk>>, d: nat)
    returns (answer: Answer)
    requires c in m.calls && m.calls[c].WaitFetchMu? && m.fetchMu == None
    ensures
      var WaitFetchMu(kid, start) := m.calls[c];
      var later := m.(now := m.now + d);
      var n := Run(cfg, Run(cfg, m, [Step(c), Step(c), Response(c, response), Tick(d)]), [Step(c), Step(c), Step(c)]);
      if HasFresh(cfg, m, kid) || response.None? then
        && n == Goto(later.(fetchMu := None), c, Returned(kid, start, answer))
        && answer == if HasFresh(cfg, m, kid) then Found(m.cache[kid]) else Failed(Unavailable)
      else
        && n == Goto(DoInstall(later, response.value).(fetchMu := None), c, Returned(kid, start, answer))
        && answer == if kid in n.cache then Found(n.cache[kid]) else Failed(UnknownKid)
  {
    var WaitFetchMu(kid, start) := m.calls[c];
    var later := m.(now := m.now + d);
    FetchAlone(cfg, m, c, response, d);
    if HasFresh(cfg, m, kid) || response.None? {
      answer := if HasFresh(cfg, m, kid) then Found(m.cache[kid]) else Failed(Unavailable);
      ReturnAlone(cfg, later, c, kid, start, answer);
    } else {
      var keys := KeysOf(response.value);
      answer := if kid in keys then Found(keys[kid]) else Failed(UnknownKid);
      InstallAndReturnAlone(cfg, later, c, kid, start, response.value);
    }
  }

  function LastLegs(c: CallId, response: Option<seq<Jwk>>, d: nat): (seq<Label>, seq<Label>) {
    ([Step(c), Step(c), Response(c, response), Tick(d)], [Step(c), Step(c), Step(c)])
  }

  /** The answer `c` has in `n`, with the fields there, is what GetKey promises on the fields of `s`. */
  ghost predicate AsPromised(cfg: Config, s: Sys, n: Sys, c: CallId, kid: string, d1: nat,
      response: Option<seq<Jwk>>, d2: nat, answer: Answer, spawned: bool)
  {
    && Serves(cfg, FieldsOf(s), kid, s.now, s.now + d1, s.now + d1 + d2, response, FieldsOf(n), answer, spawned)
    && Ended(s, n, c, kid, FieldsOf(n), answer, spawned)
  }

  lemma AloneFresh(cfg: Config, s: Sys, m: Sys, c: CallId, kid: string, d1: nat, response: Option<seq<Jwk>>, d2: nat)
    returns (answer: Answer, spawned: bool)
    requires ReadsAlone(cfg, s, m, c, kid, d1) && (kid == "" || HasFresh(cfg, s, kid))
    ensures
      var (a, b) := LastLegs(c, response, d2);
      AsPromised(cfg, s, Run(cfg, Run(cfg, m, a), b), c, kid, d1, response, d2, answer, spawned)
  {
    answer, spawned := m.calls[c].answer, false;
    ReturnedStays(cfg, m, c, response, d2);
    ReturnedStays(cfg, m.(now := m.now + d2), c, response, d2);
  }

  lemma AloneStale(cfg: Config, s: Sys, m: Sys, c: CallId, kid: string, d1: nat, response: Option<seq<Jwk>>, d2: nat)
    returns (answer: Answer, spawned: bool)
    requires ReadsAlone(cfg, s, m, c, kid, d1) && kid != "" && !HasFresh(cfg, s, kid) && Servable(cfg, s, kid)
    ensures
      var (a, b) := LastLegs(c, response, d2);
      AsPromised(cfg, s, Run(cfg, Run(cfg, m, a), b), c, kid, d1, response, d2, answer, spawned)
  {
    answer, spawned := Found(s.cache[kid]), !s.refreshing;
    var (a, b) := LastLegs(c, response, d2);
    StaleAlone(cfg, m, c, response, d2);
    GotoTwice(s, c, m.calls[c], Returned(kid, s.now, answer));
    ReturnedStays(cfg, Run(cfg, m, a), c, response, d2);
  }

  lemma AloneKept(cfg: Config, s: Sys, m: Sys, c: CallId, kid: string, d1: nat, response: Option<seq<Jwk>>, d2: nat,
      answer: Answer)
    requires ReadsAlone(cfg, s, m, c, kid, d1) && kid != "" && !Servable(cfg, s, kid)
    requires HasFresh(cfg, m, kid) || response.None?
    requires answer == if HasFresh(cfg, m, kid) then Found(m.cache[kid]) else Failed(Unavailable)
    ensures AsPromised(cfg, s, Goto(m.(now := m.now + d2, fetchMu := None), c, Returned(kid, s.now, answer)),
        c, kid, d1, response, d2, answer, false)
  {
    GotoTwice(s, c, m.calls[c], Returned(kid, s.now, answer));
  }

  lemma AloneInstalled(cfg: Config, s: Sys, m: Sys, c: CallId, kid: string, d1: nat, jwks: seq<Jwk>, d2: nat,
      answer: Answer)
    requires ReadsAlone(cfg, s, m, c, kid, d1) && kid != "" && !Servable(cfg, s, kid) && !HasFresh(cfg, m, kid)
    requires answer == if kid in KeysOf(jwks) then Found(KeysOf(jwks)[kid]) else Failed(UnknownKid)
    ensures AsPromised(cfg, s,
        Goto(DoInstall(m.(now := m.now + d2), jwks).(fetchMu := None), c, Returned(kid, s.now, answer)),
        c, kid, d1, Some(jwks), d2, answer, false)
  {
    GotoTwice(s, c, m.calls[c], Returned(kid, s.now, answer));
  }

  lemma AloneBlocking(cfg: Config, s: Sys, m: Sys, c: CallId, kid: string, d1: nat, response: Option<seq<Jwk>>, d2: nat)
    returns (answer: Answer, spawned: bool)
    requires ReadsAlone(cfg, s, m, c, kid, d1) && kid != "" && !Servable(cfg, s, kid)
    ensures
      var (a, b) := LastLegs(c, response, d2);
      AsPromised(cfg, s, Run(cfg, Run(cfg, m, a), b), c, kid, d1, response, d2, answer, spawned)
  {
    spawned := false;
    answer := BlockingAlone(cfg, m, c, response, d2);
    if HasFresh(cfg, m, kid) || response.None? {
      AloneKept(cfg, s, m, c, kid, d1, response, d2, answer);
    } else {
      AloneInstalled(cfg, s, m, c, kid, d1, response.value, d2, answer);
    }
  }

  /** A call that nobody interrupts ends with the answer and the fields of JwksCache.GetKey's contract, for every
      state of the cache, every delay before fetchMu and every delay and answer of the network. */
  lemma CallAloneIsGetKey(cfg: Config, s: Sys, c: CallId, kid: string, d1: nat, response: Option<seq<Jwk>>, d2: nat)
    returns (answer: Answer, spawned: bool)
    requires c !in s.calls && s.fetchMu == None
    ensures
      var n := Run(cfg, s, Alone(c, kid, d1, response, d2));
      && Serves(cfg, FieldsOf(s), kid, s.now, s.now + d1, s.now + d1 + d2, response, FieldsOf(n), answer, spawned)
      && Ended(s, n, c, kid, FieldsOf(n), answer, spawned)
  {
    var first := [GetKey(c, kid), Step(c), Tick(d1)];
    var (a, b) := LastLegs(c, response, d2);
    RunConcat(cfg, s, first + a, b);
    RunConcat(cfg, s, first, a);
    var m := Run(cfg, s, first);
    FirstReadAlone(cfg, s, c, kid, d1);
    if kid == "" || HasFresh(cfg, s, kid) {
      answer, spawned := AloneFresh(cfg, s, m, c, kid, d1, response, d2);
    } else if Servable(cfg, s, kid) {
      answer, spawned := AloneStale(cfg, s, m, c, kid, d1, response, d2);
    } else {
      answer, spawned := AloneBlocking(cfg, s, m, c, kid, d1, response, d2);
    }
  }

  /** A background refresh that nobody interrupts ends as JwksCache.BackgroundRefresh does: the answer's keys with the
      time they were installed, or the old ones, the flag down either way and the goroutine gone. */
  lemma BackgroundAloneIsRefresh(cfg: Config, s: Sys, c: CallId, response: Option<seq<Jwk>>, d: nat)
    requires c in s.background && s.background[c].BgFetching?
    ensures
      var ok := if response.Some? then BgFetchOk(c, response.value) else BgFetchError(c);
      var n := Run(cfg, s, [ok, Tick(d)] + [BgStep(c), BgStep(c)]);
      && !n.refreshing && n.background == s.background - {c}
      && n.calls == s.calls && n.fetchMu == s.fetchMu
      && (response.Some? ==> n.cache == KeysOf(response.value) && n.lastSuccessAt == Some(s.now + d))
      && (response.None? ==> n.cache == s.cache && n.lastSuccessAt == s.lastSuccessAt)
  {
    var ok := if response.Some? then BgFetchOk(c, response.value) else BgFetchError(c);
    var at: Background := if response.Some? then BgInstalling(response.value) else BgLeaving;
    assert [ok, Tick(d)] + [BgStep(c), BgStep(c)] == [ok, Tick(d), BgStep(c), BgStep(c)];
    RunFour(cfg, s, ok, Tick(d), BgStep(c), BgStep(c));
    var m := s.(background := s.background[c := at], now := s.now + d);
    assert Next(cfg, Next(cfg, s, ok), Tick(d)) == m;
    if response.Some? { BgInstallAlone(cfg, m, c, response.value); } else { BgLeaveAlone(cfg, m, c); }
    assert s.background[c := at] - {c} == s.background - {c};
  }

  lemma BgLeaveAlone(cfg: Config, s: Sys, c: CallId)
    requires c in s.background && s.background[c].BgLeaving?
    ensures Next(cfg, Next(cfg, s, BgStep(c)), BgStep(c)) == s.(refreshing := false, background := s.background - {c})
  {
  }

  lemma BgInstallAlone(cfg: Config, s: Sys, c: CallId, jwks: seq<Jwk>)
    requires c in s.background && s.background[c] == BgInstalling(jwks)
    ensures Next(cfg, Next(cfg, s, BgStep(c)), BgStep(c))
      == DoInstall(s, jwks).(refreshing := false, background := s.background - {c})
  {
    assert s.background[c := BgLeaving] - {c} == s.background - {c};
  }
}
