/** Overlapping calls: the cache lock is dropped while a token is minted, so callers can mint the same token again. */
module MintRaces {
  import opened Text
  import opened Credentials

  /** A caller is idle, or waits for a token it asked for when its clock read `start`. */
  datatype Caller = Idle | Minting(start: int)
  datatype Shared = Shared(cache: Option<CachedToken>, callers: seq<Caller>)

  /** A caller looks at the cache; its token arrives and is cached; or its minting fails. */
  datatype Event = Begin(caller: nat, now: int) | Finish(caller: nat, access: string) | Fail(caller: nat)

  /** An event of a caller that is not in the state for it changes nothing. */
  function Step(lifetime: int, s: Shared, e: Event): Shared {
    if e.caller >= |s.callers| then s
    else
      match (e, s.callers[e.caller])
      case (Begin(c, now), Idle) => if Fresh(s.cache, now) then s else s.(callers := s.callers[c := Minting(now)])
      case (Finish(c, access), Minting(start)) =>
        Shared(Some(CachedToken(access, start + lifetime * SECOND)), s.callers[c := Idle])
      case (Fail(c), Minting(_)) => s.(callers := s.callers[c := Idle])
      case _ => s
  }

  /** The event caches a token asked for between lo and hi. */
  predicate Mints(s: Shared, e: Event, lo: int, hi: int) {
    e.Finish? && e.caller < |s.callers| && s.callers[e.caller].Minting? && lo <= s.callers[e.caller].start < hi
  }

  /** How many tokens asked for between lo and hi a run caches. */
  function Minted(lifetime: int, s: Shared, run: seq<Event>, lo: int, hi: int): nat
    decreases |run|
  {
    if run == [] then 0
    else (if Mints(s, run[0], lo, hi) then 1 else 0) + Minted(lifetime, Step(lifetime, s, run[0]), run[1..], lo, hi)
  }

  ghost predicate BeginsFrom(run: seq<Event>, from: int) {
    forall i :: 0 <= i < |run| && run[i].Begin? ==> from <= run[i].now
  }

  // ----- Counting callers -----

  function CountIf(p: Caller -> bool, callers: seq<Caller>): (n: nat)
    ensures n <= |callers|
  {
    if callers == [] then 0
    else CountIf(p, callers[..|callers| - 1]) + if p(callers[|callers| - 1]) then 1 else 0
  }

  lemma {:induction false} CountUpdate(p: Caller -> bool, callers: seq<Caller>, i: nat, c: Caller)
    requires i < |callers|
    ensures CountIf(p, callers[i := c]) + (if p(callers[i]) then 1 else 0)
            == CountIf(p, callers) + (if p(c) then 1 else 0)
  {
    var n := |callers| - 1;
    if i == n {
      assert callers[i := c][..n] == callers[..n];
    } else {
      assert callers[i := c][..n] == callers[..n][i := c];
      CountUpdate(p, callers[..n], i, c);
    }
  }

  lemma {:induction false} CountApart(p: Caller -> bool, q: Caller -> bool, callers: seq<Caller>)
    requires forall c :: !(p(c) && q(c))
    ensures CountIf(p, callers) + CountIf(q, callers) <= |callers|
  {
    if callers != [] { CountApart(p, q, callers[..|callers| - 1]); }
  }

  function Before(t: int): Caller -> bool {
    (c: Caller) => c.Minting? && c.start < t
  }

  function Within(lo: int, hi: int): Caller -> bool {
    (c: Caller) => c.Minting? && lo <= c.start < hi
  }

  // ----- One window -----

  /** Tokens n callers can still cache when `stale` requests from before the window are out. */
  function Bound(n: nat, stale: nat): nat
    requires stale <= n
  {
    if stale == 0 then n else n - stale + Bound(n, stale - 1)
  }

  lemma {:induction false} BoundIs(n: nat, stale: nat)
    requires stale <= n
    ensures 2 * Bound(n, stale) == 2 * n + 2 * (n * stale) - stale * (stale + 1)
  {
    if stale > 0 { BoundIs(n, stale - 1); }
  }

  /** The cached token is fresh for every clock in the window that opens at t. */
  predicate Covered(s: Shared, t: int, lifetime: int) {
    s.cache.Some? && s.cache.value.expiresAt >= t + lifetime * SECOND
  }

  /** How long a cached token keeps every caller from minting. */
  function Useful(lifetime: int): int {
    lifetime * SECOND - EXPIRY_SKEW
  }

  /** What may still be cached of tokens asked for in the window at t. */
  ghost function Potential(s: Shared, t: int, lifetime: int): nat {
    var n, stale := |s.callers|, CountIf(Before(t), s.callers);
    if Covered(s, t, lifetime) then
      CountIf(Within(t, t + Useful(lifetime)), s.callers) + if stale == 0 then 0 else Bound(n, stale - 1)
    else Bound(n, stale)
  }

  lemma {:induction false} BoundIsGreatest(n: nat, stale: nat)
    requires stale <= n
    ensures Bound(n, stale) <= Bound(n, n)
    decreases n - stale
  {
    if stale < n { BoundIsGreatest(n, stale + 1); }
  }

  /** The counts of requests from before the window, and of those in it. */
  lemma InFlight(s: Shared, t: int, hi: int)
    ensures CountIf(Before(t), s.callers) + CountIf(Within(t, hi), s.callers) <= |s.callers|
  {
    CountApart(Before(t), Within(t, hi), s.callers);
  }

  /** Without a covering token there is room for one, and for every request of the window still out. */
  lemma RoomToCover(s: Shared, t: int, lifetime: int)
    ensures var n, stale := |s.callers|, CountIf(Before(t), s.callers);
            CountIf(Within(t, t + Useful(lifetime)), s.callers) + (if stale == 0 then 0 else Bound(n, stale - 1))
            <= Bound(n, stale)
  {
    InFlight(s, t, t + Useful(lifetime));
  }

  /** One caller changes; the two counts follow it. */
  lemma CountsMove(s: Shared, i: nat, c: Caller, t: int, hi: int)
    requires i < |s.callers|
    ensures var after := s.callers[i := c];
            && CountIf(Before(t), after) + (if Before(t)(s.callers[i]) then 1 else 0)
               == CountIf(Before(t), s.callers) + (if Before(t)(c) then 1 else 0)
            && CountIf(Within(t, hi), after) + (if Within(t, hi)(s.callers[i]) then 1 else 0)
               == CountIf(Within(t, hi), s.callers) + (if Within(t, hi)(c) then 1 else 0)
  {
    CountUpdate(Before(t), s.callers, i, c);
    CountUpdate(Within(t, hi), s.callers, i, c);
  }

  /** The event uses up as much of what may still be cached as it caches of the window. */
  ghost predicate Uses(lifetime: int, s: Shared, e: Event, t: int) {
    Potential(Step(lifetime, s, e), t, lifetime) + (if Mints(s, e, t, t + Useful(lifetime)) then 1 else 0)
    <= Potential(s, t, lifetime)
  }

  lemma BeginUses(lifetime: int, s: Shared, e: Event, t: int)
    requires lifetime > 60 && e.Begin? && t <= e.now
    ensures Uses(lifetime, s, e, t)
  {
    if e.caller < |s.callers| && s.callers[e.caller] == Idle {
      CountsMove(s, e.caller, Minting(e.now), t, t + Useful(lifetime));
    }
  }

  lemma FailUses(lifetime: int, s: Shared, e: Event, t: int)
    requires lifetime > 60 && e.Fail?
    ensures Uses(lifetime, s, e, t)
  {
    if e.caller < |s.callers| && s.callers[e.caller].Minting? {
      CountsMove(s, e.caller, Idle, t, t + Useful(lifetime));
      InFlight(s, t, t + Useful(lifetime));
    }
  }

  /** A token asked for before the window leaves it uncovered. */
  lemma StaleFinishUses(lifetime: int, s: Shared, e: Event, t: int)
    requires lifetime > 60 && e.Finish? && e.caller < |s.callers| && Before(t)(s.callers[e.caller])
    ensures Uses(lifetime, s, e, t)
  {
    CountsMove(s, e.caller, Idle, t, t + Useful(lifetime));
    InFlight(s, t, t + Useful(lifetime));
  }

  /** One asked for in the window, or later, covers it. */
  lemma FreshFinishUses(lifetime: int, s: Shared, e: Event, t: int)
    requires lifetime > 60 && e.Finish? && e.caller < |s.callers|
    requires s.callers[e.caller].Minting? && t <= s.callers[e.caller].start
    ensures Uses(lifetime, s, e, t)
  {
    CountsMove(s, e.caller, Idle, t, t + Useful(lifetime));
    RoomToCover(s, t, lifetime);
    assert Covered(Step(lifetime, s, e), t, lifetime);
  }

  /** Every token cached for the window uses up some of what may still be cached. */
  lemma StepUsesPotential(lifetime: int, s: Shared, e: Event, t: int)
    requires lifetime > 60 && (e.Begin? ==> t <= e.now)
    ensures Uses(lifetime, s, e, t)
  {
    if e.Begin? {
      BeginUses(lifetime, s, e, t);
    } else if e.Fail? {
      FailUses(lifetime, s, e, t);
    } else if e.caller < |s.callers| && s.callers[e.caller].Minting? {
      if s.callers[e.caller].start < t {
        StaleFinishUses(lifetime, s, e, t);
      } else {
        FreshFinishUses(lifetime, s, e, t);
      }
    }
  }

  lemma {:induction false} MintedWithinPotential(lifetime: int, s: Shared, run: seq<Event>, t: int)
    requires lifetime > 60 && BeginsFrom(run, t)
    ensures Minted(lifetime, s, run, t, t + Useful(lifetime)) <= Potential(s, t, lifetime)
    decreases |run|
  {
    if run != [] {
      StepUsesPotential(lifetime, s, run[0], t);
      MintedWithinPotential(lifetime, Step(lifetime, s, run[0]), run[1..], t);
    }
  }

  // ----- Whole runs -----

  /** The callers' clocks, in the order in which they look at the cache. */
  ghost predicate ClocksForward(run: seq<Event>) {
    forall i, j :: 0 <= i < j < |run| && run[i].Begin? && run[j].Begin? ==> run[i].now <= run[j].now
  }

  /** Every request that is out was made before t. */
  ghost predicate AllBefore(s: Shared, t: int) {
    forall i :: 0 <= i < |s.callers| && s.callers[i].Minting? ==> s.callers[i].start < t
  }

  lemma StepKeepsBefore(lifetime: int, s: Shared, e: Event, t: int)
    requires AllBefore(s, t) && (e.Begin? ==> e.now < t)
    ensures AllBefore(Step(lifetime, s, e), t)
    ensures |Step(lifetime, s, e).callers| == |s.callers|
  {
  }

  lemma HalfSquare(n: nat)
    ensures 2 * Bound(n, n) == n * (n + 1)
  {
    BoundIs(n, n);
  }

  lemma PotentialIsBounded(s: Shared, t: int, lifetime: int)
    ensures 2 * Potential(s, t, lifetime) <= |s.callers| * (|s.callers| + 1)
  {
    var n := |s.callers|;
    RoomToCover(s, t, lifetime);
    BoundIsGreatest(n, CountIf(Before(t), s.callers));
    HalfSquare(n);
  }

  /** In a window as long as a token is useful, n overlapping callers cache at most n(n+1)/2 tokens asked for in it. */
  lemma {:induction false} MintsPerWindow(lifetime: int, s: Shared, run: seq<Event>, t: int)
    requires lifetime > 60 && ClocksForward(run) && AllBefore(s, t)
    ensures 2 * Minted(lifetime, s, run, t, t + Useful(lifetime)) <= |s.callers| * (|s.callers| + 1)
    decreases |run|
  {
    if run == [] {
      assert |s.callers| * (|s.callers| + 1) >= 0;
    } else if run[0].Begin? && t <= run[0].now {
      MintedWithinPotential(lifetime, s, run, t);
      PotentialIsBounded(s, t, lifetime);
    } else {
      StepKeepsBefore(lifetime, s, run[0], t);
      MintsPerWindow(lifetime, Step(lifetime, s, run[0]), run[1..], t);
    }
  }

  lemma {:induction false} WindowsAdd(lifetime: int, s: Shared, run: seq<Event>, lo: int, mid: int, hi: int)
    requires lo <= mid <= hi
    ensures Minted(lifetime, s, run, lo, hi)
            == Minted(lifetime, s, run, lo, mid) + Minted(lifetime, s, run, mid, hi)
    decreases |run|
  {
    if run != [] { WindowsAdd(lifetime, Step(lifetime, s, run[0]), run[1..], lo, mid, hi); }
  }

  /** So over w useful lifetimes at most w times as many; a caller alone mints once in each. */
  lemma {:induction false} MintsAreBounded(lifetime: int, s: Shared, run: seq<Event>, t: int, w: nat)
    requires lifetime > 60 && ClocksForward(run) && AllBefore(s, t)
    ensures 2 * Minted(lifetime, s, run, t, t + w * Useful(lifetime)) <= w * (|s.callers| * (|s.callers| + 1))
  {
    var per := |s.callers| * (|s.callers| + 1);
    if w == 0 {
      NoneInNoTime(lifetime, s, run, t);
    } else {
      var mid := t + (w - 1) * Useful(lifetime);
      assert (w - 1) * Useful(lifetime) >= 0;
      assert t + w * Useful(lifetime) == mid + Useful(lifetime);
      MintsAreBounded(lifetime, s, run, t, w - 1);
      MintsPerWindow(lifetime, s, run, mid);
      WindowsAdd(lifetime, s, run, t, mid, mid + Useful(lifetime));
      assert w * per == (w - 1) * per + per;
    }
  }

  lemma {:induction false} NoneInNoTime(lifetime: int, s: Shared, run: seq<Event>, t: int)
    ensures Minted(lifetime, s, run, t, t) == 0
    decreases |run|
  {
    if run != [] { NoneInNoTime(lifetime, Step(lifetime, s, run[0]), run[1..], t); }
  }

  /** The first event of a run, ahead of what follows it in two parts. */
  lemma MintedAhead(lifetime: int, s: Shared, e: Event, more: seq<Event>, rest: seq<Event>, lo: int, hi: int)
    ensures Minted(lifetime, s, [e] + more + rest, lo, hi)
            == (if Mints(s, e, lo, hi) then 1 else 0) + Minted(lifetime, Step(lifetime, s, e), more + rest, lo, hi)
  {
    assert ([e] + more + rest)[1..] == more + rest;
  }

  // ----- A run that reaches the bound -----

  /** The first `stale` callers asked long ago, the others up to `out` asked now, and the rest are idle. */
  function Asking(n: nat, stale: nat, out: nat, asked: int, now: int): seq<Caller> {
    seq(n, k requires 0 <= k < n => if k < stale then Minting(asked) else if k < out then Minting(now) else Idle)
  }

  /** The first `stale` callers asked long ago, the others up to `done` have got their token, and the rest asked now. */
  function Getting(n: nat, stale: nat, done: nat, asked: int, now: int): seq<Caller> {
    seq(n, k requires 0 <= k < n => if k < stale then Minting(asked) else if k < done then Idle else Minting(now))
  }

  function BeginAll(i: nat, n: nat, now: int): seq<Event>
    requires i <= n
    decreases n - i
  {
    if i == n then [] else [Begin(i, now)] + BeginAll(i + 1, n, now)
  }

  function FinishAll(i: nat, n: nat): seq<Event>
    requires i <= n
    decreases n - i
  {
    if i == n then [] else [Finish(i, "")] + FinishAll(i + 1, n)
  }

  /** All idle callers ask and get a token; then a stale request arrives and makes it look expired; and so on. */
  function Rounds(n: nat, stale: nat, now: int): seq<Event>
    requires stale <= n
    decreases stale, 1
  {
    BeginAll(stale, n, now) + (FinishAll(stale, n) + AfterRound(n, stale, now))
  }

  /** What follows a round: nothing, or the next stale request and the rounds after it. */
  function AfterRound(n: nat, stale: nat, now: int): seq<Event>
    requires stale <= n
    decreases stale, 0
  {
    if stale == 0 then [] else [Finish(stale - 1, "")] + Rounds(n, stale - 1, now)
  }

  lemma {:induction false} BeginsMintNothing(lifetime: int, cache: Option<CachedToken>, n: nat, stale: nat, i: nat,
                                             asked: int, now: int, rest: seq<Event>, lo: int, hi: int)
    requires stale <= i <= n && !Fresh(cache, now)
    ensures Minted(lifetime, Shared(cache, Asking(n, stale, i, asked, now)), BeginAll(i, n, now) + rest, lo, hi)
            == Minted(lifetime, Shared(cache, Asking(n, stale, n, asked, now)), rest, lo, hi)
    decreases n - i
  {
    if i == n {
      assert [] + rest == rest;
    } else {
      assert Asking(n, stale, i, asked, now)[i := Minting(now)] == Asking(n, stale, i + 1, asked, now);
      MintedAhead(lifetime, Shared(cache, Asking(n, stale, i, asked, now)), Begin(i, now), BeginAll(i + 1, n, now),
                  rest, lo, hi);
      BeginsMintNothing(lifetime, cache, n, stale, i + 1, asked, now, rest, lo, hi);
    }
  }

  function CacheAfterMint(lifetime: int, cache: Option<CachedToken>, some: bool, start: int): Option<CachedToken> {
    if some then Some(CachedToken("", start + lifetime * SECOND)) else cache
  }

  lemma FinishMintsOne(lifetime: int, cache: Option<CachedToken>, n: nat, stale: nat, i: nat,
                       asked: int, now: int, rest: seq<Event>, lo: int, hi: int)
    requires stale <= i < n && lo <= now < hi
    ensures Minted(lifetime, Shared(cache, Getting(n, stale, i, asked, now)), FinishAll(i, n) + rest, lo, hi)
            == 1 + Minted(lifetime, Shared(CacheAfterMint(lifetime, cache, true, now),
                                           Getting(n, stale, i + 1, asked, now)), FinishAll(i + 1, n) + rest, lo, hi)
  {
    assert Getting(n, stale, i, asked, now)[i := Idle] == Getting(n, stale, i + 1, asked, now);
    MintedAhead(lifetime, Shared(cache, Getting(n, stale, i, asked, now)), Finish(i, ""), FinishAll(i + 1, n), rest,
                lo, hi);
  }

  lemma {:induction false} FinishesMintEach(lifetime: int, cache: Option<CachedToken>, n: nat, stale: nat, i: nat,
                                            asked: int, now: int, rest: seq<Event>, lo: int, hi: int)
    requires stale <= i <= n && lo <= now < hi
    ensures Minted(lifetime, Shared(cache, Getting(n, stale, i, asked, now)), FinishAll(i, n) + rest, lo, hi)
            == n - i + Minted(lifetime, Shared(CacheAfterMint(lifetime, cache, i < n, now),
                                               Getting(n, stale, n, asked, now)), rest, lo, hi)
    decreases n - i
  {
    if i == n {
      assert [] + rest == rest;
    } else {
      FinishMintsOne(lifetime, cache, n, stale, i, asked, now, rest, lo, hi);
      FinishesMintEach(lifetime, CacheAfterMint(lifetime, cache, true, now), n, stale, i + 1, asked, now, rest, lo, hi);
    }
  }

  lemma AskedIsGetting(n: nat, stale: nat, asked: int, now: int)
    requires stale <= n
    ensures Asking(n, stale, n, asked, now) == Getting(n, stale, stale, asked, now)
    ensures Getting(n, stale, n, asked, now) == Asking(n, stale, stale, asked, now)
    ensures stale > 0 ==>
      Asking(n, stale, stale, asked, now)[stale - 1 := Idle] == Asking(n, stale - 1, stale - 1, asked, now)
  {
  }

  /** A stale request arrives: not of the window, and its token is no use to anyone. */
  lemma StaleArrives(lifetime: int, cache: Option<CachedToken>, n: nat, stale: nat, asked: int, rest: seq<Event>)
    requires 0 < stale <= n && asked < 0
    ensures var hi := Useful(lifetime);
            var now := hi - 1;
            var token := CacheAfterMint(lifetime, cache, true, asked);
            && !Fresh(token, now)
            && Minted(lifetime, Shared(cache, Asking(n, stale, stale, asked, now)),
                      [Finish(stale - 1, "")] + rest, 0, hi)
               == Minted(lifetime, Shared(token, Asking(n, stale - 1, stale - 1, asked, now)), rest, 0, hi)
  {
    var hi := Useful(lifetime);
    AskedIsGetting(n, stale, asked, hi - 1);
    assert [Finish(stale - 1, "")] + [] == [Finish(stale - 1, "")] && [] + rest == rest;
    MintedAhead(lifetime, Shared(cache, Asking(n, stale, stale, asked, hi - 1)), Finish(stale - 1, ""), [], rest,
                0, hi);
  }

  lemma OneRound(lifetime: int, cache: Option<CachedToken>, n: nat, stale: nat, asked: int, now: int, rest: seq<Event>)
    requires stale <= n && 0 <= now && !Fresh(cache, now)
    ensures var s := Asking(n, stale, stale, asked, now);
            Minted(lifetime, Shared(cache, s), BeginAll(stale, n, now) + (FinishAll(stale, n) + rest), 0, now + 1)
            == n - stale
               + Minted(lifetime, Shared(CacheAfterMint(lifetime, cache, stale < n, now), s), rest, 0, now + 1)
  {
    AskedIsGetting(n, stale, asked, now);
    BeginsMintNothing(lifetime, cache, n, stale, stale, asked, now, FinishAll(stale, n) + rest, 0, now + 1);
    FinishesMintEach(lifetime, cache, n, stale, stale, asked, now, rest, 0, now + 1);
  }

  lemma {:induction false} RoundsMint(lifetime: int, cache: Option<CachedToken>, n: nat, stale: nat, asked: int)
    requires lifetime > 60 && stale <= n && asked < 0 && !Fresh(cache, Useful(lifetime) - 1)
    ensures var now := Useful(lifetime) - 1;
            Minted(lifetime, Shared(cache, Asking(n, stale, stale, asked, now)), Rounds(n, stale, now), 0, now + 1)
            == Bound(n, stale)
    decreases stale
  {
    var now := Useful(lifetime) - 1;
    OneRound(lifetime, cache, n, stale, asked, now, AfterRound(n, stale, now));
    if stale > 0 {
      var held := CacheAfterMint(lifetime, cache, stale < n, now);
      StaleArrives(lifetime, held, n, stale, asked, Rounds(n, stale - 1, now));
      RoundsMint(lifetime, CacheAfterMint(lifetime, held, true, asked), n, stale - 1, asked);
    }
  }

  // ----- Its clocks -----

  ghost predicate BeginsAt(run: seq<Event>, t: int) {
    forall i :: 0 <= i < |run| && run[i].Begin? ==> run[i].now == t
  }

  lemma BeginsAtConcat(a: seq<Event>, b: seq<Event>, t: int)
    requires BeginsAt(a, t) && BeginsAt(b, t)
    ensures BeginsAt(a + b, t)
  {
  }

  lemma {:induction false} PhasesBeginAt(i: nat, n: nat, t: int)
    requires i <= n
    ensures BeginsAt(BeginAll(i, n, t), t) && BeginsAt(FinishAll(i, n), t)
    decreases n - i
  {
    if i < n {
      PhasesBeginAt(i + 1, n, t);
      BeginsAtConcat([Begin(i, t)], BeginAll(i + 1, n, t), t);
      BeginsAtConcat([Finish(i, "")], FinishAll(i + 1, n), t);
    }
  }

  lemma {:induction false} RoundsBeginAt(n: nat, stale: nat, t: int)
    requires stale <= n
    ensures BeginsAt(Rounds(n, stale, t), t)
    decreases stale
  {
    PhasesBeginAt(stale, n, t);
    if stale > 0 {
      RoundsBeginAt(n, stale - 1, t);
      BeginsAtConcat([Finish(stale - 1, "")], Rounds(n, stale - 1, t), t);
    }
    BeginsAtConcat(FinishAll(stale, n), AfterRound(n, stale, t), t);
    BeginsAtConcat(BeginAll(stale, n, t), FinishAll(stale, n) + AfterRound(n, stale, t), t);
  }

  lemma OneAfterTheOther(a: seq<Event>, b: seq<Event>, t: int, u: int)
    requires BeginsAt(a, t) && BeginsAt(b, u) && t <= u
    ensures ClocksForward(a + b)
  {
  }

  /** All callers ask before the window opens, and then go through the rounds in it. */
  function Storm(n: nat, asked: int, now: int): seq<Event> {
    BeginAll(0, n, asked) + Rounds(n, n, now)
  }

  /** The bound is reached: n idle callers and an empty cache can come to n(n+1)/2 tokens of one window. */
  lemma StormReachesBound(lifetime: int, n: nat, asked: int)
    requires lifetime > 60 && asked < 0
    ensures var s, run := Shared(None, Asking(n, 0, 0, asked, asked)), Storm(n, asked, Useful(lifetime) - 1);
            && |s.callers| == n && (forall k :: 0 <= k < n ==> s.callers[k] == Idle) && ClocksForward(run)
            && 2 * Minted(lifetime, s, run, 0, Useful(lifetime)) == n * (n + 1)
  {
    var now := Useful(lifetime) - 1;
    PhasesBeginAt(0, n, asked);
    RoundsBeginAt(n, n, now);
    OneAfterTheOther(BeginAll(0, n, asked), Rounds(n, n, now), asked, now);
    BeginsMintNothing(lifetime, None, n, 0, 0, asked, asked, Rounds(n, n, now), 0, now + 1);
    assert Asking(n, 0, n, asked, asked) == Asking(n, n, n, asked, now);
    RoundsMint(lifetime, None, n, n, asked);
    HalfSquare(n);
  }
}
