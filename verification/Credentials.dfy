/** Expiring bearer cache: tokens are handed out early enough and minted no more often than they expire. */
module Credentials {
  import opened Text

  const SECOND: int := 1_000_000_000
  const EXPIRY_SKEW: int := 60 * SECOND

  datatype CachedToken = CachedToken(access: string, expiresAt: int)
  datatype MintedToken = MintedToken(access: string, expiresInSecs: int)

  /** One call: the clock, in nanoseconds, and what the token endpoint would answer. */
  datatype Call = Call(now: int, answer: Option<MintedToken>)
  datatype Served = Served(cache: Option<CachedToken>, bearer: Option<string>, minted: bool)

  predicate Fresh(cache: Option<CachedToken>, now: int) {
    cache.Some? && cache.value.expiresAt > now + EXPIRY_SKEW
  }

  /** Serve from a fresh cache; otherwise mint and replace it; a failed mint changes nothing. */
  function Serve(cache: Option<CachedToken>, c: Call): Served {
    if Fresh(cache, c.now) then Served(cache, Some(cache.value.access), false)
    else
      match c.answer
      case Some(t) => Served(Some(CachedToken(t.access, c.now + t.expiresInSecs * SECOND)), Some(t.access), true)
      case None => Served(cache, None, false)
  }

  /** A token is served from the cache while more than 60 seconds of it are left, and minted otherwise. */
  lemma ServeMeans(cache: Option<CachedToken>, c: Call)
    ensures var s, enough := Serve(cache, c), cache.Some? && cache.value.expiresAt > c.now + 60_000_000_000;
            && (s.minted <==> !enough && c.answer.Some?)
            && (s.bearer.None? <==> !enough && c.answer.None?)
            && (enough ==> s.bearer.value == cache.value.access)
            && (!s.minted ==> s.cache == cache)
            && (s.minted ==> s.cache.Some? && s.cache.value.access == c.answer.value.access == s.bearer.value
                             && s.cache.value.expiresAt == c.now + c.answer.value.expiresInSecs * 1_000_000_000)
  {
  }

  class OAuthCredential {
    var cache: Option<CachedToken>

    constructor ()
      ensures cache == None
    {
      cache := None;
    }

    method AccessToken(c: Call) returns (bearer: Option<string>)
      modifies this
      ensures var s := Serve(old(cache), c); cache == s.cache && bearer == s.bearer
    {
      if cache.Some? && cache.value.expiresAt > c.now + EXPIRY_SKEW {
        return Some(cache.value.access);
      }
      if c.answer == None {
        return None;
      }
      var minted := c.answer.value;
      cache := Some(CachedToken(minted.access, c.now + minted.expiresInSecs * SECOND));
      bearer := Some(minted.access);
    }
  }

  /** A static key is handed out as is; an OAuth credential goes through its cache. */
  datatype Credential = ApiKey(key: string) | OAuth(oauth: OAuthCredential)

  method Bearer(credential: Credential, c: Call) returns (bearer: Option<string>)
    modifies if credential.OAuth? then {credential.oauth} else {}
    ensures credential.ApiKey? ==> bearer == Some(credential.key)
    ensures credential.OAuth? ==>
      var s := Serve(old(credential.oauth.cache), c);
      credential.oauth.cache == s.cache && bearer == s.bearer
  {
    match credential
    case ApiKey(key) => bearer := Some(key);
    case OAuth(oauth) => bearer := oauth.AccessToken(c);
  }

  // ----- Runs -----

  ghost predicate ClockForward(calls: seq<Call>) {
    forall i, j :: 0 <= i < j < |calls| ==> calls[i].now <= calls[j].now
  }

  /** Every token the endpoint issues lives `lifetime` seconds. */
  ghost predicate FixedLifetime(calls: seq<Call>, lifetime: int) {
    forall i :: 0 <= i < |calls| && calls[i].answer.Some? ==> calls[i].answer.value.expiresInSecs == lifetime
  }

  function CacheAfter(cache: Option<CachedToken>, calls: seq<Call>): Option<CachedToken> {
    if calls == [] then cache
    else Serve(CacheAfter(cache, calls[..|calls| - 1]), calls[|calls| - 1]).cache
  }

  function Mints(cache: Option<CachedToken>, calls: seq<Call>): nat
    decreases |calls|
  {
    if calls == [] then 0
    else
      var s := Serve(cache, calls[0]);
      (if s.minted then 1 else 0) + Mints(s.cache, calls[1..])
  }

  lemma {:induction false} CacheFromFirst(cache: Option<CachedToken>, calls: seq<Call>)
    requires calls != []
    ensures CacheAfter(cache, calls) == CacheAfter(Serve(cache, calls[0]).cache, calls[1..])
    decreases |calls|
  {
    if |calls| > 1 {
      CacheFromFirst(cache, calls[..|calls| - 1]);
      assert calls[..|calls| - 1][1..] == calls[1..][..|calls| - 2];
    }
  }

  /** A run goes call by call from one cache to the next, counting the calls that mint. */
  lemma {:induction false} RunNext(cache: Option<CachedToken>, calls: seq<Call>, last: Call)
    ensures CacheAfter(cache, []) == cache && Mints(cache, []) == 0
    ensures CacheAfter(cache, calls + [last]) == Serve(CacheAfter(cache, calls), last).cache
    ensures Mints(cache, calls + [last])
            == Mints(cache, calls) + if Serve(CacheAfter(cache, calls), last).minted then 1 else 0
    decreases |calls|
  {
    var all := calls + [last];
    assert all[..|calls|] == calls;
    if calls != [] {
      assert all[1..] == calls[1..] + [last];
      CacheFromFirst(cache, calls);
      RunNext(Serve(cache, calls[0]).cache, calls[1..], last);
    } else {
      assert all[1..] == [];
    }
  }

  /** Call c got this token from the endpoint, for so many seconds from its own clock on. */
  ghost predicate MintedBy(c: Call, access: string, lifetime: int, expiresAt: int) {
    c.answer == Some(MintedToken(access, lifetime)) && expiresAt == c.now + lifetime * SECOND
  }

  /** Whatever a run has cached was minted by one of its calls and expires a lifetime after that call. */
  lemma {:induction false} CachedWasMinted(calls: seq<Call>, lifetime: int)
    requires FixedLifetime(calls, lifetime)
    ensures var cache := CacheAfter(None, calls);
            cache.Some? ==>
              exists j :: 0 <= j < |calls| && MintedBy(calls[j], cache.value.access, lifetime, cache.value.expiresAt)
  {
    if calls != [] {
      var n := |calls| - 1;
      CachedWasMinted(calls[..n], lifetime);
      var before := CacheAfter(None, calls[..n]);
      if Serve(before, calls[n]).minted {
        assert MintedBy(calls[n], calls[n].answer.value.access, lifetime, calls[n].now + lifetime * SECOND);
      } else if before.Some? {
        var j :| 0 <= j < n && MintedBy(calls[..n][j], before.value.access, lifetime, before.value.expiresAt);
        assert calls[j] == calls[..n][j];
      }
    }
  }

  /**
   * Over any run, every bearer handed out was minted by that call or an earlier one, and of its lifetime, counted
   * from the call that minted it, more than the skew is left.
   */
  lemma BearerHasTimeLeft(calls: seq<Call>, k: nat, lifetime: int)
    requires lifetime > 60 && FixedLifetime(calls, lifetime) && k < |calls|
    ensures var s := Serve(CacheAfter(None, calls[..k]), calls[k]);
            s.bearer.Some? ==>
              exists j :: 0 <= j <= k && MintedBy(calls[j], s.bearer.value, lifetime, calls[j].now + lifetime * SECOND)
                          && calls[j].now + lifetime * 1_000_000_000 - calls[k].now > 60 * 1_000_000_000
  {
    var cache := CacheAfter(None, calls[..k]);
    var s := Serve(cache, calls[k]);
    CachedWasMinted(calls[..k], lifetime);
    if s.minted {
      assert MintedBy(calls[k], s.bearer.value, lifetime, calls[k].now + lifetime * SECOND);
    } else if s.bearer.Some? {
      var j :| 0 <= j < k && MintedBy(calls[..k][j], cache.value.access, lifetime, cache.value.expiresAt);
      assert calls[j] == calls[..k][j];
    }
  }

  lemma Spacing(k: int, gap: int)
    requires k >= 1
    ensures k * gap == (k - 1) * gap + gap
  {
  }

  lemma ServeMintsLate(cache: Option<CachedToken>, c: Call, lifetime: int)
    requires cache.Some? && Serve(cache, c).minted
    requires c.answer.Some? ==> c.answer.value.expiresInSecs == lifetime
    ensures cache.value.expiresAt - EXPIRY_SKEW <= c.now
    ensures Serve(cache, c).cache.Some? && Serve(cache, c).cache.value.expiresAt == c.now + lifetime * SECOND
  {
  }

  lemma TailOf(calls: seq<Call>, lifetime: int)
    requires calls != [] && ClockForward(calls) && FixedLifetime(calls, lifetime)
    ensures ClockForward(calls[1..]) && FixedLifetime(calls[1..], lifetime)
    ensures |calls| > 1 ==> calls[0].now <= calls[|calls| - 1].now && calls[1..][|calls| - 2] == calls[|calls| - 1]
  {
  }

  lemma {:induction false} MintsAfter(cache: Option<CachedToken>, calls: seq<Call>, lifetime: int)
    requires cache.Some? && lifetime > 60 && ClockForward(calls) && FixedLifetime(calls, lifetime)
    ensures var k := Mints(cache, calls);
            k > 0 ==> cache.value.expiresAt - EXPIRY_SKEW + (k - 1) * (lifetime * SECOND - EXPIRY_SKEW)
                      <= calls[|calls| - 1].now
    decreases |calls|
  {
    if calls != [] {
      TailOf(calls, lifetime);
      var s := Serve(cache, calls[0]);
      var rest := Mints(s.cache, calls[1..]);
      if s.minted { ServeMintsLate(cache, calls[0], lifetime); }
      MintsAfter(s.cache, calls[1..], lifetime);
      if rest > 0 { Spacing(rest, lifetime * SECOND - EXPIRY_SKEW); }
    }
  }

  /** Minting is rate-limited by expiry: k mints span at least k-1 useful lifetimes. */
  lemma {:induction false} MintsAreSpaced(calls: seq<Call>, lifetime: int)
    requires lifetime > 60 && calls != [] && ClockForward(calls) && FixedLifetime(calls, lifetime)
    ensures (Mints(None, calls) - 1) * ((lifetime - 60) * 1_000_000_000) <= calls[|calls| - 1].now - calls[0].now
    decreases |calls|
  {
    TailOf(calls, lifetime);
    var gap := lifetime * SECOND - EXPIRY_SKEW;
    var s := Serve(None, calls[0]);
    if s.minted {
      var rest := Mints(s.cache, calls[1..]);
      MintsAfter(s.cache, calls[1..], lifetime);
      if rest > 0 { Spacing(rest, gap); }
    } else if |calls| > 1 {
      MintsAreSpaced(calls[1..], lifetime);
    }
  }
}
