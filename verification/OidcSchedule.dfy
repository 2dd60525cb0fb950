/** The refresh schedule of the OIDC token provider (crates/auth/src/oidc.rs): a token
    is refreshed by the first tick of a 30-second ticker after two thirds of
    its lifetime, and served until 60 seconds before it expires. Fetches take
    no time and succeed; the clock is read in whole seconds. */
module OidcSchedule {
  import opened Prelude

  const REFRESH_BUFFER: nat := 60
  const TICK_PERIOD: real := 30.0

  datatype TokenEntry = TokenEntry(token: string, expiry: nat, refreshAt: nat)

  /** The entry a fetch at `now` stores. */
  function FetchedAt(token: string, now: nat, expiresIn: nat): TokenEntry {
    TokenEntry(token, now + expiresIn, now + expiresIn * 2 / 3)
  }

  /** `get` serves the entry. */
  predicate Served(entry: TokenEntry, now: nat) {
    entry.expiry > now + REFRESH_BUFFER
  }

  predicate NeedsRefresh(entry: TokenEntry, now: nat) {
    now >= entry.refreshAt && entry.expiry > now + REFRESH_BUFFER
  }

  /** The provider: its token cache and the key its own token is under. */
  class OidcTokenProvider {
    var entries: map<string, TokenEntry>
    const cacheKey: string

    constructor (cacheKey: string)
      ensures entries == map[] && this.cacheKey == cacheKey
    {
      this.cacheKey := cacheKey;
      entries := map[];
    }

    /** `fetch_new_token`, answered with `token` for `expiresIn` seconds. */
    method FetchNewToken(token: string, now: nat, expiresIn: nat)
      modifies this
      ensures entries == old(entries)[cacheKey := FetchedAt(token, now, expiresIn)]
    {
      entries := entries[cacheKey := TokenEntry(token, now + expiresIn, now + expiresIn * 2 / 3)];
    }

    /** `get_token`. */
    function GetToken(now: nat): (token: Option<string>)
      reads this
      ensures token.Some? <==> cacheKey in entries && Served(entries[cacheKey], now)
      ensures token.Some? ==> token.value == entries[cacheKey].token
    {
      if cacheKey in entries && entries[cacheKey].expiry > now + REFRESH_BUFFER
      then Some(entries[cacheKey].token) else None
    }

    /** One tick: looks for tokens to refresh and refreshes its own. */
    method Tick(token: string, now: nat, expiresIn: nat)
      modifies this
      ensures entries == if cacheKey in old(entries) && NeedsRefresh(old(entries)[cacheKey], now)
                         then old(entries)[cacheKey := FetchedAt(token, now, expiresIn)] else old(entries)
    {
      var due := set key | key in entries && NeedsRefresh(entries[key], now);
      ghost var before := entries;
      while due != {}
        invariant due <= before.Keys
        invariant entries == if cacheKey in before && NeedsRefresh(before[cacheKey], now) && cacheKey !in due
                             then before[cacheKey := FetchedAt(token, now, expiresIn)] else before
        invariant cacheKey in due ==> NeedsRefresh(before[cacheKey], now)
        decreases |due|
      {
        var key :| key in due;
        due := due - {key};
        if key == cacheKey {
          FetchNewToken(token, now, expiresIn);
        }
      }
    }
  }

  // The schedule in real time.

  function Seconds(t: real): nat
    requires t >= 0.0
  {
    t.Floor
  }

  function TickTime(phase: real, k: nat): real {
    phase + TICK_PERIOD * k as real
  }

  /** The provider's entry after `k` ticks; `lifetimes(k)` is the lifetime of a token fetched at tick `k`. */
  function EntryAfter(first: TokenEntry, phase: real, lifetimes: nat -> nat, k: nat): TokenEntry
    requires phase >= 0.0
    decreases k
  {
    if k == 0 then first
    else
      var entry := EntryAfter(first, phase, lifetimes, k - 1);
      var now := Seconds(TickTime(phase, k - 1));
      if NeedsRefresh(entry, now) then FetchedAt("", now, lifetimes(k - 1)) else entry
  }

  /** The ticker's first tick after the first fetch comes within a period. */
  predicate InPhase(start: real, phase: real) {
    0.0 <= start <= phase < start + TICK_PERIOD
  }

  /** Between the last tick before it (or the first fetch) and tick `k`. */
  predicate Between(start: real, phase: real, k: nat, t: real) {
    (if k == 0 then start else TickTime(phase, k - 1)) <= t <= TickTime(phase, k)
  }

  /** The entry is of a token fetched at a whole second, still served at tick `k`. */
  ghost predicate ServedUntilTick(entry: TokenEntry, phase: real, k: nat) {
    exists fetched: nat, expiresIn: nat ::
      && entry == FetchedAt(entry.token, fetched, expiresIn) && expiresIn >= 268
      && TickTime(phase, k) < (fetched + expiresIn - REFRESH_BUFFER) as real
  }

  lemma TickStep(phase: real, k: nat)
    ensures TickTime(phase, k + 1) == TickTime(phase, k) + TICK_PERIOD
  {
    assert TICK_PERIOD * (k + 1) as real == TICK_PERIOD * k as real + TICK_PERIOD;
  }

  /** One tick: either it refreshes, or two thirds of the lifetime have not passed and the next tick is in time. */
  lemma TickInTime(fetched: nat, expiresIn: nat, now: nat, tick: real, next: nat)
    requires expiresIn >= 268 && next >= 268 && tick >= 0.0 && now == Seconds(tick)
    requires tick < (fetched + expiresIn - REFRESH_BUFFER) as real
    ensures var entry := FetchedAt("", fetched, expiresIn);
            if NeedsRefresh(entry, now) then tick + TICK_PERIOD < (now + next - REFRESH_BUFFER) as real
            else tick + TICK_PERIOD < (fetched + expiresIn - REFRESH_BUFFER) as real
  {
    if now < fetched + expiresIn * 2 / 3 {
      assert tick < (fetched + expiresIn * 2 / 3) as real;
    }
  }

  lemma {:induction false} AlwaysServedUntilTick(start: real, phase: real, lifetimes: nat -> nat, first: nat, k: nat)
    requires InPhase(start, phase) && first >= 268 && forall i :: lifetimes(i) >= 268
    ensures ServedUntilTick(EntryAfter(FetchedAt("", Seconds(start), first), phase, lifetimes, k), phase, k)
    decreases k
  {
    var initial := FetchedAt("", Seconds(start), first);
    if k == 0 {
      assert initial == FetchedAt(initial.token, Seconds(start), first);
    } else {
      AlwaysServedUntilTick(start, phase, lifetimes, first, k - 1);
      TickStep(phase, k - 1);
      var entry := EntryAfter(initial, phase, lifetimes, k - 1);
      var fetched: nat, expiresIn: nat :|
        && entry == FetchedAt(entry.token, fetched, expiresIn) && expiresIn >= 268
        && TickTime(phase, k - 1) < (fetched + expiresIn - REFRESH_BUFFER) as real;
      var now := Seconds(TickTime(phase, k - 1));
      TickInTime(fetched, expiresIn, now, TickTime(phase, k - 1), lifetimes(k - 1));
      var renewed := FetchedAt("", now, lifetimes(k - 1));
      assert renewed == FetchedAt(renewed.token, now, lifetimes(k - 1));
    }
  }

  /** When every lifetime is at least 268 seconds, for every phase of the ticker
      there is at every moment after the first fetch a token to serve. */
  lemma AlwaysServed(start: real, phase: real, lifetimes: nat -> nat, first: nat, k: nat, t: real)
    requires InPhase(start, phase) && first >= 268 && forall i :: lifetimes(i) >= 268
    requires Between(start, phase, k, t)
    ensures t >= 0.0 && Served(EntryAfter(FetchedAt("", Seconds(start), first), phase, lifetimes, k), Seconds(t))
  {
    AlwaysServedUntilTick(start, phase, lifetimes, first, k);
    TickNonNegative(phase, k);
    if k > 0 {
      TickNonNegative(phase, k - 1);
    }
  }

  lemma TickNonNegative(phase: real, k: nat)
    requires phase >= 0.0
    ensures TickTime(phase, k) >= 0.0
  {
  }

  /** Tokens of a fixed lifetime are served at every moment, whatever the phase. */
  ghost predicate NeverFails(expiresIn: nat) {
    forall start: real, phase: real, k: nat, t: real :: InPhase(start, phase) && Between(start, phase, k, t) ==>
      t >= 0.0 && Served(EntryAfter(FetchedAt("", Seconds(start), expiresIn), phase, _ => expiresIn, k), Seconds(t))
  }

  /** A shorter lifetime can slip between two ticks: no tick before the buffer closes comes late enough. */
  lemma {:induction false} SlipsBetweenTicks(expiresIn: nat, phase: real, k: nat)
    requires REFRESH_BUFFER <= expiresIn < 268 && 0.0 <= phase
    requires TickTime(phase, k) <= (expiresIn - REFRESH_BUFFER) as real
    ensures EntryAfter(FetchedAt("", 0, expiresIn), phase, _ => expiresIn, k) == FetchedAt("", 0, expiresIn)
    decreases k
  {
    if k > 0 {
      TickStep(phase, k - 1);
      SlipsBetweenTicks(expiresIn, phase, k - 1);
    }
  }

  lemma ShortLifetimeFails(expiresIn: nat)
    requires expiresIn < 268
    ensures !NeverFails(expiresIn)
  {
    var first := FetchedAt("", 0, expiresIn);
    if expiresIn < REFRESH_BUFFER {
      assert InPhase(0.0, 0.0) && Between(0.0, 0.0, 0, 0.0);
      assert !Served(EntryAfter(FetchedAt("", Seconds(0.0), expiresIn), 0.0, _ => expiresIn, 0), Seconds(0.0));
    } else {
      var last := expiresIn - REFRESH_BUFFER;
      var k, phase := last / 30, (last % 30) as real;
      assert TickTime(phase, k) == last as real by {
        assert last == last % 30 + 30 * k;
      }
      SlipsBetweenTicks(expiresIn, phase, k);
      if k > 0 {
        TickStep(phase, k - 1);
      }
      assert InPhase(0.0, phase) && Between(0.0, phase, k, last as real);
      assert Seconds(0.0) == 0 && Seconds(last as real) == last;
      assert !Served(EntryAfter(FetchedAt("", Seconds(0.0), expiresIn), phase, _ => expiresIn, k),
                     Seconds(last as real));
    }
  }

  /** Tokens are always served exactly when they live at least 268 seconds. */
  lemma NeverFailsIff(expiresIn: nat)
    ensures NeverFails(expiresIn) <==> expiresIn >= 268
  {
    if expiresIn >= 268 {
      forall start: real, phase: real, k: nat, t: real | InPhase(start, phase) && Between(start, phase, k, t)
        ensures t >= 0.0 && Served(EntryAfter(FetchedAt("", Seconds(start), expiresIn), phase, _ => expiresIn, k),
                                   Seconds(t))
      {
        AlwaysServed(start, phase, _ => expiresIn, expiresIn, k, t);
      }
    } else {
      ShortLifetimeFails(expiresIn);
    }
  }

  /** A token once not served is never refreshed: the provider stays without one. */
  lemma {:induction false} NeverRecovers(first: TokenEntry, phase: real, lifetimes: nat -> nat, k: nat, later: nat)
    requires phase >= 0.0 && k <= later
    requires !Served(EntryAfter(first, phase, lifetimes, k), Seconds(TickTime(phase, k)))
    ensures EntryAfter(first, phase, lifetimes, later) == EntryAfter(first, phase, lifetimes, k)
    ensures !Served(EntryAfter(first, phase, lifetimes, later), Seconds(TickTime(phase, later)))
    decreases later - k
  {
    if k < later {
      NeverRecovers(first, phase, lifetimes, k, later - 1);
      TickStep(phase, later - 1);
    }
  }
}
