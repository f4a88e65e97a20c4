/**
  The fixed-window rate limiter of the ingest gateway (ingest/gateway/src/main.rs:540-564,
  ingest/gateway/src/harden.rs:98-121) over a counter store shared by all replicas.
 */
module RateLimit {
  import opened Text

  const WINDOW := 60
  const U32 := 0x1_0000_0000

  // ---------------------------------------------------------------- window arithmetic

  function Window(now: nat): nat { now / WINDOW }

  function RetryAfter(now: nat): nat { WINDOW - now % WINDOW }

  function Reset(now: nat): nat { (now / WINDOW + 1) * WINDOW }

  function Remaining(count: nat, limit: nat): nat { if count < limit then limit - count else 0 }

  function Key(tenant: string, now: nat): string {
    "ratelimit:ingest:" + tenant + ":" + Decimal(Window(now))
  }

  /** Waiting Retry-After seconds lands on the announced reset, the first second of the next
      window, and no shorter wait leaves the window (section 10.2.3 of RFC 9110). */
  lemma RetryLandsInFreshWindow(now: nat)
    ensures now + RetryAfter(now) == Reset(now)
    ensures Window(Reset(now)) == Window(now) + 1
    ensures forall t: nat :: now <= t < Reset(now) ==> Window(t) == Window(now)
  {
    var q, r := now / WINDOW, now % WINDOW;
    assert now == q * WINDOW + r && Reset(now) == q * WINDOW + WINDOW;
    InWindow(Reset(now), q + 1, 0);
    forall t: nat | now <= t < Reset(now) ensures Window(t) == q {
      InWindow(t, q, t - q * WINDOW);
    }
  }

  lemma InWindow(t: nat, w: nat, offset: nat)
    requires t == w * WINDOW + offset && offset < WINDOW
    ensures Window(t) == w
  {}

  lemma DecimalInjective(m: nat, n: nat)
    requires Decimal(m) == Decimal(n)
    ensures m == n
  {
    DecimalRoundTrip(m);
    DecimalRoundTrip(n);
  }

  lemma DigitsHaveNoColon(s: string)
    requires AllDigits(s)
    ensures ':' !in s
  {}

  /** Two requests share a counter iff they are of one tenant in one window. */
  lemma KeyInjective(t1: string, n1: nat, t2: string, n2: nat)
    ensures Key(t1, n1) == Key(t2, n2) <==> t1 == t2 && Window(n1) == Window(n2)
  {
    if Key(t1, n1) == Key(t2, n2) {
      var p := "ratelimit:ingest:";
      DigitsHaveNoColon(Decimal(Window(n1)));
      DigitsHaveNoColon(Decimal(Window(n2)));
      LastCut(p + t1, Decimal(Window(n1)), p + t2, Decimal(Window(n2)), ':');
      assert t1 == (p + t1)[|p|..] && t2 == (p + t2)[|p|..];
      DecimalInjective(Window(n1), Window(n2));
    }
  }

  // ---------------------------------------------------------------- one check

  /** A stored counter; no expiry when the EXPIRE call was lost. */
  datatype Counter = Counter(count: nat, expiry: Option<nat>)

  type Store = map<string, Counter>

  /** One request: which tenant, when, whether the store answered, whether EXPIRE got through. */
  datatype Request = Request(tenant: string, at: nat, up: bool, expireOk: bool)

  predicate Live(s: Store, key: string, now: nat) {
    key in s && (s[key].expiry.None? || now < s[key].expiry.value)
  }

  function Incremented(s: Store, key: string, now: nat): nat {
    if Live(s, key, now) then s[key].count + 1 else 1
  }

  function After(s: Store, r: Request): Store {
    if !r.up then s
    else
      var key := Key(r.tenant, r.at);
      var count := Incremented(s, key, r.at);
      if count == 1 then s[key := Counter(1, if r.expireOk then Some(r.at + WINDOW) else None)]
      else s[key := Counter(count, s[key].expiry)]
  }

  /** Fail-open when the store is down or the count no longer fits 32 bits. */
  predicate Accepts(s: Store, r: Request, limit: nat) {
    !r.up ||
    var count := Incremented(s, Key(r.tenant, r.at), r.at);
    count >= U32 || count <= limit
  }

  /** The shared store with the gateway's check on it. */
  class Limiter {
    const limit: nat
    var counters: Store

    constructor (limit: nat)
      ensures this.limit == limit && counters == map[]
    {
      this.limit := limit;
      counters := map[];
    }

    method RateLimit(tenant: string, now: nat, up: bool, expireOk: bool) returns (ok: bool, retryAfter: nat, remaining: nat)
      modifies this`counters
      ensures ok == Accepts(old(counters), Request(tenant, now, up, expireOk), limit)
      ensures counters == After(old(counters), Request(tenant, now, up, expireOk))
      ensures !ok ==> retryAfter == RetryAfter(now) && remaining == 0
    {
      retryAfter, remaining := 0, 0;
      if !up {
        return true, retryAfter, remaining;
      }
      var key := Key(tenant, now);
      // INCR
      var count := if Live(counters, key, now) then counters[key].count + 1 else 1;
      var expiry := if Live(counters, key, now) then counters[key].expiry else None;
      counters := counters[key := Counter(count, expiry)];
      // EXPIRE on the first increment
      if count == 1 {
        counters := counters[key := Counter(count, if expireOk then Some(now + 60) else None)];
      }
      if count >= U32 {
        return true, retryAfter, remaining;
      }
      if count > limit {
        return false, RetryAfter(now), Remaining(count, limit);
      }
      return true, retryAfter, remaining;
    }
  }
}
