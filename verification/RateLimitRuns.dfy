/** Every run of checks with non-decreasing time. */
module RateLimitRuns {
  import opened RateLimit

  type Trace = seq<Request>

  ghost predicate InOrder(tr: Trace) {
    forall i, j :: 0 <= i < j < |tr| ==> tr[i].at <= tr[j].at
  }

  function StoreAfter(tr: Trace): Store {
    if tr == [] then map[] else After(StoreAfter(tr[..|tr| - 1]), tr[|tr| - 1])
  }

  /** A request of the tenant in window w. */
  predicate In(r: Request, tenant: string, w: nat) { r.tenant == tenant && Window(r.at) == w }

  /** Requests the store counted. */
  function Hits(tr: Trace, tenant: string, w: nat): nat {
    if tr == [] then 0
    else Hits(tr[..|tr| - 1], tenant, w) + if tr[|tr| - 1].up && In(tr[|tr| - 1], tenant, w) then 1 else 0
  }

  /** Requests that found the store down. */
  function Outages(tr: Trace, tenant: string, w: nat): nat {
    if tr == [] then 0
    else Outages(tr[..|tr| - 1], tenant, w) + if !tr[|tr| - 1].up && In(tr[|tr| - 1], tenant, w) then 1 else 0
  }

  /** All requests let through, counted by the store or not. */
  function Accepted(tr: Trace, tenant: string, w: nat, limit: nat): nat {
    if tr == [] then 0
    else
      var k := |tr| - 1;
      Accepted(tr[..k], tenant, w, limit)
        + if In(tr[k], tenant, w) && Accepts(StoreAfter(tr[..k]), tr[k], limit) then 1 else 0
  }

  lemma WindowEnds(t: nat)
    ensures t < (Window(t) + 1) * WINDOW <= t + WINDOW
  {}

  /** What the store holds for a tenant and a moment not before the run's end: nothing before
      the window's first check, then the exact number of checks, on a key that outlives the
      window. */
  ghost predicate Counted(tr: Trace, tenant: string, now: nat) {
    var key, w := Key(tenant, now), Window(now);
    var s := StoreAfter(tr);
    if Hits(tr, tenant, w) == 0 then key !in s
    else
      && key in s && s[key].count == Hits(tr, tenant, w)
      && (s[key].expiry.Some? ==> s[key].expiry.value >= (w + 1) * WINDOW)
  }

  lemma CountedIsLive(tr: Trace, tenant: string, now: nat)
    requires Counted(tr, tenant, now)
    ensures Incremented(StoreAfter(tr), Key(tenant, now), now) == Hits(tr, tenant, Window(now)) + 1
  {
    WindowEnds(now);
  }

  lemma CountedStep(tr: Trace, r: Request, tenant: string, now: nat)
    requires Counted(tr, tenant, now) && Counted(tr, r.tenant, r.at) && r.at <= now
    ensures Counted(tr + [r], tenant, now)
  {
    assert (tr + [r])[..|tr|] == tr;
    KeyInjective(tenant, now, r.tenant, r.at);
    if r.up && Key(tenant, now) == Key(r.tenant, r.at) {
      CountedIsLive(tr, r.tenant, r.at);
      WindowEnds(r.at);
    }
  }

  lemma {:induction false} StoreCounts(tr: Trace, tenant: string, now: nat)
    requires InOrder(tr) && forall i :: 0 <= i < |tr| ==> tr[i].at <= now
    ensures Counted(tr, tenant, now)
    decreases |tr|
  {
    if tr != [] {
      var k := |tr| - 1;
      StoreCounts(tr[..k], tenant, now);
      StoreCounts(tr[..k], tr[k].tenant, tr[k].at);
      assert tr == tr[..k] + [tr[k]];
      CountedStep(tr[..k], tr[k], tenant, now);
    }
  }

  function Min(a: nat, b: nat): nat { if a < b then a else b }

  /** Checks past the 32-bit range of the count, which fail open. */
  function Overflow(hits: nat): nat { if hits < 0x1_0000_0000 then 0 else hits - (0x1_0000_0000 - 1) }

  /** The exact number of acceptances per aligned window: as many checks as the limit allows,
      those past the 32-bit range, and every request made while the store was down. */
  lemma {:induction false} AcceptedExactly(tr: Trace, tenant: string, w: nat, limit: nat)
    requires InOrder(tr) && limit < 0x1_0000_0000
    ensures var hits := Hits(tr, tenant, w);
            Accepted(tr, tenant, w, limit) == Min(hits, limit) + Overflow(hits) + Outages(tr, tenant, w)
    decreases |tr|
  {
    if tr != [] {
      var k := |tr| - 1;
      AcceptedExactly(tr[..k], tenant, w, limit);
      if tr[k].up && In(tr[k], tenant, w) {
        StoreCounts(tr[..k], tenant, tr[k].at);
        CountedIsLive(tr[..k], tenant, tr[k].at);
      }
    }
  }

  /** At most `limit` acceptances per tenant and aligned window on top of the outages; in a window
      with at least that many checks the limit itself holds iff the store was always up and its
      count stayed within 32 bits. */
  lemma WindowLimit(tr: Trace, tenant: string, w: nat, limit: nat)
    requires InOrder(tr) && limit < 0x1_0000_0000
    ensures Hits(tr, tenant, w) < 0x1_0000_0000 ==> Accepted(tr, tenant, w, limit) <= limit + Outages(tr, tenant, w)
    ensures Hits(tr, tenant, w) >= limit ==>
      (Accepted(tr, tenant, w, limit) <= limit <==> Outages(tr, tenant, w) == 0 && Hits(tr, tenant, w) < 0x1_0000_0000)
  {
    AcceptedExactly(tr, tenant, w, limit);
  }

  predicate InSpan(r: Request, tenant: string, a: nat) { r.tenant == tenant && a <= r.at < a + 60 }

  /** Acceptances of the tenant in the 60 seconds from `a` on. */
  function SpanAccepted(tr: Trace, tenant: string, a: nat, limit: nat): nat {
    if tr == [] then 0
    else
      var k := |tr| - 1;
      SpanAccepted(tr[..k], tenant, a, limit)
        + if InSpan(tr[k], tenant, a) && Accepts(StoreAfter(tr[..k]), tr[k], limit) then 1 else 0
  }

  /** Requests in those 60 seconds that found the store down. */
  function SpanOutages(tr: Trace, tenant: string, a: nat): nat {
    if tr == [] then 0
    else SpanOutages(tr[..|tr| - 1], tenant, a) + if !tr[|tr| - 1].up && InSpan(tr[|tr| - 1], tenant, a) then 1 else 0
  }

  lemma SpanMeetsTwoWindows(a: nat, t: nat)
    requires a <= t < a + WINDOW
    ensures Window(t) == Window(a) || Window(t) == Window(a) + 1
  {}

  /** Acceptances in a window while the store was up. */
  function Granted(tr: Trace, tenant: string, w: nat, limit: nat): int {
    Accepted(tr, tenant, w, limit) - Outages(tr, tenant, w)
  }

  lemma {:induction false} GrantedStep(tr: Trace, tenant: string, w: nat, limit: nat)
    requires tr != []
    ensures var k := |tr| - 1;
            Granted(tr, tenant, w, limit) == Granted(tr[..k], tenant, w, limit)
              + if tr[k].up && In(tr[k], tenant, w) && Accepts(StoreAfter(tr[..k]), tr[k], limit) then 1 else 0
  {}

  lemma {:induction false} SpanWithinWindows(tr: Trace, tenant: string, a: nat, limit: nat)
    ensures SpanAccepted(tr, tenant, a, limit)
         <= Granted(tr, tenant, Window(a), limit) + Granted(tr, tenant, Window(a) + 1, limit) + SpanOutages(tr, tenant, a)
    decreases |tr|
  {
    if tr != [] {
      var k := |tr| - 1;
      SpanWithinWindows(tr[..k], tenant, a, limit);
      GrantedStep(tr, tenant, Window(a), limit);
      GrantedStep(tr, tenant, Window(a) + 1, limit);
      if a <= tr[k].at < a + WINDOW {
        SpanMeetsTwoWindows(a, tr[k].at);
      }
    }
  }

  /** At most twice the limit in any 60 seconds, aligned or not, on top of the requests made while
      the store was down. */
  lemma SpanLimit(tr: Trace, tenant: string, a: nat, limit: nat)
    requires InOrder(tr) && limit < 0x1_0000_0000
    ensures Hits(tr, tenant, Window(a)) < 0x1_0000_0000 && Hits(tr, tenant, Window(a) + 1) < 0x1_0000_0000
      ==> SpanAccepted(tr, tenant, a, limit) <= 2 * limit + SpanOutages(tr, tenant, a)
  {
    SpanWithinWindows(tr, tenant, a, limit);
    AcceptedExactly(tr, tenant, Window(a), limit);
    AcceptedExactly(tr, tenant, Window(a) + 1, limit);
  }
}
