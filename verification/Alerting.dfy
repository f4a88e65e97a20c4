/**
  Incident correlation (domains/alerting): confidence, calibration, and the table of
  incidents that every firing signal is merged into.
 */
module Alerting {
  import opened Text
  import opened Topology

  // ---------------------------------------------------------------- scores

  function Clamp01(x: real): (r: real)
    ensures 0.0 <= r <= 1.0
    ensures 0.0 <= x <= 1.0 ==> r == x
  {
    if x < 0.0 then 0.0 else if x > 1.0 then 1.0 else x
  }

  datatype Kind = Anomaly | Absence | Threshold | Other

  datatype Baseline = Baseline(mean: real, std: real)

  function Confidence(kind: Kind, count: int, threshold: real, base: Option<Baseline>): (c: real)
    ensures 0.0 <= c <= 1.0
  {
    match kind
    case Anomaly => Clamp01(threshold)
    case Absence => 0.7
    case Threshold =>
      if base.Some? && base.value.std > 0.0 then
        Clamp01((count as real - base.value.mean) / base.value.std / 6.0)
      else if threshold > 0.0 then Clamp01((count as real - threshold) / threshold)
      else 0.5
    case Other => 0.5
  }

  /** The score of (x - a) / w on the scale from a to a + w. */
  ghost predicate Scaled(c: real, x: real, a: real, w: real) {
    if x <= a then c == 0.0 else if x >= a + w then c == 1.0 else a + c * w == x
  }

  lemma ScaledIs(x: real, a: real, w: real)
    requires w > 0.0
    ensures Scaled(Clamp01((x - a) / w), x, a, w)
  {
    Product(x - a, w);
    ClampScaled((x - a) / w, x, a, w);
  }

  lemma ClampScaled(q: real, x: real, a: real, w: real)
    requires w > 0.0 && q * w == x - a
    ensures Scaled(Clamp01(q), x, a, w)
  {
    if q < 0.0 {
      Larger(q, 0.0, w);
    } else if q > 1.0 {
      Larger(1.0, q, w);
    } else {
      Within(q, w);
    }
  }

  lemma Product(d: real, w: real)
    requires w > 0.0
    ensures d / w * w == d
  {}

  lemma Within(q: real, w: real)
    requires 0.0 <= q <= 1.0 && w > 0.0
    ensures 0.0 <= q * w <= w && (q * w == 0.0 ==> q == 0.0) && (q * w == w ==> q == 1.0)
  {
    if q < 1.0 {
      Larger(q, 1.0, w);
    }
  }

  lemma Larger(a: real, b: real, w: real)
    requires a < b && w > 0.0
    ensures a * w < b * w
  {}

  /** A count over a baseline scores by its distance from the mean, full at six deviations; with
      no baseline by its excess over the threshold, full at twice the threshold. An anomaly brings
      its own score, an absence scores 0.7, anything else a half. */
  lemma ConfidenceMeans(kind: Kind, count: int, threshold: real, base: Option<Baseline>)
    ensures var c, based := Confidence(kind, count, threshold, base), base.Some? && base.value.std > 0.0;
            && (kind.Anomaly? ==> c == if threshold < 0.0 then 0.0 else if threshold > 1.0 then 1.0 else threshold)
            && (kind.Absence? ==> c == 0.7)
            && (kind.Threshold? && based ==> Scaled(c, count as real, base.value.mean, 6.0 * base.value.std))
            && (kind.Threshold? && !based && threshold > 0.0 ==> Scaled(c, count as real, threshold, threshold))
            && (kind.Other? || (kind.Threshold? && !based && threshold <= 0.0) ==> c == 0.5)
  {
    if kind.Threshold? {
      if base.Some? && base.value.std > 0.0 {
        var d, w := count as real - base.value.mean, base.value.std;
        TwoDivisions(d, w);
        ScaledIs(count as real, base.value.mean, 6.0 * w);
      } else if threshold > 0.0 {
        ScaledIs(count as real, threshold, threshold);
      }
    }
  }

  lemma TwoDivisions(d: real, w: real)
    requires w > 0.0
    ensures d / w / 6.0 == d / (6.0 * w)
  {
    var q := d / w / 6.0;
    assert q * (6.0 * w) == d;
  }

  datatype Level = Low | Medium | High | Critical

  function Severity(conf: real): Level {
    if conf >= 0.85 then Critical
    else if conf >= 0.6 then High
    else if conf >= 0.3 then Medium
    else Low
  }

  const MIN_SAMPLES := 5

  function CalibrationFactor(actionable: nat, noise: nat): (f: real)
    ensures 0.5 <= f <= 1.15
    ensures actionable + noise < MIN_SAMPLES ==> f == 1.0
    ensures actionable + noise >= MIN_SAMPLES ==> (f - 0.5) * (actionable + noise) as real == 0.65 * actionable as real
  {
    var total := actionable + noise;
    if total < MIN_SAMPLES then 1.0
    else
      var ratio := actionable as real / total as real;
      assert 0.0 <= ratio <= 1.0 by { RatioBounds(actionable, total); }
      0.5 + 0.65 * ratio
  }

  lemma RatioBounds(a: nat, n: nat)
    requires a <= n && n > 0
    ensures 0.0 <= a as real / n as real <= 1.0
  {}

  // ---------------------------------------------------------------- the table

  /** SHA-1 of tenant and service, taken as injective. */
  datatype Fingerprint = Fingerprint(tenant: string, service: string)

  datatype Incident = Incident(
    fp: Fingerprint, tenant: string, service: string, severity: Level, confidence: real,
    signals: nat, deploy: Option<string>, rules: seq<string>, open: bool, paged: bool)

  /** One call of `correlate`, with what its reads outside the table returned: the past
      verdicts on the service, the nearby deploy, and which open neighbour incident (if
      any) the lookup picked. */
  datatype Signal = Signal(
    tenant: string, service: string, rule: string, confidence: real,
    actionable: nat, noise: nat, deploy: Option<string>, proxy: Option<Fingerprint>)

  datatype Event = Fire(signal: Signal) | Resolve(tenant: string, service: string)

  /** The table, the pages delivered (by row), and which signal went to which row. */
  datatype State = State(rows: seq<Incident>, pages: seq<nat>, log: seq<(nat, Signal)>)

  /** Signals for a rule without a service are calibrated neutrally. */
  function Calibrated(g: Signal): (c: real)
    ensures 0.0 <= c <= 1.0
  {
    var factor := if g.service == "*" then 1.0 else CalibrationFactor(g.actionable, g.noise);
    Clamp01(g.confidence * factor)
  }

  /** How past verdicts weigh a signal: not at all for a rule without a service or below five
      verdicts, else a half and 0.65 times the actionable share. */
  ghost predicate Weighs(g: Signal, f: real) {
    var total := g.actionable + g.noise;
    if g.service == "*" || total < 5 then f == 1.0 else (f - 0.5) * total as real == 0.65 * g.actionable as real
  }

  /** A signal's score is its confidence times that weight, held between 0 and 1. */
  lemma CalibratedMeans(g: Signal, f: real)
    requires Weighs(g, f)
    ensures Calibrated(g) == var x := g.confidence * f; if x < 0.0 then 0.0 else if x > 1.0 then 1.0 else x
  {
    if g.service != "*" && g.actionable + g.noise >= 5 {
      SameFactor(f - 0.5, CalibrationFactor(g.actionable, g.noise) - 0.5, (g.actionable + g.noise) as real);
    }
  }

  lemma SameFactor(a: real, b: real, n: real)
    requires n > 0.0 && a * n == b * n
    ensures a == b
  {
    assert (a - b) * n == 0.0;
  }

  function Max(a: real, b: real): real { if a >= b then a else b }

  ghost predicate HasOpen(rows: seq<Incident>, fp: Fingerprint) {
    exists i :: 0 <= i < |rows| && rows[i].open && rows[i].fp == fp
  }

  /** The row the partial unique index finds: the open one with this fingerprint. */
  function OpenRow(rows: seq<Incident>, fp: Fingerprint): (r: Option<nat>)
    ensures r.Some? ==> r.value < |rows| && rows[r.value].open && rows[r.value].fp == fp
    ensures r.None? ==> forall i :: 0 <= i < |rows| && rows[i].open ==> rows[i].fp != fp
  {
    if rows == [] then None
    else
      var k := |rows| - 1;
      if rows[k].open && rows[k].fp == fp then Some(k) else OpenRow(rows[..k], fp)
  }

  function Target(g: Signal): Fingerprint {
    match g.proxy
    case Some(fp) => fp
    case None => Fingerprint(g.tenant, g.service)
  }

  function NewRow(g: Signal): Incident {
    var c := Calibrated(g);
    Incident(Target(g), g.tenant, g.service, Severity(c), c, 1, g.deploy, [g.rule], true, false)
  }

  function Merged(row: Incident, g: Signal): Incident {
    row.(signals := row.signals + 1,
         confidence := Max(row.confidence, Calibrated(g)),
         deploy := if row.deploy.Some? then row.deploy else g.deploy,
         rules := if g.rule in row.rules then row.rules else row.rules + [g.rule])
  }

  /** Row written by the upsert and the two updates after it. */
  function Settled(row: Incident, gate: real): Incident {
    row.(severity := Severity(row.confidence), paged := row.paged || row.confidence >= gate)
  }

  function Correlated(s: State, g: Signal, gate: real): State {
    var hit := OpenRow(s.rows, Target(g));
    var i := if hit.Some? then hit.value else |s.rows|;
    var row := if hit.Some? then Merged(s.rows[i], g) else NewRow(g);
    var rows := if hit.Some? then s.rows[i := Settled(row, gate)] else s.rows + [Settled(row, gate)];
    State(rows, if !row.paged && row.confidence >= gate then s.pages + [i] else s.pages, s.log + [(i, g)])
  }

  function Closed(rows: seq<Incident>, fp: Fingerprint): (r: seq<Incident>)
    ensures |r| == |rows|
    ensures forall i :: 0 <= i < |rows| ==>
      r[i] == if rows[i].open && rows[i].fp == fp then rows[i].(open := false) else rows[i]
  {
    seq(|rows|, i requires 0 <= i < |rows| =>
      if rows[i].open && rows[i].fp == fp then rows[i].(open := false) else rows[i])
  }

  function Step(s: State, ev: Event, gate: real): State {
    match ev
    case Fire(g) => Correlated(s, g, gate)
    case Resolve(t, svc) => s.(rows := Closed(s.rows, Fingerprint(t, svc)))
  }

  // ---------------------------------------------------------------- runs

  type Topo = string -> seq<Edge>

  /** What the neighbour lookup can return: nothing for `*`, otherwise some open incident of
      a neighbour whenever there is one. */
  ghost predicate LookupOk(s: State, g: Signal, topo: Topo) {
    match g.proxy
    case Some(fp) =>
      && g.service != "*" && fp.tenant == g.tenant
      && fp.service in NeighborSet(topo(g.tenant), g.service) && HasOpen(s.rows, fp)
    case None =>
      g.service == "*" ||
      forall n :: n in NeighborSet(topo(g.tenant), g.service) ==> !HasOpen(s.rows, Fingerprint(g.tenant, n))
  }

  ghost predicate Legal(s: State, ev: Event, topo: Topo) {
    ev.Fire? ==> LookupOk(s, ev.signal, topo)
  }

  const EMPTY := State([], [], [])

  function Run(evs: seq<Event>, gate: real): State {
    if evs == [] then EMPTY else Step(Run(evs[..|evs| - 1], gate), evs[|evs| - 1], gate)
  }

  /** Every step of the run is one the lookup allows in the state it was taken. */
  ghost predicate LegalRun(evs: seq<Event>, gate: real, topo: Topo) {
    forall k :: 0 <= k < |evs| ==> Legal(Run(evs[..k], gate), evs[k], topo)
  }

  /** `Derive` drops same-service spans, and no service is called `*`. */
  ghost predicate PlainTopo(topo: Topo) {
    forall t, e :: e in topo(t) ==> e.caller != e.callee && e.caller != "*" && e.callee != "*"
  }

  // ---------------------------------------------------------------- independence

  ghost predicate OwnFingerprint(s: State) {
    forall i :: 0 <= i < |s.rows| ==> s.rows[i].fp == Fingerprint(s.rows[i].tenant, s.rows[i].service)
  }

  /** At most one open incident per fingerprint. */
  ghost predicate OneOpen(s: State) {
    forall i, j :: 0 <= i < |s.rows| && 0 <= j < |s.rows| && s.rows[i].open && s.rows[j].open
      && s.rows[i].fp == s.rows[j].fp
      ==> i == j
  }

  /** No two open incidents of a tenant belong to neighbouring services. */
  ghost predicate Independent(s: State, topo: Topo) {
    forall i, j :: 0 <= i < |s.rows| && 0 <= j < |s.rows| && s.rows[i].open && s.rows[j].open
      && s.rows[i].tenant == s.rows[j].tenant
      ==> s.rows[j].service !in NeighborSet(topo(s.rows[i].tenant), s.rows[i].service)
  }

  ghost predicate TableInv(s: State, topo: Topo) {
    OwnFingerprint(s) && OneOpen(s) && Independent(s, topo)
  }

  /** A signal that opens a row: its service has no neighbour with an open incident. */
  lemma NewRowIndependent(s: State, g: Signal, topo: Topo, i: nat)
    requires PlainTopo(topo) && TableInv(s, topo) && LookupOk(s, g, topo) && OpenRow(s.rows, Target(g)).None?
    requires i < |s.rows| && s.rows[i].open && s.rows[i].tenant == g.tenant
    ensures g.proxy.None?
    ensures s.rows[i].service !in NeighborSet(topo(g.tenant), g.service)
    ensures g.service !in NeighborSet(topo(g.tenant), s.rows[i].service)
  {
    var t := s.rows[i].service;
    NeighborsSymmetric(topo(g.tenant), g.service, t);
    if g.service == "*" {
      NeighborSetIs(topo(g.tenant), "*", t);
    } else if t in NeighborSet(topo(g.tenant), g.service) {
      assert s.rows[i].fp == Fingerprint(g.tenant, t);
      assert HasOpen(s.rows, Fingerprint(g.tenant, t));
    }
  }

  lemma NoSelfNeighbor(topo: Topo, t: string, s: string)
    requires PlainTopo(topo)
    ensures s !in NeighborSet(topo(t), s)
  {
    NeighborSetIs(topo(t), s, s);
  }

  lemma OpensKeepsTable(s: State, g: Signal, gate: real, topo: Topo)
    requires PlainTopo(topo) && TableInv(s, topo) && LookupOk(s, g, topo) && OpenRow(s.rows, Target(g)).None?
    ensures TableInv(Correlated(s, g, gate), topo)
  {
    var s' := Correlated(s, g, gate);
    var n := |s.rows|;
    assert forall i :: 0 <= i < n ==> s'.rows[i] == s.rows[i];
    var row := s'.rows[n];
    assert g.proxy.None?;
    assert row.fp == Fingerprint(g.tenant, g.service);
    NoSelfNeighbor(topo, g.tenant, g.service);
    forall i | 0 <= i < n && s.rows[i].open && s.rows[i].tenant == g.tenant
      ensures s.rows[i].service !in NeighborSet(topo(g.tenant), g.service)
      ensures g.service !in NeighborSet(topo(g.tenant), s.rows[i].service)
    {
      NewRowIndependent(s, g, topo, i);
    }
  }

  lemma MergeKeepsTable(s: State, g: Signal, gate: real, topo: Topo)
    requires TableInv(s, topo) && OpenRow(s.rows, Target(g)).Some?
    ensures TableInv(Correlated(s, g, gate), topo)
  {
    var s' := Correlated(s, g, gate);
    assert forall i :: 0 <= i < |s.rows| ==>
      s'.rows[i].open == s.rows[i].open && s'.rows[i].fp == s.rows[i].fp
      && s'.rows[i].tenant == s.rows[i].tenant && s'.rows[i].service == s.rows[i].service;
  }

  lemma StepKeepsTable(s: State, ev: Event, gate: real, topo: Topo)
    requires PlainTopo(topo) && TableInv(s, topo) && Legal(s, ev, topo)
    ensures TableInv(Step(s, ev, gate), topo)
  {
    match ev
    case Fire(g) =>
      if OpenRow(s.rows, Target(g)).Some? {
        MergeKeepsTable(s, g, gate, topo);
      } else {
        OpensKeepsTable(s, g, gate, topo);
      }
    case Resolve(t, svc) =>
  }

  /** In every reachable state the services with open incidents form an independent set of
      the dependency graph, and each fingerprint has at most one open incident. */
  lemma {:induction false} OpenIncidentsIndependent(evs: seq<Event>, gate: real, topo: Topo)
    requires PlainTopo(topo) && LegalRun(evs, gate, topo)
    ensures TableInv(Run(evs, gate), topo)
  {
    if evs != [] {
      var k := |evs| - 1;
      var init := evs[..k];
      assert forall i :: 0 <= i < k ==> init[..i] == evs[..i];
      OpenIncidentsIndependent(init, gate, topo);
      assert Legal(Run(evs[..k], gate), evs[k], topo);
      StepKeepsTable(Run(init, gate), evs[k], gate, topo);
    }
  }
}
