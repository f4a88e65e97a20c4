/** What the table records of the signals merged into it, over every run. */
module AlertingBooks {
  import opened Text
  import opened Alerting

  type Log = seq<(nat, Signal)>

  function SignalCount(log: Log, i: nat): nat {
    if log == [] then 0
    else SignalCount(log[..|log| - 1], i) + if log[|log| - 1].0 == i then 1 else 0
  }

  /** Largest calibrated score merged into row i, 0 when there is none. */
  function Score(log: Log, i: nat): (r: real)
    ensures r >= 0.0
  {
    if log == [] then 0.0
    else
      var (j, g) := log[|log| - 1];
      var rest := Score(log[..|log| - 1], i);
      if j == i then Max(rest, Calibrated(g)) else rest
  }

  /** Rules of row i in order of first appearance. */
  function RulesOf(log: Log, i: nat): seq<string> {
    if log == [] then []
    else
      var (j, g) := log[|log| - 1];
      var rest := RulesOf(log[..|log| - 1], i);
      if j != i || g.rule in rest then rest else rest + [g.rule]
  }

  ghost predicate NoDup<T>(s: seq<T>) {
    forall i, j :: 0 <= i < j < |s| ==> s[i] != s[j]
  }

  /** The score is an upper bound of the merged scores and one of them. */
  lemma {:induction false} ScoreIsMax(log: Log, i: nat)
    ensures forall k :: 0 <= k < |log| && log[k].0 == i ==> Calibrated(log[k].1) <= Score(log, i)
    ensures SignalCount(log, i) > 0 ==> exists k :: 0 <= k < |log| && log[k].0 == i && Calibrated(log[k].1) == Score(log, i)
    ensures SignalCount(log, i) == 0 ==> Score(log, i) == 0.0
  {
    if log != [] {
      var n := |log| - 1;
      var init := log[..n];
      ScoreIsMax(init, i);
      if log[n].0 == i && Calibrated(log[n].1) >= Score(init, i) {
        assert log[n].0 == i && Calibrated(log[n].1) == Score(log, i);
      } else if SignalCount(init, i) > 0 {
        var k :| 0 <= k < |init| && init[k].0 == i && Calibrated(init[k].1) == Score(init, i);
        assert log[k].0 == i && Calibrated(log[k].1) == Score(log, i);
      }
    }
  }

  lemma {:induction false} RulesAreDistinct(log: Log, i: nat)
    ensures NoDup(RulesOf(log, i))
    ensures forall r :: r in RulesOf(log, i) <==> exists k :: 0 <= k < |log| && log[k].0 == i && log[k].1.rule == r
  {
    if log != [] {
      var n := |log| - 1;
      var init := log[..n];
      RulesAreDistinct(init, i);
      forall r ensures r in RulesOf(log, i) <==> exists k :: 0 <= k < |log| && log[k].0 == i && log[k].1.rule == r {
        if r in RulesOf(init, i) {
          var k :| 0 <= k < |init| && init[k].0 == i && init[k].1.rule == r;
          assert log[k].0 == i && log[k].1.rule == r;
        }
        if k :| 0 <= k < |log| && log[k].0 == i && log[k].1.rule == r {
          if k < n { assert init[k].0 == i && init[k].1.rule == r; }
        }
      }
    }
  }

  // ---------------------------------------------------------------- the books

  /** The label of a score. */
  ghost predicate Labels(l: Level, c: real) {
    && (l.Critical? <==> c >= 0.85) && (l.High? <==> 0.6 <= c < 0.85)
    && (l.Medium? <==> 0.3 <= c < 0.6) && (l.Low? <==> c < 0.3)
  }

  /** The deploy of the first signal of row i that has one. */
  ghost predicate FirstDeploy(log: Log, i: nat, d: Option<string>) {
    match d
    case None => forall k :: 0 <= k < |log| && log[k].0 == i ==> log[k].1.deploy.None?
    case Some(_) => exists k :: 0 <= k < |log| && IsFirstDeploy(log, i, k) && log[k].1.deploy == d
  }

  ghost predicate IsFirstDeploy(log: Log, i: nat, k: nat)
    requires k < |log|
  {
    && log[k].0 == i && log[k].1.deploy.Some?
    && forall j :: 0 <= j < k && log[j].0 == i ==> log[j].1.deploy.None?
  }

  lemma DeployGrows(log: Log, x: (nat, Signal), i: nat, d: Option<string>)
    requires FirstDeploy(log, i, d)
    ensures FirstDeploy(log + [x], i, if x.0 != i || d.Some? then d else x.1.deploy)
  {
    var log' := log + [x];
    if d.Some? {
      var k :| 0 <= k < |log| && IsFirstDeploy(log, i, k) && log[k].1.deploy == d;
      assert IsFirstDeploy(log', i, k) && log'[k].1.deploy == d;
    } else if x.0 == i && x.1.deploy.Some? {
      assert IsFirstDeploy(log', i, |log|) && log'[|log|].1.deploy == x.1.deploy;
    }
  }

  /** Row i says exactly what the log says of it. */
  ghost predicate RowBook(s: State, gate: real, i: nat)
    requires i < |s.rows|
  {
    var row := s.rows[i];
    && row.signals == SignalCount(s.log, i) && row.signals > 0
    && row.confidence == Score(s.log, i)
    && row.rules == RulesOf(s.log, i)
    && Labels(row.severity, row.confidence)
    && FirstDeploy(s.log, i, row.deploy)
    && (row.paged <==> row.confidence >= gate)
    && multiset(s.pages)[i] == (if row.paged then 1 else 0)
  }

  ghost predicate Books(s: State, gate: real) {
    && (forall i :: 0 <= i < |s.rows| ==> RowBook(s, gate, i))
    && (forall k :: 0 <= k < |s.log| ==> s.log[k].0 < |s.rows|)
    && (forall k :: 0 <= k < |s.pages| ==> s.pages[k] < |s.rows|)
    && TotalSignals(s.rows) == |s.log|
  }

  function TotalSignals(rows: seq<Incident>): nat {
    if rows == [] then 0 else TotalSignals(rows[..|rows| - 1]) + rows[|rows| - 1].signals
  }

  lemma {:induction false} TotalUpdate(rows: seq<Incident>, i: nat, row: Incident)
    requires i < |rows|
    ensures TotalSignals(rows[i := row]) == TotalSignals(rows) - rows[i].signals + row.signals
  {
    var k := |rows| - 1;
    if i == k {
      assert rows[i := row][..k] == rows[..k];
    } else {
      TotalUpdate(rows[..k], i, row);
      assert rows[i := row][..k] == rows[..k][i := row];
    }
  }

  lemma {:induction false} Unlogged(log: Log, i: nat)
    requires forall k :: 0 <= k < |log| ==> log[k].0 < i
    ensures SignalCount(log, i) == 0 && Score(log, i) == 0.0 && RulesOf(log, i) == []
  {
    if log != [] {
      Unlogged(log[..|log| - 1], i);
    }
  }

  lemma LogGrows(log: Log, x: (nat, Signal), i: nat)
    ensures SignalCount(log + [x], i) == SignalCount(log, i) + if x.0 == i then 1 else 0
    ensures Score(log + [x], i) == if x.0 == i then Max(Score(log, i), Calibrated(x.1)) else Score(log, i)
    ensures RulesOf(log + [x], i) ==
      if x.0 != i || x.1.rule in RulesOf(log, i) then RulesOf(log, i) else RulesOf(log, i) + [x.1.rule]
  {
    assert (log + [x])[..|log|] == log;
  }

  lemma PagesGrow(pages: seq<nat>, i: nat, j: nat)
    ensures multiset(pages + [i])[j] == multiset(pages)[j] + if i == j then 1 else 0
  {}

  lemma {:induction false} NotPaged(pages: seq<nat>, n: nat)
    requires forall k :: 0 <= k < |pages| ==> pages[k] < n
    ensures multiset(pages)[n] == 0
  {
    assert n in multiset(pages) <==> n in pages;
  }

  lemma MergeKeepsBooks(s: State, g: Signal, gate: real, j: nat)
    requires Books(s, gate) && OpenRow(s.rows, Target(g)).Some? && j < |s.rows|
    ensures RowBook(Correlated(s, g, gate), gate, j)
  {
    var i := OpenRow(s.rows, Target(g)).value;
    assert RowBook(s, gate, j) && RowBook(s, gate, i);
    LogGrows(s.log, (i, g), j);
    DeployGrows(s.log, (i, g), j, s.rows[j].deploy);
    PagesGrow(s.pages, i, j);
  }

  lemma OpenKeepsBooks(s: State, g: Signal, gate: real, j: nat)
    requires Books(s, gate) && OpenRow(s.rows, Target(g)).None? && j <= |s.rows|
    ensures RowBook(Correlated(s, g, gate), gate, j)
  {
    var n := |s.rows|;
    LogGrows(s.log, (n, g), j);
    PagesGrow(s.pages, n, j);
    if j < n {
      assert RowBook(s, gate, j);
      DeployGrows(s.log, (n, g), j, s.rows[j].deploy);
    } else {
      Unlogged(s.log, n);
      DeployGrows(s.log, (n, g), n, None);
      NotPaged(s.pages, n);
    }
  }

  lemma CorrelateKeepsBooks(s: State, g: Signal, gate: real)
    requires Books(s, gate)
    ensures Books(Correlated(s, g, gate), gate)
  {
    var s' := Correlated(s, g, gate);
    var hit := OpenRow(s.rows, Target(g));
    forall j | 0 <= j < |s'.rows| ensures RowBook(s', gate, j) {
      if hit.Some? { MergeKeepsBooks(s, g, gate, j); } else { OpenKeepsBooks(s, g, gate, j); }
    }
    if hit.Some? {
      TotalUpdate(s.rows, hit.value, s'.rows[hit.value]);
    } else {
      assert s'.rows[..|s.rows|] == s.rows;
    }
  }

  lemma {:induction false} TotalClosed(rows: seq<Incident>, fp: Fingerprint)
    ensures TotalSignals(Alerting.Closed(rows, fp)) == TotalSignals(rows)
  {
    if rows != [] {
      var k := |rows| - 1;
      TotalClosed(rows[..k], fp);
      assert Alerting.Closed(rows, fp)[..k] == Alerting.Closed(rows[..k], fp);
    }
  }

  lemma ResolveKeepsBooks(s: State, fp: Fingerprint, gate: real)
    requires Books(s, gate)
    ensures Books(s.(rows := Alerting.Closed(s.rows, fp)), gate)
  {
    var s' := s.(rows := Alerting.Closed(s.rows, fp));
    forall i | 0 <= i < |s'.rows| ensures RowBook(s', gate, i) {
      assert RowBook(s, gate, i);
    }
    TotalClosed(s.rows, fp);
  }

  function Fires(evs: seq<Event>): nat {
    if evs == [] then 0 else Fires(evs[..|evs| - 1]) + if evs[|evs| - 1].Fire? then 1 else 0
  }

  /** Over any run, whatever the lookups returned: each incident's signal count, rule list,
      confidence and severity are those of the signals merged into it; it is paged iff its
      confidence has reached the gate, with exactly one page; and the signal counts add up
      to the number of correlate calls. */
  lemma {:induction false} BooksBalance(evs: seq<Event>, gate: real)
    ensures var s := Run(evs, gate); Books(s, gate) && TotalSignals(s.rows) == |s.log| == Fires(evs)
  {
    if evs != [] {
      var k := |evs| - 1;
      BooksBalance(evs[..k], gate);
      var s := Run(evs[..k], gate);
      match evs[k]
      case Fire(g) => CorrelateKeepsBooks(s, g, gate);
      case Resolve(t, svc) => ResolveKeepsBooks(s, Fingerprint(t, svc), gate);
    }
  }

  // ---------------------------------------------------------------- severity

  function Rank(l: Level): nat { match l case Low => 0 case Medium => 1 case High => 2 case Critical => 3 }

  /** What a row may become: its score and severity never fall, a page is never taken back. */
  ghost predicate Rises(a: Incident, b: Incident) {
    a.fp == b.fp && a.confidence <= b.confidence && Rank(a.severity) <= Rank(b.severity) && (a.paged ==> b.paged)
    && (b.open ==> a.open)
  }

  lemma StepRises(s: State, ev: Event, gate: real, i: nat)
    requires Books(s, gate) && i < |s.rows|
    ensures i < |Step(s, ev, gate).rows| && Rises(s.rows[i], Step(s, ev, gate).rows[i])
  {
    assert RowBook(s, gate, i);
  }

  /** However a run goes on, the incidents it had stay, and their severity never falls. */
  lemma {:induction false} SeverityNeverFalls(evs: seq<Event>, more: seq<Event>, gate: real, i: nat)
    requires i < |Run(evs, gate).rows|
    ensures i < |Run(evs + more, gate).rows| && Rises(Run(evs, gate).rows[i], Run(evs + more, gate).rows[i])
    decreases |more|
  {
    if more == [] {
      assert evs + more == evs;
    } else {
      var init := more[..|more| - 1];
      assert (evs + more)[..|evs + more| - 1] == evs + init;
      SeverityNeverFalls(evs, init, gate, i);
      BooksBalance(evs + init, gate);
      StepRises(Run(evs + init, gate), more[|more| - 1], gate, i);
    }
  }

  /** Under the default gate an incident is paged, once, iff it is high or critical. */
  lemma PagedIffHigh(evs: seq<Event>, i: nat)
    requires i < |Run(evs, DEFAULT_GATE).rows|
    ensures var s := Run(evs, DEFAULT_GATE);
            && (s.rows[i].paged <==> s.rows[i].severity.High? || s.rows[i].severity.Critical?)
            && multiset(s.pages)[i] == if s.rows[i].confidence >= 0.6 then 1 else 0
  {
    BooksBalance(evs, DEFAULT_GATE);
    assert RowBook(Run(evs, DEFAULT_GATE), DEFAULT_GATE, i);
  }

  // ---------------------------------------------------------------- noisy services

  const DEFAULT_GATE := 0.6

  /** At least five verdicts on the service and none of them actionable. */
  predicate Noisy(g: Signal) { g.service != "*" && g.actionable == 0 && g.noise >= MIN_SAMPLES && g.confidence <= 1.0 }

  /** Scores are products of confidence and factor, so a noisy one stays at or below a half. */
  lemma NoisyScore(g: Signal)
    requires Noisy(g)
    ensures Calibrated(g) <= 0.5
  {}

  /** A noisy signal never pages and never lifts any incident over the default gate. */
  lemma NoiseNeverPages(s: State, g: Signal)
    requires Books(s, DEFAULT_GATE) && Noisy(g)
    ensures var s' := Correlated(s, g, DEFAULT_GATE);
            && s'.pages == s.pages
            && (forall i :: 0 <= i < |s.rows| ==>
                 (s'.rows[i].confidence >= DEFAULT_GATE <==> s.rows[i].confidence >= DEFAULT_GATE))
            && (|s'.rows| > |s.rows| ==> !s'.rows[|s.rows|].paged)
  {
    NoisyScore(g);
    var hit := OpenRow(s.rows, Target(g));
    if hit.Some? {
      assert RowBook(s, DEFAULT_GATE, hit.value);
    }
  }

  /** Over any run: an incident fed by noisy signals only is never paged. */
  lemma NoisyIncidentUnpaged(evs: seq<Event>, i: nat)
    requires i < |Run(evs, DEFAULT_GATE).rows|
    requires forall k :: 0 <= k < |Run(evs, DEFAULT_GATE).log| && Run(evs, DEFAULT_GATE).log[k].0 == i
                     ==> Noisy(Run(evs, DEFAULT_GATE).log[k].1)
    ensures !Run(evs, DEFAULT_GATE).rows[i].paged && i !in Run(evs, DEFAULT_GATE).pages
  {
    BooksBalance(evs, DEFAULT_GATE);
    var s := Run(evs, DEFAULT_GATE);
    assert RowBook(s, DEFAULT_GATE, i);
    ScoreIsMax(s.log, i);
    var k :| 0 <= k < |s.log| && s.log[k].0 == i && Calibrated(s.log[k].1) == Score(s.log, i);
    NoisyScore(s.log[k].1);
    assert i in multiset(s.pages) <==> i in s.pages;
  }
}
