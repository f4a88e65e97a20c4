/**
  The Loki read-query translator (domains/grafana/loki.go), from the parsed matcher
  list on. It prints LogQL++ text that the query engine has to read back.
 */
module Loki {
  import opened Text
  import opened Ast
  import opened Sql

  const LABELS := {"service", "level", "environment", "trace_id", "span_id", "ingested_by"}

  datatype Matcher = Matcher(name: string, op: string, value: string)

  /** `nowNs == 0` means the wall clock, passed in as `clock`. */
  datatype Query = Query(
    matchers: seq<Matcher>, startNs: int, endNs: int, limit: int, forward: bool, nowNs: int)

  datatype Options = Options(defaultLimit: int, maxLimit: int)

  datatype Translated = Translated(logql: string, labels: map<string, string>)

  const HOUR := 3600 * NANOS

  // ---------------------------------------------------------------- times

  function NowOf(q: Query, clock: int): int { if q.nowNs == 0 then clock else q.nowNs }

  function EndOf(q: Query, clock: int): int { if q.endNs == 0 then NowOf(q, clock) else q.endNs }

  function StartOf(q: Query, clock: int): int {
    if q.startNs == 0 then WrapInt64(EndOf(q, clock) - HOUR) else q.startNs
  }

  /** Whole seconds before `now`, 0 for now or later; rounded up at the older edge. */
  function Offset(now: int, ts: int, roundUp: bool): (s: nat)
    ensures s < TWO63
  {
    var diff := WrapInt64(now - ts);
    if diff <= 0 then 0
    else if roundUp && diff % NANOS != 0 then diff / NANOS + 1
    else diff / NANOS
  }

  function RelTime(now: int, ts: int, roundUp: bool): string {
    var s := Offset(now, ts, roundUp);
    if s == 0 then "now()" else "now() - " + Decimal(s) + "s"
  }

  /** The rounding is directed: the printed window contains the asked one and is wider by
      less than a second on each side. */
  lemma WindowIsTight(now: int, start: int, end: int)
    requires start <= end <= now < start + TWO63
    ensures var lo, hi := now - Offset(now, start, true) * NANOS, now - Offset(now, end, false) * NANOS;
            start - NANOS < lo <= start && end <= hi < end + NANOS
  {
    assert WrapInt64(now - start) == now - start && WrapInt64(now - end) == now - end;
  }

  /** The window a query asks for: now is the wall clock unless given, the end is now unless given,
      the start an hour before the end unless given. */
  predicate Asks(q: Query, clock: int, now: int, start: int, end: int) {
    && now == (if q.nowNs != 0 then q.nowNs else clock) && end == (if q.endNs != 0 then q.endNs else now)
    && start == if q.startNs != 0 then q.startNs else end - 3_600_000_000_000
  }

  // ---------------------------------------------------------------- translation

  predicate Translatable(m: Matcher) {
    Lower(m.name) in LABELS && (m.op == "=" || m.op == "!=")
  }

  function MatcherText(m: Matcher): string { Lower(m.name) + " " + m.op + " " + Quote(m.value) }

  function MatcherTexts(ms: seq<Matcher>): seq<string> {
    seq(|ms|, i requires 0 <= i < |ms| => MatcherText(ms[i]))
  }

  function LabelMap(ms: seq<Matcher>): map<string, string> {
    if ms == [] then map[]
    else
      var m := ms[|ms| - 1];
      var rest := LabelMap(ms[..|ms| - 1]);
      if m.op == "=" then rest[Lower(m.name) := m.value] else rest
  }

  /** The equality matcher that comes last for a label decides its value; a label without one has
      none. */
  lemma {:induction false} LabelsAre(ms: seq<Matcher>, name: string, value: string)
    ensures name in LabelMap(ms) && LabelMap(ms)[name] == value
       <==> exists k :: 0 <= k < |ms| && Decides(ms, name, k) && ms[k].value == value
  {
    if ms != [] {
      var n := |ms| - 1;
      LabelsAre(ms[..n], name, value);
      if Lower(ms[n].name) == name && ms[n].op == "=" {
        assert Decides(ms, name, n);
      }
      forall k | 0 <= k < n ensures Decides(ms, name, k) <==>
        Decides(ms[..n], name, k) && !(Lower(ms[n].name) == name && ms[n].op == "=")
      {}
    }
  }

  ghost predicate Decides(ms: seq<Matcher>, name: string, k: nat)
    requires k < |ms|
  {
    && Lower(ms[k].name) == name && ms[k].op == "="
    && forall j :: k < j < |ms| ==> !(Lower(ms[j].name) == name && ms[j].op == "=")
  }

  function Predicates(q: Query, clock: int): seq<string> {
    MatcherTexts(q.matchers)
      + ["time >= " + RelTime(NowOf(q, clock), StartOf(q, clock), true)]
      + ["time <= " + RelTime(NowOf(q, clock), EndOf(q, clock), false)]
  }

  function LimitOf(q: Query, opts: Options): int {
    var l := if q.limit <= 0 then opts.defaultLimit else q.limit;
    if opts.maxLimit > 0 && l > opts.maxLimit then opts.maxLimit else l
  }

  const COLS := ["timestamp", "service", "level", "environment", "message", "trace_id", "span_id"]

  /** The fixed projection. */
  function SelectCols(): string { Join(COLS, ", ") }

  function Statement(preds: seq<string>, dir: string, limit: int): string {
    "SELECT " + SelectCols() + " FROM logs WHERE " + Join(preds, " AND ") + " ORDER BY timestamp " + dir
      + " LIMIT " + SignedDecimal(limit)
  }

  function TranslateText(q: Query, opts: Options, clock: int): string {
    Statement(Predicates(q, clock), if q.forward then "ASC" else "DESC", LimitOf(q, opts))
  }

  predicate AllTranslatable(ms: seq<Matcher>) { forall m :: m in ms ==> Translatable(m) }

  predicate Accepts(q: Query, clock: int) { StartOf(q, clock) <= EndOf(q, clock) && AllTranslatable(q.matchers) }

  /** The loop over the matchers: refuses exactly the lists with an unknown label or an
      operator other than = and !=. */
  method MatcherLoop(ms: seq<Matcher>) returns (r: Result<(seq<string>, map<string, string>)>)
    ensures r == if AllTranslatable(ms) then Ok((MatcherTexts(ms), LabelMap(ms))) else Err
  {
    var preds: seq<string> := [];
    var labels: map<string, string> := map[];
    for i := 0 to |ms|
      invariant preds == MatcherTexts(ms)[..i]
      invariant labels == LabelMap(ms[..i])
      invariant forall m :: m in ms[..i] ==> Translatable(m)
    {
      var m := ms[i];
      var col := Lower(m.name);
      assert m in ms;
      assert ms[..i + 1] == ms[..i] + [m];
      if col !in LABELS {
        return Err;
      }
      if m.op == "=" {
        preds := preds + [col + " = " + Quote(m.value)];
        labels := labels[col := m.value];
        assert col + " = " == col + " " + m.op + " ";
      } else if m.op == "!=" {
        preds := preds + [col + " != " + Quote(m.value)];
        assert col + " != " == col + " " + m.op + " ";
      } else {
        return Err;
      }
    }
    assert ms[..|ms|] == ms && MatcherTexts(ms)[..|ms|] == MatcherTexts(ms);
    return Ok((preds, labels));
  }

  method EffectiveLimit(q: Query, opts: Options) returns (limit: int)
    ensures limit == LimitOf(q, opts)
  {
    limit := q.limit;
    if limit <= 0 {
      limit := opts.defaultLimit;
    }
    if opts.maxLimit > 0 && limit > opts.maxLimit {
      limit := opts.maxLimit;
    }
  }

  method Translate(q: Query, opts: Options, clock: int) returns (r: Result<Translated>)
    ensures r == if Accepts(q, clock) then Ok(Translated(TranslateText(q, opts, clock), LabelMap(q.matchers))) else Err
  {
    var now := if q.nowNs == 0 then clock else q.nowNs;
    var end := if q.endNs == 0 then now else q.endNs;
    var start := if q.startNs == 0 then WrapInt64(end - HOUR) else q.startNs;
    if start > end {
      return Err;
    }
    var loop := MatcherLoop(q.matchers);
    if loop.Err? {
      return Err;
    }
    var (preds, labels) := loop.value;
    preds := preds + ["time >= " + RelTime(now, start, true)];
    preds := preds + ["time <= " + RelTime(now, end, false)];
    assert preds == Predicates(q, clock);
    var limit := EffectiveLimit(q, opts);
    return Ok(Translated(Statement(preds, if q.forward then "ASC" else "DESC", limit), labels));
  }
}
