/**
  The LogQL++ to ClickHouse SQL compiler (domains/query/compile.go), emitting text.
 */
module Compile {
  import opened Text
  import opened Ast

  datatype Options = Options(defaultLimit: int, maxLimit: int)

  datatype Compiled = Compiled(sql: string, columns: seq<string>, kind: Kind)

  /** A compiled statement, a refusal, or the refusal reserved for TAIL. */
  datatype Outcome = Success(compiled: Compiled) | Refused | TailOnly

  const LEVELS := ["trace", "debug", "info", "warn", "error", "fatal"]

  /** The array literal of the severity order, ['trace','debug',...]. */
  function LevelArray(): string { "[" + Join(Quotes(LEVELS), ",") + "]" }

  const LOGS_COLUMNS := {
    "id", "timestamp", "received_at", "tenant_id", "service", "environment",
    "level", "message", "trace_id", "span_id", "user_linkage_key", "ingested_by",
    "_retention_days", "body", "resource", "pii_detected",
    "git_sha", "deploy_id", "pr_number", "k8s_namespace", "k8s_pod", "k8s_node"}

  const AUTH_COLUMNS := {
    "id", "timestamp", "received_at", "tenant_id", "event_type", "auth_method",
    "user_id", "session_id", "error_code", "attempt_number", "mfa_required", "mfa_passed",
    "ip_country", "ip_asn", "device_new", "risk_score", "user_linkage_key", "_retention_days"}

  const METRICS_COLUMNS := {
    "id", "timestamp", "start_timestamp", "received_at", "tenant_id", "service",
    "environment", "metric_name", "metric_type", "unit", "description", "temporality", "is_monotonic",
    "value", "count", "sum", "min", "max", "bucket_counts", "explicit_bounds", "scale", "zero_count",
    "positive_offset", "positive_buckets", "negative_offset", "negative_buckets", "attributes",
    "resource", "_retention_days"}

  const TRACES_COLUMNS := {
    "id", "timestamp", "received_at", "tenant_id", "service", "environment",
    "trace_id", "span_id", "parent_span_id", "name", "kind", "start_time", "end_time", "duration_ns",
    "status_code", "status_message", "attributes", "resource", "scope_name", "scope_version",
    "trace_state", "_retention_days",
    "git_sha", "deploy_id", "pr_number", "k8s_namespace", "k8s_pod", "k8s_node"}

  const CHANGE_COLUMNS := {
    "id", "timestamp", "received_at", "tenant_id", "service", "environment",
    "kind", "title", "git_sha", "deploy_id", "pr_number", "flag_key", "config_diff", "author",
    "metadata", "_retention_days"}

  const TABLES := {"logs", "auth_events", "metrics", "traces", "change_events"}

  function Columns(table: string): set<string> {
    if table == "auth_events" then AUTH_COLUMNS
    else if table == "metrics" then METRICS_COLUMNS
    else if table == "traces" then TRACES_COLUMNS
    else if table == "change_events" then CHANGE_COLUMNS
    else LOGS_COLUMNS
  }

  predicate IsOrdering(op: string) { op in {"<", ">", "<=", ">="} }

  predicate IsTenantField(f: Field) {
    |f| == 1 && (Lower(f[0]) == "tenant" || Lower(f[0]) == "tenant_id")
  }

  // ---------------------------------------------------------------- fields and values

  function Quotes(keys: seq<string>): seq<string> {
    seq(|keys|, i requires 0 <= i < |keys| => Quote(keys[i]))
  }

  function JsonExtract(column: string, keys: seq<string>): string {
    "JSONExtractString(" + column + ", " + Join(Quotes(keys), ", ") + ")"
  }

  /** The ClickHouse expression of a field, and whether it is the `level` column. */
  function MapField(table: string, f: Field): Result<(string, bool)>
  {
    var head := Lower(f[0]);
    if |f| == 1 then
      if head == "time" then Ok(("timestamp", false))
      else if head == "tenant" then Ok(("tenant_id", false))
      else if head in Columns(table) then Ok((head, head == "level"))
      else Err
    else if head == "body" then
      if table == "logs" then Ok((JsonExtract("body", f[1..]), false)) else Err
    else if head == "resource" then
      if table == "auth_events" then Err else Ok((JsonExtract("resource", f[1..]), false))
    else if head == "attr" || head == "attribute" || head == "attributes" then
      if table == "traces" then Ok((JsonExtract("attributes", f[1..]), false))
      else if table == "metrics" && |f| == 2 then Ok(("attributes[" + Quote(f[1]) + "]", false))
      else Err
    else if head == "auth" then
      if table == "auth_events" && |f| == 2 && Lower(f[1]) in AUTH_COLUMNS
      then Ok((Lower(f[1]), false)) else Err
    else Err
  }

  function CompileValue(v: Value): string {
    match v
    case ValString(s) => Quote(s)
    case ValNumber(n) => n
    case ValTime(n, sub) =>
      if n == 0 then "now()"
      else "now() " + (if sub then "-" else "+") + " INTERVAL " + SignedDecimal(n) + " SECOND"
  }

  // ---------------------------------------------------------------- conditions

  function CompileComparison(table: string, tenant: string, f: Field, op: string, v: Value): Result<string>
  {
    if IsTenantField(f) then Ok("tenant_id = " + Quote(tenant))
    else
      match MapField(table, f)
      case Err => Err
      case Ok((lhs, isLevel)) =>
        if isLevel && v.ValString? && IsOrdering(op) then
          Ok("indexOf(" + LevelArray() + ", " + lhs + ") " + op + " indexOf(" + LevelArray() + ", " + Quote(v.str) + ")")
        else Ok(lhs + " " + op + " " + CompileValue(v))
  }

  function OpText(op: BoolOp): string { if op.AND? then "AND" else "OR" }

  function CompileExpr(table: string, tenant: string, e: Expr): Result<string>
  {
    match e
    case Paren(i) => (
      match CompileExpr(table, tenant, i)
      case Err => Err
      case Ok(s) => Ok("(" + s + ")"))
    case Binary(op, l, r) => (
      match CompileExpr(table, tenant, l)
      case Err => Err
      case Ok(a) => match CompileExpr(table, tenant, r)
        case Err => Err
        case Ok(b) => Ok("(" + a + " " + OpText(op) + " " + b + ")"))
    case Comparison(f, op, v) => CompileComparison(table, tenant, f, op, v)
  }

  // ---------------------------------------------------------------- full-text search

  predicate IsAlnum(c: char) { 'a' <= c <= 'z' || 'A' <= c <= 'Z' || '0' <= c <= '9' }

  predicate AllAlnum(s: string) { forall i :: 0 <= i < |s| ==> IsAlnum(s[i]) }

  function AlnumLen(s: string): (n: nat)
    ensures n <= |s| && AllAlnum(s[..n])
    ensures n < |s| ==> !IsAlnum(s[n])
  {
    if s != "" && IsAlnum(s[0]) then 1 + AlnumLen(s[1..]) else 0
  }

  /** The maximal alphanumeric runs of a phrase, in order. */
  function Runs(s: string): (r: seq<string>)
    ensures forall t :: t in r ==> t != "" && AllAlnum(t)
    decreases |s|
  {
    if s == "" then []
    else if !IsAlnum(s[0]) then Runs(s[1..])
    else var n := AlnumLen(s); [s[..n]] + Runs(s[n..])
  }

  function Probe(t: string): string { "hasTokenCaseInsensitive(message, " + Quote(t) + ")" }

  function Probes(ts: seq<string>): seq<string> {
    seq(|ts|, i requires 0 <= i < |ts| => Probe(ts[i]))
  }

  lemma {:induction false} AlnumSpan(cur: string, rest: string)
    requires AllAlnum(cur) && (rest == "" || !IsAlnum(rest[0]))
    ensures AlnumLen(cur + rest) == |cur|
  {
    if cur == "" {
      assert cur + rest == rest;
    } else {
      AlnumSpan(cur[1..], rest);
      assert (cur + rest)[1..] == cur[1..] + rest;
    }
  }

  /** Ending a run at a separator or at the end of the phrase. */
  lemma RunEnds(cur: string, rest: string)
    requires AllAlnum(cur) && (rest == "" || !IsAlnum(rest[0]))
    ensures Runs(cur + rest) == (if cur == "" then [] else [cur]) + Runs(rest)
  {
    if cur == "" {
      assert cur + rest == rest;
    } else {
      AlnumSpan(cur, rest);
      assert (cur + rest)[..|cur|] == cur && (cur + rest)[|cur|..] == rest;
    }
  }

  /** The tokenising loop of `searchPredicate`. */
  method SearchTokens(phrase: string) returns (toks: seq<string>)
    ensures toks == Runs(phrase)
  {
    toks := [];
    var cur: string := "";
    assert phrase == "" + phrase[0..];
    for i := 0 to |phrase|
      invariant AllAlnum(cur)
      invariant Runs(phrase) == toks + Runs(cur + phrase[i..])
    {
      var c := phrase[i];
      RunTurn(phrase, toks, cur, i);
      if IsAlnum(c) {
        cur := cur + [c];
      } else if cur != "" {
        toks := toks + [cur];
        cur := "";
      }
    }
    RunEnds(cur, "");
    assert cur + phrase[|phrase|..] == cur + "";
    if cur != "" {
      toks := toks + [cur];
    }
  }

  lemma RunTurn(phrase: string, toks: seq<string>, cur: string, i: nat)
    requires i < |phrase| && AllAlnum(cur)
    ensures var c, rest := phrase[i], phrase[i + 1..];
            toks + Runs(cur + phrase[i..]) ==
              if IsAlnum(c) then toks + Runs(cur + [c] + rest)
              else if cur != "" then toks + [cur] + Runs("" + rest)
              else toks + Runs(cur + rest)
  {
    var c, rest := phrase[i], phrase[i + 1..];
    assert phrase[i..] == [c] + rest;
    if IsAlnum(c) {
      assert cur + phrase[i..] == cur + [c] + rest;
    } else {
      RunEnds(cur, phrase[i..]);
      assert ([c] + rest)[1..] == rest && "" + rest == rest;
    }
  }

  method SearchPredicate(phrase: string) returns (r: string)
    ensures r == Join(Probes(Runs(phrase)), " AND ")
  {
    var toks := SearchTokens(phrase);
    if |toks| == 0 {
      return "";
    }
    var probes: seq<string> := [];
    for i := 0 to |toks|
      invariant probes == Probes(toks)[..i]
    {
      probes := probes + [Probe(toks[i])];
    }
    assert probes == Probes(toks);
    return Join(probes, " AND ");
  }

  // ---------------------------------------------------------------- WHERE

  /** The conjuncts of the WHERE clause: the tenant guard always comes first. */
  function WhereParts(s: Stmt, table: string, tenant: string): Result<seq<string>>
  {
    var guard := "tenant_id = " + Quote(tenant);
    var search := if s.kind.Search? && Runs(s.search) != []
                  then ["(" + Join(Probes(Runs(s.search)), " AND ") + ")"] else [];
    match s.where
    case None => Ok([guard] + search)
    case Some(e) =>
      match CompileExpr(table, tenant, e)
      case Err => Err
      case Ok(w) => Ok([guard] + ["(" + w + ")"] + search)
  }

  function WhereText(s: Stmt, table: string, tenant: string): Result<string>
  {
    match WhereParts(s, table, tenant)
    case Err => Err
    case Ok(parts) => Ok(Join(parts, " AND "))
  }

  lemma {:induction false} JoinNonEmpty(ts: seq<string>)
    ensures Join(Probes(ts), " AND ") == "" <==> ts == []
  {
    if ts != [] {
      assert Probes(ts)[0] == Probe(ts[0]);
      assert |Probe(ts[0])| > 0;
    }
  }

  method WhereSQL(s: Stmt, table: string, tenant: string) returns (r: Result<string>)
    ensures r == WhereText(s, table, tenant)
  {
    var parts := ["tenant_id = " + Quote(tenant)];
    if s.where.Some? {
      var w := CompileExpr(table, tenant, s.where.value);
      if w.Err? { return Err; }
      parts := parts + ["(" + w.value + ")"];
    }
    if s.kind.Search? {
      var sp := SearchPredicate(s.search);
      JoinNonEmpty(Runs(s.search));
      if sp != "" {
        parts := parts + ["(" + sp + ")"];
      }
    }
    assert parts + [] == parts;
    return Ok(Join(parts, " AND "));
  }

  // ---------------------------------------------------------------- statements

  function DefaultProjection(table: string): seq<string> {
    if table == "auth_events" then
      ["id", "timestamp", "event_type", "auth_method", "user_id", "ip_country", "risk_score"]
    else if table == "metrics" then
      ["timestamp", "service", "metric_name", "metric_type", "value", "count", "sum", "attributes"]
    else if table == "traces" then
      ["timestamp", "service", "name", "kind", "status_code", "duration_ns", "trace_id", "span_id"]
    else if table == "change_events" then
      ["timestamp", "service", "kind", "title", "git_sha", "deploy_id", "pr_number", "flag_key", "author"]
    else
      ["id", "timestamp", "service", "level", "message", "trace_id", "span_id", "body"]
  }

  function Limit(s: Stmt, opts: Options): int {
    var l := if s.limit <= 0 then opts.defaultLimit else s.limit;
    if opts.maxLimit > 0 && l > opts.maxLimit then opts.maxLimit else l
  }

  function AliasOr(alias: string, other: string): string { if alias != "" then alias else other }

  /** The expression and output name of one SELECT item that is not a bare star. */
  function CompileItem(table: string, it: SelectItem): Result<(string, string)>
  {
    match it.field
    case None =>
      if it.agg == "count" then Ok(("count()", AliasOr(it.alias, "count"))) else Err
    case Some(f) =>
      match MapField(table, f)
      case Err => Err
      case Ok((m, _)) =>
        var name := f[|f| - 1];
        if it.agg != "" then Ok((it.agg + "(" + m + ")", AliasOr(it.alias, it.agg + "_" + name)))
        else Ok((m, AliasOr(it.alias, name)))
  }

  /** Expressions and output columns of a SELECT list. */
  function SelectParts(table: string, items: seq<SelectItem>): Result<(seq<string>, seq<string>)>
  {
    if items == [] then Ok(([], []))
    else
      var rest := items[|items| - 1];
      match SelectParts(table, items[..|items| - 1])
      case Err => Err
      case Ok((exprs, cols)) =>
        if rest.field.None? && rest.agg == "" then
          Ok((exprs + DefaultProjection(table), cols + DefaultProjection(table)))
        else match CompileItem(table, rest)
          case Err => Err
          case Ok((e, alias)) => Ok((exprs + [e + " AS " + alias], cols + [alias]))
  }

  function FieldTexts(table: string, fs: seq<Field>): Result<seq<string>>
  {
    if fs == [] then Ok([])
    else match FieldTexts(table, fs[..|fs| - 1])
      case Err => Err
      case Ok(ts) => match MapField(table, fs[|fs| - 1])
        case Err => Err
        case Ok((m, _)) => Ok(ts + [m])
  }

  function GroupText(table: string, fs: seq<Field>): Result<string>
  {
    if fs == [] then Ok("")
    else match FieldTexts(table, fs)
      case Err => Err
      case Ok(ts) => Ok(" GROUP BY " + Join(ts, ", "))
  }

  function OrderText(table: string, ob: Option<OrderItem>): Result<string>
  {
    match ob
    case None => Ok("")
    case Some(o) =>
      match MapField(table, o.field)
      case Err => Err
      case Ok((m, _)) => Ok(" ORDER BY " + m + " " + (if o.desc then "DESC" else "ASC"))
  }

  /** All that follows the WHERE clause of a SELECT. */
  function SelectSuffix(table: string, s: Stmt, opts: Options): Result<string>
  {
    match GroupText(table, s.groupBy)
    case Err => Err
    case Ok(g) => match OrderText(table, s.orderBy)
      case Err => Err
      case Ok(o) => Ok(g + o + " LIMIT " + SignedDecimal(Limit(s, opts)))
  }

  function SearchSuffix(s: Stmt, opts: Options): string {
    " ORDER BY timestamp DESC LIMIT " + SignedDecimal(Limit(s, opts))
  }

  /** The three pieces of the SQL text around and including the WHERE clause. */
  datatype Pieces = Pieces(prefix: string, where: string, suffix: string, columns: seq<string>)

  function CompilePieces(s: Stmt, tenant: string, opts: Options): Result<Pieces>
  {
    if s.kind.Search? then
      if s.table != "logs" then Err
      else match WhereText(s, s.table, tenant)
        case Err => Err
        case Ok(w) =>
          var cols := DefaultProjection(s.table);
          Ok(Pieces("SELECT " + Join(cols, ", ") + " FROM " + s.table + " WHERE ", w, SearchSuffix(s, opts), cols))
    else
      match SelectParts(s.table, s.select)
      case Err => Err
      case Ok((exprs, cols)) =>
        if exprs == [] then Err
        else match WhereText(s, s.table, tenant)
          case Err => Err
          case Ok(w) => match SelectSuffix(s.table, s, opts)
            case Err => Err
            case Ok(suffix) =>
              Ok(Pieces("SELECT " + Join(exprs, ", ") + " FROM " + s.table + " WHERE ", w, suffix, cols))
  }

  function CompileStmt(s: Stmt, tenant: string, opts: Options): Outcome
  {
    if s.table !in TABLES then Refused
    else if s.kind.Tail? then TailOnly
    else match CompilePieces(s, tenant, opts)
      case Err => Refused
      case Ok(p) => Success(Compiled(p.prefix + p.where + p.suffix, p.columns, s.kind))
  }
}
