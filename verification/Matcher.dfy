/** The in-memory matcher that live tail uses instead of SQL (domains/query/matcher.go). */
module Matcher {
  import opened Text
  import opened Ast
  import opened Compile
  import opened Sql

  /** The standard-library functions the matcher calls. */
  datatype Lib = Lib(
    json: string -> Option<Json>,
    parseTime: string -> Option<int>,
    formatFloat: real -> string,
    parseFloat: string -> Option<real>,
    sprint: Json -> string)

  /** A decoded log record, as published to the live-tail channel. */
  type Record = map<string, Json>

  function Stringify(lib: Lib, v: Json): string {
    match v
    case JNull => ""
    case JStr(s) => s
    case JNum(x) => lib.formatFloat(x)
    case _ => lib.sprint(v)
  }

  function ExtractSpec(lib: Lib, raw: Option<Json>, path: seq<string>): Option<string> {
    match raw
    case Some(JStr(s)) =>
      if s == "" then None
      else (
        match lib.json(s)
        case None => None
        case Some(j) => match JsonAt(j, path)
          case None => None
          case Some(leaf) => Some(Stringify(lib, leaf)))
    case _ => None
  }

  /** Walks `cur` down the path, as the source does. */
  method ExtractJSON(lib: Lib, raw: Option<Json>, path: seq<string>) returns (r: Option<string>)
    ensures r == ExtractSpec(lib, raw, path)
  {
    if raw.None? || !raw.value.JStr? || raw.value.s == "" {
      return None;
    }
    var parsed := lib.json(raw.value.s);
    if parsed.None? {
      return None;
    }
    var cur := parsed.value;
    for i := 0 to |path|
      invariant JsonAt(parsed.value, path) == JsonAt(cur, path[i..])
    {
      if !cur.JObj? || path[i] !in cur.fields {
        return None;
      }
      cur := cur.fields[path[i]];
    }
    return Some(Stringify(lib, cur));
  }

  /** 0-based rank of a level name in any letter case, -1 when it is none. */
  function LevelRank(level: string): int { RankFrom(level, 0) }

  function RankFrom(level: string, i: nat): int
    requires i <= |LEVELS|
    decreases |LEVELS| - i
  {
    if i == |LEVELS| then -1
    else if EqualFold(level, LEVELS[i]) then i
    else RankFrom(level, i + 1)
  }

  method LevelRankLoop(level: string) returns (r: int)
    ensures r == LevelRank(level)
  {
    for i := 0 to |LEVELS|
      invariant LevelRank(level) == RankFrom(level, i)
    {
      if EqualFold(level, LEVELS[i]) {
        return i;
      }
    }
    return -1;
  }

  predicate ApplyOp(op: string, c: int) {
    match op
    case "=" => c == 0
    case "!=" => c != 0
    case "<" => c < 0
    case ">" => c > 0
    case "<=" => c <= 0
    case ">=" => c >= 0
    case _ => false
  }

  function ColumnOf(name: string): string {
    if name == "time" then "timestamp" else if name == "tenant" then "tenant_id" else name
  }

  function Lookup(rec: Record, name: string): Option<Json> {
    if name in rec then Some(rec[name]) else None
  }

  function FieldString(lib: Lib, f: Field, rec: Record): Option<string> {
    var head := Lower(f[0]);
    if |f| == 1 then
      match Lookup(rec, ColumnOf(head))
      case None => None
      case Some(v) => Some(Stringify(lib, v))
    else if head == "body" || head == "resource" then ExtractSpec(lib, Lookup(rec, head), f[1..])
    else if head == "auth" && |f| == 2 then
      match Lookup(rec, Lower(f[1]))
      case None => None
      case Some(v) => Some(Stringify(lib, v))
    else None
  }

  /** `now` plus the signed offset; the product and the negation wrap in 64 bits. */
  function TimeBase(now: int, seconds: int, sub: bool): int {
    var off := WrapInt64(seconds * NANOS);
    if sub then now + WrapInt64(-off) else now + off
  }

  predicate EvalComparison(lib: Lib, now: int, f: Field, op: string, v: Value, rec: Record) {
    IsTenantField(f) ||
    match FieldString(lib, f, rec)
    case None => false
    case Some(lhs) =>
      if |f| == 1 && EqualFold(f[0], "level") && v.ValString? && IsOrdering(op) then
        ApplyOp(op, LevelRank(lhs) - LevelRank(v.str))
      else
        match v
        case ValTime(n, sub) => (
          match lib.parseTime(lhs)
          case None => false
          case Some(t) => ApplyOp(op, Sign(t, TimeBase(now, n, sub))))
        case ValNumber(d) => (
          match (lib.parseFloat(lhs), lib.parseFloat(d))
          case (Some(x), Some(y)) => ApplyOp(op, if x < y then -1 else if x > y then 1 else 0)
          case _ => false)
        case ValString(s) => ApplyOp(op, Order(lhs, s))
  }

  function Sign(a: int, b: int): int { if a < b then -1 else if a > b then 1 else 0 }

  predicate Eval(lib: Lib, now: int, e: Expr, rec: Record) {
    match e
    case Paren(i) => Eval(lib, now, i, rec)
    case Binary(AND, l, r) => Eval(lib, now, l, rec) && Eval(lib, now, r, rec)
    case Binary(OR, l, r) => Eval(lib, now, l, rec) || Eval(lib, now, r, rec)
    case Comparison(f, op, v) => EvalComparison(lib, now, f, op, v, rec)
  }

  predicate Match(lib: Lib, now: int, e: Option<Expr>, rec: Record) {
    e.None? || Eval(lib, now, e.value, rec)
  }
}
