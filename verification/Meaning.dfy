/** What a WHERE tree means over a row, stated on the tree itself. */
module Meaning {
  import opened Text
  import opened Ast
  import opened Sql
  import opened Compile

  /** Severity, least first; 0 for a name that is not a level. */
  function Severity(level: string): nat {
    match level
    case "trace" => 1
    case "debug" => 2
    case "info" => 3
    case "warn" => 4
    case "error" => 5
    case "fatal" => 6
    case _ => 0
  }

  /** The value a field reference names in a row of its table. */
  function FieldMeaning(table: string, f: Field, env: Env): Val {
    var head := Lower(f[0]);
    if |f| == 1 then
      Get(env, if head == "time" then "timestamp" else if head == "tenant" then "tenant_id" else head)
    else if head == "body" || head == "resource" then Val.Text(JsonText(env, head, f[1..]))
    else if head == "auth" then Get(env, Lower(f[1]))
    else if table == "traces" then Val.Text(JsonText(env, "attributes", f[1..]))
    else
      match Get(env, "attributes")
      case Labels(m) => Val.Text(if f[1] in m then m[f[1]] else "")
      case _ => Null
  }

  function ValueMeaning(v: Value, env: Env): Val {
    match v
    case ValString(s) => Val.Text(s)
    case ValNumber(d) => if AllDigits(d) then Num(DigitsValue(d)) else Null
    case ValTime(n, sub) => Time(if sub then env.now - n * NANOS else env.now + n * NANOS)
  }

  predicate ComparisonMeans(table: string, tenant: string, f: Field, op: string, v: Value, env: Env) {
    if IsTenantField(f) then Get(env, "tenant_id") == Val.Text(tenant)
    else if |f| == 1 && Lower(f[0]) == "level" && v.ValString? && IsOrdering(op) then
      match Get(env, "level")
      case Text(l) => OpHolds(op, Severity(l) - Severity(v.str))
      case _ => false
    else Compares(op, FieldMeaning(table, f, env), ValueMeaning(v, env))
  }

  /** The user's predicate over a row, with tenant comparisons read as the caller's own. */
  predicate Means(table: string, tenant: string, e: Expr, env: Env) {
    match e
    case Paren(i) => Means(table, tenant, i, env)
    case Binary(AND, l, r) => Means(table, tenant, l, env) && Means(table, tenant, r, env)
    case Binary(OR, l, r) => Means(table, tenant, l, env) || Means(table, tenant, r, env)
    case Comparison(f, op, v) => ComparisonMeans(table, tenant, f, op, v, env)
  }

  predicate LetterOrDigit(c: char) { 'a' <= LowerChar(c) <= 'z' || '0' <= c <= '9' }

  /** A stretch of letters and digits that cannot be extended on either side. */
  ghost predicate WholeRun(s: string, i: int, j: int) {
    && 0 <= i < j <= |s| && (forall k :: i <= k < j ==> LetterOrDigit(s[k]))
    && (i > 0 ==> !LetterOrDigit(s[i - 1])) && (j < |s| ==> !LetterOrDigit(s[j]))
  }

  /** A row matches a SEARCH phrase when its message has every such stretch as a token. */
  ghost predicate Found(s: Stmt, env: Env) {
    s.kind.Search? ==> forall i, j :: WholeRun(s.search, i, j) ==> MessageHas(env, s.search[i..j])
  }

  predicate MessageHas(env: Env, token: string) {
    match Get(env, "message")
    case Text(m) => env.hasToken(m, token)
    case _ => false
  }

  ghost predicate RowQualifies(s: Stmt, tenant: string, env: Env) {
    && Get(env, "tenant_id") == Val.Text(tenant)
    && (s.where.Some? ==> Means(s.table, tenant, s.where.value, env))
    && Found(s, env)
  }

  /** The row limit a query runs under: a positive wish, or else the usual one, but never above a
      positive cap. */
  predicate InForce(limit: int, asked: int, usual: int, cap: int) {
    && (cap > 0 ==> limit <= cap)
    && (asked > 0 && (cap <= 0 || asked <= cap) ==> limit == asked)
    && (asked <= 0 && (cap <= 0 || usual <= cap) ==> limit == usual)
    && (0 < cap < (if asked > 0 then asked else usual) ==> limit == cap)
  }
}
