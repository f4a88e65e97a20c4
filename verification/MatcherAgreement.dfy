/** Where the live-tail matcher and the compiled text agree, and exactly where they do not. */
module MatcherAgreement {
  import opened Text
  import opened Lexer
  import opened Ast
  import opened ParserSpec
  import opened ParserLaws
  import opened Compile
  import opened CompileLoops
  import opened Meaning
  import opened Sql
  import opened SqlSelect
  import opened Matcher
  import opened CompileTheorem

  datatype ColumnType = Instants | Numbers | Arrays | Strings

  /** Types of the `logs` columns (clickhouse/migrations/0001_logs.sql). */
  function TypeOf(column: string): ColumnType {
    match column
    case "timestamp" => Instants
    case "received_at" => Instants
    case "_retention_days" => Numbers
    case "pii_detected" => Arrays
    case _ => Strings
  }

  /** What the library promises: whole numbers it printed and plain digits parse back, and the
      empty text is no JSON. */
  ghost predicate LibLaws(lib: Lib) {
    && lib.json("") == None
    && (forall x: real :: x == x.Floor as real ==> lib.parseFloat(lib.formatFloat(x)) == Some(x))
    && (forall d :: d != "" && AllDigits(d) ==> lib.parseFloat(d) == Some(DigitsValue(d) as real))
  }

  predicate SameCell(lib: Lib, column: string, j: Json, v: Val) {
    match TypeOf(column)
    case Instants => j.JStr? && v.Time? && lib.parseTime(j.s) == Some(v.ns)
    case Numbers => v.Num? && j == JNum(v.n as real)
    case Arrays => true
    case Strings => j.JStr? && v == Val.Text(j.s)
  }

  /** The published record and the stored row of one log line of the tenant: all columns
      present on both sides, same clock, same JSON reader, canonical level. */
  ghost predicate Mirrors(lib: Lib, tenant: string, rec: Record, env: Env) {
    && lib.json == env.json
    && (forall c :: c in LOGS_COLUMNS ==> c in rec && c in env.row && SameCell(lib, c, rec[c], env.row[c]))
    && env.row["tenant_id"] == Val.Text(tenant)
    && rec["level"].JStr? && rec["level"].s in LEVELS
  }

  /** The literal is a level in lower case, or no level in any case. */
  predicate PlainLevel(s: string) { s in LEVELS || Lower(s) !in LEVELS }

  predicate FitsOffset(seconds: int) { -TWO63 < seconds * NANOS < TWO63 }

  /** A present string leaf at the path. */
  predicate StringLeaf(lib: Lib, raw: string, path: seq<string>) {
    raw != "" &&
    match lib.json(raw)
    case None => false
    case Some(j) => match JsonAt(j, path) case Some(JStr(_)) => true case _ => false
  }

  /** The comparisons on which both evaluators are meant to agree: one of the six listed
      operators, and a literal of the column's own type. */
  predicate Agreeable(lib: Lib, f: Field, op: string, v: Value, rec: Record) {
    IsTenantField(f) ||
    (op in COMPARISONS &&
     (if |f| > 1 then
        var head := Lower(f[0]);
        v.ValString? && head in rec && rec[head].JStr? && StringLeaf(lib, rec[head].s, f[1..])
      else
        var c := ColumnOf(Lower(f[0]));
        match TypeOf(c)
        case Instants => v.ValTime? && FitsOffset(v.seconds)
        case Numbers => v.ValNumber?
        case Arrays => false
        case Strings => v.ValString? && (c == "level" && IsOrdering(op) ==> PlainLevel(v.str))))
  }

  predicate AgreeableExpr(lib: Lib, e: Expr, rec: Record) {
    match e
    case Paren(i) => AgreeableExpr(lib, i, rec)
    case Binary(_, l, r) => AgreeableExpr(lib, l, rec) && AgreeableExpr(lib, r, rec)
    case Comparison(f, op, v) => Agreeable(lib, f, op, v, rec)
  }

  lemma OpsAgree(op: string, c: int)
    requires op in COMPARISONS
    ensures ApplyOp(op, c) <==> OpHolds(op, c)
  {}

  lemma SignAgrees(op: string, a: int, b: int)
    requires op in COMPARISONS
    ensures ApplyOp(op, Sign(a, b)) <==> OpHolds(op, a - b)
  {}

  /** The matcher's time bound is the exact one iff the offset in nanoseconds fits 64 bits. */
  lemma OffsetFits(now: int, n: int, sub: bool)
    ensures FitsOffset(n) <==> TimeBase(now, n, sub) == if sub then now - n * NANOS else now + n * NANOS
  {
    var x := n * NANOS;
    assert x % NANOS == 0;
    assert x != -TWO63;
    if x >= TWO63 || x < -TWO63 {
      assert WrapInt64(x) != x;
    }
  }

  /** The 0-based rank with -1 and the 1-based index with 0 differ by one throughout. */
  lemma CanonicalRank(level: string)
    requires level in LEVELS
    ensures LevelRank(level) + 1 == Severity(level)
  {
    var i :| 0 <= i < |LEVELS| && LEVELS[i] == level;
    assert LEVELS[0] == "trace" && LEVELS[1] == "debug" && LEVELS[2] == "info"
        && LEVELS[3] == "warn" && LEVELS[4] == "error" && LEVELS[5] == "fatal";
    LevelsDiffer(level);
    assert RankFrom(level, i) == i;
    assert forall j :: 0 <= j < i ==> !EqualFold(level, LEVELS[j]);
    RankSkips(level, i);
  }

  lemma LowerLevels(level: string)
    requires level in LEVELS
    ensures Lower(level) == level
  {
    assert forall i :: 0 <= i < |level| ==> LowerChar(level[i]) == level[i];
  }

  lemma LevelsDiffer(level: string)
    requires level in LEVELS
    ensures forall j :: 0 <= j < |LEVELS| && EqualFold(level, LEVELS[j]) ==> LEVELS[j] == level
  {
    LowerLevels(level);
    forall j | 0 <= j < |LEVELS| && EqualFold(level, LEVELS[j]) ensures LEVELS[j] == level {
      LowerLevels(LEVELS[j]);
    }
  }

  lemma NoSeverity(s: string)
    requires s !in LEVELS
    ensures Severity(s) == 0
  {
    assert LEVELS[0] == "trace" && LEVELS[1] == "debug" && LEVELS[2] == "info"
        && LEVELS[3] == "warn" && LEVELS[4] == "error" && LEVELS[5] == "fatal";
  }

  lemma ForeignRank(s: string)
    requires Lower(s) !in LEVELS
    ensures LevelRank(s) == -1 && Severity(s) == 0
  {
    forall j | 0 <= j < |LEVELS| ensures !EqualFold(s, LEVELS[j]) {
      LowerLevels(LEVELS[j]);
    }
    RankSkips(s, |LEVELS|);
    if s in LEVELS {
      LowerLevels(s);
    }
    NoSeverity(s);
  }

  lemma PlainRank(s: string)
    requires PlainLevel(s)
    ensures LevelRank(s) + 1 == Severity(s)
  {
    if s in LEVELS {
      CanonicalRank(s);
    } else {
      ForeignRank(s);
    }
  }

  lemma {:induction false} RankSkips(level: string, i: nat)
    requires i <= |LEVELS| && forall j :: 0 <= j < i ==> !EqualFold(level, LEVELS[j])
    ensures LevelRank(level) == RankFrom(level, i)
    decreases i
  {
    if i > 0 {
      RankSkips(level, i - 1);
      assert !EqualFold(level, LEVELS[i - 1]);
    }
  }

  lemma CellOf(lib: Lib, tenant: string, rec: Record, env: Env, c: string)
    requires Mirrors(lib, tenant, rec, env) && c in LOGS_COLUMNS
    ensures c in rec && c in env.row && SameCell(lib, c, rec[c], env.row[c])
  {}

  /** One comparison on a column, given the two forms of its cell. */
  lemma CellAgrees(lib: Lib, f: Field, op: string, v: Value, rec: Record, env: Env, c: string)
    requires LibLaws(lib) && (v.ValNumber? ==> v.num != "" && AllDigits(v.num))
    requires |f| == 1 && !IsTenantField(f) && c == ColumnOf(Lower(f[0])) && Agreeable(lib, f, op, v, rec)
    requires c in rec && c in env.row && SameCell(lib, c, rec[c], env.row[c])
    requires !(c == "level" && IsOrdering(op))
    ensures EvalComparison(lib, env.now, f, op, v, rec) <==> Compares(op, env.row[c], ValueMeaning(v, env))
  {
    LevelName(f[0]);
    match TypeOf(c)
    case Instants =>
      OffsetFits(env.now, v.seconds, v.sub);
      SignAgrees(op, env.row[c].ns, TimeBase(env.now, v.seconds, v.sub));
    case Numbers =>
      SignAgrees(op, env.row[c].n, DigitsValue(v.num));
    case Arrays =>
    case Strings =>
      OpsAgree(op, Order(rec[c].s, v.str));
  }

  lemma LevelName(name: string)
    ensures EqualFold(name, "level") <==> Lower(name) == "level"
    ensures Lower(name) == "level" <==> ColumnOf(Lower(name)) == "level"
  {
    assert Lower("level") == "level";
  }

  lemma LevelAgrees(lib: Lib, tenant: string, f: Field, op: string, s: string, rec: Record, env: Env)
    requires |f| == 1 && Lower(f[0]) == "level" && IsOrdering(op)
    requires "level" in rec && "level" in env.row && SameCell(lib, "level", rec["level"], env.row["level"])
    ensures EvalComparison(lib, env.now, f, op, ValString(s), rec)
       <==> ApplyOp(op, LevelRank(rec["level"].s) - LevelRank(s))
    ensures ComparisonMeans("logs", tenant, f, op, ValString(s), env)
       <==> OpHolds(op, Severity(rec["level"].s) - Severity(s))
  {
    LevelName(f[0]);
  }

  /** The 0-based ranks and the 1-based indexes order a level and a plain literal alike. */
  lemma RanksAgree(op: string, level: string, s: string)
    requires level in LEVELS && PlainLevel(s) && IsOrdering(op)
    ensures ApplyOp(op, LevelRank(level) - LevelRank(s)) <==> OpHolds(op, Severity(level) - Severity(s))
  {
    CanonicalRank(level);
    PlainRank(s);
    OpsAgree(op, Severity(level) - Severity(s));
  }

  lemma ColumnAgrees(lib: Lib, tenant: string, f: Field, op: string, v: Value, rec: Record, env: Env)
    requires LibLaws(lib) && Mirrors(lib, tenant, rec, env) && WfComparison(f, op, v)
    requires |f| == 1 && !IsTenantField(f) && MapField("logs", f).Ok? && Agreeable(lib, f, op, v, rec)
    ensures EvalComparison(lib, env.now, f, op, v, rec) <==> ComparisonMeans("logs", tenant, f, op, v, env)
  {
    var c := ColumnOf(Lower(f[0]));
    CellOf(lib, tenant, rec, env, c);
    LevelName(f[0]);
    if c == "level" && IsOrdering(op) {
      LevelAgrees(lib, tenant, f, op, v.str, rec, env);
      RanksAgree(op, rec["level"].s, v.str);
    } else {
      CellAgrees(lib, f, op, v, rec, env, c);
    }
  }

  /** The two readings of a JSON path that is a string leaf. */
  lemma LeafText(lib: Lib, env: Env, head: string, raw: string, path: seq<string>)
    requires lib.json == env.json && Get(env, head) == Val.Text(raw) && StringLeaf(lib, raw, path)
    ensures ExtractSpec(lib, Some(JStr(raw)), path) == Some(JsonText(env, head, path))
  {}

  lemma JsonColumns(head: string)
    requires head == "body" || head == "resource"
    ensures head in LOGS_COLUMNS && TypeOf(head) == Strings
  {}

  /** The two forms of a JSON column. */
  lemma JsonCell(lib: Lib, tenant: string, rec: Record, env: Env, head: string)
    requires Mirrors(lib, tenant, rec, env) && (head == "body" || head == "resource")
    ensures head in rec && rec[head].JStr? && Get(env, head) == Val.Text(rec[head].s)
  {
    JsonColumns(head);
    CellOf(lib, tenant, rec, env, head);
  }

  lemma LeafCell(lib: Lib, tenant: string, rec: Record, env: Env, head: string, path: seq<string>)
    requires Mirrors(lib, tenant, rec, env) && (head == "body" || head == "resource")
    requires head in rec && rec[head].JStr? && StringLeaf(lib, rec[head].s, path)
    ensures ExtractSpec(lib, Lookup(rec, head), path) == Some(JsonText(env, head, path))
  {
    JsonCell(lib, tenant, rec, env, head);
    LeafText(lib, env, head, rec[head].s, path);
  }

  lemma NestedMatch(lib: Lib, now: int, f: Field, op: string, s: string, rec: Record, head: string)
    requires |f| > 1 && head == Lower(f[0]) && (head == "body" || head == "resource")
    ensures EvalComparison(lib, now, f, op, ValString(s), rec)
        <==> match ExtractSpec(lib, Lookup(rec, head), f[1..]) case None => false case Some(lhs) => ApplyOp(op, Order(lhs, s))
  {
    assert FieldString(lib, f, rec) == ExtractSpec(lib, Lookup(rec, head), f[1..]);
  }

  lemma NestedMeans(tenant: string, f: Field, op: string, s: string, env: Env, head: string)
    requires |f| > 1 && head == Lower(f[0]) && (head == "body" || head == "resource")
    ensures ComparisonMeans("logs", tenant, f, op, ValString(s), env) <==> OpHolds(op, Order(JsonText(env, head, f[1..]), s))
  {
    assert FieldMeaning("logs", f, env) == Val.Text(JsonText(env, head, f[1..]));
  }

  lemma NestedAgrees(lib: Lib, tenant: string, f: Field, op: string, s: string, rec: Record, env: Env, head: string)
    requires Mirrors(lib, tenant, rec, env) && op in COMPARISONS
    requires |f| > 1 && head == Lower(f[0]) && (head == "body" || head == "resource")
    requires head in rec && rec[head].JStr? && StringLeaf(lib, rec[head].s, f[1..])
    ensures EvalComparison(lib, env.now, f, op, ValString(s), rec)
       <==> ComparisonMeans("logs", tenant, f, op, ValString(s), env)
  {
    LeafCell(lib, tenant, rec, env, head, f[1..]);
    OpsAgree(op, Order(JsonText(env, head, f[1..]), s));
    NestedMatch(lib, env.now, f, op, s, rec, head);
    NestedMeans(tenant, f, op, s, env, head);
  }

  lemma LeafHead(f: Field)
    requires |f| > 1 && MapField("logs", f).Ok?
    ensures Lower(f[0]) == "body" || Lower(f[0]) == "resource"
  {}

  lemma LeafMeets(lib: Lib, f: Field, op: string, v: Value, rec: Record, head: string)
    requires |f| > 1 && head == Lower(f[0]) && Agreeable(lib, f, op, v, rec)
    ensures op in COMPARISONS && v.ValString? && head in rec && rec[head].JStr? && StringLeaf(lib, rec[head].s, f[1..])
  {}

  lemma LeafAgrees(lib: Lib, tenant: string, f: Field, op: string, v: Value, rec: Record, env: Env)
    requires Mirrors(lib, tenant, rec, env)
    requires |f| > 1 && MapField("logs", f).Ok? && Agreeable(lib, f, op, v, rec)
    ensures EvalComparison(lib, env.now, f, op, v, rec) <==> ComparisonMeans("logs", tenant, f, op, v, env)
  {
    LeafHead(f);
    LeafMeets(lib, f, op, v, rec, Lower(f[0]));
    NestedAgrees(lib, tenant, f, op, v.str, rec, env, Lower(f[0]));
  }

  /** The matcher and the meaning of the tree agree on every log line of the tenant. */
  lemma {:induction false} EvalAgrees(lib: Lib, tenant: string, e: Expr, rec: Record, env: Env)
    requires LibLaws(lib) && Mirrors(lib, tenant, rec, env) && WfExpr(e)
    requires CompileExpr("logs", tenant, e).Ok? && AgreeableExpr(lib, e, rec)
    ensures Eval(lib, env.now, e, rec) <==> Means("logs", tenant, e, env)
  {
    match e
    case Paren(i) => EvalAgrees(lib, tenant, i, rec, env);
    case Binary(_, l, r) =>
      EvalAgrees(lib, tenant, l, rec, env);
      EvalAgrees(lib, tenant, r, rec, env);
    case Comparison(f, op, v) =>
      if !IsTenantField(f) {
        if |f| == 1 {
          ColumnAgrees(lib, tenant, f, op, v, rec, env);
        } else {
          LeafAgrees(lib, tenant, f, op, v, rec, env);
        }
      }
  }

  /** SELECT over the table and the predicate of a statement. */
  function AsSelect(s: Stmt): Stmt {
    Stmt(Select, "", s.table, [SelectItem("", None, "")], s.where, [], None, 0)
  }

  /** A statement the live-tail endpoint serves. */
  predicate Tailed(input: string) {
    Parse(input).Ok? && Parse(input).value.kind.Tail? && Parse(input).value.table == "logs"
  }

  lemma StarCompiles(s: Stmt, tenant: string, opts: Options)
    requires s.where.Some? ==> CompileExpr(s.table, tenant, s.where.value).Ok?
    ensures CompilePieces(AsSelect(s), tenant, opts).Ok?
  {
    var star := SelectItem("", None, "");
    assert [star][..0] == [];
    assert SelectParts(s.table, []) == Ok(([], []));
    assert [] + DefaultProjection(s.table) == DefaultProjection(s.table);
  }

  /** That SELECT compiles to text which chooses the rows its predicate does. */
  lemma SelectChooses(s: Stmt, tenant: string, opts: Options, env: Env)
    requires s.table in TABLES
    requires s.where.Some? ==> CompileExpr(s.table, tenant, s.where.value).Ok? && WfExpr(s.where.value)
    ensures var o := CompileStmt(AsSelect(s), tenant, opts);
            o.Success? && (Chooses(o.compiled.sql, env) <==> RowQualifies(AsSelect(s), tenant, env))
  {
    StarCompiles(s, tenant, opts);
    StatementRead(AsSelect(s), tenant, opts);
    SameRows(AsSelect(s), tenant);
  }

  lemma TenantRow(lib: Lib, tenant: string, rec: Record, env: Env)
    requires Mirrors(lib, tenant, rec, env)
    ensures Get(env, "tenant_id") == Val.Text(tenant)
  {
    CellOf(lib, tenant, rec, env, "tenant_id");
  }

  /** The matcher accepts the record of a row exactly when the row qualifies. */
  lemma MatchQualifies(lib: Lib, tenant: string, s: Stmt, rec: Record, env: Env)
    requires LibLaws(lib) && Mirrors(lib, tenant, rec, env) && s.table == "logs" && !s.kind.Search?
    requires s.where.Some? ==>
      WfExpr(s.where.value) && CompileExpr("logs", tenant, s.where.value).Ok? && AgreeableExpr(lib, s.where.value, rec)
    ensures Match(lib, env.now, s.where, rec) <==> RowQualifies(s, tenant, env)
  {
    TenantRow(lib, tenant, rec, env);
    if s.where.Some? {
      EvalAgrees(lib, tenant, s.where.value, rec, env);
    }
  }

  /** Live tail agrees with SQL: for every TAIL text and every log line of the tenant, the matcher
      accepts the record exactly when the SQL of the SELECT with the same predicate, read back as
      a whole, chooses its stored row. */
  lemma TailAgreesWithSql(lib: Lib, input: string, tenant: string, opts: Options, rec: Record, env: Env)
    requires Tailed(input) && LibLaws(lib) && Mirrors(lib, tenant, rec, env)
    requires var w := Parse(input).value.where;
             w.Some? ==> CompileExpr("logs", tenant, w.value).Ok? && AgreeableExpr(lib, w.value, rec)
    ensures var s := Parse(input).value;
            var o := CompileStmt(AsSelect(s), tenant, opts);
            o.Success? && (Match(lib, env.now, s.where, rec) <==> Chooses(o.compiled.sql, env))
  {
    var s := Parse(input).value;
    ParsedWf(input);
    SelectChooses(s, tenant, opts, env);
    MatchQualifies(lib, tenant, AsSelect(s), rec, env);
  }

  lemma CompiledExpr(s: Stmt, tenant: string, opts: Options)
    requires CompilePieces(s, tenant, opts).Ok? && s.where.Some?
    ensures CompileExpr(s.table, tenant, s.where.value).Ok?
  {}

  /** The same for two texts: a TAIL and any SELECT on logs that spells the same predicate. */
  lemma TailAgreesWithSelect(lib: Lib, tail: string, select: string, tenant: string, opts: Options, rec: Record, env: Env)
    requires Tailed(tail) && CompileText(select, tenant, opts).Success?
    requires Parse(select).value.kind.Select? && Parse(select).value.table == "logs"
    requires Parse(select).value.where == Parse(tail).value.where
    requires LibLaws(lib) && Mirrors(lib, tenant, rec, env)
    requires Parse(tail).value.where.Some? ==> AgreeableExpr(lib, Parse(tail).value.where.value, rec)
    ensures Match(lib, env.now, Parse(tail).value.where, rec) <==> Chooses(CompileText(select, tenant, opts).compiled.sql, env)
  {
    var s := Parse(select).value;
    CompiledWhereMeaning(select, tenant, opts);
    ParsedWf(select);
    if s.where.Some? {
      CompiledExpr(s, tenant, opts);
    }
    MatchQualifies(lib, tenant, s, rec, env);
  }

  // ---------------------------------------------------------------- exactly where they part

  /** `==` is accepted by the lexer and means equality in SQL, but live tail never matches
      it: outside tenant fields the two agree on `==` iff the values differ. */
  lemma DoubleEquals(lib: Lib, tenant: string, f: Field, v: Value, rec: Record, env: Env)
    requires !IsTenantField(f)
    ensures EvalComparison(lib, env.now, f, "==", v, rec) == ComparisonMeans("logs", tenant, f, "==", v, env)
       <==> !Compares("=", FieldMeaning("logs", f, env), ValueMeaning(v, env))
  {}

  /** A missing JSON leaf: live tail never matches, SQL compares the empty string; they
      agree iff the empty string fails the comparison. */
  lemma MissingLeaf(lib: Lib, tenant: string, f: Field, op: string, s: string, rec: Record, env: Env)
    requires LibLaws(lib) && Mirrors(lib, tenant, rec, env)
    requires |f| > 1 && (Lower(f[0]) == "body" || Lower(f[0]) == "resource")
    requires ExtractSpec(lib, Lookup(rec, Lower(f[0])), f[1..]).None?
    ensures EvalComparison(lib, env.now, f, op, ValString(s), rec)
         == ComparisonMeans("logs", tenant, f, op, ValString(s), env)
       <==> !OpHolds(op, Order("", s))
  {
    var head := Lower(f[0]);
    MissingCell(lib, tenant, rec, env, head, f[1..]);
    NestedMatch(lib, env.now, f, op, s, rec, head);
    NestedMeans(tenant, f, op, s, env, head);
  }

  /** The leaf a present path of a JSON column leads to. */
  predicate LeafAt(lib: Lib, rec: Record, head: string, path: seq<string>, leaf: Json) {
    && head in rec && rec[head].JStr? && rec[head].s != "" && lib.json(rec[head].s).Some?
    && JsonAt(lib.json(rec[head].s).value, path) == Some(leaf)
  }

  /** A present leaf that is not a string: live tail compares its printed form, SQL the empty
      string; they agree iff those two compare alike. */
  lemma NonStringLeaf(lib: Lib, tenant: string, f: Field, op: string, s: string, rec: Record, env: Env, leaf: Json)
    requires Mirrors(lib, tenant, rec, env) && |f| > 1 && (Lower(f[0]) == "body" || Lower(f[0]) == "resource")
    requires LeafAt(lib, rec, Lower(f[0]), f[1..], leaf) && !leaf.JStr?
    ensures EvalComparison(lib, env.now, f, op, ValString(s), rec)
         == ComparisonMeans("logs", tenant, f, op, ValString(s), env)
       <==> ApplyOp(op, Order(Stringify(lib, leaf), s)) == OpHolds(op, Order("", s))
  {
    var head := Lower(f[0]);
    NonStringCell(lib, tenant, rec, env, head, f[1..], leaf);
    NestedMatch(lib, env.now, f, op, s, rec, head);
    NestedMeans(tenant, f, op, s, env, head);
  }

  lemma NonStringCell(lib: Lib, tenant: string, rec: Record, env: Env, head: string, path: seq<string>, leaf: Json)
    requires Mirrors(lib, tenant, rec, env) && (head == "body" || head == "resource")
    requires LeafAt(lib, rec, head, path, leaf) && !leaf.JStr?
    ensures ExtractSpec(lib, Lookup(rec, head), path) == Some(Stringify(lib, leaf)) && JsonText(env, head, path) == ""
  {
    JsonCell(lib, tenant, rec, env, head);
  }

  lemma MissingCell(lib: Lib, tenant: string, rec: Record, env: Env, head: string, path: seq<string>)
    requires LibLaws(lib) && Mirrors(lib, tenant, rec, env) && (head == "body" || head == "resource")
    requires ExtractSpec(lib, Lookup(rec, head), path).None?
    ensures JsonText(env, head, path) == ""
  {
    JsonCell(lib, tenant, rec, env, head);
    assert Lookup(rec, head) == Some(rec[head]);
    MissingText(lib, env, head, rec[head].s, path);
  }

  lemma MissingText(lib: Lib, env: Env, head: string, raw: string, path: seq<string>)
    requires LibLaws(lib) && lib.json == env.json && Get(env, head) == Val.Text(raw)
    requires ExtractSpec(lib, Some(JStr(raw)), path).None?
    ensures JsonText(env, head, path) == ""
  {}

  /** Severity ordering: the two evaluators agree at every level and every operator iff the
      literal is a level in lower case or no level in any case. */
  lemma LevelLiteral(s: string)
    ensures (forall l, op :: l in LEVELS && IsOrdering(op) ==>
               (ApplyOp(op, LevelRank(l) - LevelRank(s)) <==> OpHolds(op, Severity(l) - Severity(s))))
       <==> PlainLevel(s)
  {
    if PlainLevel(s) {
      forall l, op | l in LEVELS && IsOrdering(op)
        ensures ApplyOp(op, LevelRank(l) - LevelRank(s)) <==> OpHolds(op, Severity(l) - Severity(s))
      {
        RanksAgree(op, l, s);
      }
    } else {
      CapitalLevel(s);
      var l := LEVELS[0];
      CanonicalRank(l);
      assert Severity(l) == 1 && LevelRank(l) == 0;
      assert IsOrdering(">") && !ApplyOp(">", 0 - LevelRank(s)) && OpHolds(">", 1 - Severity(s));
    }
  }

  /** Outside lower case a level name has a rank but no index. */
  lemma CapitalLevel(s: string)
    requires !PlainLevel(s)
    ensures LevelRank(s) >= 0 && Severity(s) == 0
  {
    NoSeverity(s);
    var i :| 0 <= i < |LEVELS| && LEVELS[i] == Lower(s);
    LowerLevels(LEVELS[i]);
    RankFound(s, 0, i);
  }

  lemma {:induction false} RankFound(s: string, i: nat, k: nat)
    requires i <= k < |LEVELS| && EqualFold(s, LEVELS[k])
    ensures RankFrom(s, i) >= 0
    decreases k - i
  {
    if !EqualFold(s, LEVELS[i]) {
      RankFound(s, i + 1, k);
    }
  }
}
