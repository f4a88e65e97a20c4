/** A library, a log line and its row that meet every hypothesis of the live-tail agreement. */
module MatcherWitness {
  import opened Text
  import opened Ast
  import opened Compile
  import opened Meaning
  import opened Sql
  import opened Matcher
  import opened MatcherAgreement

  const RAW := "{\"n\":1}"

  function ReadInt(s: string): Option<real> {
    if s != "" && AllDigits(s) then Some(DigitsValue(s) as real)
    else if |s| > 1 && s[0] == '-' && AllDigits(s[1..]) then Some(-(DigitsValue(s[1..]) as real))
    else None
  }

  function ReadRaw(s: string): Option<Json> {
    if s == RAW then Some(JObj(map["n" := JNum(1.0)])) else None
  }

  /** Whole numbers in decimal, one JSON text, one instant. */
  function WholeLib(): Lib {
    Lib(ReadRaw, s => Some(0), (x: real) => SignedDecimal(x.Floor), ReadInt, j => "")
  }

  lemma ReadIntBack(n: int)
    ensures ReadInt(SignedDecimal(n)) == Some(n as real)
  {
    if n < 0 {
      DecimalRoundTrip(-n);
      assert ("-" + Decimal(-n))[1..] == Decimal(-n);
      assert !IsDigit(("-" + Decimal(-n))[0]);
    } else {
      DecimalRoundTrip(n);
    }
  }

  /** The library laws can be met. */
  lemma LawsAreMet()
    ensures LibLaws(WholeLib())
  {
    var lib := WholeLib();
    forall x: real | x == x.Floor as real ensures lib.parseFloat(lib.formatFloat(x)) == Some(x) {
      ReadIntBack(x.Floor);
    }
  }

  function StringCell(c: string, tenant: string): string {
    if c == "level" then "info" else if c == "tenant_id" then tenant else if c == "body" then RAW else ""
  }

  function Cell(c: string, tenant: string): Json {
    match TypeOf(c)
    case Instants => JStr("")
    case Numbers => JNum(7.0)
    case Arrays => JNull
    case Strings => JStr(StringCell(c, tenant))
  }

  function RowCell(c: string, tenant: string): Val {
    match TypeOf(c)
    case Instants => Time(0)
    case Numbers => Val.Num(7)
    case Arrays => Items([])
    case Strings => Val.Text(StringCell(c, tenant))
  }

  function LineOf(columns: set<string>, tenant: string): Record { map c | c in columns :: Cell(c, tenant) }

  function RowOf(columns: set<string>, tenant: string): Env {
    Env(map c | c in columns :: RowCell(c, tenant), 0, ReadRaw, (m, t) => false)
  }

  function Line(tenant: string): Record { LineOf(LOGS_COLUMNS, tenant) }

  function Row(tenant: string): Env { RowOf(LOGS_COLUMNS, tenant) }

  lemma KeyColumns()
    ensures "level" in LOGS_COLUMNS && "tenant_id" in LOGS_COLUMNS && "body" in LOGS_COLUMNS
    ensures TypeOf("level") == Strings && TypeOf("tenant_id") == Strings && TypeOf("body") == Strings
    ensures "info" in LEVELS
  {
    assert LEVELS[2] == "info";
  }

  lemma CellMirrors(c: string, tenant: string)
    ensures SameCell(WholeLib(), c, Cell(c, tenant), RowCell(c, tenant))
  {}

  lemma ColumnsMirror(columns: set<string>, tenant: string)
    ensures forall c :: c in columns ==>
      SameCell(WholeLib(), c, LineOf(columns, tenant)[c], RowOf(columns, tenant).row[c])
  {
    forall c | c in columns ensures SameCell(WholeLib(), c, LineOf(columns, tenant)[c], RowOf(columns, tenant).row[c]) {
      CellMirrors(c, tenant);
    }
  }

  lemma KeyCells(columns: set<string>, tenant: string)
    requires "level" in columns && "tenant_id" in columns && "body" in columns
    requires TypeOf("level") == Strings && TypeOf("tenant_id") == Strings && TypeOf("body") == Strings
    ensures LineOf(columns, tenant)["level"] == JStr("info") && LineOf(columns, tenant)["body"] == JStr(RAW)
    ensures RowOf(columns, tenant).row["tenant_id"] == Val.Text(tenant)
  {}

  /** And so can the relation between record and row, for every tenant. */
  lemma MirrorIsMet(tenant: string)
    ensures Mirrors(WholeLib(), tenant, Line(tenant), Row(tenant))
  {
    KeyColumns();
    ColumnsMirror(LOGS_COLUMNS, tenant);
    KeyCells(LOGS_COLUMNS, tenant);
  }

  /** `body.n = '1'` over the body {"n":1}: live tail shows the line, SQL does not find it. */
  lemma NumberLeafParts(tenant: string)
    ensures var f := ["body", "n"];
            && LibLaws(WholeLib()) && Mirrors(WholeLib(), tenant, Line(tenant), Row(tenant))
            && EvalComparison(WholeLib(), 0, f, "=", ValString("1"), Line(tenant))
            && !ComparisonMeans("logs", tenant, f, "=", ValString("1"), Row(tenant))
  {
    LawsAreMet();
    MirrorIsMet(tenant);
    LeafIsNumber(tenant);
    BodyField();
    LeafParts(WholeLib(), tenant, ["body", "n"], Line(tenant), Row(tenant), "body", ["n"]);
  }

  lemma OneParts()
    ensures Order("1", "1") == 0 && Order("", "1") != 0
  {}

  lemma LeafParts(lib: Lib, tenant: string, f: Field, rec: Record, env: Env, head: string, path: seq<string>)
    requires Mirrors(lib, tenant, rec, env) && |f| > 1 && Lower(f[0]) == head && head == "body" && f[1..] == path
    requires LeafAt(lib, rec, head, path, JNum(1.0)) && lib.formatFloat(1.0) == "1"
    ensures EvalComparison(lib, env.now, f, "=", ValString("1"), rec)
    ensures !ComparisonMeans("logs", tenant, f, "=", ValString("1"), env)
  {
    NonStringCell(lib, tenant, rec, env, head, path, JNum(1.0));
    NestedMatch(lib, env.now, f, "=", "1", rec, head);
    NestedMeans(tenant, f, "=", "1", env, head);
    OneParts();
  }

  lemma BodyField()
    ensures Lower(["body", "n"][0]) == "body" && ["body", "n"][1..] == ["n"]
  {
    assert Lower("body") == "body";
  }

  lemma LeafIsNumber(tenant: string)
    ensures LeafAt(WholeLib(), Line(tenant), "body", ["n"], JNum(1.0))
    ensures WholeLib().formatFloat(1.0) == "1"
  {
    KeyColumns();
    KeyCells(LOGS_COLUMNS, tenant);
    var j := JObj(map["n" := JNum(1.0)]);
    assert ["n"][1..] == [];
    assert JsonAt(j, ["n"]) == JsonAt(j.fields["n"], []);
  }

  // ---------------------------------------------------------------- the other partings, each at an input

  /** The line and its row meet the hypotheses; live tail and SQL disagree on the comparison. */
  ghost predicate Part(tenant: string, f: Field, op: string, v: Value) {
    && LibLaws(WholeLib()) && Mirrors(WholeLib(), tenant, Line(tenant), Row(tenant))
    && !EvalComparison(WholeLib(), 0, f, op, v, Line(tenant))
    && ComparisonMeans("logs", tenant, f, op, v, Row(tenant))
  }

  lemma LevelCells(tenant: string)
    ensures Get(Row(tenant), "level") == Val.Text("info") && Lookup(Line(tenant), "level") == Some(JStr("info"))
  {
    KeyColumns();
    KeyCells(LOGS_COLUMNS, tenant);
  }

  lemma LevelField()
    ensures Lower("level") == "level" && !IsTenantField(["level"])
  {}

  lemma EqualsParts(lib: Lib, tenant: string, f: Field, s: string, rec: Record, env: Env)
    requires f == ["level"] && Lower("level") == "level" && !IsTenantField(f) && Get(env, "level") == Val.Text(s)
    ensures !EvalComparison(lib, env.now, f, "==", ValString(s), rec)
    ensures ComparisonMeans("logs", tenant, f, "==", ValString(s), env)
  {
    DoubleEquals(lib, tenant, f, ValString(s), rec, env);
  }

  /** `level == 'info'` over an info line. */
  lemma DoubleEqualsParts(tenant: string)
    ensures Part(tenant, ["level"], "==", ValString("info"))
  {
    LawsAreMet();
    MirrorIsMet(tenant);
    LevelField();
    LevelCells(tenant);
    EqualsParts(WholeLib(), tenant, ["level"], "info", Line(tenant), Row(tenant));
  }

  lemma InfoRanks()
    ensures LevelRank("info") == LevelRank("INFO") && Severity("info") == 3 && Severity("INFO") == 0
  {
    CanonicalRank("info");
    assert EqualFold("INFO", "info");
    SameRank("INFO", "info", 0);
  }

  lemma {:induction false} SameRank(a: string, b: string, i: nat)
    requires EqualFold(a, b) && i <= |LEVELS|
    ensures RankFrom(a, i) == RankFrom(b, i)
    decreases |LEVELS| - i
  {
    if i < |LEVELS| {
      SameRank(a, b, i + 1);
    }
  }

  /** `level > 'INFO'` over an info line. */
  lemma CapitalLevelParts(tenant: string)
    ensures Part(tenant, ["level"], ">", ValString("INFO"))
  {
    LawsAreMet();
    MirrorIsMet(tenant);
    LevelField();
    KeyColumns();
    CellOf(WholeLib(), tenant, Line(tenant), Row(tenant), "level");
    LevelCells(tenant);
    LevelAgrees(WholeLib(), tenant, ["level"], ">", "INFO", Line(tenant), Row(tenant));
    InfoRanks();
  }

  lemma AbsentLeaf(tenant: string)
    ensures ExtractSpec(WholeLib(), Lookup(Line(tenant), "body"), ["m"]).None?
  {
    KeyColumns();
    KeyCells(LOGS_COLUMNS, tenant);
    var j := JObj(map["n" := JNum(1.0)]);
    assert JsonAt(j, ["m"]).None?;
  }

  lemma AbsentParts(lib: Lib, tenant: string, f: Field, rec: Record, env: Env, head: string, path: seq<string>)
    requires LibLaws(lib) && Mirrors(lib, tenant, rec, env)
    requires |f| > 1 && Lower(f[0]) == head && head == "body" && f[1..] == path
    requires ExtractSpec(lib, Lookup(rec, head), path).None?
    ensures !EvalComparison(lib, env.now, f, "=", ValString(""), rec)
    ensures ComparisonMeans("logs", tenant, f, "=", ValString(""), env)
  {
    NestedMatch(lib, env.now, f, "=", "", rec, head);
    NestedMeans(tenant, f, "=", "", env, head);
    MissingCell(lib, tenant, rec, env, head, path);
  }

  lemma BodyLeaf(f: Field)
    requires f == ["body", "m"]
    ensures Lower(f[0]) == "body" && f[1..] == ["m"]
  {
    assert Lower("body") == "body";
  }

  /** `body.m = ''` over the body {"n":1}. */
  lemma MissingLeafParts(tenant: string)
    ensures Part(tenant, ["body", "m"], "=", ValString(""))
  {
    LawsAreMet();
    MirrorIsMet(tenant);
    AbsentLeaf(tenant);
    var f := ["body", "m"];
    BodyLeaf(f);
    AbsentParts(WholeLib(), tenant, f, Line(tenant), Row(tenant), "body", ["m"]);
  }

  const AGES := 10_000_000_000

  lemma TimeCells(tenant: string)
    ensures Lookup(Line(tenant), "timestamp") == Some(JStr("")) && Get(Row(tenant), "timestamp") == Time(0)
    ensures WholeLib().parseTime("") == Some(0) && Row(tenant).now == 0 && Lower("timestamp") == "timestamp"
  {
    assert "timestamp" in LOGS_COLUMNS && TypeOf("timestamp") == Instants;
  }

  lemma TimeParts(lib: Lib, tenant: string, f: Field, rec: Record, env: Env)
    requires f == ["timestamp"] && Lower("timestamp") == "timestamp" && env.now == 0
    requires Lookup(rec, "timestamp") == Some(JStr("")) && lib.parseTime("") == Some(0) && Get(env, "timestamp") == Time(0)
    ensures !EvalComparison(lib, env.now, f, ">", ValTime(AGES, true), rec)
    ensures ComparisonMeans("logs", tenant, f, ">", ValTime(AGES, true), env)
  {
    assert AGES * NANOS == 10_000_000_000_000_000_000;
    assert WrapInt64(AGES * NANOS) == 10_000_000_000_000_000_000 - TWO64;
  }

  /** `timestamp > now() - 10000000000s`: the offset wraps and lands in the future. */
  lemma LongOffsetParts(tenant: string)
    ensures Part(tenant, ["timestamp"], ">", ValTime(AGES, true))
  {
    LawsAreMet();
    MirrorIsMet(tenant);
    TimeCells(tenant);
    var f := ["timestamp"];
    TimeParts(WholeLib(), tenant, f, Line(tenant), Row(tenant));
  }
}
