/** The emitted SQL fragments, read back, mean what the tree means (domains/query/compile.go:172-373). */
module CompileMeaning {
  import opened Text
  import opened Ast
  import opened ParserLaws
  import opened Compile
  import opened Meaning
  import opened SqlScanning
  import opened SqlReading
  import opened Sql

  // ---------------------------------------------------------------- single comparisons

  lemma ColumnText(name: string) returns (t: Term)
    requires IsIdent(name)
    ensures t == Column(name) && TermText(name, [Word(name)], t)
  {
    t := Column(name);
    WordOpen(name);
    ColumnRead(name);
  }

  lemma {:induction false} KeysText(keys: seq<string>)
    requires keys != []
    ensures Open(SqlScan, Join(Quotes(keys), ", "), KeyToks(keys))
    decreases |keys|
  {
    QuoteOpen(keys[0]);
    if |keys| == 1 {
      assert Quotes(keys) == [Quote(keys[0])];
    } else {
      KeysText(keys[1..]);
      assert Quotes(keys)[1..] == Quotes(keys[1..]);
      CommaText(Quote(keys[0]), [Lit(keys[0])], Join(Quotes(keys[1..]), ", "), KeyToks(keys[1..]));
      assert [Lit(keys[0])] + [Sql.Comma] + KeyToks(keys[1..]) == KeyToks(keys);
    }
  }

  lemma JsonCallText(column: string, keys: seq<string>) returns (ts: seq<Tok>, t: Term)
    requires IsIdent(column) && keys != []
    ensures TermText(JsonExtract(column, keys), ts, t) && ts[0] == Word("JSONExtractString")
    ensures forall env :: EvalTerm(t, env) == Val.Text(JsonText(env, column, keys))
  {
    var f := "JSONExtractString";
    WordOpen(column);
    KeysText(keys);
    assert "JSONExtractString(" == f + "(";
    CallText(f, "JSONExtractString(", column, [Word(column)], Join(Quotes(keys), ", "), KeyToks(keys));
    JsonRead(f, column, keys);
    ts := [Word(f), LP] + ([Word(column)] + [Sql.Comma] + KeyToks(keys)) + [RP];
    t := Apply(f, [Column(column)] + Literals(keys));
    assert t.args[1..] == Literals(keys) && LiteralTexts(Literals(keys)) == keys;
  }

  lemma LabelText(key: string) returns (ts: seq<Tok>, t: Term)
    ensures TermText("attributes[" + Quote(key) + "]", ts, t) && t == Subscript("attributes", key) && ts[0] == Word("attributes")
  {
    var c := "attributes";
    QuoteOpen(key);
    assert "attributes[" == c + "[";
    SubscriptText(c, "attributes[", Quote(key), [Lit(key)]);
    ts := [Word(c)] + [LB] + [Lit(key)] + [RB];
    assert ts == [Word(c), LB, Lit(key), RB];
    t := Subscript(c, key);
    SubscriptRead(c, key);
  }

  /** Every accepted field reads back as a term whose value is the field's. */
  lemma FieldText(table: string, f: Field) returns (ts: seq<Tok>, t: Term)
    requires WfField(f) && MapField(table, f).Ok?
    ensures TermText(MapField(table, f).value.0, ts, t)
    ensures forall env :: EvalTerm(t, env) == FieldMeaning(table, f, env)
    ensures ts[0].Word? && (|ts| == 1 || ts[0].w == "JSONExtractString" || ts[0].w == "attributes")
    ensures MapField(table, f).value.1 ==> |f| == 1 && Lower(f[0]) == "level" && t == Column("level") && ts == [Word("level")]
  {
    var head := Lower(f[0]);
    LowerIdent(f[0]);
    if |f| == 1 {
      var name := if head == "time" then "timestamp" else if head == "tenant" then "tenant_id" else head;
      t := ColumnText(name);
      ts := [Word(name)];
    } else if head == "body" || head == "resource" {
      ts, t := JsonCallText(head, f[1..]);
    } else if head == "auth" {
      LowerIdent(f[1]);
      t := ColumnText(Lower(f[1]));
      ts := [Word(Lower(f[1]))];
    } else if table == "traces" {
      ts, t := JsonCallText("attributes", f[1..]);
    } else {
      ts, t := LabelText(f[1]);
    }
  }

  lemma NowText()
    ensures Open(SqlScan, "now()", [Word("now"), LP, RP])
  {
    WordOpen("now");
    SqlScanning.PunctClosed('(');
    SqlScanning.PunctClosed(')');
    OpenUnit(SqlScan, "now", Word("now"), LP, RP);
    assert "now" + "()" == "now()";
  }

  lemma SignedText(n: int)
    ensures Open(SqlScan, SignedDecimal(n), SignedToks(n))
  {
    if n < 0 {
      NumberOpen(Decimal(-n));
      SqlScanning.PunctClosed('-');
      ClosedOpen(SqlScan, "-", [Sql.Minus], Decimal(-n), [Number(Decimal(-n))]);
      assert [Sql.Minus] + [Number(Decimal(-n))] == SignedToks(n);
    } else {
      NumberOpen(Decimal(n));
    }
  }

  lemma IntervalHead(sub: bool, sign: string, st: Tok)
    requires sign == (if sub then "-" else "+") && st == if sub then Sql.Minus else Sql.Plus
    ensures Open(SqlScan, "now()" + " " + sign + " " + "INTERVAL", [Word("now"), LP, RP] + [st] + [Word("INTERVAL")])
  {
    NowText();
    SqlScanning.PunctClosed(if sub then '-' else '+');
    ClosedIsOpen(sign, [st]);
    WordOpen("INTERVAL");
    Spaced3("now()", [Word("now"), LP, RP], sign, [st], "INTERVAL", [Word("INTERVAL")]);
  }

  lemma IntervalTail(h: string, th: seq<Tok>, d: string, td: seq<Tok>)
    requires Open(SqlScan, h, th) && Open(SqlScan, d, td)
    ensures Open(SqlScan, h + " " + d + " " + "SECOND", th + td + [Word("SECOND")])
  {
    WordOpen("SECOND");
    Spaced3(h, th, d, td, "SECOND", [Word("SECOND")]);
  }

  lemma IntervalText(n: int, sub: bool)
    ensures Open(SqlScan, "now() " + (if sub then "-" else "+") + " INTERVAL " + SignedDecimal(n) + " SECOND",
                 [Word("now"), LP, RP] + OffsetToks(sub, n))
  {
    var sign := if sub then "-" else "+";
    var st := if sub then Sql.Minus else Sql.Plus;
    var now := [Word("now"), LP, RP];
    SignedText(n);
    IntervalHead(sub, sign, st);
    IntervalTail("now()" + " " + sign + " " + "INTERVAL", now + [st] + [Word("INTERVAL")], SignedDecimal(n), SignedToks(n));
    IntervalSpelling(n, sign);
    Regroup(now, [st], [Word("INTERVAL")], SignedToks(n), [Word("SECOND")]);
  }

  lemma ShiftText(n: int, sub: bool)
    requires n != 0
    ensures TermText(CompileValue(ValTime(n, sub)), [Word("now"), LP, RP] + OffsetToks(sub, n), Shifted(Apply("now", []), sub, n))
  {
    IntervalText(n, sub);
    ShiftedRead(sub, n);
  }

  lemma IntervalSpelling(n: int, sign: string)
    ensures "now()" + " " + sign + " " + "INTERVAL" + " " + SignedDecimal(n) + " " + "SECOND"
         == "now() " + sign + " INTERVAL " + SignedDecimal(n) + " SECOND"
  {
    assert "now()" + " " == "now() ";
    assert "now() " + sign + " " + "INTERVAL" + " " == "now() " + sign + " INTERVAL ";
    var x := "now() " + sign + " INTERVAL " + SignedDecimal(n);
    assert x + " " + "SECOND" == x + " SECOND";
  }

  lemma ValueText(v: Value) returns (ts: seq<Tok>, t: Term)
    requires v.ValNumber? ==> v.num != "" && AllDigits(v.num)
    ensures TermText(CompileValue(v), ts, t)
    ensures forall env :: EvalTerm(t, env) == ValueMeaning(v, env)
  {
    match v
    case ValString(s) =>
      QuoteOpen(s);
      LiteralRead(s);
      ts, t := [Lit(s)], Literal(s);
    case ValNumber(d) =>
      NumberOpen(d);
      NumeralRead(d);
      ts, t := [Number(d)], Numeral(d);
    case ValTime(n, sub) =>
      if n == 0 {
        NowText();
        NowRead();
        ts, t := [Word("now"), LP, RP], Apply("now", []);
      } else {
        ShiftText(n, sub);
        ts, t := [Word("now"), LP, RP] + OffsetToks(sub, n), Shifted(Apply("now", []), sub, n);
      }
  }

  // ---------------------------------------------------------------- severity

  lemma {:induction false} TightText(keys: seq<string>)
    requires keys != []
    ensures Open(SqlScan, Join(Quotes(keys), ","), KeyToks(keys))
    decreases |keys|
  {
    QuoteOpen(keys[0]);
    if |keys| == 1 {
      assert Quotes(keys) == [Quote(keys[0])];
    } else {
      TightText(keys[1..]);
      assert Quotes(keys)[1..] == Quotes(keys[1..]);
      TightCommaText(Quote(keys[0]), [Lit(keys[0])], Join(Quotes(keys[1..]), ","), KeyToks(keys[1..]));
      assert [Lit(keys[0])] + [Sql.Comma] + KeyToks(keys[1..]) == KeyToks(keys);
    }
  }

  lemma LevelArrayOpen()
    ensures Open(SqlScan, LevelArray(), [LB] + KeyToks(LEVELS) + [RB])
  {
    TightText(LEVELS);
    Brackets(Join(Quotes(LEVELS), ","), KeyToks(LEVELS));
  }

  lemma SeverityIsIndex(s: string)
    ensures IndexOf(LEVELS, s) == Severity(s)
  {
    assert LEVELS[..5] == ["trace", "debug", "info", "warn", "error"];
    assert LEVELS[..5][..4] == ["trace", "debug", "info", "warn"];
    assert LEVELS[..5][..4][..3] == ["trace", "debug", "info"];
    assert LEVELS[..5][..4][..3][..2] == ["trace", "debug"];
    assert LEVELS[..5][..4][..3][..2][..1] == ["trace"];
    assert LEVELS[..5][..4][..3][..2][..1][..0] == [];
    assert IndexOf(["trace"], s) == if s == "trace" then 1 else 0;
    assert IndexOf(["trace", "debug"], s) == if s == "debug" then 2 else IndexOf(["trace"], s);
    assert IndexOf(["trace", "debug", "info"], s) == if s == "info" then 3 else IndexOf(["trace", "debug"], s);
    assert IndexOf(["trace", "debug", "info", "warn"], s)
        == if s == "warn" then 4 else IndexOf(["trace", "debug", "info"], s);
    assert IndexOf(["trace", "debug", "info", "warn", "error"], s)
        == if s == "error" then 5 else IndexOf(["trace", "debug", "info", "warn"], s);
  }

  lemma RankOf(items: seq<string>, arr: string, a: string, x: Tok, t: Term)
    requires items != [] && Open(SqlScan, arr, [LB] + KeyToks(items) + [RB])
    requires Open(SqlScan, a, [x]) && ((x.Word? && t == Column(x.w)) || (x.Lit? && t == Literal(x.s)))
    ensures exists ts :: TermText("indexOf(" + arr + ", " + a + ")", ts, Apply("indexOf", [Array(items), t]))
  {
    var f := "indexOf";
    var at := [LB] + KeyToks(items) + [RB];
    assert "indexOf(" == f + "(";
    CallText(f, "indexOf(", arr, at, a, [x]);
    IndexOfRead(items, x, t);
    var ts := [Word(f), LP] + (at + [Sql.Comma] + [x]) + [RP];
    assert TermText("indexOf(" + arr + ", " + a + ")", ts, Apply("indexOf", [Array(items), t]));
  }

  /** indexOf(['trace',...], x) for a column or a literal x. */
  lemma RankText(a: string, x: Tok, t: Term)
    requires Open(SqlScan, a, [x]) && ((x.Word? && t == Column(x.w)) || (x.Lit? && t == Literal(x.s)))
    ensures exists ts :: TermText("indexOf(" + LevelArray() + ", " + a + ")", ts, Apply("indexOf", [Array(LEVELS), t]))
  {
    LevelArrayOpen();
    RankOf(LEVELS, LevelArray(), a, x, t);
  }

  // ---------------------------------------------------------------- orders

  lemma EqualText(v: Val, s: string)
    ensures Compares("=", v, Val.Text(s)) <==> v == Val.Text(s)
  {
    if v.Text? { OrderFlips(v.s, s); }
  }

  // ---------------------------------------------------------------- comparisons

  /** The text reads as a condition that holds of exactly the rows `p` holds of. */
  ghost predicate DenotesCond(a: string, c: Cond) {
    exists ts :: CondText(a, ts, c)
  }

  lemma TenantText(tenant: string)
    ensures DenotesCond("tenant_id = " + Quote(tenant), Compare(Column("tenant_id"), "=", Literal(tenant)))
  {
    var name := "tenant_id";
    var t := ColumnText(name);
    QuoteOpen(tenant);
    LiteralRead(tenant);
    CompareText(name, [Word(name)], t, "=", Quote(tenant), [Lit(tenant)], Literal(tenant));
    assert name + " " + "=" + " " == "tenant_id = ";
  }

  function LevelCond(op: string, s: string): Cond {
    Compare(Apply("indexOf", [Array(LEVELS), Column("level")]), op, Apply("indexOf", [Array(LEVELS), Literal(s)]))
  }

  lemma RanksCompared(op: string, name: string, q: string, x: string, y: string, l: Term, r: Term)
    requires op in OPERATORS && (exists tx :: TermText(x, tx, l)) && (exists ty :: TermText(y, ty, r))
    requires x == "indexOf(" + LevelArray() + ", " + name + ")" && y == "indexOf(" + LevelArray() + ", " + q + ")"
    ensures DenotesCond("indexOf(" + LevelArray() + ", " + name + ") " + op + " indexOf(" + LevelArray() + ", " + q + ")",
                        Compare(l, op, r))
  {
    var tx :| TermText(x, tx, l);
    var ty :| TermText(y, ty, r);
    CompareText(x, tx, l, op, y, ty, r);
    LevelSpelling(LevelArray(), name, op, q);
  }

  lemma LevelText(op: string, s: string)
    requires op in OPERATORS
    ensures DenotesCond("indexOf(" + LevelArray() + ", " + "level" + ") " + op + " indexOf(" + LevelArray() + ", " + Quote(s) + ")",
                        LevelCond(op, s))
  {
    var name := "level";
    WordOpen(name);
    QuoteOpen(s);
    RankText(name, Word(name), Column(name));
    RankText(Quote(s), Lit(s), Literal(s));
    RanksCompared(op, name, Quote(s), "indexOf(" + LevelArray() + ", " + name + ")", "indexOf(" + LevelArray() + ", " + Quote(s) + ")",
                  LevelCond(op, s).lhs, LevelCond(op, s).rhs);
  }

  lemma LevelSpelling(arr: string, name: string, op: string, q: string)
    ensures ("indexOf(" + arr + ", " + name + ")") + " " + op + " " + ("indexOf(" + arr + ", " + q + ")")
         == "indexOf(" + arr + ", " + name + ") " + op + " indexOf(" + arr + ", " + q + ")"
  {
    var x := "indexOf(" + arr + ", " + name;
    assert x + ")" + " " == x + ") ";
    var z := x + ") " + op;
    assert z + " " + ("indexOf(" + arr + ", " + q + ")") == z + " indexOf(" + arr + ", " + q + ")" by {
      assert z + " " + "indexOf(" == z + " indexOf(";
      Regroup(z + " ", "indexOf(" + arr, ", ", q, ")");
    }
  }

  lemma LevelMeans(op: string, s: string, env: Env)
    ensures EvalCond(LevelCond(op, s), env) <==>
            match Get(env, "level") case Text(l) => OpHolds(op, Severity(l) - Severity(s)) case _ => false
  {
    SeverityIsIndex(s);
    match Get(env, "level")
    case Text(l) => SeverityIsIndex(l);
    case _ =>
  }

  lemma TenantComparison(table: string, tenant: string, f: Field, op: string, v: Value) returns (c: Cond)
    requires IsTenantField(f)
    ensures DenotesCond(CompileComparison(table, tenant, f, op, v).value, c)
    ensures forall env :: EvalCond(c, env) <==> ComparisonMeans(table, tenant, f, op, v, env)
  {
    TenantText(tenant);
    c := Compare(Column("tenant_id"), "=", Literal(tenant));
    forall env ensures EvalCond(c, env) <==> ComparisonMeans(table, tenant, f, op, v, env) {
      EqualText(Get(env, "tenant_id"), tenant);
    }
  }

  lemma LevelComparison(table: string, tenant: string, f: Field, op: string, v: Value) returns (c: Cond)
    requires WfComparison(f, op, v) && CompileComparison(table, tenant, f, op, v).Ok? && !IsTenantField(f)
    requires MapField(table, f).value.1 && v.ValString? && IsOrdering(op)
    ensures DenotesCond(CompileComparison(table, tenant, f, op, v).value, c)
    ensures forall env :: EvalCond(c, env) <==> ComparisonMeans(table, tenant, f, op, v, env)
  {
    var tl, l := FieldText(table, f);
    LevelText(op, v.str);
    c := LevelCond(op, v.str);
    forall env ensures EvalCond(c, env) <==> ComparisonMeans(table, tenant, f, op, v, env) {
      LevelMeans(op, v.str, env);
    }
  }

  lemma PlainMeans(table: string, tenant: string, f: Field, op: string, v: Value, l: Term, r: Term)
    requires WfField(f) && MapField(table, f).Ok? && !IsTenantField(f)
    requires !(|f| == 1 && Lower(f[0]) == "level" && v.ValString? && IsOrdering(op))
    requires forall env :: EvalTerm(l, env) == FieldMeaning(table, f, env)
    requires forall env :: EvalTerm(r, env) == ValueMeaning(v, env)
    ensures forall env :: EvalCond(Compare(l, op, r), env) <==> ComparisonMeans(table, tenant, f, op, v, env)
  {}

  lemma LevelFlag(table: string, f: Field)
    requires WfField(f) && MapField(table, f).Ok?
    ensures |f| == 1 && Lower(f[0]) == "level" ==> MapField(table, f).value.1
  {}

  lemma PlainComparison(table: string, tenant: string, f: Field, op: string, v: Value) returns (c: Cond)
    requires WfComparison(f, op, v) && CompileComparison(table, tenant, f, op, v).Ok? && !IsTenantField(f)
    requires !(MapField(table, f).value.1 && v.ValString? && IsOrdering(op))
    ensures DenotesCond(CompileComparison(table, tenant, f, op, v).value, c)
    ensures forall env :: EvalCond(c, env) <==> ComparisonMeans(table, tenant, f, op, v, env)
  {
    var tl, l := FieldText(table, f);
    var tr, r := ValueText(v);
    CompareText(MapField(table, f).value.0, tl, l, op, CompileValue(v), tr, r);
    LevelFlag(table, f);
    PlainMeans(table, tenant, f, op, v, l, r);
    c := Compare(l, op, r);
  }

  lemma ComparisonText(table: string, tenant: string, f: Field, op: string, v: Value) returns (c: Cond)
    requires WfComparison(f, op, v) && CompileComparison(table, tenant, f, op, v).Ok?
    ensures DenotesCond(CompileComparison(table, tenant, f, op, v).value, c)
    ensures forall env :: EvalCond(c, env) <==> ComparisonMeans(table, tenant, f, op, v, env)
  {
    if IsTenantField(f) {
      c := TenantComparison(table, tenant, f, op, v);
    } else if MapField(table, f).value.1 && v.ValString? && IsOrdering(op) {
      c := LevelComparison(table, tenant, f, op, v);
    } else {
      c := PlainComparison(table, tenant, f, op, v);
    }
  }

  // ---------------------------------------------------------------- expressions

  /** Induction over the tree: the text of every WHERE tree means what the tree means. */
  lemma {:induction false} ExprText(table: string, tenant: string, e: Expr) returns (c: Cond)
    requires WfExpr(e) && CompileExpr(table, tenant, e).Ok?
    ensures DenotesCond(CompileExpr(table, tenant, e).value, c)
    ensures forall env :: EvalCond(c, env) <==> Means(table, tenant, e, env)
  {
    match e
    case Comparison(f, op, v) =>
      c := ComparisonText(table, tenant, f, op, v);
    case Paren(i) =>
      c := ExprText(table, tenant, i);
      ParenDenotes(CompileExpr(table, tenant, i).value, c);
    case Binary(op, l, r) =>
      var cl := ExprText(table, tenant, l);
      var cr := ExprText(table, tenant, r);
      c := Connect(op.AND?, cl, cr);
      BinaryDenotes(CompileExpr(table, tenant, l).value, cl, op, CompileExpr(table, tenant, r).value, cr);
  }

  lemma ParenDenotes(a: string, c: Cond)
    requires DenotesCond(a, c)
    ensures DenotesCond("(" + a + ")", c)
  {
    var ts :| CondText(a, ts, c);
    ParenText(a, ts, c);
  }

  lemma BinaryDenotes(a: string, ca: Cond, op: BoolOp, b: string, cb: Cond)
    requires DenotesCond(a, ca) && DenotesCond(b, cb)
    ensures DenotesCond("(" + a + " " + OpText(op) + " " + b + ")", Connect(op.AND?, ca, cb))
  {
    var ta :| CondText(a, ta, ca);
    var tb :| CondText(b, tb, cb);
    BinaryText(a, ta, ca, op.AND?, b, tb, cb);
  }

  // ---------------------------------------------------------------- search

  function ProbeCond(t: string): Cond {
    Holds(Apply("hasTokenCaseInsensitive", [Column("message")] + Literals([t])))
  }

  lemma ProbeText(t: string)
    ensures DenotesCond(Probe(t), ProbeCond(t))
  {
    var f, col := "hasTokenCaseInsensitive", "message";
    WordOpen(col);
    QuoteOpen(t);
    assert "hasTokenCaseInsensitive(" == f + "(";
    CallText(f, "hasTokenCaseInsensitive(", col, [Word(col)], Quote(t), [Lit(t)]);
    assert "hasTokenCaseInsensitive(" + col + ", " == "hasTokenCaseInsensitive(message, ";
    JsonRead(f, col, [t]);
    var ts := [Word(f), LP] + ([Word(col)] + [Sql.Comma] + [Lit(t)]) + [RP];
    HoldsText(Probe(t), ts, ProbeCond(t).t);
  }

  lemma ProbeMeans(t: string, env: Env)
    ensures EvalCond(ProbeCond(t), env) <==> MessageHas(env, t)
  {
    assert [Column("message")] + Literals([t]) == [Column("message"), Literal(t)];
  }

  ghost predicate DenotesChain(a: string, c: Cond) {
    exists ts :: ChainText(a, ts, c)
  }

  lemma ChainGrows(x: string, a: Cond, y: string, b: Cond)
    requires DenotesChain(x, a) && DenotesCond(y, b)
    ensures DenotesChain(x + " AND " + y, And(a, b))
  {
    var ta :| ChainText(x, ta, a);
    var tb :| CondText(y, tb, b);
    ChainAnd(x, ta, a, y, tb, b);
  }

  lemma ChainBegins(a: string, c: Cond)
    requires DenotesCond(a, c)
    ensures DenotesChain(a, c)
  {
    var ts :| CondText(a, ts, c);
    ChainStart(a, ts, c);
  }

  /** The probes joined by AND hold of a row exactly when each of them does. */
  lemma {:induction false} ProbesText(toks: seq<string>) returns (c: Cond)
    requires toks != []
    ensures DenotesChain(Join(Probes(toks), " AND "), c)
    ensures forall env :: EvalCond(c, env) <==> forall t :: t in toks ==> MessageHas(env, t)
    decreases |toks|
  {
    var n := |toks| - 1;
    var init, last := toks[..n], toks[n];
    ProbeText(last);
    assert toks == init + [last];
    if n == 0 {
      c := ProbeCond(last);
      assert Probes(toks) == [Probe(last)];
      ChainBegins(Probe(last), c);
      forall env ensures EvalCond(c, env) <==> forall t :: t in toks ==> MessageHas(env, t) {
        ProbeMeans(last, env);
      }
    } else {
      var ci := ProbesText(init);
      assert Probes(toks) == Probes(init) + [Probe(last)];
      JoinSnoc(Probes(init), Probe(last), " AND ");
      ChainGrows(Join(Probes(init), " AND "), ci, Probe(last), ProbeCond(last));
      c := And(ci, ProbeCond(last));
      forall env ensures EvalCond(c, env) <==> forall t :: t in toks ==> MessageHas(env, t) {
        ProbeMeans(last, env);
      }
    }
  }

  lemma ParenthesisedProbes(toks: seq<string>) returns (c: Cond)
    requires toks != []
    ensures DenotesCond("(" + Join(Probes(toks), " AND ") + ")", c)
    ensures forall env :: EvalCond(c, env) <==> forall t :: t in toks ==> MessageHas(env, t)
  {
    c := ProbesText(toks);
    var a := Join(Probes(toks), " AND ");
    var ts :| ChainText(a, ts, c);
    ChainParens(a, ts, c);
  }

  lemma Alphabet(c: char)
    ensures LetterOrDigit(c) <==> IsAlnum(c)
  {}

  /** Where a phrase can be cut without cutting a run. */
  ghost predicate CutsNoRun(s: string, k: nat) {
    k <= |s| && (k == 0 || k == |s| || !LetterOrDigit(s[k - 1]) || !LetterOrDigit(s[k]))
  }

  /** A run behind the cut is a run of the rest. */
  lemma RunOfRest(s: string, k: nat, i: int, j: int)
    requires CutsNoRun(s, k) && k <= i && WholeRun(s, i, j)
    ensures WholeRun(s[k..], i - k, j - k) && s[k..][i - k..j - k] == s[i..j]
  {
    assert forall m :: i - k <= m < j - k ==> s[k..][m] == s[m + k];
  }

  lemma RunOfWhole(s: string, k: nat, i: int, j: int)
    requires CutsNoRun(s, k) && WholeRun(s[k..], i, j)
    ensures WholeRun(s, i + k, j + k) && s[i + k..j + k] == s[k..][i..j]
  {
    forall m | i + k <= m < j + k ensures LetterOrDigit(s[m]) { assert s[k..][m - k] == s[m]; }
  }

  /** How the tokens of a phrase start: no token at a separator, a whole run otherwise. */
  lemma FirstToken(s: string) returns (k: nat)
    requires s != ""
    ensures 0 < k <= |s| && CutsNoRun(s, k)
    ensures LetterOrDigit(s[0]) ==> WholeRun(s, 0, k) && Runs(s) == [s[..k]] + Runs(s[k..])
    ensures !LetterOrDigit(s[0]) ==> k == 1 && Runs(s) == Runs(s[k..])
  {
    Alphabet(s[0]);
    if IsAlnum(s[0]) {
      k := AlnumLen(s);
      if k < |s| {
        Alphabet(s[k]);
      }
      forall m | 0 <= m < k ensures LetterOrDigit(s[m]) {
        assert IsAlnum(s[..k][m]);
        Alphabet(s[m]);
      }
    } else {
      k := 1;
    }
  }

  /** Two runs either are the same or do not touch. */
  lemma RunsApart(s: string, k: int, i: int, j: int)
    requires WholeRun(s, 0, k) && WholeRun(s, i, j) && i < k
    ensures i == 0 && j == k
  {}

  /** The tokens are exactly those stretches. */
  lemma {:induction false} RunIsToken(s: string, i: int, j: int)
    requires WholeRun(s, i, j)
    ensures s[i..j] in Runs(s)
    decreases |s|
  {
    var k := FirstToken(s);
    if i < k {
      assert LetterOrDigit(s[i]);
      RunsApart(s, k, i, j);
      assert s[0..k] == s[..k];
    } else {
      RunOfRest(s, k, i, j);
      RunIsToken(s[k..], i - k, j - k);
    }
  }

  ghost predicate RunOf(s: string, t: string) { exists i, j :: WholeRun(s, i, j) && t == s[i..j] }

  lemma RunBehind(s: string, k: nat, t: string)
    requires CutsNoRun(s, k) && RunOf(s[k..], t)
    ensures RunOf(s, t)
  {
    var i, j :| WholeRun(s[k..], i, j) && t == s[k..][i..j];
    RunOfWhole(s, k, i, j);
  }

  lemma TokenBehind(s: string, t: string) returns (k: nat)
    requires t in Runs(s)
    ensures 0 < k <= |s| && CutsNoRun(s, k) && (RunOf(s, t) || t in Runs(s[k..]))
  {
    k := FirstToken(s);
    if LetterOrDigit(s[0]) && t == s[..k] {
      assert t == s[0..k];
    }
  }

  lemma {:induction false} TokenIsRun(s: string, t: string)
    requires t in Runs(s)
    ensures RunOf(s, t)
    decreases |s|
  {
    var k := TokenBehind(s, t);
    if !RunOf(s, t) {
      TokenIsRun(s[k..], t);
      RunBehind(s, k, t);
    }
  }

  lemma FoundByTokens(s: Stmt, env: Env)
    ensures Found(s, env) <==> (s.kind.Search? ==> forall t :: t in Runs(s.search) ==> MessageHas(env, t))
  {
    forall t | t in Runs(s.search) ensures RunOf(s.search, t) {
      TokenIsRun(s.search, t);
    }
    forall i, j | WholeRun(s.search, i, j) ensures s.search[i..j] in Runs(s.search) {
      RunIsToken(s.search, i, j);
    }
  }

  lemma ParenthesisedWhere(table: string, tenant: string, e: Expr) returns (c: Cond)
    requires WfExpr(e) && CompileExpr(table, tenant, e).Ok?
    ensures DenotesCond("(" + CompileExpr(table, tenant, e).value + ")", c)
    ensures forall env :: EvalCond(c, env) <==> Means(table, tenant, e, env)
  {
    c := ExprText(table, tenant, e);
    ParenDenotes(CompileExpr(table, tenant, e).value, c);
  }

  // ---------------------------------------------------------------- the whole clause

  /** The WHERE text, followed by anything the compiler puts after it, reads as `c`
      and leaves exactly what follows. */
  ghost predicate ReadsAs(where: string, c: Cond) {
    forall rest: string ::
      Safe(rest) && SqlScan(rest).Some? && StopsWhere(SqlScan(rest).value) ==>
        && SqlScan(where + rest).Some?
        && ReadOr(SqlScan(where + rest).value) == Got(c, SqlScan(rest).value)
  }

  lemma ChainReadsAs(a: string, c: Cond)
    requires DenotesChain(a, c)
    ensures ReadsAs(a, c)
  {
    var ts :| ChainText(a, ts, c);
    forall rest: string | Safe(rest) && SqlScan(rest).Some? && StopsWhere(SqlScan(rest).value)
      ensures SqlScan(a + rest).Some? && ReadOr(SqlScan(a + rest).value) == Got(c, SqlScan(rest).value)
    {
      assert SqlScan(a + rest) == Prepend(ts, SqlScan(rest));
      ChainAsOr(ts, c, SqlScan(rest).value);
    }
  }

  lemma WherePartsAre(s: Stmt, tenant: string, parts: seq<string>)
    requires WhereText(s, s.table, tenant).Ok?
    requires parts == ["tenant_id = " + Quote(tenant)]
      + (if s.where.Some? then ["(" + CompileExpr(s.table, tenant, s.where.value).value + ")"] else [])
      + (if s.kind.Search? && Runs(s.search) != [] then ["(" + Join(Probes(Runs(s.search)), " AND ") + ")"] else [])
    ensures WhereParts(s, s.table, tenant) == Ok(parts)
  {
    var guard := ["tenant_id = " + Quote(tenant)];
    assert guard + [] == guard;
  }

  lemma GuardChain(tenant: string) returns (c: Cond)
    ensures DenotesChain(Join(["tenant_id = " + Quote(tenant)], " AND "), c)
    ensures forall env :: EvalCond(c, env) <==> Get(env, "tenant_id") == Val.Text(tenant)
  {
    TenantText(tenant);
    c := Compare(Column("tenant_id"), "=", Literal(tenant));
    ChainBegins("tenant_id = " + Quote(tenant), c);
    forall env ensures EvalCond(c, env) <==> Get(env, "tenant_id") == Val.Text(tenant) {
      EqualText(Get(env, "tenant_id"), tenant);
    }
  }

  /** One more conjunct behind the chain. */
  lemma PartAdded(parts: seq<string>, c: Cond, text: string, w: Cond)
    requires parts != [] && DenotesChain(Join(parts, " AND "), c) && DenotesCond(text, w)
    ensures DenotesChain(Join(parts + [text], " AND "), And(c, w))
  {
    JoinSnoc(parts, text, " AND ");
    ChainGrows(Join(parts, " AND "), c, text, w);
  }

  lemma WhereConjuncts(s: Stmt, tenant: string) returns (c: Cond)
    requires WhereText(s, s.table, tenant).Ok? && (s.where.Some? ==> WfExpr(s.where.value))
    ensures DenotesChain(WhereText(s, s.table, tenant).value, c)
    ensures forall env :: EvalCond(c, env) <==> RowQualifies(s, tenant, env)
  {
    var parts := ["tenant_id = " + Quote(tenant)];
    c := GuardChain(tenant);
    if s.where.Some? {
      var w := ParenthesisedWhere(s.table, tenant, s.where.value);
      var text := "(" + CompileExpr(s.table, tenant, s.where.value).value + ")";
      PartAdded(parts, c, text, w);
      c := And(c, w);
      parts := parts + [text];
    }
    if s.kind.Search? && Runs(s.search) != [] {
      var p := ParenthesisedProbes(Runs(s.search));
      var text := "(" + Join(Probes(Runs(s.search)), " AND ") + ")";
      PartAdded(parts, c, text, p);
      c := And(c, p);
      parts := parts + [text];
    }
    WherePartsAre(s, tenant, parts);
    forall env ensures EvalCond(c, env) <==> RowQualifies(s, tenant, env) { FoundByTokens(s, env); }
  }
}
