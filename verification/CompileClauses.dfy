/** The emitted output list and what follows the WHERE, read back (domains/query/compile.go:95-170). */
module CompileClauses {
  import opened Text
  import opened Ast
  import opened ParserSpec
  import opened ParserLaws
  import opened Compile
  import opened Meaning
  import opened Sql
  import opened SqlScanning
  import opened SqlReading
  import opened SqlSelect
  import opened CompileMeaning

  // ---------------------------------------------------------------- what follows WHERE

  /** A clause after the WHERE: starts with a space and a keyword that ends a condition. */
  ghost predicate Clause(z: string, ts: seq<Tok>) {
    && Open(SqlScan, z, ts) && z != "" && z[0] == ' '
    && ts != [] && ts[0].Word? && ts[0].w in {"GROUP", "ORDER", "LIMIT"}
  }

  lemma LeadingSpace(a: string, ts: seq<Tok>)
    requires Open(SqlScan, a, ts)
    ensures Open(SqlScan, " " + a, ts)
  {
    SqlScanning.SpaceClosed();
    ClosedOpen(SqlScan, " ", [], a, ts);
    assert [] + ts == ts;
  }

  /** ` KW a`, given the text of ` KW `. */
  lemma ClauseText(kw: string, head: string, a: string, ta: seq<Tok>)
    requires IsIdent(kw) && kw in {"GROUP", "ORDER", "LIMIT"} && head == " " + kw + " " && Open(SqlScan, a, ta)
    ensures Clause(head + a, [Word(kw)] + ta)
  {
    SqlScanning.SpaceClosed();
    WordOpen(kw);
    LeadingSpace(kw, [Word(kw)]);
    OpenSpace(SqlScan, " " + kw, [Word(kw)]);
    ClosedOpen(SqlScan, head, [Word(kw)], a, ta);
  }

  lemma ClauseThen(y: string, ty: seq<Tok>, z: string, tz: seq<Tok>)
    requires Clause(y, ty) && Clause(z, tz)
    ensures Clause(y + z, ty + tz)
  {
    OpenOpen(SqlScan, y, ty, z, tz);
  }

  lemma ClauseScans(z: string, ts: seq<Tok>)
    requires Clause(z, ts)
    ensures Safe(z) && SqlScan(z) == Some(ts) && StopsWhere(ts)
  {
    assert Safe("");
    assert z + "" == z && ts + [] == ts;
    assert SqlScan("") == Some([]);
  }

  lemma LimitClause(n: int)
    ensures Clause(" LIMIT " + SignedDecimal(n), [Word("LIMIT")] + SignedToks(n))
  {
    SignedText(n);
    ClauseText("LIMIT", " LIMIT ", SignedDecimal(n), SignedToks(n));
  }

  /** `BY a` */
  lemma ByText(a: string, ta: seq<Tok>)
    requires Open(SqlScan, a, ta)
    ensures Open(SqlScan, "BY " + a, [Word("BY")] + ta)
  {
    SqlScanning.SpaceClosed();
    WordOpen("BY");
    OpenSpace(SqlScan, "BY", [Word("BY")]);
    ClosedOpen(SqlScan, "BY" + " ", [Word("BY")], a, ta);
    assert "BY" + " " == "BY ";
  }

  /** The terms have the values of the fields. */
  ghost predicate TermsMean(table: string, vs: seq<Term>, fs: seq<Field>) {
    |vs| == |fs| && forall i, env {:trigger EvalTerm(vs[i], env)} :: 0 <= i < |fs| ==> EvalTerm(vs[i], env) == FieldMeaning(table, fs[i], env)
  }

  lemma {:induction false} FieldsText(table: string, fs: seq<Field>) returns (ts: seq<Tok>, vs: seq<Term>)
    requires fs != [] && FieldTexts(table, fs).Ok? && forall f :: f in fs ==> WfField(f)
    ensures ListText(ReadTerm, Join(FieldTexts(table, fs).value, ", "), ts, vs) && TermsMean(table, vs, fs)
    decreases |fs|
  {
    var n := |fs| - 1;
    var last := MapField(table, fs[n]).value.0;
    var tl, v := OneField(table, fs[n]);
    if n == 0 {
      assert FieldTexts(table, fs).value == [last];
      ts, vs := tl, [v];
    } else {
      var ti, vi := FieldsText(table, fs[..n]);
      var init := FieldTexts(table, fs[..n]).value;
      FieldCount(table, fs[..n]);
      FieldAdded(init, ti, vi, last, tl, v);
      TermAdded(table, vi, fs, v);
      ts, vs := ti + [Sql.Comma] + tl, vi + [v];
    }
  }

  lemma OneField(table: string, f: Field) returns (ts: seq<Tok>, t: Term)
    requires WfField(f) && MapField(table, f).Ok?
    ensures ListText(ReadTerm, MapField(table, f).value.0, ts, [t])
    ensures forall env :: EvalTerm(t, env) == FieldMeaning(table, f, env)
  {
    ts, t := FieldText(table, f);
    TermReads(ts, t);
    ListOne(ReadTerm, ts, t);
  }

  lemma FieldAdded(init: seq<string>, ti: seq<Tok>, vi: seq<Term>, last: string, tl: seq<Tok>, v: Term)
    requires init != [] && ListText(ReadTerm, Join(init, ", "), ti, vi) && ListText(ReadTerm, last, tl, [v])
    ensures ListText(ReadTerm, Join(init + [last], ", "), ti + [Sql.Comma] + tl, vi + [v])
  {
    JoinSnoc(init, last, ", ");
    ListsText(ReadTerm, Join(init, ", "), ti, vi, last, tl, [v]);
  }

  lemma TermAdded(table: string, vi: seq<Term>, fs: seq<Field>, v: Term)
    requires fs != [] && TermsMean(table, vi, fs[..|fs| - 1])
    requires forall env :: EvalTerm(v, env) == FieldMeaning(table, fs[|fs| - 1], env)
    ensures TermsMean(table, vi + [v], fs)
  {
    forall i, env | 0 <= i < |fs| ensures EvalTerm((vi + [v])[i], env) == FieldMeaning(table, fs[i], env) {
      if i < |fs| - 1 {
        assert EvalTerm(vi[i], env) == FieldMeaning(table, fs[..|fs| - 1][i], env);
      }
    }
  }

  lemma {:induction false} FieldCount(table: string, fs: seq<Field>)
    requires FieldTexts(table, fs).Ok?
    ensures |FieldTexts(table, fs).value| == |fs|
  {
    if fs != [] {
      FieldCount(table, fs[..|fs| - 1]);
    }
  }

  lemma GroupClause(table: string, fs: seq<Field>) returns (ts: seq<Tok>, vs: seq<Term>)
    requires fs != [] && GroupText(table, fs).Ok? && forall f :: f in fs ==> WfField(f)
    ensures Clause(GroupText(table, fs).value, [Word("GROUP")] + ([Word("BY")] + ts))
    ensures ListReads(ReadTerm, ts, vs) && TermsMean(table, vs, fs)
  {
    ts, vs := FieldsText(table, fs);
    ByClause("GROUP", " GROUP BY ", Join(FieldTexts(table, fs).value, ", "), ts);
  }

  lemma ByClause(kw: string, head: string, a: string, ta: seq<Tok>)
    requires kw in {"GROUP", "ORDER"} && head == " " + kw + " BY " && Open(SqlScan, a, ta)
    ensures Clause(head + a, [Word(kw)] + ([Word("BY")] + ta))
  {
    ByText(a, ta);
    ClauseText(kw, " " + kw + " ", "BY " + a, [Word("BY")] + ta);
    assert head == " " + kw + " " + "BY ";
    CatAssoc(" " + kw + " ", "BY ", a);
  }

  lemma OrderClauseText(m: string, tm: seq<Tok>, dir: string)
    requires Open(SqlScan, m, tm) && IsIdent(dir)
    ensures Clause(" ORDER BY " + m + " " + dir, [Word("ORDER")] + ([Word("BY")] + (tm + [Word(dir)])))
  {
    SqlScanning.SpaceClosed();
    WordOpen(dir);
    OpenSpace(SqlScan, m, tm);
    ClosedOpen(SqlScan, m + " ", tm, dir, [Word(dir)]);
    ByClause("ORDER", " ORDER BY ", m + " " + dir, tm + [Word(dir)]);
    CatAssoc(" ORDER BY ", m + " ", dir);
    CatAssoc(" ORDER BY ", m, " ");
  }

  lemma OrderClause(table: string, ob: OrderItem) returns (tm: seq<Tok>, t: Term)
    requires OrderText(table, Some(ob)).Ok? && WfField(ob.field)
    ensures Clause(OrderText(table, Some(ob)).value,
                   [Word("ORDER")] + ([Word("BY")] + (tm + [Word(if ob.desc then "DESC" else "ASC")])))
    ensures TokensRead(tm, t) && forall env :: EvalTerm(t, env) == FieldMeaning(table, ob.field, env)
  {
    tm, t := FieldText(table, ob.field);
    OrderClauseText(MapField(table, ob.field).value.0, tm, if ob.desc then "DESC" else "ASC");
  }

  // ---------------------------------------------------------------- the end, read back

  ghost predicate OrderMeans(table: string, o: Option<(Term, bool)>, ob: Option<OrderItem>) {
    match ob
    case None => o.None?
    case Some(item) =>
      o.Some? && o.value.1 == item.desc && forall env :: EvalTerm(o.value.0, env) == FieldMeaning(table, item.field, env)
  }

  /** Grouping, order and limit are those of the statement. */
  ghost predicate EndMeans(e: End, s: Stmt, opts: Options) {
    TermsMean(s.table, e.groupBy, s.groupBy) && OrderMeans(s.table, e.orderBy, s.orderBy) && InForce(e.limit, s.limit, opts.defaultLimit, opts.maxLimit)
  }

  /** The limit alone. */
  lemma LimitEnds(n: int) returns (ts: seq<Tok>)
    ensures Clause(" LIMIT " + SignedDecimal(n), ts) && ts[0] == Word("LIMIT") && ReadLimit(ts) == Some(n)
  {
    LimitClause(n);
    LimitRead(n);
    ts := [Word("LIMIT")] + SignedToks(n);
  }

  /** The order in front of the limit. */
  lemma OrderEnds(table: string, ob: Option<OrderItem>, z: string, tz: seq<Tok>) returns (ts: seq<Tok>, o: Option<(Term, bool)>)
    requires OrderText(table, ob).Ok? && (ob.Some? ==> WfField(ob.value.field))
    requires Clause(z, tz) && tz[0] == Word("LIMIT")
    ensures Clause(OrderText(table, ob).value + z, ts) && ts[0].w in {"ORDER", "LIMIT"}
    ensures ReadOrder(ts) == Got(o, tz) && OrderMeans(table, o, ob)
  {
    if ob.Some? {
      var tm, t := OrderClause(table, ob.value);
      var to := [Word("ORDER")] + ([Word("BY")] + (tm + [Word(if ob.value.desc then "DESC" else "ASC")]));
      ClauseThen(OrderText(table, ob).value, to, z, tz);
      OrderRead(tm, t, ob.value.desc, tz);
      ts, o := to + tz, Some((t, ob.value.desc));
    } else {
      assert "" + z == z;
      ts, o := tz, None;
    }
  }

  /** The grouping in front of both. */
  lemma GroupEnds(table: string, fs: seq<Field>, z: string, tz: seq<Tok>) returns (ts: seq<Tok>, g: seq<Term>)
    requires GroupText(table, fs).Ok? && forall f :: f in fs ==> WfField(f)
    requires Clause(z, tz) && tz[0].w in {"ORDER", "LIMIT"}
    ensures Clause(GroupText(table, fs).value + z, ts)
    ensures ReadGroup(ts) == Got(g, tz) && TermsMean(table, g, fs)
  {
    if fs != [] {
      var tf, vs := GroupClause(table, fs);
      ClauseThen(GroupText(table, fs).value, [Word("GROUP")] + ([Word("BY")] + tf), z, tz);
      GroupRead(tf, vs, tz);
      ts, g := [Word("GROUP")] + ([Word("BY")] + tf) + tz, vs;
    } else {
      assert "" + z == z;
      ts, g := tz, [];
    }
  }

  lemma SelectSuffixClause(s: Stmt, opts: Options) returns (ts: seq<Tok>, e: End)
    requires WfStmt(s) && SelectSuffix(s.table, s, opts).Ok?
    ensures Clause(SelectSuffix(s.table, s, opts).value, ts) && ReadEnd(ts) == Some(e) && EndMeans(e, s, opts)
  {
    var n := Limit(s, opts);
    var g, o := GroupText(s.table, s.groupBy).value, OrderText(s.table, s.orderBy).value;
    var tl := LimitEnds(n);
    var tor, eo := OrderEnds(s.table, s.orderBy, " LIMIT " + SignedDecimal(n), tl);
    var eg: seq<Term>;
    ts, eg := GroupEnds(s.table, s.groupBy, o + (" LIMIT " + SignedDecimal(n)), tor);
    e := End(eg, eo, n);
    SuffixSpelling(g, o, SignedDecimal(n));
  }

  lemma SuffixSpelling(g: string, o: string, n: string)
    ensures g + (o + (" LIMIT " + n)) == g + o + " LIMIT " + n
  {}

  /** What the compiler makes of a SEARCH: all default columns, newest first. */
  function Completed(s: Stmt): Stmt {
    if s.kind.Search?
    then s.(select := [SelectItem("", None, "")], groupBy := [], orderBy := Some(OrderItem(["timestamp"], true)))
    else s
  }

  lemma TimestampField(table: string)
    ensures MapField(table, ["timestamp"]) == Ok(("timestamp", false)) && WfField(["timestamp"])
  {
    assert Lower("timestamp") == "timestamp";
    assert IsIdent("timestamp");
  }

  lemma SearchSuffixClause(s: Stmt, opts: Options) returns (ts: seq<Tok>, e: End)
    requires s.kind.Search?
    ensures Clause(SearchSuffix(s, opts), ts) && ReadEnd(ts) == Some(e) && EndMeans(e, Completed(s), opts)
  {
    var n := Limit(s, opts);
    var ob := OrderItem(["timestamp"], true);
    TimestampField(s.table);
    var tl := LimitEnds(n);
    var eo: Option<(Term, bool)>;
    ts, eo := OrderEnds(s.table, Some(ob), " LIMIT " + SignedDecimal(n), tl);
    e := End([], eo, n);
    OrderSpelling(s.table);
    SearchSpelling(SignedDecimal(n));
  }

  lemma OrderSpelling(table: string)
    ensures OrderText(table, Some(OrderItem(["timestamp"], true))) == Ok(" ORDER BY timestamp DESC")
  {
    TimestampField(table);
    assert " ORDER BY " + "timestamp" + " " + "DESC" == " ORDER BY timestamp DESC";
  }

  lemma SearchSpelling(n: string)
    ensures " ORDER BY timestamp DESC" + (" LIMIT " + n) == " ORDER BY timestamp DESC LIMIT " + n
  {
    assert " ORDER BY timestamp DESC" + " LIMIT " == " ORDER BY timestamp DESC LIMIT ";
  }

  // ---------------------------------------------------------------- the output list

  /** The name an item gets in the result. */
  function OutName(it: SelectItem): string {
    match it.field
    case None => AliasOr(it.alias, "count")
    case Some(f) =>
      var name := f[|f| - 1];
      AliasOr(it.alias, if it.agg == "" then name else it.agg + "_" + name)
  }

  predicate IsStar(it: SelectItem) { it.field.None? && it.agg == "" }

  function StarItems(columns: seq<string>): seq<SelectItem> {
    seq(|columns|, i requires 0 <= i < |columns| => SelectItem("", Some([columns[i]]), columns[i]))
  }

  /** The items a list asks for: stars spelled out, names settled. */
  function Asked(table: string, items: seq<SelectItem>): seq<SelectItem> {
    if items == [] then []
    else
      var it := items[|items| - 1];
      Asked(table, items[..|items| - 1])
        + if IsStar(it) then StarItems(DefaultProjection(table)) else [it.(alias := OutName(it))]
  }

  /** The output is the item: its aggregate, its name, its value in every row. */
  ghost predicate OutputMeans(table: string, o: Output, it: SelectItem) {
    && o.agg == it.agg && o.name == it.alias && (o.term.Some? <==> it.field.Some?)
    && (it.field.Some? ==> forall env :: EvalTerm(o.term.value, env) == FieldMeaning(table, it.field.value, env))
  }

  ghost predicate OutputsMean(table: string, os: seq<Output>, items: seq<SelectItem>) {
    |os| == |items| && forall i :: 0 <= i < |os| ==> OutputMeans(table, os[i], items[i])
  }

  function Names(os: seq<Output>): seq<string> { seq(|os|, i requires 0 <= i < |os| => os[i].name) }

  lemma NamesCat(a: seq<Output>, b: seq<Output>)
    ensures Names(a + b) == Names(a) + Names(b)
  {}

  lemma OutputsCat(table: string, a: seq<Output>, ia: seq<SelectItem>, b: seq<Output>, ib: seq<SelectItem>)
    requires OutputsMean(table, a, ia) && OutputsMean(table, b, ib)
    ensures OutputsMean(table, a + b, ia + ib)
  {
    forall i | 0 <= i < |a + b| ensures OutputMeans(table, (a + b)[i], (ia + ib)[i]) {
      if i >= |a| {
        assert (a + b)[i] == b[i - |a|] && (ia + ib)[i] == ib[i - |a|];
      }
    }
  }

  // ---------------------------------------------------------------- one item

  /** `a AS name` */
  lemma AsText(a: string, ta: seq<Tok>, name: string)
    requires Open(SqlScan, a, ta) && IsIdent(name)
    ensures Open(SqlScan, a + " AS " + name, ta + [Word("AS"), Word(name)])
  {
    var kw := "AS";
    WordOpen(kw);
    WordOpen(name);
    Spaced3(a, ta, kw, [Word(kw)], name, [Word(name)]);
    AsSpelling(a, name);
    assert ta + [Word(kw)] + [Word(name)] == ta + [Word("AS"), Word(name)];
  }

  lemma AsSpelling(a: string, name: string)
    ensures a + " " + "AS" + " " + name == a + " AS " + name
  {
    assert a + " " + "AS" + " " == a + " AS ";
  }

  /** `f(a)` */
  lemma AggregateText(f: string, a: string, ta: seq<Tok>)
    requires IsIdent(f) && Open(SqlScan, a, ta)
    ensures Open(SqlScan, f + "(" + a + ")", [Word(f), LP] + ta + [RP])
  {
    WordOpen(f);
    OpenPunct(f, [Word(f)], '(');
    assert [Word(f)] + [LP] == [Word(f), LP];
    ClosedOpen(SqlScan, f + "(", [Word(f), LP], a, ta);
    OpenPunct(f + "(" + a, [Word(f), LP] + ta, ')');
  }

  lemma CountText()
    ensures Open(SqlScan, "count()", [Word("count"), LP, RP])
  {
    var f := "count";
    WordOpen(f);
    SqlScanning.PunctClosed('(');
    SqlScanning.PunctClosed(')');
    OpenUnit(SqlScan, f, Word(f), LP, RP);
    assert f + "()" == "count()";
  }

  lemma AggIdent(agg: string)
    requires IsAgg(agg)
    ensures IsIdent(agg) && agg in AGGREGATES
  {}

  lemma JoinedIdent(a: string, b: string)
    requires IsIdent(a) && IsIdent(b)
    ensures IsIdent(a + "_" + b)
  {}

  lemma OutNameIdent(it: SelectItem)
    requires WfItem(it) && !IsStar(it)
    ensures IsIdent(OutName(it))
  {
    if it.field.Some? && it.agg != "" {
      AggIdent(it.agg);
      var f := it.field.value;
      JoinedIdent(it.agg, f[|f| - 1]);
    } else if it.field.None? {
      assert IsIdent("count");
    }
  }

  /** The text of one item, read back. */
  lemma ItemText(table: string, it: SelectItem) returns (ts: seq<Tok>, o: Output)
    requires WfItem(it) && !IsStar(it) && CompileItem(table, it).Ok?
    ensures var (e, name) := CompileItem(table, it).value;
            name == OutName(it) && ListText(ReadOutput, e + " AS " + name, ts, [o])
    ensures OutputMeans(table, o, it.(alias := OutName(it)))
  {
    var (e, name) := CompileItem(table, it).value;
    OutNameIdent(it);
    var te: seq<Tok>;
    if it.field.None? {
      CountText();
      CountReads(name);
      te, o := [Word("count"), LP, RP], Output("count", None, name);
    } else {
      var tm, t := FieldText(table, it.field.value);
      if it.agg == "" {
        NotAggregate(tm);
        NamedReads(tm, t, name);
        te, o := tm, Output("", Some(t), name);
      } else {
        AggIdent(it.agg);
        AggregateText(it.agg, MapField(table, it.field.value).value.0, tm);
        AggregateReads(it.agg, tm, t, name);
        te, o := [Word(it.agg), LP] + tm + [RP], Output(it.agg, Some(t), name);
      }
    }
    ts := te + [Word("AS"), Word(name)];
    AsText(e, te, name);
    ListOne(ReadOutput, ts, o);
  }

  lemma NotAggregate(ts: seq<Tok>)
    requires ts != [] && ts[0].Word? && (|ts| == 1 || ts[0].w == "JSONExtractString" || ts[0].w == "attributes")
    ensures |ts| == 1 || !(ts[0].Word? && ts[0].w in AGGREGATES)
  {}

  // ---------------------------------------------------------------- the star

  predicate PlainColumn(c: string) { IsIdent(c) && Lower(c) == c && c != "time" && c != "tenant" }

  lemma {:induction false} StarText(table: string, cols: seq<string>) returns (ts: seq<Tok>, os: seq<Output>)
    requires cols != [] && forall c :: c in cols ==> PlainColumn(c)
    ensures ListText(ReadOutput, Join(cols, ", "), ts, os)
    ensures OutputsMean(table, os, StarItems(cols)) && Names(os) == cols
    decreases |cols|
  {
    var n := |cols| - 1;
    var c := cols[n];
    var o := Output("", Some(Column(c)), c);
    assert PlainColumn(c);
    WordOpen(c);
    BareReads(c);
    ListOne(ReadOutput, [Word(c)], o);
    assert OutputMeans(table, o, SelectItem("", Some([c]), c));
    if n == 0 {
      assert cols == [c];
      ts, os := [Word(c)], [o];
      assert StarItems(cols) == [SelectItem("", Some([c]), c)];
    } else {
      var init := cols[..n];
      var ti, oi := StarText(table, init);
      assert cols == init + [c];
      JoinSnoc(init, c, ", ");
      ListsText(ReadOutput, Join(init, ", "), ti, oi, c, [Word(c)], [o]);
      ts, os := ti + [Sql.Comma] + [Word(c)], oi + [o];
      OutputsCat(table, oi, StarItems(init), [o], [SelectItem("", Some([c]), c)]);
      assert StarItems(cols) == StarItems(init) + [SelectItem("", Some([c]), c)];
      NamesCat(oi, [o]);
    }
  }

  predicate LowerLetters(c: string) { c != "" && forall i :: 0 <= i < |c| ==> 'a' <= c[i] <= 'z' || c[i] == '_' }

  lemma LettersPlain(c: string)
    requires LowerLetters(c) && c != "time" && c != "tenant"
    ensures PlainColumn(c)
  {
    assert Lower(c) == c;
  }

  predicate AllLetters(cols: seq<string>) { forall c :: c in cols ==> LowerLetters(c) && c != "time" && c != "tenant" }

  lemma LettersCat(a: seq<string>, b: seq<string>, all: seq<string>)
    requires AllLetters(a) && AllLetters(b) && all == a + b
    ensures AllLetters(all)
  {}

  lemma LogsFirst()
    ensures AllLetters(["id", "timestamp", "service", "level"])
  {}

  lemma LogsLast()
    ensures AllLetters(["message", "trace_id", "span_id", "body"])
  {}

  lemma LogsLetters()
    ensures AllLetters(["id", "timestamp", "service", "level", "message", "trace_id", "span_id", "body"])
  {
    LogsFirst();
    LogsLast();
    LettersCat(["id", "timestamp", "service", "level"], ["message", "trace_id", "span_id", "body"], ["id", "timestamp", "service", "level", "message", "trace_id", "span_id", "body"]);
  }

  lemma AuthFirst()
    ensures AllLetters(["id", "timestamp", "event_type", "auth_method"])
  {}

  lemma AuthLast()
    ensures AllLetters(["user_id", "ip_country", "risk_score"])
  {}

  lemma AuthLetters()
    ensures AllLetters(["id", "timestamp", "event_type", "auth_method", "user_id", "ip_country", "risk_score"])
  {
    AuthFirst();
    AuthLast();
    LettersCat(["id", "timestamp", "event_type", "auth_method"], ["user_id", "ip_country", "risk_score"], ["id", "timestamp", "event_type", "auth_method", "user_id", "ip_country", "risk_score"]);
  }

  lemma MetricsFirst()
    ensures AllLetters(["timestamp", "service", "metric_name", "metric_type"])
  {}

  lemma MetricsLast()
    ensures AllLetters(["value", "count", "sum", "attributes"])
  {}

  lemma MetricsLetters()
    ensures AllLetters(["timestamp", "service", "metric_name", "metric_type", "value", "count", "sum", "attributes"])
  {
    MetricsFirst();
    MetricsLast();
    LettersCat(["timestamp", "service", "metric_name", "metric_type"], ["value", "count", "sum", "attributes"], ["timestamp", "service", "metric_name", "metric_type", "value", "count", "sum", "attributes"]);
  }

  lemma TracesFirst()
    ensures AllLetters(["timestamp", "service", "name", "kind"])
  {}

  lemma TracesLast()
    ensures AllLetters(["status_code", "duration_ns", "trace_id", "span_id"])
  {}

  lemma TracesLetters()
    ensures AllLetters(["timestamp", "service", "name", "kind", "status_code", "duration_ns", "trace_id", "span_id"])
  {
    TracesFirst();
    TracesLast();
    LettersCat(["timestamp", "service", "name", "kind"], ["status_code", "duration_ns", "trace_id", "span_id"], ["timestamp", "service", "name", "kind", "status_code", "duration_ns", "trace_id", "span_id"]);
  }

  lemma ChangeFirst()
    ensures AllLetters(["timestamp", "service", "kind", "title", "git_sha"])
  {}

  lemma ChangeLast()
    ensures AllLetters(["deploy_id", "pr_number", "flag_key", "author"])
  {}

  lemma ChangeLetters()
    ensures AllLetters(["timestamp", "service", "kind", "title", "git_sha", "deploy_id", "pr_number", "flag_key", "author"])
  {
    ChangeFirst();
    ChangeLast();
    LettersCat(["timestamp", "service", "kind", "title", "git_sha"], ["deploy_id", "pr_number", "flag_key", "author"], ["timestamp", "service", "kind", "title", "git_sha", "deploy_id", "pr_number", "flag_key", "author"]);
  }

  lemma DefaultsPlain(table: string)
    ensures DefaultProjection(table) != [] && forall c :: c in DefaultProjection(table) ==> PlainColumn(c)
  {
    LogsLetters();
    AuthLetters();
    MetricsLetters();
    TracesLetters();
    ChangeLetters();
    assert AllLetters(DefaultProjection(table));
    forall c | c in DefaultProjection(table) ensures PlainColumn(c) {
      LettersPlain(c);
    }
  }

  // ---------------------------------------------------------------- the list

  /** The texts one item adds to the list, and their names. */
  function ItemParts(table: string, it: SelectItem): Result<(seq<string>, seq<string>)> {
    if IsStar(it) then Ok((DefaultProjection(table), DefaultProjection(table)))
    else match CompileItem(table, it)
      case Err => Err
      case Ok((e, name)) => Ok(([e + " AS " + name], [name]))
  }

  lemma OneText(table: string, it: SelectItem) returns (ts: seq<Tok>, os: seq<Output>)
    requires WfItem(it) && ItemParts(table, it).Ok?
    ensures var (exprs, cols) := ItemParts(table, it).value;
            Listed(table, exprs, cols, Asked(table, [it]), ts, os)
  {
    assert [it][..0] == [];
    if IsStar(it) {
      DefaultsPlain(table);
      ts, os := StarText(table, DefaultProjection(table));
      assert Asked(table, [it]) == StarItems(DefaultProjection(table));
    } else {
      var o: Output;
      ts, o := ItemText(table, it);
      os := [o];
      assert Asked(table, [it]) == [it.(alias := OutName(it))];
    }
  }

  lemma AskedSnoc(table: string, init: seq<SelectItem>, it: SelectItem)
    ensures Asked(table, init + [it]) == Asked(table, init) + Asked(table, [it])
  {
    assert (init + [it])[..|init|] == init && [it][..0] == [];
    assert Asked(table, []) == [];
    var one := if IsStar(it) then StarItems(DefaultProjection(table)) else [it.(alias := OutName(it))];
    assert [] + one == one;
  }

  lemma PartsSnoc(table: string, init: seq<SelectItem>, it: SelectItem)
    requires SelectParts(table, init + [it]).Ok?
    ensures SelectParts(table, init).Ok? && ItemParts(table, it).Ok?
    ensures var (ie, ic) := SelectParts(table, init).value;
            var (le, lc) := ItemParts(table, it).value;
            SelectParts(table, init + [it]).value == (ie + le, ic + lc)
  {
    assert (init + [it])[..|init|] == init;
  }

  /** A list text with its outputs, names and meaning. */
  ghost predicate Listed(table: string, exprs: seq<string>, cols: seq<string>, items: seq<SelectItem>, ts: seq<Tok>, os: seq<Output>) {
    && exprs != [] && ListText(ReadOutput, Join(exprs, ", "), ts, os)
    && Names(os) == cols && OutputsMean(table, os, items)
  }

  lemma ListedCat(table: string, ea: seq<string>, ca: seq<string>, ia: seq<SelectItem>, ta: seq<Tok>, oa: seq<Output>,
                  eb: seq<string>, cb: seq<string>, ib: seq<SelectItem>, tb: seq<Tok>, ob: seq<Output>)
    requires Listed(table, ea, ca, ia, ta, oa) && Listed(table, eb, cb, ib, tb, ob)
    ensures Listed(table, ea + eb, ca + cb, ia + ib, ta + [Sql.Comma] + tb, oa + ob)
  {
    JoinCat(ea, eb, ", ");
    ListsText(ReadOutput, Join(ea, ", "), ta, oa, Join(eb, ", "), tb, ob);
    OutputsCat(table, oa, ia, ob, ib);
    NamesCat(oa, ob);
  }

  /** The text of a whole output list reads back as the items asked for, in order. */
  lemma {:induction false} ItemsText(table: string, items: seq<SelectItem>) returns (ts: seq<Tok>, os: seq<Output>)
    requires items != [] && SelectParts(table, items).Ok? && forall it :: it in items ==> WfItem(it)
    ensures var (exprs, cols) := SelectParts(table, items).value;
            Listed(table, exprs, cols, Asked(table, items), ts, os)
    decreases |items|
  {
    var n := |items| - 1;
    var init, it := items[..n], items[n];
    assert items == init + [it];
    PartsSnoc(table, init, it);
    AskedSnoc(table, init, it);
    var (ie, ic) := SelectParts(table, init).value;
    var (le, lc) := ItemParts(table, it).value;
    var tl, ol := OneText(table, it);
    if n == 0 {
      assert ie + le == le && ic + lc == lc && Asked(table, init) + Asked(table, [it]) == Asked(table, [it]);
      ts, os := tl, ol;
    } else {
      var ti, oi := ItemsText(table, init);
      ListedCat(table, ie, ic, Asked(table, init), ti, oi, le, lc, Asked(table, [it]), tl, ol);
      ts, os := ti + [Sql.Comma] + tl, oi + ol;
    }
  }

  // ---------------------------------------------------------------- the text up to WHERE

  lemma KeywordsText(h: string, from: string, where: string, a: string, ta: seq<Tok>, b: string)
    requires h == "SELECT" && from == "FROM" && where == "WHERE" && Open(SqlScan, a, ta) && IsIdent(b)
    ensures Closed(SqlScan, h + " " + a + (" " + from + " ") + b + (" " + where + " "),
                   [Word(h)] + ta + [Word(from), Word(b), Word(where)])
  {
    SqlScanning.SpaceClosed();
    WordOpen(h);
    WordOpen(from);
    WordOpen(where);
    WordOpen(b);
    OpenSpace(SqlScan, h, [Word(h)]);
    ClosedOpen(SqlScan, h + " ", [Word(h)], a, ta);
    Between(h + " " + a, [Word(h)] + ta, from, [Word(from)], b, [Word(b)]);
    var x := h + " " + a + (" " + from + " ") + b;
    SpacedWord(SqlScan, where, [Word(where)]);
    OpenClosed(SqlScan, x, [Word(h)] + ta + [Word(from)] + [Word(b)], " " + where + " ", [Word(where)]);
    assert [Word(h)] + ta + [Word(from)] + [Word(b)] + [Word(where)] == [Word(h)] + ta + [Word(from), Word(b), Word(where)];
  }

  /** `a w b` */
  lemma Between(a: string, ta: seq<Tok>, w: string, tw: seq<Tok>, b: string, tb: seq<Tok>)
    requires Open(SqlScan, a, ta) && Open(SqlScan, w, tw) && Open(SqlScan, b, tb)
    ensures Open(SqlScan, a + (" " + w + " ") + b, ta + tw + tb)
  {
    SqlScanning.SpaceClosed();
    SpacedWord(SqlScan, w, tw);
    OpenClosed(SqlScan, a, ta, " " + w + " ", tw);
    ClosedOpen(SqlScan, a + (" " + w + " "), ta + tw, b, tb);
  }

  lemma PrefixText(a: string, ta: seq<Tok>, table: string)
    requires Open(SqlScan, a, ta) && IsIdent(table)
    ensures Closed(SqlScan, "SELECT " + a + " FROM " + table + " WHERE ",
                   [Word("SELECT")] + ta + [Word("FROM"), Word(table), Word("WHERE")])
  {
    KeywordsText("SELECT", "FROM", "WHERE", a, ta, table);
    PrefixSpelling(a, table);
  }

  lemma PrefixSpelling(a: string, table: string)
    ensures "SELECT" + " " + a + (" " + "FROM" + " ") + table + (" " + "WHERE" + " ")
         == "SELECT " + a + " FROM " + table + " WHERE "
  {
    assert "SELECT" + " " == "SELECT " && " " + "FROM" + " " == " FROM " && " " + "WHERE" + " " == " WHERE ";
  }
}
