/**
  The main result on the query compiler: the emitted SQL, read back as a whole by a reader of its
  own, is exactly the statement the user wrote behind the tenant guard.
 */
module CompileTheorem {
  import opened Text
  import opened Ast
  import opened ParserSpec
  import opened ParserLaws
  import opened Compile
  import opened CompileLoops
  import opened Meaning
  import opened Sql
  import opened SqlSelect
  import opened CompileMeaning
  import opened CompileClauses

  // ---------------------------------------------------------------- statements

  /** The query read from the text is the statement: its table, its output columns in order, the
      tenant's own rows that satisfy its predicate and contain its search tokens, its grouping,
      order and effective limit. */
  ghost predicate QueryMeans(q: Query, s: Stmt, tenant: string, opts: Options) {
    && q.table == s.table
    && OutputsMean(s.table, q.outputs, Asked(s.table, s.select))
    && (forall env :: EvalCond(q.where, env) <==> RowQualifies(s, tenant, env))
    && EndMeans(End(q.groupBy, q.orderBy, q.limit), s, opts)
  }

  function Spelled(p: Pieces): string { p.prefix + p.where + p.suffix }

  lemma TableIdent(table: string)
    requires table in TABLES
    ensures IsIdent(table)
  {}

  /** The WHERE text and what follows it. */
  lemma WhereOnwards(s: Stmt, tenant: string, opts: Options) returns (ts: seq<Tok>, c: Cond, rest: seq<Tok>, e: End)
    requires WfStmt(s) && CompilePieces(s, tenant, opts).Ok?
    ensures var p := CompilePieces(s, tenant, opts).value;
            && SqlScan(p.where + p.suffix) == Some(ts) && ReadOr(ts) == Got(c, rest)
            && SqlScan(p.suffix) == Some(rest) && ReadEnd(rest) == Some(e)
    ensures EndMeans(e, Completed(s), opts) && forall env :: EvalCond(c, env) <==> RowQualifies(s, tenant, env)
  {
    var p := CompilePieces(s, tenant, opts).value;
    c := WhereConjuncts(s, tenant);
    ChainReadsAs(p.where, c);
    if s.kind.Search? {
      rest, e := SearchSuffixClause(s, opts);
    } else {
      rest, e := SelectSuffixClause(s, opts);
    }
    ClauseScans(p.suffix, rest);
    ts := SqlScan(p.where + p.suffix).value;
  }

  /** The text in front of the WHERE. */
  lemma PrefixOnwards(s: Stmt, tenant: string, opts: Options) returns (ts: seq<Tok>, os: seq<Output>)
    requires WfStmt(s) && s.table in TABLES && CompilePieces(s, tenant, opts).Ok?
    ensures var p := CompilePieces(s, tenant, opts).value;
            && Closed(SqlScan, p.prefix, [Word("SELECT")] + ts + [Word("FROM"), Word(s.table), Word("WHERE")])
            && ListReads(ReadOutput, ts, os) && Names(os) == p.columns
    ensures OutputsMean(s.table, os, Asked(s.table, Completed(s).select))
  {
    var exprs: seq<string>;
    TableIdent(s.table);
    if s.kind.Search? {
      exprs := DefaultProjection(s.table);
      ts, os := OneText(s.table, SelectItem("", None, ""));
    } else {
      exprs := SelectParts(s.table, s.select).value.0;
      ts, os := ItemsText(s.table, s.select);
    }
    PrefixText(Join(exprs, ", "), ts, s.table);
  }

  /** The parts of a compiled statement and the query the reader makes of them. */
  lemma PartsRead(s: Stmt, tenant: string, opts: Options) returns (ts: seq<Tok>, rest: seq<Tok>, q: Query)
    requires WfStmt(s) && s.table in TABLES && CompilePieces(s, tenant, opts).Ok?
    ensures var p := CompilePieces(s, tenant, opts).value;
            && ReadSql(Spelled(p)) == Some(q) && Names(q.outputs) == p.columns
            && SqlScan(p.where + p.suffix) == Some(ts) && SqlScan(p.suffix) == Some(rest) && ReadOr(ts) == Got(q.where, rest)
    ensures QueryMeans(q, Completed(s), tenant, opts)
  {
    var p := CompilePieces(s, tenant, opts).value;
    var to, os := PrefixOnwards(s, tenant, opts);
    var c, e;
    ts, c, rest, e := WhereOnwards(s, tenant, opts);
    var head := [Word("SELECT")] + to + [Word("FROM"), Word(s.table), Word("WHERE")];
    QueryRead(os, to, s.table, ts, c, rest, e);
    ScanBehind(p.prefix, head, p.where + p.suffix, ts);
    CatAssoc(p.prefix, p.where, p.suffix);
    q := Query(os, s.table, c, e.groupBy, e.orderBy, e.limit);
    SameRows(s, tenant);
  }

  /** The whole text of a compiled statement. */
  lemma StatementRead(s: Stmt, tenant: string, opts: Options)
    requires WfStmt(s) && s.table in TABLES && CompilePieces(s, tenant, opts).Ok?
    ensures var p := CompilePieces(s, tenant, opts).value;
            var q := ReadSql(Spelled(p));
            q.Some? && QueryMeans(q.value, Completed(s), tenant, opts) && Names(q.value.outputs) == p.columns
  {
    var _, _, _ := PartsRead(s, tenant, opts);
  }

  /** The condition found in the whole text is the WHERE piece, up to exactly the suffix. */
  predicate WhereIsPiece(p: Pieces) {
    && ReadSql(Spelled(p)).Some? && SqlScan(p.suffix).Some? && SqlScan(p.where + p.suffix).Some?
    && ReadOr(SqlScan(p.where + p.suffix).value) == Got(ReadSql(Spelled(p)).value.where, SqlScan(p.suffix).value)
  }

  lemma WhereIsRead(s: Stmt, tenant: string, opts: Options)
    requires WfStmt(s) && s.table in TABLES && CompilePieces(s, tenant, opts).Ok?
    ensures WhereIsPiece(CompilePieces(s, tenant, opts).value)
  {
    var _, _, _ := PartsRead(s, tenant, opts);
  }

  lemma ScanBehind(a: string, ta: seq<Tok>, b: string, tb: seq<Tok>)
    requires Closed(SqlScan, a, ta) && SqlScan(b) == Some(tb)
    ensures SqlScan(a + b) == Some(ta + tb)
  {
    assert SqlScan(a + b) == Prepend(ta, SqlScan(b));
  }

  lemma SameRows(s: Stmt, tenant: string)
    ensures forall env :: RowQualifies(Completed(s), tenant, env) <==> RowQualifies(s, tenant, env)
  {}

  // ---------------------------------------------------------------- the theorem

  /** For every text and tenant the compiler accepts, the SQL, scanned and read as one statement,
      is the user's statement behind the tenant guard, with nothing left over, whatever the user
      wrote; and the output names are the reported columns. */
  lemma CompiledMeaning(input: string, tenant: string, opts: Options)
    requires CompileText(input, tenant, opts).Success?
    ensures var compiled := CompileText(input, tenant, opts).compiled;
            var q := ReadSql(compiled.sql);
            && q.Some? && QueryMeans(q.value, Completed(Parse(input).value), tenant, opts)
            && Names(q.value.outputs) == compiled.columns && compiled.kind == Parse(input).value.kind
  {
    ParsedWf(input);
    StatementRead(Parse(input).value, tenant, opts);
  }

  /** The condition in it holds of exactly the tenant's own rows that satisfy the user's predicate
      and contain the search tokens, and it ends exactly where the compiler ended it. */
  lemma CompiledWhereMeaning(input: string, tenant: string, opts: Options)
    requires CompileText(input, tenant, opts).Success?
    ensures forall env :: Chooses(CompileText(input, tenant, opts).compiled.sql, env)
                     <==> RowQualifies(Parse(input).value, tenant, env)
    ensures var p := CompilePieces(Parse(input).value, tenant, opts).value;
            CompileText(input, tenant, opts).compiled.sql == Spelled(p) && WhereIsPiece(p)
  {
    var s := Parse(input).value;
    ParsedWf(input);
    CompiledMeaning(input, tenant, opts);
    SameRows(s, tenant);
    WhereIsRead(s, tenant, opts);
  }

  /** Tenant isolation: no row of another tenant is chosen by the emitted text. */
  lemma TenantIsolation(input: string, tenant: string, opts: Options, env: Env)
    requires CompileText(input, tenant, opts).Success? && Chooses(CompileText(input, tenant, opts).compiled.sql, env)
    ensures Get(env, "tenant_id") == Val.Text(tenant)
  {
    CompiledWhereMeaning(input, tenant, opts);
  }
}
