/**
  Which query texts the compiler accepts (domains/query/compile.go:60-170, 189-325), stated on the
  statement: the table, the kind, and the fields it names.
 */
module CompileAccepts {
  import opened Text
  import opened Ast
  import opened ParserSpec
  import opened ParserLaws
  import opened Compile
  import opened CompileLoops

  /** The table has the column, under its own name or its short one. */
  ghost predicate HasColumn(table: string, name: string) {
    Lower(name) in Columns(table) || Lower(name) in {"time", "tenant"}
  }

  /** A field of a table: a column, a path into one of its JSON columns, one metric attribute, or an
      auth event's column by its long name. */
  ghost predicate Known(table: string, f: Field) {
    var head := Lower(f[0]);
    || (|f| == 1 && HasColumn(table, f[0]))
    || (|f| > 1 && table == "logs" && head in {"body", "resource"})
    || (|f| > 1 && table in {"metrics", "change_events"} && head == "resource")
    || (|f| > 1 && table == "traces" && head in {"resource", "attr", "attribute", "attributes"})
    || (|f| == 2 && table == "metrics" && head in {"attr", "attribute", "attributes"})
    || (|f| == 2 && table == "auth_events" && head == "auth" && Lower(f[1]) in AUTH_COLUMNS)
  }

  /** Tenant comparisons are always accepted: they are replaced by the caller's own tenant. */
  ghost predicate KnownExpr(table: string, e: Expr) {
    match e
    case Paren(i) => KnownExpr(table, i)
    case Binary(_, l, r) => KnownExpr(table, l) && KnownExpr(table, r)
    case Comparison(f, _, _) => IsTenantField(f) || Known(table, f)
  }

  /** The star alone or under count, or a known field. */
  ghost predicate KnownItem(table: string, it: SelectItem) {
    if it.field.Some? then Known(table, it.field.value) else it.agg in {"", "count"}
  }

  ghost predicate Acceptable(s: Stmt) {
    && s.table in {"logs", "auth_events", "metrics", "traces", "change_events"} && !s.kind.Tail?
    && (s.where.Some? ==> KnownExpr(s.table, s.where.value))
    && (s.kind.Search? ==> s.table == "logs")
    && (s.kind.Select? ==>
          && (forall it :: it in s.select ==> KnownItem(s.table, it))
          && (forall f :: f in s.groupBy ==> Known(s.table, f))
          && (s.orderBy.Some? ==> Known(s.table, s.orderBy.value.field)))
  }

  lemma KnownIs(table: string, f: Field)
    requires table in TABLES
    ensures MapField(table, f).Ok? <==> Known(table, f)
  {
    ShortNames(table);
  }

  lemma ShortNames(table: string)
    ensures "timestamp" in Columns(table) && "tenant_id" in Columns(table)
  {}

  lemma {:induction false} KnownExprIs(table: string, tenant: string, e: Expr)
    requires table in TABLES
    ensures CompileExpr(table, tenant, e).Ok? <==> KnownExpr(table, e)
  {
    match e
    case Paren(i) => KnownExprIs(table, tenant, i);
    case Binary(_, l, r) =>
      KnownExprIs(table, tenant, l);
      KnownExprIs(table, tenant, r);
    case Comparison(f, _, _) => KnownIs(table, f);
  }

  lemma KnownItemIs(table: string, it: SelectItem)
    requires table in TABLES
    ensures (it.field.None? && it.agg == "") || CompileItem(table, it).Ok? <==> KnownItem(table, it)
  {
    if it.field.Some? {
      KnownIs(table, it.field.value);
    }
  }

  lemma {:induction false} ItemsAre(table: string, items: seq<SelectItem>)
    requires table in TABLES
    ensures SelectParts(table, items).Ok? <==> forall it :: it in items ==> KnownItem(table, it)
    ensures SelectParts(table, items).Ok? && items != [] ==> SelectParts(table, items).value.0 != []
  {
    if items != [] {
      var k := |items| - 1;
      ItemsAre(table, items[..k]);
      KnownItemIs(table, items[k]);
      assert items == items[..k] + [items[k]];
      StarHasColumns(table);
    }
  }

  lemma StarHasColumns(table: string)
    ensures DefaultProjection(table) != []
    ensures forall c :: c in DefaultProjection(table) ==> c in Columns(table)
    ensures forall i, j :: 0 <= i < j < |DefaultProjection(table)| ==> DefaultProjection(table)[i] != DefaultProjection(table)[j]
  {}

  lemma {:induction false} FieldsAre(table: string, fs: seq<Field>)
    requires table in TABLES
    ensures FieldTexts(table, fs).Ok? <==> forall f :: f in fs ==> Known(table, f)
  {
    if fs != [] {
      var k := |fs| - 1;
      FieldsAre(table, fs[..k]);
      KnownIs(table, fs[k]);
      assert fs == fs[..k] + [fs[k]];
    }
  }

  lemma WhereIs(s: Stmt, tenant: string)
    requires s.table in TABLES
    ensures WhereText(s, s.table, tenant).Ok? <==> (s.where.Some? ==> KnownExpr(s.table, s.where.value))
  {
    if s.where.Some? {
      KnownExprIs(s.table, tenant, s.where.value);
    }
  }

  lemma SuffixIs(s: Stmt, opts: Options)
    requires s.table in TABLES
    ensures SelectSuffix(s.table, s, opts).Ok? <==>
      (forall f :: f in s.groupBy ==> Known(s.table, f)) && (s.orderBy.Some? ==> Known(s.table, s.orderBy.value.field))
  {
    FieldsAre(s.table, s.groupBy);
    if s.orderBy.Some? {
      KnownIs(s.table, s.orderBy.value.field);
    }
  }

  lemma PiecesAre(s: Stmt, tenant: string, opts: Options)
    requires s.table in TABLES && !s.kind.Tail? && (s.kind.Select? ==> s.select != [])
    ensures CompilePieces(s, tenant, opts).Ok? <==> Acceptable(s)
  {
    WhereIs(s, tenant);
    if s.kind.Select? {
      ItemsAre(s.table, s.select);
      SuffixIs(s, opts);
    }
  }

  /** A text compiles iff it parses to a statement on a known table that is no TAIL, no SEARCH off
      logs, and names only known fields; TAIL on a known table is refused as such; the tenant and
      the limits have no say in it. */
  lemma CompilesExactly(input: string, tenant: string, opts: Options)
    ensures CompileText(input, tenant, opts).Success? <==> Parse(input).Ok? && Acceptable(Parse(input).value)
    ensures CompileText(input, tenant, opts) == TailOnly <==>
      Parse(input).Ok? && Parse(input).value.kind.Tail?
      && Parse(input).value.table in {"logs", "auth_events", "metrics", "traces", "change_events"}
  {
    if Parse(input).Ok? {
      var s := Parse(input).value;
      if s.kind.Select? {
        ListIsNotEmpty(input);
      }
      if s.table in TABLES && !s.kind.Tail? {
        PiecesAre(s, tenant, opts);
      }
    }
  }

  lemma ListIsNotEmpty(input: string)
    requires Parse(input).Ok? && Parse(input).value.kind.Select?
    ensures Parse(input).value.select != []
  {}
}
