/** The loops of `compileSelect` and the entry point, over the functions above. */
module CompileLoops {
  import opened Text
  import opened Ast
  import opened ParserSpec
  import opened ParserCursor
  import opened Compile

  method SelectLists(table: string, items: seq<SelectItem>) returns (r: Result<(seq<string>, seq<string>)>)
    ensures r == SelectParts(table, items)
  {
    var exprs: seq<string>, cols: seq<string> := [], [];
    for i := 0 to |items|
      invariant SelectParts(table, items[..i]) == Ok((exprs, cols))
    {
      var it := items[i];
      SelectPrefix(table, items, i);
      if it.field.None? && it.agg == "" {
        exprs, cols := exprs + DefaultProjection(table), cols + DefaultProjection(table);
      } else {
        var c := CompileItem(table, it);
        if c.Err? {
          SelectErr(table, items, i + 1);
          return Err;
        }
        exprs, cols := exprs + [c.value.0 + " AS " + c.value.1], cols + [c.value.1];
      }
    }
    assert items[..|items|] == items;
    return Ok((exprs, cols));
  }

  lemma SelectPrefix(table: string, items: seq<SelectItem>, i: nat)
    requires i < |items|
    ensures var s := items[..i + 1]; s[..|s| - 1] == items[..i] && s[|s| - 1] == items[i]
  {}

  lemma {:induction false} SelectErr(table: string, items: seq<SelectItem>, i: nat)
    requires i <= |items| && SelectParts(table, items[..i]).Err?
    ensures SelectParts(table, items).Err?
    decreases |items|
  {
    if i < |items| {
      assert items[..|items| - 1][..i] == items[..i];
      SelectErr(table, items[..|items| - 1], i);
    } else {
      assert items[..i] == items;
    }
  }

  method GroupList(table: string, fs: seq<Field>) returns (r: Result<seq<string>>)
    ensures r == FieldTexts(table, fs)
  {
    var gb: seq<string> := [];
    for i := 0 to |fs|
      invariant FieldTexts(table, fs[..i]) == Ok(gb)
    {
      assert fs[..i + 1][..i] == fs[..i];
      var m := MapField(table, fs[i]);
      if m.Err? {
        GroupErr(table, fs, i + 1);
        return Err;
      }
      gb := gb + [m.value.0];
    }
    assert fs[..|fs|] == fs;
    return Ok(gb);
  }

  lemma {:induction false} GroupErr(table: string, fs: seq<Field>, i: nat)
    requires i <= |fs| && FieldTexts(table, fs[..i]).Err?
    ensures FieldTexts(table, fs).Err?
    decreases |fs|
  {
    if i < |fs| {
      assert fs[..|fs| - 1][..i] == fs[..i];
      GroupErr(table, fs[..|fs| - 1], i);
    } else {
      assert fs[..i] == fs;
    }
  }

  method CompileSelect(s: Stmt, tenant: string, opts: Options) returns (r: Result<Pieces>)
    requires !s.kind.Search?
    ensures r == CompilePieces(s, tenant, opts)
  {
    var lists := SelectLists(s.table, s.select);
    if lists.Err? { return Err; }
    var (exprs, cols) := lists.value;
    if |exprs| == 0 { return Err; }
    var where := WhereSQL(s, s.table, tenant);
    if where.Err? { return Err; }
    var suffix := SelectEnd(s, opts);
    if suffix.Err? { return Err; }
    return Ok(Pieces("SELECT " + Join(exprs, ", ") + " FROM " + s.table + " WHERE ", where.value, suffix.value, cols));
  }

  method SelectEnd(s: Stmt, opts: Options) returns (r: Result<string>)
    ensures r == SelectSuffix(s.table, s, opts)
  {
    var b: string := "";
    if |s.groupBy| > 0 {
      var gb := GroupList(s.table, s.groupBy);
      if gb.Err? { return Err; }
      b := " GROUP BY " + Join(gb.value, ", ");
    }
    if s.orderBy.Some? {
      var m := MapField(s.table, s.orderBy.value.field);
      if m.Err? { return Err; }
      b := b + (" ORDER BY " + m.value.0 + " " + (if s.orderBy.value.desc then "DESC" else "ASC"));
    } else {
      assert b + "" == b;
    }
    return Ok(b + " LIMIT " + SignedDecimal(Limit(s, opts)));
  }

  /** What `query.Compile` returns for an input text. */
  function CompileText(input: string, tenant: string, opts: Options): Outcome {
    match Parse(input)
    case Err => Refused
    case Ok(s) => CompileStmt(s, tenant, opts)
  }

  method CompileQuery(input: string, tenant: string, opts: Options) returns (o: Outcome)
    ensures o == CompileText(input, tenant, opts)
  {
    var parsed := ParseInput(input);
    if parsed.Err? { return Refused; }
    var s := parsed.value;
    if s.table !in TABLES { return Refused; }
    var pieces: Result<Pieces> := Err;
    match s.kind {
      case Tail =>
        return TailOnly;
      case Search =>
        if s.table != "logs" { return Refused; }
        var where := WhereSQL(s, s.table, tenant);
        if where.Err? { return Refused; }
        var cols := DefaultProjection(s.table);
        pieces := Ok(Pieces("SELECT " + Join(cols, ", ") + " FROM " + s.table + " WHERE ", where.value,
                            SearchSuffix(s, opts), cols));
      case Select =>
        pieces := CompileSelect(s, tenant, opts);
    }
    if pieces.Err? { return Refused; }
    var p := pieces.value;
    return Success(Compiled(p.prefix + p.where + p.suffix, p.columns, s.kind));
  }
}
