/** The recursive-descent parser with its cursor (domains/query/parser.go), against the grammar. */
module ParserCursor {
  import opened Text
  import opened Lexer
  import opened Ast
  import opened ParserSpec

  class Parser {
    const toks: seq<Token>
    var pos: nat

    /** The cursor stands on a token; nothing is ever read outside the list. */
    ghost predicate Valid()
      reads this
    {
      At(toks, pos)
    }

    /** The method's outcome is the production's: same tree, same cursor, same refusals. */
    ghost predicate Computes<T>(r: Result<T>, spec: Parsed<T>)
      reads this
    {
      match spec
      case Done(v, q) => r == Ok(v) && pos == q
      case Fail => r == Err
    }

    constructor (toks: seq<Token>)
      requires Terminated(toks)
      ensures Valid() && this.toks == toks && pos == 0
    {
      this.toks := toks;
      pos := 0;
    }

    function Cur(): Token
      requires Valid()
      reads this
    {
      toks[pos]
    }

    method Next() returns (t: Token)
      requires Valid() && !Cur().EOF?
      modifies this`pos
      ensures Valid() && t == old(Cur()) && pos == old(pos) + 1
    {
      t := toks[pos];
      pos := pos + 1;
    }

    method ParseStmt() returns (r: Result<Stmt>)
      requires Valid() && pos == 0
      modifies this`pos
      ensures Valid() && Computes(r, ParseStatement(toks))
    {
      if IsKw(Cur(), "SEARCH") {
        r := SearchStmt();
      } else if IsKw(Cur(), "SELECT") {
        r := SelectStmt();
      } else if IsKw(Cur(), "TAIL") {
        r := TailStmt();
      } else {
        r := Err;
      }
    }

    method SearchStmt() returns (r: Result<Stmt>)
      requires Valid() && !Cur().EOF?
      modifies this`pos
      ensures Valid() && Computes(r, ParseSearch(toks, old(pos)))
    {
      var _ := Next();
      if !Cur().Str? { return Err; }
      var text := Next();
      var table := FromClause();
      if table.Err? { return Err; }
      var w := OptionalWhere();
      if w.Err? { return Err; }
      var n := OptionalLimit();
      if n.Err? { return Err; }
      return Ok(Stmt(Search, text.text, table.value, [], w.value, [], None, n.value));
    }

    method TailStmt() returns (r: Result<Stmt>)
      requires Valid() && !Cur().EOF?
      modifies this`pos
      ensures Valid() && Computes(r, ParseTail(toks, old(pos)))
    {
      var _ := Next();
      var table := FromClause();
      if table.Err? { return Err; }
      var w := OptionalWhere();
      if w.Err? { return Err; }
      return Ok(Stmt(Tail, "", table.value, [], w.value, [], None, 0));
    }

    method SelectStmt() returns (r: Result<Stmt>)
      requires Valid() && !Cur().EOF?
      modifies this`pos
      ensures Valid() && Computes(r, ParseSelect(toks, old(pos)))
    {
      var _ := Next();
      var items := SelectList();
      if items.Err? { return Err; }
      var table := FromClause();
      if table.Err? { return Err; }
      var w := OptionalWhere();
      if w.Err? { return Err; }
      r := SelectClauses(Stmt(Select, "", table.value, items.value, w.value, [], None, 0));
    }

    /** GROUP BY, ORDER BY and LIMIT of a SELECT. */
    method SelectClauses(s: Stmt) returns (r: Result<Stmt>)
      requires Valid()
      modifies this`pos
      ensures Valid() && Computes(r, SelectTail(toks, s, old(pos)))
    {
      var gb := OptionalGroupBy();
      if gb.Err? { return Err; }
      var ob := OptionalOrderBy();
      if ob.Err? { return Err; }
      var n := OptionalLimit();
      if n.Err? { return Err; }
      return Ok(s.(groupBy := gb.value, orderBy := ob.value, limit := n.value));
    }

    method OptionalGroupBy() returns (r: Result<seq<Field>>)
      requires Valid()
      modifies this`pos
      ensures Valid() && Computes(r, OptGroupBy(toks, old(pos)))
    {
      if !IsKw(Cur(), "GROUP") { return Ok([]); }
      var _ := Next();
      if !IsKw(Cur(), "BY") { return Err; }
      var _ := Next();
      ghost var start := pos;
      var fs: seq<Field> := [];
      while true
        invariant Valid()
        invariant GroupFields(toks, [], start) == GroupFields(toks, fs, pos)
        decreases |toks| - pos
      {
        var f := FieldRef();
        if f.Err? { return Err; }
        fs := fs + [f.value];
        if !Cur().Comma? { return Ok(fs); }
        var _ := Next();
      }
    }

    method OptionalOrderBy() returns (r: Result<Option<OrderItem>>)
      requires Valid()
      modifies this`pos
      ensures Valid() && Computes(r, OptOrderBy(toks, old(pos)))
    {
      if !IsKw(Cur(), "ORDER") { return Ok(None); }
      var _ := Next();
      if !IsKw(Cur(), "BY") { return Err; }
      var _ := Next();
      var f := FieldRef();
      if f.Err? { return Err; }
      var desc := false;
      if IsKw(Cur(), "DESC") {
        desc := true;
        var _ := Next();
      } else if IsKw(Cur(), "ASC") {
        var _ := Next();
      }
      return Ok(Some(OrderItem(f.value, desc)));
    }

    method SelectList() returns (r: Result<seq<SelectItem>>)
      requires Valid()
      modifies this`pos
      ensures Valid() && Computes(r, ParseSelectList(toks, [], old(pos)))
    {
      var items: seq<SelectItem> := [];
      while true
        invariant Valid()
        invariant ParseSelectList(toks, [], old(pos)) == ParseSelectList(toks, items, pos)
        decreases |toks| - pos
      {
        if Cur().Star? {
          var _ := Next();
          items := items + [SelectItem("", None, "")];
        } else {
          var it := SelectOne();
          if it.Err? { return Err; }
          items := items + [it.value];
        }
        if !Cur().Comma? { return Ok(items); }
        var _ := Next();
      }
    }

    /** The only lookahead of the parser: an identifier is never the last token. */
    method SelectOne() returns (r: Result<SelectItem>)
      requires Valid()
      modifies this`pos
      ensures Valid() && Computes(r, ParseSelectItem(toks, old(pos)))
    {
      if Cur().Ident? && toks[pos + 1].LParen? {
        var name := Next();
        var agg := Lower(name.text);
        if !IsAgg(agg) { return Err; }
        var _ := Next();
        var it := SelectItem(agg, None, "");
        if Cur().Star? {
          var _ := Next();
        } else {
          var f := FieldRef();
          if f.Err? { return Err; }
          it := it.(field := Some(f.value));
        }
        if !Cur().RParen? { return Err; }
        var _ := Next();
        it := Alias(it);
        return Ok(it);
      }
      var f := FieldRef();
      if f.Err? { return Err; }
      var it := Alias(SelectItem("", Some(f.value), ""));
      return Ok(it);
    }

    method Alias(it: SelectItem) returns (r: SelectItem)
      requires Valid()
      modifies this`pos
      ensures Valid() && Computes(Ok(r), OptAlias(toks, it, old(pos)))
    {
      r := it;
      if IsKw(Cur(), "AS") {
        var _ := Next();
        if Cur().Ident? {
          var a := Next();
          r := it.(alias := a.text);
        }
      }
    }

    method FromClause() returns (r: Result<string>)
      requires Valid()
      modifies this`pos
      ensures Valid() && Computes(r, ParseFrom(toks, old(pos)))
    {
      if !IsKw(Cur(), "FROM") { return Err; }
      var _ := Next();
      if !Cur().Ident? { return Err; }
      var t := Next();
      return Ok(Lower(t.text));
    }

    method OptionalWhere() returns (r: Result<Option<Expr>>)
      requires Valid()
      modifies this`pos
      ensures Valid() && Computes(r, OptWhere(toks, old(pos)))
    {
      if !IsKw(Cur(), "WHERE") { return Ok(None); }
      var _ := Next();
      var e := OrExpr();
      return if e.Err? then Err else Ok(Some(e.value));
    }

    method OptionalLimit() returns (r: Result<int>)
      requires Valid()
      modifies this`pos
      ensures Valid() && Computes(r, OptLimit(toks, old(pos)))
    {
      if !IsKw(Cur(), "LIMIT") { return Ok(0); }
      var _ := Next();
      if !Cur().Num? { return Err; }
      var n := Next();
      return ParseInt64(n.text);
    }

    method OrExpr() returns (r: Result<Expr>)
      requires Valid()
      modifies this`pos
      ensures Valid() && Computes(r, ParseOr(toks, old(pos)))
      decreases |toks| - pos, 2
    {
      var first := AndExpr();
      if first.Err? { return Err; }
      var left := first.value;
      while IsKw(Cur(), "OR")
        invariant Valid() && old(pos) < pos
        invariant ParseOr(toks, old(pos)) == OrRest(toks, left, pos)
        decreases |toks| - pos
      {
        var _ := Next();
        var right := AndExpr();
        if right.Err? { return Err; }
        left := Binary(OR, left, right.value);
      }
      return Ok(left);
    }

    method AndExpr() returns (r: Result<Expr>)
      requires Valid()
      modifies this`pos
      ensures Valid() && Computes(r, ParseAnd(toks, old(pos)))
      decreases |toks| - pos, 1
    {
      var first := Primary();
      if first.Err? { return Err; }
      var left := first.value;
      while IsKw(Cur(), "AND")
        invariant Valid() && old(pos) < pos
        invariant ParseAnd(toks, old(pos)) == AndRest(toks, left, pos)
        decreases |toks| - pos
      {
        var _ := Next();
        var right := Primary();
        if right.Err? { return Err; }
        left := Binary(AND, left, right.value);
      }
      return Ok(left);
    }

    method Primary() returns (r: Result<Expr>)
      requires Valid()
      modifies this`pos
      ensures Valid() && Computes(r, ParsePrimary(toks, old(pos)))
      decreases |toks| - pos, 0
    {
      if Cur().LParen? {
        var _ := Next();
        var e := OrExpr();
        if e.Err? { return Err; }
        if !Cur().RParen? { return Err; }
        var _ := Next();
        return Ok(Paren(e.value));
      }
      r := CompareExpr();
    }

    method CompareExpr() returns (r: Result<Expr>)
      requires Valid()
      modifies this`pos
      ensures Valid() && Computes(r, ParseComparison(toks, old(pos)))
    {
      var f := FieldRef();
      if f.Err? { return Err; }
      if !Cur().Op? { return Err; }
      var op := Next();
      var v := ValueLit();
      if v.Err? { return Err; }
      return Ok(Comparison(f.value, op.text, v.value));
    }

    method FieldRef() returns (r: Result<Field>)
      requires Valid()
      modifies this`pos
      ensures Valid() && Computes(r, ParseField(toks, old(pos)))
    {
      if !Cur().Ident? { return Err; }
      var head := Next();
      var parts: Field := [head.text];
      while Cur().Dot?
        invariant Valid()
        invariant ParseField(toks, old(pos)) == FieldRest(toks, parts, pos)
        decreases |toks| - pos
      {
        var _ := Next();
        if !Cur().Ident? { return Err; }
        var seg := Next();
        parts := parts + [seg.text];
      }
      return Ok(parts);
    }

    method ValueLit() returns (r: Result<Value>)
      requires Valid()
      modifies this`pos
      ensures Valid() && Computes(r, ParseValue(toks, old(pos)))
    {
      match Cur()
      case Str(_) =>
        var t := Next();
        return Ok(ValString(t.text));
      case Num(_) =>
        var t := Next();
        return Ok(ValNumber(t.text));
      case Ident(s) =>
        if !EqualFold(s, "now") { return Err; }
        r := TimeLit();
      case _ =>
        return Err;
    }

    method TimeLit() returns (r: Result<Value>)
      requires Valid() && Cur().Ident?
      modifies this`pos
      ensures Valid() && Computes(r, ParseTime(toks, old(pos)))
    {
      var _ := Next();
      if !Cur().LParen? { return Err; }
      var _ := Next();
      if !Cur().RParen? { return Err; }
      var _ := Next();
      if Cur().Minus? || Cur().Plus? {
        var sign := Next();
        if !Cur().Dur? { return Err; }
        var d := Next();
        var secs := DurationSeconds(d.text);
        return if secs.Err? then Err else Ok(ValTime(secs.value, sign.Minus?));
      }
      return Ok(ValTime(0, false));
    }
  }

  /** `query.Parse`: never indexes outside the token list, always terminates. */
  method ParseInput(input: string) returns (r: Result<Stmt>)
    ensures r == Parse(input)
  {
    var toks := Lex(input);
    if toks.Err? { return Err; }
    var p := new Parser(toks.value);
    var s := p.ParseStmt();
    if s.Err? { return Err; }
    return if p.Cur().EOF? then s else Err;
  }
}
