/** The LogQL++ grammar (domains/query/parser.go): what each production makes of the token list from
    a position on. */
module ParserSpec {
  import opened Text
  import opened Lexer
  import opened Ast

  datatype Parsed<+T> = Done(value: T, pos: nat) | Fail

  /** All that the parser assumes of its input: the last token is the end marker. */
  predicate Terminated(ts: seq<Token>) { |ts| > 0 && ts[|ts| - 1] == EOF }

  predicate At(ts: seq<Token>, p: nat) { Terminated(ts) && p < |ts| }

  predicate IsKw(t: Token, kw: string) { t.Ident? && EqualFold(t.text, kw) }

  // ---------------------------------------------------------------- numbers

  /** strconv.ParseInt(s, 10, 64). */
  function ParseInt64(s: string): (r: Result<int>)
    ensures r.Ok? ==> -TWO63 <= r.value < TWO63
  {
    var (neg, digits) :=
      if s != "" && (s[0] == '-' || s[0] == '+') then (s[0] == '-', s[1..]) else (false, s);
    if digits == "" || !AllDigits(digits) then Err
    else
      var v: int := DigitsValue(digits);
      var n := if neg then -v else v;
      if -TWO63 <= n < TWO63 then Ok(n) else Err
  }

  function UnitSeconds(u: char): Option<nat> {
    match u
    case 's' => Some(1)
    case 'm' => Some(60)
    case 'h' => Some(3600)
    case 'd' => Some(86400)
    case _ => None
  }

  /** The product wraps around in 64 bits, as in the source. */
  function DurationSeconds(d: string): (r: Result<int>)
    ensures r.Ok? ==> -TWO63 <= r.value < TWO63
  {
    if |d| < 2 then Err
    else
      var n := ParseInt64(d[..|d| - 1]);
      var unit := UnitSeconds(d[|d| - 1]);
      if n.Err? || unit.None? then Err else Ok(WrapInt64(n.value * unit.value))
  }

  // ---------------------------------------------------------------- WHERE grammar

  /** orExpr := andExpr (OR andExpr)* */
  function ParseOr(ts: seq<Token>, p: nat): (r: Parsed<Expr>)
    requires At(ts, p)
    ensures r.Done? ==> p < r.pos < |ts|
    decreases |ts| - p, 3
  {
    match ParseAnd(ts, p)
    case Fail => Fail
    case Done(e, q) => OrRest(ts, e, q)
  }

  function OrRest(ts: seq<Token>, left: Expr, p: nat): (r: Parsed<Expr>)
    requires At(ts, p)
    ensures r.Done? ==> p <= r.pos < |ts|
    decreases |ts| - p, 2
  {
    if IsKw(ts[p], "OR") then
      match ParseAnd(ts, p + 1)
      case Fail => Fail
      case Done(right, q) => OrRest(ts, Binary(OR, left, right), q)
    else Done(left, p)
  }

  /** andExpr := primary (AND primary)* */
  function ParseAnd(ts: seq<Token>, p: nat): (r: Parsed<Expr>)
    requires At(ts, p)
    ensures r.Done? ==> p < r.pos < |ts|
    decreases |ts| - p, 2
  {
    match ParsePrimary(ts, p)
    case Fail => Fail
    case Done(e, q) => AndRest(ts, e, q)
  }

  function AndRest(ts: seq<Token>, left: Expr, p: nat): (r: Parsed<Expr>)
    requires At(ts, p)
    ensures r.Done? ==> p <= r.pos < |ts|
    decreases |ts| - p, 1
  {
    if IsKw(ts[p], "AND") then
      match ParsePrimary(ts, p + 1)
      case Fail => Fail
      case Done(right, q) => AndRest(ts, Binary(AND, left, right), q)
    else Done(left, p)
  }

  function ParsePrimary(ts: seq<Token>, p: nat): (r: Parsed<Expr>)
    requires At(ts, p)
    ensures r.Done? ==> p < r.pos < |ts|
    decreases |ts| - p, 1
  {
    if ts[p].LParen? then
      match ParseOr(ts, p + 1)
      case Fail => Fail
      case Done(e, q) => if ts[q].RParen? then Done(Paren(e), q + 1) else Fail
    else ParseComparison(ts, p)
  }

  function ParseComparison(ts: seq<Token>, p: nat): (r: Parsed<Expr>)
    requires At(ts, p)
    ensures r.Done? ==> p < r.pos < |ts|
    decreases |ts| - p, 0
  {
    match ParseField(ts, p)
    case Fail => Fail
    case Done(f, q) =>
      if !ts[q].Op? then Fail
      else
        match ParseValue(ts, q + 1)
        case Fail => Fail
        case Done(v, n) => Done(Comparison(f, ts[q].text, v), n)
  }

  function ParseField(ts: seq<Token>, p: nat): (r: Parsed<Field>)
    requires At(ts, p)
    ensures r.Done? ==> p < r.pos < |ts|
  {
    if ts[p].Ident? then FieldRest(ts, [ts[p].text], p + 1) else Fail
  }

  function FieldRest(ts: seq<Token>, parts: Field, p: nat): (r: Parsed<Field>)
    requires At(ts, p)
    ensures r.Done? ==> p <= r.pos < |ts|
    decreases |ts| - p
  {
    if !ts[p].Dot? then Done(parts, p)
    else if ts[p + 1].Ident? then FieldRest(ts, parts + [ts[p + 1].text], p + 2)
    else Fail
  }

  function ParseValue(ts: seq<Token>, p: nat): (r: Parsed<Value>)
    requires At(ts, p)
    ensures r.Done? ==> p < r.pos < |ts|
  {
    match ts[p]
    case Str(s) => Done(ValString(s), p + 1)
    case Num(s) => Done(ValNumber(s), p + 1)
    case Ident(s) => if EqualFold(s, "now") then ParseTime(ts, p) else Fail
    case _ => Fail
  }

  /** timeValue := now() [ ('-'|'+') DURATION ] */
  function ParseTime(ts: seq<Token>, p: nat): (r: Parsed<Value>)
    requires At(ts, p) && ts[p].Ident?
    ensures r.Done? ==> p < r.pos < |ts|
  {
    if !ts[p + 1].LParen? || !ts[p + 2].RParen? then Fail
    else if ts[p + 3].Minus? || ts[p + 3].Plus? then
      if !ts[p + 4].Dur? then Fail
      else
        match DurationSeconds(ts[p + 4].text)
        case Err => Fail
        case Ok(n) => Done(ValTime(n, ts[p + 3].Minus?), p + 5)
    else Done(ValTime(0, false), p + 3)
  }

  // ---------------------------------------------------------------- statements

  predicate IsAgg(s: string) { s in {"count", "sum", "avg", "min", "max"} }

  function ParseSelectList(ts: seq<Token>, items: seq<SelectItem>, p: nat): (r: Parsed<seq<SelectItem>>)
    requires At(ts, p)
    ensures r.Done? ==> p < r.pos < |ts| && r.value != []
    decreases |ts| - p
  {
    var item := if ts[p].Star? then Done(SelectItem("", None, ""), p + 1)
                else ParseSelectItem(ts, p);
    match item
    case Fail => Fail
    case Done(it, q) =>
      if ts[q].Comma? then ParseSelectList(ts, items + [it], q + 1)
      else Done(items + [it], q)
  }

  function ParseSelectItem(ts: seq<Token>, p: nat): (r: Parsed<SelectItem>)
    requires At(ts, p)
    ensures r.Done? ==> p < r.pos < |ts|
  {
    if ts[p].Ident? && ts[p + 1].LParen? then
      var agg := Lower(ts[p].text);
      if !IsAgg(agg) then Fail
      else
        var arg := if ts[p + 2].Star? then Done(SelectItem(agg, None, ""), p + 3)
                   else match ParseField(ts, p + 2)
                     case Fail => Fail
                     case Done(f, q) => Done(SelectItem(agg, Some(f), ""), q);
        match arg
        case Fail => Fail
        case Done(it, q) => if ts[q].RParen? then OptAlias(ts, it, q + 1) else Fail
    else
      match ParseField(ts, p)
      case Fail => Fail
      case Done(f, q) => OptAlias(ts, SelectItem("", Some(f), ""), q)
  }

  function OptAlias(ts: seq<Token>, it: SelectItem, p: nat): (r: Parsed<SelectItem>)
    requires At(ts, p)
    ensures r.Done? && p <= r.pos < |ts|
  {
    if IsKw(ts[p], "AS") then
      if ts[p + 1].Ident? then Done(it.(alias := ts[p + 1].text), p + 2) else Done(it, p + 1)
    else Done(it, p)
  }

  function ParseFrom(ts: seq<Token>, p: nat): (r: Parsed<string>)
    requires At(ts, p)
    ensures r.Done? ==> p < r.pos < |ts|
  {
    if IsKw(ts[p], "FROM") && ts[p + 1].Ident? then Done(Lower(ts[p + 1].text), p + 2) else Fail
  }

  function OptWhere(ts: seq<Token>, p: nat): (r: Parsed<Option<Expr>>)
    requires At(ts, p)
    ensures r.Done? ==> p <= r.pos < |ts|
  {
    if !IsKw(ts[p], "WHERE") then Done(None, p)
    else match ParseOr(ts, p + 1)
      case Fail => Fail
      case Done(e, q) => Done(Some(e), q)
  }

  function OptLimit(ts: seq<Token>, p: nat): (r: Parsed<int>)
    requires At(ts, p)
    ensures r.Done? ==> p <= r.pos < |ts|
  {
    if !IsKw(ts[p], "LIMIT") then Done(0, p)
    else if !ts[p + 1].Num? then Fail
    else match ParseInt64(ts[p + 1].text)
      case Err => Fail
      case Ok(n) => Done(n, p + 2)
  }

  function OptGroupBy(ts: seq<Token>, p: nat): (r: Parsed<seq<Field>>)
    requires At(ts, p)
    ensures r.Done? ==> p <= r.pos < |ts|
  {
    if !IsKw(ts[p], "GROUP") then Done([], p)
    else if !IsKw(ts[p + 1], "BY") then Fail
    else GroupFields(ts, [], p + 2)
  }

  function GroupFields(ts: seq<Token>, fs: seq<Field>, p: nat): (r: Parsed<seq<Field>>)
    requires At(ts, p)
    ensures r.Done? ==> p < r.pos < |ts|
    decreases |ts| - p
  {
    match ParseField(ts, p)
    case Fail => Fail
    case Done(f, q) =>
      if ts[q].Comma? then GroupFields(ts, fs + [f], q + 1) else Done(fs + [f], q)
  }

  function OptOrderBy(ts: seq<Token>, p: nat): (r: Parsed<Option<OrderItem>>)
    requires At(ts, p)
    ensures r.Done? ==> p <= r.pos < |ts|
  {
    if !IsKw(ts[p], "ORDER") then Done(None, p)
    else if !IsKw(ts[p + 1], "BY") then Fail
    else match ParseField(ts, p + 2)
      case Fail => Fail
      case Done(f, q) =>
        if IsKw(ts[q], "DESC") then Done(Some(OrderItem(f, true)), q + 1)
        else if IsKw(ts[q], "ASC") then Done(Some(OrderItem(f, false)), q + 1)
        else Done(Some(OrderItem(f, false)), q)
  }

  /** FROM, WHERE and LIMIT of a statement whose head is already read. */
  function ParseSearch(ts: seq<Token>, p: nat): (r: Parsed<Stmt>)
    requires At(ts, p) && !ts[p].EOF?
    ensures r.Done? ==> r.pos < |ts|
  {
    if !ts[p + 1].Str? then Fail
    else match ParseFrom(ts, p + 2)
      case Fail => Fail
      case Done(table, q) => match OptWhere(ts, q)
        case Fail => Fail
        case Done(w, m) => match OptLimit(ts, m)
          case Fail => Fail
          case Done(n, e) => Done(Stmt(Search, ts[p + 1].text, table, [], w, [], None, n), e)
  }

  function ParseTail(ts: seq<Token>, p: nat): (r: Parsed<Stmt>)
    requires At(ts, p) && !ts[p].EOF?
    ensures r.Done? ==> r.pos < |ts|
  {
    match ParseFrom(ts, p + 1)
    case Fail => Fail
    case Done(table, q) => match OptWhere(ts, q)
      case Fail => Fail
      case Done(w, m) => Done(Stmt(Tail, "", table, [], w, [], None, 0), m)
  }

  function ParseSelect(ts: seq<Token>, p: nat): (r: Parsed<Stmt>)
    requires At(ts, p) && !ts[p].EOF?
    ensures r.Done? ==> r.pos < |ts|
  {
    match ParseSelectList(ts, [], p + 1)
    case Fail => Fail
    case Done(items, q) => match ParseFrom(ts, q)
      case Fail => Fail
      case Done(table, q1) => match OptWhere(ts, q1)
        case Fail => Fail
        case Done(w, q2) => SelectTail(ts, Stmt(Select, "", table, items, w, [], None, 0), q2)
  }

  function SelectTail(ts: seq<Token>, s: Stmt, p: nat): (r: Parsed<Stmt>)
    requires At(ts, p)
    ensures r.Done? ==> r.pos < |ts|
  {
    match OptGroupBy(ts, p)
    case Fail => Fail
    case Done(gb, q) => match OptOrderBy(ts, q)
      case Fail => Fail
      case Done(ob, m) => match OptLimit(ts, m)
        case Fail => Fail
        case Done(n, e) => Done(s.(groupBy := gb, orderBy := ob, limit := n), e)
  }

  function ParseStatement(ts: seq<Token>): (r: Parsed<Stmt>)
    requires Terminated(ts)
    ensures r.Done? ==> r.pos < |ts|
  {
    if IsKw(ts[0], "SEARCH") then ParseSearch(ts, 0)
    else if IsKw(ts[0], "SELECT") then ParseSelect(ts, 0)
    else if IsKw(ts[0], "TAIL") then ParseTail(ts, 0)
    else Fail
  }

  function ParseTokens(ts: seq<Token>): Result<Stmt>
    requires Terminated(ts)
  {
    match ParseStatement(ts)
    case Fail => Err
    case Done(s, p) => if ts[p].EOF? then Ok(s) else Err
  }

  function Parse(input: string): Result<Stmt> {
    match LexSpec(input)
    case Err => Err
    case Ok(ts) => ParseTokens(ts)
  }
}
