/**
  Whole statements (domains/query/parser.go:46-247): every well-formed SEARCH, TAIL and SELECT,
  printed, parses back to exactly that statement, as tokens and as text; and whatever is accepted
  is spelled clause by clause as the statement says.
 */
module ParserStatements {
  import opened Text
  import opened Lexer
  import opened Ast
  import opened ParserSpec
  import opened ParserLaws

  // ---------------------------------------------------------------- the printer

  function PrintFields(fs: seq<Field>): seq<Token> {
    if fs == [] then [] else PrintField(fs[0]) + if |fs| == 1 then [] else [Comma] + PrintFields(fs[1..])
  }

  function PrintAlias(alias: string): seq<Token> { if alias == "" then [] else [Ident("AS"), Ident(alias)] }

  function PrintArg(f: Option<Field>): seq<Token> { match f case None => [Star] case Some(g) => PrintField(g) }

  function PrintItem(it: SelectItem): seq<Token> {
    if it.agg != "" then [Ident(it.agg), LParen] + PrintArg(it.field) + [RParen] + PrintAlias(it.alias)
    else PrintArg(it.field) + PrintAlias(it.alias)
  }

  function PrintItems(items: seq<SelectItem>): seq<Token> {
    if items == [] then [] else PrintItem(items[0]) + if |items| == 1 then [] else [Comma] + PrintItems(items[1..])
  }

  function PrintFrom(table: string): seq<Token> { [Ident("FROM"), Ident(table)] }

  function PrintWhere(w: Option<Expr>): seq<Token> {
    match w case None => [] case Some(e) => [Ident("WHERE")] + Print(e)
  }

  function PrintGroup(fs: seq<Field>): seq<Token> {
    if fs == [] then [] else [Ident("GROUP"), Ident("BY")] + PrintFields(fs)
  }

  /** The direction can be left out when it is ascending. */
  function PrintDir(desc: bool, bare: bool): seq<Token> {
    if desc then [Ident("DESC")] else if bare then [] else [Ident("ASC")]
  }

  function PrintOrder(ob: Option<OrderItem>, bare: bool): seq<Token> {
    match ob case None => [] case Some(o) => [Ident("ORDER"), Ident("BY")] + PrintField(o.field) + PrintDir(o.desc, bare)
  }

  function PrintLimit(n: int): seq<Token> { if n <= 0 then [] else [Ident("LIMIT"), Num(Decimal(n))] }

  function PrintEnd(s: Stmt, bare: bool): seq<Token> {
    PrintGroup(s.groupBy) + (PrintOrder(s.orderBy, bare) + PrintLimit(s.limit))
  }

  function PrintStmt(s: Stmt, bare: bool): seq<Token> {
    match s.kind
    case Search => [Ident("SEARCH"), Str(s.search)] + (PrintFrom(s.table) + (PrintWhere(s.where) + PrintLimit(s.limit)))
    case Tail => [Ident("TAIL")] + (PrintFrom(s.table) + PrintWhere(s.where))
    case Select => PrintSelect(s, bare)
  }

  function PrintSelect(s: Stmt, bare: bool): seq<Token> {
    Glued(PrintItems(s.select), PrintFrom(s.table), PrintWhere(s.where), PrintEnd(s, bare))
  }

  function Glued(i: seq<Token>, f: seq<Token>, w: seq<Token>, z: seq<Token>): seq<Token> {
    [Ident("SELECT")] + (i + (f + (w + z)))
  }

  // ---------------------------------------------------------------- well-formed statements

  /** A star, a column, or an aggregate over either; a bare star has no alias. */
  predicate PlainItem(it: SelectItem) {
    (it.agg == "" || IsAgg(it.agg)) && (it.agg == "" && it.field.None? ==> it.alias == "")
  }

  predicate PlainItems(items: seq<SelectItem>) { forall i :: 0 <= i < |items| ==> PlainItem(items[i]) }

  predicate PlainStmt(s: Stmt) {
    && Lower(s.table) == s.table && (s.where.Some? ==> IsOr(s.where.value)) && 0 <= s.limit < TWO63
    && (s.kind.Select? ==> s.search == "" && s.select != [] && PlainItems(s.select))
    && (!s.kind.Select? ==> s.select == [] && s.groupBy == [] && s.orderBy == None)
    && (s.kind.Tail? ==> s.search == "" && s.limit == 0)
  }

  // ---------------------------------------------------------------- keywords

  lemma OtherWord(a: string, b: string)
    requires |a| != |b| || (a != "" && LowerChar(a[0]) != LowerChar(b[0]))
    ensures !EqualFold(a, b)
  {
    assert |a| == |b| && a != "" ==> Lower(a)[0] != Lower(b)[0];
  }

  /** What can follow a clause: the end or a later clause. */
  predicate Closes(t: Token) {
    t.EOF? || t == Ident("WHERE") || t == Ident("GROUP") || t == Ident("ORDER") || t == Ident("LIMIT")
  }

  predicate EndsWhere(t: Token) { EndsGroup(t) || t == Ident("GROUP") }

  predicate EndsGroup(t: Token) { EndsOrder(t) || t == Ident("ORDER") }

  predicate EndsOrder(t: Token) { t.EOF? || t == Ident("LIMIT") }

  lemma ClosesAll(t: Token)
    requires Closes(t)
    ensures EndsExpr(t) && !t.Dot? && !t.Comma? && !IsKw(t, "ASC") && !IsKw(t, "DESC")
    ensures IsKw(t, "WHERE") ==> t == Ident("WHERE")
    ensures IsKw(t, "GROUP") ==> t == Ident("GROUP")
    ensures IsKw(t, "ORDER") ==> t == Ident("ORDER")
    ensures IsKw(t, "LIMIT") ==> t == Ident("LIMIT")
  {
    if t.Ident? {
      OtherWord(t.text, "OR");
      OtherWord(t.text, "AND");
      OtherWord(t.text, "ASC");
      OtherWord(t.text, "DESC");
      ClauseWords();
    }
  }

  lemma ClauseWords()
    ensures !EqualFold("WHERE", "GROUP") && !EqualFold("WHERE", "ORDER") && !EqualFold("WHERE", "LIMIT")
    ensures !EqualFold("GROUP", "WHERE") && !EqualFold("GROUP", "ORDER") && !EqualFold("GROUP", "LIMIT")
    ensures !EqualFold("ORDER", "WHERE") && !EqualFold("ORDER", "GROUP") && !EqualFold("ORDER", "LIMIT")
    ensures !EqualFold("LIMIT", "WHERE") && !EqualFold("LIMIT", "GROUP") && !EqualFold("LIMIT", "ORDER")
  {
    OtherWord("WHERE", "GROUP");
    OtherWord("WHERE", "ORDER");
    OtherWord("WHERE", "LIMIT");
    OtherWord("GROUP", "ORDER");
    OtherWord("GROUP", "LIMIT");
    OtherWord("ORDER", "LIMIT");
  }

  // ---------------------------------------------------------------- fields and items

  lemma FieldReads(ts: seq<Token>, p: nat, f: Field)
    requires Stands(ts, p, PrintField(f)) && !ts[p + |PrintField(f)|].Dot?
    ensures ParseField(ts, p) == Done(f, p + |PrintField(f)|)
  {
    FieldForward(ts, p, f);
  }

  lemma {:induction false} FieldsRead(ts: seq<Token>, acc: seq<Field>, p: nat, fs: seq<Field>)
    requires fs != [] && Stands(ts, p, PrintFields(fs))
    requires var t := ts[p + |PrintFields(fs)|]; !t.Dot? && !t.Comma?
    ensures GroupFields(ts, acc, p) == Done(acc + fs, p + |PrintFields(fs)|)
    decreases |fs|
  {
    var q := p + |PrintField(fs[0])|;
    if |fs| == 1 {
      assert PrintFields(fs) == PrintField(fs[0]);
      FieldReads(ts, p, fs[0]);
      assert fs == [fs[0]];
    } else {
      var more := PrintFields(fs[1..]);
      assert PrintFields(fs) == PrintField(fs[0]) + [Comma] + more;
      StandsMiddle(ts, p, PrintField(fs[0]), Comma, more);
      FieldReads(ts, p, fs[0]);
      FieldsRead(ts, acc + [fs[0]], q + 1, fs[1..]);
      assert acc + [fs[0]] + fs[1..] == acc + fs;
    }
  }

  /** What can follow an item: a comma or FROM. */
  predicate ClosesItem(t: Token) { t == Comma || t == Ident("FROM") }

  lemma AliasReads(ts: seq<Token>, it: SelectItem, p: nat, alias: string)
    requires it.alias == "" && Stands(ts, p, PrintAlias(alias)) && ClosesItem(ts[p + |PrintAlias(alias)|])
    ensures OptAlias(ts, it, p) == Done(it.(alias := alias), p + |PrintAlias(alias)|)
  {
    if alias == "" {
      OtherWord("FROM", "AS");
    } else {
      assert ts[p] == PrintAlias(alias)[0] && ts[p + 1] == PrintAlias(alias)[1];
    }
  }

  lemma AliasFirst(ts: seq<Token>, p: nat, alias: string)
    requires Stands(ts, p, PrintAlias(alias)) && ClosesItem(ts[p + |PrintAlias(alias)|])
    ensures !ts[p].Dot? && !ts[p].LParen?
  {
    if alias != "" {
      StandsFirst(ts, p, PrintAlias(alias));
    }
  }

  lemma AggLower(agg: string)
    requires IsAgg(agg)
    ensures Lower(agg) == agg
  {}

  /** Behind the opening parenthesis of an aggregate. */
  lemma ArgReads(ts: seq<Token>, p: nat, f: Option<Field>)
    requires Stands(ts, p, PrintArg(f)) && ts[p + |PrintArg(f)|].RParen?
    ensures f.None? ==> ts[p].Star?
    ensures f.Some? ==> !ts[p].Star? && ParseField(ts, p) == Done(f.value, p + |PrintArg(f)|)
  {
    StandsHead(ts, p, f);
    if f.Some? {
      FieldReads(ts, p, f.value);
    }
  }

  lemma StandsHead(ts: seq<Token>, p: nat, f: Option<Field>)
    requires Stands(ts, p, PrintArg(f))
    ensures PrintArg(f) != [] && ts[p] == PrintArg(f)[0] && (f.Some? ==> ts[p].Ident?)
  {
    if f.Some? {
      FieldHead(f.value);
    }
    StandsFirst(ts, p, PrintArg(f));
  }

  lemma AggregateReads(ts: seq<Token>, p: nat, it: SelectItem)
    requires IsAgg(it.agg) && Stands(ts, p, PrintItem(it)) && ClosesItem(ts[p + |PrintItem(it)|])
    ensures !ts[p].Star? && ParseSelectItem(ts, p) == Done(it, p + |PrintItem(it)|)
  {
    var arg := PrintArg(it.field);
    assert PrintItem(it) == ([Ident(it.agg), LParen] + arg) + [RParen] + PrintAlias(it.alias);
    StandsMiddle(ts, p, [Ident(it.agg), LParen] + arg, RParen, PrintAlias(it.alias));
    StandsSplit(ts, p, [Ident(it.agg), LParen], arg);
    assert ts[p] == [Ident(it.agg), LParen][0] && ts[p + 1] == [Ident(it.agg), LParen][1];
    AggLower(it.agg);
    ArgReads(ts, p + 2, it.field);
    AliasReads(ts, it.(alias := ""), p + 3 + |arg|, it.alias);
  }

  lemma ColumnReads(ts: seq<Token>, p: nat, it: SelectItem, f: Field)
    requires it.agg == "" && it.field == Some(f) && Stands(ts, p, PrintItem(it)) && ClosesItem(ts[p + |PrintItem(it)|])
    ensures !ts[p].Star? && ParseSelectItem(ts, p) == Done(it, p + |PrintItem(it)|)
  {
    StandsSplit(ts, p, PrintField(f), PrintAlias(it.alias));
    StandsHead(ts, p, Some(f));
    var q := p + |PrintField(f)|;
    AliasFirst(ts, q, it.alias);
    SecondToken(ts, p, f);
    FieldReads(ts, p, f);
    AliasReads(ts, it.(alias := ""), q, it.alias);
  }

  /** A printed field is not the start of a call. */
  lemma {:induction false} SecondToken(ts: seq<Token>, p: nat, f: Field)
    requires Stands(ts, p, PrintField(f)) && !ts[p + |PrintField(f)|].LParen?
    ensures !ts[p + 1].LParen?
  {
    if |f| > 1 {
      var init := f[..|f| - 1];
      StandsSplit(ts, p, PrintField(init), [Dot, Ident(f[|f| - 1])]);
      StandsFirst(ts, p + |PrintField(init)|, [Dot, Ident(f[|f| - 1])]);
      SecondToken(ts, p, init);
    }
  }

  /** One item of the list, star or not. */
  lemma ItemReads(ts: seq<Token>, p: nat, it: SelectItem)
    requires PlainItem(it) && Stands(ts, p, PrintItem(it)) && ClosesItem(ts[p + |PrintItem(it)|])
    ensures if ts[p].Star? then it == SelectItem("", None, "") && |PrintItem(it)| == 1
            else ParseSelectItem(ts, p) == Done(it, p + |PrintItem(it)|)
  {
    if it.agg != "" {
      AggregateReads(ts, p, it);
    } else if it.field.Some? {
      ColumnReads(ts, p, it, it.field.value);
    } else {
      assert PrintItem(it) == [Star];
      StandsFirst(ts, p, [Star]);
    }
  }

  /** The item read at p, up to q. */
  ghost predicate ItemAt(ts: seq<Token>, p: nat, it: SelectItem, q: nat) {
    At(ts, p) && At(ts, q) && q > p
    && if ts[p].Star? then it == SelectItem("", None, "") && q == p + 1 else ParseSelectItem(ts, p) == Done(it, q)
  }

  lemma ListTurn(ts: seq<Token>, acc: seq<SelectItem>, p: nat, it: SelectItem, q: nat)
    requires ItemAt(ts, p, it, q)
    ensures ts[q].Comma? ==> ParseSelectList(ts, acc, p) == ParseSelectList(ts, acc + [it], q + 1)
    ensures !ts[q].Comma? ==> ParseSelectList(ts, acc, p) == Done(acc + [it], q)
  {}

  lemma ItemIsAt(ts: seq<Token>, p: nat, it: SelectItem)
    requires PlainItem(it) && Stands(ts, p, PrintItem(it)) && ClosesItem(ts[p + |PrintItem(it)|])
    ensures ItemAt(ts, p, it, p + |PrintItem(it)|)
  {
    ItemReads(ts, p, it);
    if it.agg == "" {
      StandsSplit(ts, p, PrintArg(it.field), PrintAlias(it.alias));
      StandsHead(ts, p, it.field);
    }
  }

  /** A run cut at a token, with the end position. */
  lemma StandsCut(ts: seq<Token>, p: nat, s: seq<Token>, a: seq<Token>, t: Token, b: seq<Token>, e: nat)
    requires s == a + [t] + b && Stands(ts, p, s) && e == p + |s|
    ensures var q := p + |a|; Stands(ts, p, a) && ts[q] == t && Stands(ts, q + 1, b) && e == q + 1 + |b|
  {
    StandsMiddle(ts, p, a, t, b);
  }

  lemma ItemsCut(items: seq<SelectItem>)
    requires |items| > 1
    ensures PrintItems(items) == PrintItem(items[0]) + [Comma] + PrintItems(items[1..])
  {}

  /** The list read from p to q. */
  ghost predicate ItemsAt(ts: seq<Token>, acc: seq<SelectItem>, p: nat, items: seq<SelectItem>, q: nat) {
    At(ts, p) && ParseSelectList(ts, acc, p) == Done(acc + items, q)
  }

  lemma OneItem(ts: seq<Token>, acc: seq<SelectItem>, p: nat, items: seq<SelectItem>, q: nat)
    requires |items| == 1 && ItemAt(ts, p, items[0], q) && !ts[q].Comma?
    ensures ItemsAt(ts, acc, p, items, q)
  {
    assert items == [items[0]];
    ListTurn(ts, acc, p, items[0], q);
  }

  lemma MoreItems(ts: seq<Token>, acc: seq<SelectItem>, p: nat, items: seq<SelectItem>, q: nat, e: nat)
    requires items != [] && ItemAt(ts, p, items[0], q) && ts[q].Comma?
    requires ItemsAt(ts, acc + [items[0]], q + 1, items[1..], e)
    ensures ItemsAt(ts, acc, p, items, e)
  {
    ListTurn(ts, acc, p, items[0], q);
    assert acc + [items[0]] + items[1..] == acc + items;
  }

  /** Items with commas between them, and FROM behind. */
  ghost predicate Listed(ts: seq<Token>, p: nat, items: seq<SelectItem>, e: nat)
    decreases |items|
  {
    if |items| <= 1 then |items| == 1 && ItemAt(ts, p, items[0], e) && ts[e] == Ident("FROM")
    else exists q: nat :: ItemAt(ts, p, items[0], q) && ts[q] == Comma && Listed(ts, q + 1, items[1..], e)
  }

  lemma ListedHead(ts: seq<Token>, p: nat, items: seq<SelectItem>, e: nat) returns (q: nat)
    requires Listed(ts, p, items, e) && |items| != 1
    ensures items != [] && ItemAt(ts, p, items[0], q) && ts[q] == Comma && Listed(ts, q + 1, items[1..], e)
  {
    q :| ItemAt(ts, p, items[0], q) && ts[q] == Comma && Listed(ts, q + 1, items[1..], e);
  }

  lemma {:induction false} ListedReads(ts: seq<Token>, acc: seq<SelectItem>, p: nat, items: seq<SelectItem>, e: nat)
    requires Listed(ts, p, items, e)
    ensures ItemsAt(ts, acc, p, items, e)
    decreases |items|
  {
    if |items| == 1 {
      OneItem(ts, acc, p, items, e);
    } else {
      var q := ListedHead(ts, p, items, e);
      ListedReads(ts, acc + [items[0]], q + 1, items[1..], e);
      MoreItems(ts, acc, p, items, q, e);
    }
  }

  /** A printed list standing from p to e, with FROM behind. */
  ghost predicate ListStands(ts: seq<Token>, p: nat, items: seq<SelectItem>, e: nat) {
    && items != [] && PlainItems(items) && Stands(ts, p, PrintItems(items)) && e == p + |PrintItems(items)|
    && ts[e] == Ident("FROM")
  }

  lemma LoneItem(ts: seq<Token>, p: nat, items: seq<SelectItem>, e: nat)
    requires |items| == 1 && ListStands(ts, p, items, e)
    ensures Listed(ts, p, items, e)
  {
    assert PrintItems(items) == PrintItem(items[0]);
    ItemIsAt(ts, p, items[0]);
  }

  /** An item with a comma behind it, and the position of the comma. */
  lemma ItemThenComma(ts: seq<Token>, p: nat, it: SelectItem, s: seq<Token>, more: seq<Token>, e: nat) returns (q: nat)
    requires PlainItem(it) && s == PrintItem(it) + [Comma] + more && Stands(ts, p, s) && e == p + |s|
    ensures At(ts, q) && ts[q] == Comma && ItemAt(ts, p, it, q) && Stands(ts, q + 1, more) && e == q + 1 + |more|
  {
    StandsCut(ts, p, s, PrintItem(it), Comma, more, e);
    q := p + |PrintItem(it)|;
    ItemIsAt(ts, p, it);
  }

  lemma FirstItem(ts: seq<Token>, p: nat, items: seq<SelectItem>, e: nat) returns (q: nat)
    requires |items| > 1 && ListStands(ts, p, items, e)
    ensures ItemAt(ts, p, items[0], q) && ts[q] == Comma && ListStands(ts, q + 1, items[1..], e)
  {
    ItemsCut(items);
    q := ItemThenComma(ts, p, items[0], PrintItems(items), PrintItems(items[1..]), e);
  }

  lemma ListedMore(ts: seq<Token>, p: nat, items: seq<SelectItem>, q: nat, e: nat)
    requires |items| > 1 && ItemAt(ts, p, items[0], q) && ts[q] == Comma && Listed(ts, q + 1, items[1..], e)
    ensures Listed(ts, p, items, e)
  {}

  lemma {:induction false} ItemsStand(ts: seq<Token>, p: nat, items: seq<SelectItem>, e: nat)
    requires ListStands(ts, p, items, e)
    ensures Listed(ts, p, items, e)
    decreases |items|
  {
    if |items| == 1 {
      LoneItem(ts, p, items, e);
    } else {
      var q := FirstItem(ts, p, items, e);
      ItemsStand(ts, q + 1, items[1..], e);
      ListedMore(ts, p, items, q, e);
    }
  }

  lemma ItemsRead(ts: seq<Token>, p: nat, items: seq<SelectItem>, e: nat)
    requires items != [] && PlainItems(items) && Stands(ts, p, PrintItems(items)) && e == p + |PrintItems(items)|
    requires ts[e] == Ident("FROM")
    ensures ItemsAt(ts, [], p, items, e)
  {
    ItemsStand(ts, p, items, e);
    ListedReads(ts, [], p, items, e);
  }

  // ---------------------------------------------------------------- clauses

  lemma FromReads(ts: seq<Token>, p: nat, table: string)
    requires Lower(table) == table && Stands(ts, p, PrintFrom(table))
    ensures ts[p] == Ident("FROM") && ParseFrom(ts, p) == Done(table, p + 2)
  {
    assert ts[p] == PrintFrom(table)[0] && ts[p + 1] == PrintFrom(table)[1];
  }

  lemma WhereReads(ts: seq<Token>, p: nat, w: Option<Expr>, e: nat)
    requires (w.Some? ==> IsOr(w.value)) && Stands(ts, p, PrintWhere(w)) && e == p + |PrintWhere(w)|
    requires EndsWhere(ts[e])
    ensures OptWhere(ts, p) == Done(w, e)
  {
    ClosesAll(ts[e]);
    if w.Some? {
      StandsSplit(ts, p, [Ident("WHERE")], Print(w.value));
      StandsFirst(ts, p, [Ident("WHERE")]);
      PredicateReads(ts, p, w.value, e);
    }
  }

  lemma PredicateReads(ts: seq<Token>, p: nat, x: Expr, e: nat)
    requires IsOr(x) && Stands(ts, p + 1, Print(x)) && e == p + 1 + |Print(x)|
    requires ts[p] == Ident("WHERE") && EndsExpr(ts[e])
    ensures OptWhere(ts, p) == Done(Some(x), e)
  {
    OrForward(ts, p + 1, x);
  }

  lemma LimitReads(ts: seq<Token>, p: nat, n: int)
    requires 0 <= n < TWO63 && Stands(ts, p, PrintLimit(n)) && ts[p + |PrintLimit(n)|].EOF?
    ensures OptLimit(ts, p) == Done(n, p + |PrintLimit(n)|)
  {
    if n > 0 {
      assert ts[p] == PrintLimit(n)[0] && ts[p + 1] == PrintLimit(n)[1];
      SignedRoundTrip(n);
    }
  }

  lemma DirReads(ts: seq<Token>, p: nat, f: Field, desc: bool, bare: bool)
    requires Stands(ts, p, PrintField(f) + PrintDir(desc, bare)) && Closes(ts[p + |PrintField(f) + PrintDir(desc, bare)|])
    ensures var q := p + |PrintField(f)|;
            && ParseField(ts, p) == Done(f, q) && (IsKw(ts[q], "DESC") <==> desc)
            && (IsKw(ts[q], "ASC") <==> !desc && !bare)
  {
    var q := p + |PrintField(f)|;
    StandsSplit(ts, p, PrintField(f), PrintDir(desc, bare));
    ClosesAll(ts[p + |PrintField(f) + PrintDir(desc, bare)|]);
    OtherWord("DESC", "ASC");
    OtherWord("ASC", "DESC");
    if desc || !bare {
      StandsFirst(ts, q, PrintDir(desc, bare));
    }
    FieldReads(ts, p, f);
  }

  lemma OrderTurn(ts: seq<Token>, p: nat, f: Field, q: nat)
    requires At(ts, p) && ts[p] == Ident("ORDER") && ts[p + 1] == Ident("BY") && At(ts, q)
    requires ParseField(ts, p + 2) == Done(f, q)
    ensures OptOrderBy(ts, p) == if IsKw(ts[q], "DESC") then Done(Some(OrderItem(f, true)), q + 1)
                                 else Done(Some(OrderItem(f, false)), if IsKw(ts[q], "ASC") then q + 1 else q)
  {}

  /** Behind ORDER BY. */
  lemma OrderBody(ts: seq<Token>, p: nat, f: Field, desc: bool, bare: bool)
    requires Stands(ts, p + 2, PrintField(f) + PrintDir(desc, bare))
    requires Closes(ts[p + 2 + |PrintField(f) + PrintDir(desc, bare)|])
    requires ts[p] == Ident("ORDER") && ts[p + 1] == Ident("BY")
    ensures OptOrderBy(ts, p) == Done(Some(OrderItem(f, desc)), p + 2 + |PrintField(f) + PrintDir(desc, bare)|)
  {
    DirReads(ts, p + 2, f, desc, bare);
    OrderTurn(ts, p, f, p + 2 + |PrintField(f)|);
  }

  lemma OrderStands(ts: seq<Token>, p: nat, f: Field, desc: bool, bare: bool)
    requires Stands(ts, p, PrintOrder(Some(OrderItem(f, desc)), bare))
    ensures ts[p] == Ident("ORDER") && ts[p + 1] == Ident("BY")
    ensures Stands(ts, p + 2, PrintField(f) + PrintDir(desc, bare))
    ensures |PrintOrder(Some(OrderItem(f, desc)), bare)| == 2 + |PrintField(f) + PrintDir(desc, bare)|
  {
    var d := PrintField(f) + PrintDir(desc, bare);
    assert PrintOrder(Some(OrderItem(f, desc)), bare) == [Ident("ORDER"), Ident("BY")] + d;
    TwoWords(ts, p, "ORDER", "BY", d);
  }

  lemma OrderReads(ts: seq<Token>, p: nat, ob: Option<OrderItem>, bare: bool, e: nat)
    requires Stands(ts, p, PrintOrder(ob, bare)) && e == p + |PrintOrder(ob, bare)| && EndsOrder(ts[e])
    ensures OptOrderBy(ts, p) == Done(ob, e)
  {
    ClosesAll(ts[e]);
    if ob.Some? {
      OrderStands(ts, p, ob.value.field, ob.value.desc, bare);
      OrderBody(ts, p, ob.value.field, ob.value.desc, bare);
    }
  }

  lemma TwoWords(ts: seq<Token>, p: nat, a: string, b: string, rest: seq<Token>)
    requires Stands(ts, p, [Ident(a), Ident(b)] + rest)
    ensures ts[p] == Ident(a) && ts[p + 1] == Ident(b) && Stands(ts, p + 2, rest)
  {
    StandsSplit(ts, p, [Ident(a), Ident(b)], rest);
    assert ts[p] == [Ident(a), Ident(b)][0] && ts[p + 1] == [Ident(a), Ident(b)][1];
  }

  lemma GroupReads(ts: seq<Token>, p: nat, fs: seq<Field>, e: nat)
    requires Stands(ts, p, PrintGroup(fs)) && e == p + |PrintGroup(fs)| && EndsGroup(ts[e])
    ensures OptGroupBy(ts, p) == Done(fs, e)
  {
    ClosesAll(ts[e]);
    if fs != [] {
      TwoWords(ts, p, "GROUP", "BY", PrintFields(fs));
      ColumnsRead(ts, p, fs, e);
    }
  }

  lemma ColumnsRead(ts: seq<Token>, p: nat, fs: seq<Field>, e: nat)
    requires fs != [] && Stands(ts, p + 2, PrintFields(fs)) && e == p + 2 + |PrintFields(fs)|
    requires ts[p] == Ident("GROUP") && ts[p + 1] == Ident("BY") && !ts[e].Dot? && !ts[e].Comma?
    ensures OptGroupBy(ts, p) == Done(fs, e)
  {
    FieldsRead(ts, [], p + 2, fs);
    assert [] + fs == fs;
  }

  /** The token a run of optional clauses starts with. */
  lemma LimitFirst(ts: seq<Token>, p: nat, n: int)
    requires Stands(ts, p, PrintLimit(n)) && ts[p + |PrintLimit(n)|].EOF?
    ensures EndsOrder(ts[p])
  {
    if n > 0 {
      StandsFirst(ts, p, PrintLimit(n));
    }
  }

  lemma OrderFirst(ts: seq<Token>, p: nat, ob: Option<OrderItem>, bare: bool, n: int)
    requires Stands(ts, p, PrintOrder(ob, bare) + PrintLimit(n)) && ts[p + |PrintOrder(ob, bare) + PrintLimit(n)|].EOF?
    ensures EndsGroup(ts[p])
  {
    StandsSplit(ts, p, PrintOrder(ob, bare), PrintLimit(n));
    LimitFirst(ts, p + |PrintOrder(ob, bare)|, n);
    if ob.Some? {
      StandsFirst(ts, p, PrintOrder(ob, bare));
    }
  }

  lemma StandsThree(ts: seq<Token>, p: nat, g: seq<Token>, o: seq<Token>, l: seq<Token>, e: nat)
    requires Stands(ts, p, g + (o + l)) && e == p + |g + (o + l)|
    ensures var q := p + |g|; Stands(ts, p, g) && Stands(ts, q, o + l) && Stands(ts, q, o) && Stands(ts, q + |o|, l)
    ensures e == p + |g| + |o| + |l|
  {
    StandsSplit(ts, p, g, o + l);
    StandsSplit(ts, p + |g|, o, l);
  }

  lemma EndFirst(ts: seq<Token>, p: nat, s: Stmt, bare: bool, e: nat)
    requires Stands(ts, p, PrintEnd(s, bare)) && e == p + |PrintEnd(s, bare)| && ts[e].EOF?
    ensures EndsWhere(ts[p])
  {
    var g, o, l := PrintGroup(s.groupBy), PrintOrder(s.orderBy, bare), PrintLimit(s.limit);
    if s.groupBy == [] {
      assert g + (o + l) == o + l;
      OrderFirst(ts, p, s.orderBy, bare, s.limit);
    } else {
      StandsThree(ts, p, g, o, l, e);
      StandsFirst(ts, p, g);
    }
  }

  lemma EndTurn(ts: seq<Token>, s0: Stmt, p: nat, gb: seq<Field>, q: nat, ob: Option<OrderItem>, m: nat, n: int, e: nat)
    requires At(ts, p) && At(ts, q) && At(ts, m)
    requires OptGroupBy(ts, p) == Done(gb, q) && OptOrderBy(ts, q) == Done(ob, m) && OptLimit(ts, m) == Done(n, e)
    ensures SelectTail(ts, s0, p) == Done(s0.(groupBy := gb, orderBy := ob, limit := n), e)
  {}

  lemma EndParts(ts: seq<Token>, s: Stmt, p: nat, bare: bool, e: nat)
    requires Stands(ts, p, PrintEnd(s, bare)) && e == p + |PrintEnd(s, bare)| && ts[e].EOF?
    ensures var q := p + |PrintGroup(s.groupBy)|;
            var m := q + |PrintOrder(s.orderBy, bare)|;
            && Stands(ts, p, PrintGroup(s.groupBy)) && Stands(ts, q, PrintOrder(s.orderBy, bare))
            && Stands(ts, m, PrintLimit(s.limit)) && e == m + |PrintLimit(s.limit)|
            && EndsGroup(ts[q]) && EndsOrder(ts[m])
  {
    var g, o, l := PrintGroup(s.groupBy), PrintOrder(s.orderBy, bare), PrintLimit(s.limit);
    StandsThree(ts, p, g, o, l, e);
    OrderFirst(ts, p + |g|, s.orderBy, bare, s.limit);
    LimitFirst(ts, p + |g| + |o|, s.limit);
  }

  lemma EndReads(ts: seq<Token>, s0: Stmt, s: Stmt, p: nat, bare: bool, e: nat)
    requires 0 <= s.limit < TWO63 && s == s0.(groupBy := s.groupBy, orderBy := s.orderBy, limit := s.limit)
    requires Stands(ts, p, PrintEnd(s, bare)) && e == p + |PrintEnd(s, bare)| && ts[e].EOF?
    ensures SelectTail(ts, s0, p) == Done(s, e)
  {
    var q, m := EndClauses(ts, s, p, bare, e);
    EndTurn(ts, s0, p, s.groupBy, q, s.orderBy, m, s.limit, e);
  }

  lemma EndClauses(ts: seq<Token>, s: Stmt, p: nat, bare: bool, e: nat) returns (q: nat, m: nat)
    requires 0 <= s.limit < TWO63 && Stands(ts, p, PrintEnd(s, bare)) && e == p + |PrintEnd(s, bare)| && ts[e].EOF?
    ensures At(ts, q) && At(ts, m) && OptGroupBy(ts, p) == Done(s.groupBy, q)
    ensures OptOrderBy(ts, q) == Done(s.orderBy, m) && OptLimit(ts, m) == Done(s.limit, e)
  {
    EndParts(ts, s, p, bare, e);
    q := p + |PrintGroup(s.groupBy)|;
    m := q + |PrintOrder(s.orderBy, bare)|;
    GroupReads(ts, p, s.groupBy, q);
    OrderReads(ts, q, s.orderBy, bare, m);
    LimitReads(ts, m, s.limit);
  }

  // ---------------------------------------------------------------- statements

  lemma SearchReads(ts: seq<Token>, s: Stmt)
    requires PlainStmt(s) && s.kind.Search? && Stands(ts, 0, PrintStmt(s, false)) && ts[|PrintStmt(s, false)|].EOF?
    ensures ParseStatement(ts) == Done(s, |PrintStmt(s, false)|)
  {
    var h, f, w, l := [Ident("SEARCH"), Str(s.search)], PrintFrom(s.table), PrintWhere(s.where), PrintLimit(s.limit);
    StandsSplit(ts, 0, h, f + (w + l));
    StandsSplit(ts, 2, f, w + l);
    StandsSplit(ts, 4, w, l);
    assert ts[0] == h[0] && ts[1] == h[1];
    FromReads(ts, 2, s.table);
    LimitFirst(ts, 4 + |w|, s.limit);
    WhereReads(ts, 4, s.where, 4 + |w|);
    LimitReads(ts, 4 + |w|, s.limit);
  }

  lemma TailTurn(ts: seq<Token>, s: Stmt, e: nat)
    requires At(ts, 0) && ts[0] == Ident("TAIL") && At(ts, 3) && s == Stmt(Tail, "", s.table, [], s.where, [], None, 0)
    requires ParseFrom(ts, 1) == Done(s.table, 3) && OptWhere(ts, 3) == Done(s.where, e)
    ensures ParseStatement(ts) == Done(s, e)
  {
    OtherWord("TAIL", "SEARCH");
    OtherWord("TAIL", "SELECT");
  }

  lemma TailReads(ts: seq<Token>, s: Stmt)
    requires PlainStmt(s) && s.kind.Tail? && Stands(ts, 0, PrintStmt(s, false)) && ts[|PrintStmt(s, false)|].EOF?
    ensures ParseStatement(ts) == Done(s, |PrintStmt(s, false)|)
  {
    var f, w := PrintFrom(s.table), PrintWhere(s.where);
    StandsSplit(ts, 0, [Ident("TAIL")], f + w);
    StandsSplit(ts, 1, f, w);
    StandsFirst(ts, 0, [Ident("TAIL")]);
    FromReads(ts, 1, s.table);
    WhereReads(ts, 3, s.where, 3 + |w|);
    TailTurn(ts, s, 3 + |w|);
  }

  lemma SelectTurn(ts: seq<Token>, s0: Stmt, q: nat, q1: nat, q2: nat)
    requires s0 == Stmt(Select, "", s0.table, s0.select, s0.where, [], None, 0)
    requires At(ts, 0) && !ts[0].EOF? && At(ts, 1) && At(ts, q) && At(ts, q1) && At(ts, q2)
    requires ItemsAt(ts, [], 1, s0.select, q) && ParseFrom(ts, q) == Done(s0.table, q1)
    requires OptWhere(ts, q1) == Done(s0.where, q2)
    ensures ParseSelect(ts, 0) == SelectTail(ts, s0, q2)
  {
    assert [] + s0.select == s0.select;
  }

  lemma StandsGlued(ts: seq<Token>, i: seq<Token>, f: seq<Token>, w: seq<Token>, z: seq<Token>, q: nat, m: nat, e: nat)
    requires Stands(ts, 0, Glued(i, f, w, z)) && |f| == 2
    requires q == 1 + |i| && m == q + 2 + |w| && e == |Glued(i, f, w, z)|
    ensures ts[0] == Ident("SELECT") && Stands(ts, 1, i) && Stands(ts, q, f) && Stands(ts, q + 2, w)
    ensures Stands(ts, m, z) && e == m + |z|
  {
    StandsSplit(ts, 0, [Ident("SELECT")], i + (f + (w + z)));
    StandsSplit(ts, 1, i, f + (w + z));
    StandsSplit(ts, q, f, w + z);
    StandsSplit(ts, q + 2, w, z);
    StandsFirst(ts, 0, [Ident("SELECT")]);
  }

  /** The clauses before GROUP BY, and where each ends. */
  lemma ClausesRead(ts: seq<Token>, s: Stmt, q: nat, q1: nat, m: nat)
    requires PlainStmt(s) && s.kind.Select?
    requires Stands(ts, 1, PrintItems(s.select)) && q == 1 + |PrintItems(s.select)|
    requires Stands(ts, q, PrintFrom(s.table)) && q1 == q + 2
    requires Stands(ts, q1, PrintWhere(s.where)) && m == q1 + |PrintWhere(s.where)|
    requires EndsWhere(ts[m])
    ensures ItemsAt(ts, [], 1, s.select, q) && ParseFrom(ts, q) == Done(s.table, q1)
    ensures OptWhere(ts, q1) == Done(s.where, m)
  {
    FromReads(ts, q, s.table);
    ItemsRead(ts, 1, s.select, q);
    WhereReads(ts, q1, s.where, m);
  }

  /** The clauses stand where they should. */
  lemma SelectParts(ts: seq<Token>, s: Stmt, bare: bool, e: nat) returns (q: nat, m: nat)
    requires Stands(ts, 0, PrintSelect(s, bare)) && e == |PrintSelect(s, bare)| && ts[e].EOF?
    ensures q == 1 + |PrintItems(s.select)| && m == q + 2 + |PrintWhere(s.where)|
    ensures ts[0] == Ident("SELECT") && Stands(ts, 1, PrintItems(s.select)) && Stands(ts, q, PrintFrom(s.table))
    ensures Stands(ts, q + 2, PrintWhere(s.where)) && EndsWhere(ts[m])
    ensures Stands(ts, m, PrintEnd(s, bare)) && e == m + |PrintEnd(s, bare)|
  {
    q := 1 + |PrintItems(s.select)|;
    m := q + 2 + |PrintWhere(s.where)|;
    StandsGlued(ts, PrintItems(s.select), PrintFrom(s.table), PrintWhere(s.where), PrintEnd(s, bare), q, m, e);
    EndFirst(ts, m, s, bare, e);
  }

  /** List, FROM and WHERE read, and what is left. */
  lemma SelectClauses(ts: seq<Token>, s: Stmt, bare: bool, e: nat) returns (q: nat, m: nat)
    requires PlainStmt(s) && s.kind.Select? && Stands(ts, 0, PrintSelect(s, bare))
    requires e == |PrintSelect(s, bare)| && ts[e].EOF?
    ensures ts[0] == Ident("SELECT") && At(ts, q) && At(ts, q + 2)
    ensures ItemsAt(ts, [], 1, s.select, q) && ParseFrom(ts, q) == Done(s.table, q + 2)
    ensures OptWhere(ts, q + 2) == Done(s.where, m)
    ensures Stands(ts, m, PrintEnd(s, bare)) && e == m + |PrintEnd(s, bare)|
  {
    q, m := SelectParts(ts, s, bare, e);
    ClausesRead(ts, s, q, q + 2, m);
  }

  lemma SelectReads(ts: seq<Token>, s: Stmt, bare: bool, e: nat)
    requires PlainStmt(s) && s.kind.Select? && Stands(ts, 0, PrintSelect(s, bare))
    requires e == |PrintSelect(s, bare)| && ts[e].EOF?
    ensures ts[0] == Ident("SELECT") && ParseSelect(ts, 0) == Done(s, e)
  {
    var q, m := SelectClauses(ts, s, bare, e);
    var s0 := Stmt(Select, "", s.table, s.select, s.where, [], None, 0);
    EndReads(ts, s0, s, m, bare, e);
    SelectTurn(ts, s0, q, q + 2, m);
  }

  lemma SelectIsNotSearch()
    ensures !EqualFold("SELECT", "SEARCH")
  {
    assert Lower("SELECT")[2] == 'l' && Lower("SEARCH")[2] == 'a';
  }

  lemma SelectTokens(ts: seq<Token>, s: Stmt, e: nat)
    requires At(ts, 0) && ts[0] == Ident("SELECT") && ParseSelect(ts, 0) == Done(s, e) && ts[e].EOF?
    ensures ParseTokens(ts) == Ok(s)
  {
    SelectIsNotSearch();
  }

  lemma SelectAccepted(ts: seq<Token>, s: Stmt, bare: bool, e: nat)
    requires PlainStmt(s) && s.kind.Select? && Stands(ts, 0, PrintSelect(s, bare))
    requires e == |PrintSelect(s, bare)| && ts[e].EOF?
    ensures ParseTokens(ts) == Ok(s)
  {
    SelectReads(ts, s, bare, e);
    SelectTokens(ts, s, e);
  }

  lemma SelectRoundTrip(s: Stmt, bare: bool)
    requires PlainStmt(s) && s.kind.Select?
    ensures ParseTokens(PrintSelect(s, bare) + [EOF]) == Ok(s)
  {
    AllStands(PrintSelect(s, bare));
    SelectAccepted(PrintSelect(s, bare) + [EOF], s, bare, |PrintSelect(s, bare)|);
  }

  /** Every well-formed statement, printed with or without the ascending direction, parses to
      exactly that statement. */
  lemma StatementRoundTrip(s: Stmt, bare: bool)
    requires PlainStmt(s)
    ensures ParseTokens(PrintStmt(s, bare) + [EOF]) == Ok(s)
  {
    match s.kind
    case Search => SearchRoundTrip(s, bare);
    case Tail => TailRoundTrip(s, bare);
    case Select => SelectRoundTrip(s, bare);
  }

  lemma SearchRoundTrip(s: Stmt, bare: bool)
    requires PlainStmt(s) && s.kind.Search?
    ensures ParseTokens(PrintStmt(s, bare) + [EOF]) == Ok(s)
  {
    AllStands(PrintStmt(s, bare));
    SearchReads(PrintStmt(s, bare) + [EOF], s);
  }

  lemma TailRoundTrip(s: Stmt, bare: bool)
    requires PlainStmt(s) && s.kind.Tail?
    ensures ParseTokens(PrintStmt(s, bare) + [EOF]) == Ok(s)
  {
    AllStands(PrintStmt(s, bare));
    TailReads(PrintStmt(s, bare) + [EOF], s);
  }

  lemma AllStands(toks: seq<Token>)
    ensures Stands(toks + [EOF], 0, toks) && (toks + [EOF])[|toks|].EOF?
  {}

  // ---------------------------------------------------------------- through the text

  predicate WritableStmt(s: Stmt) {
    && WfStmt(s) && IsIdent(s.table) && (s.where.Some? ==> Writable(s.where.value))
  }

  lemma TwoWf(a: seq<Token>, b: seq<Token>)
    requires AllWf(a) && AllWf(b)
    ensures AllWf(a + b)
  {}

  lemma {:induction false} FieldsWf(fs: seq<Field>)
    requires forall f :: f in fs ==> WfField(f)
    ensures AllWf(PrintFields(fs))
  {
    if fs != [] {
      assert WfField(fs[0]);
      FieldTokensWf(fs[0]);
      FieldsWf(fs[1..]);
    }
  }

  lemma WordsWf()
    ensures IsIdent("AS") && IsIdent("FROM") && IsIdent("WHERE") && IsIdent("GROUP") && IsIdent("BY")
    ensures IsIdent("ORDER") && IsIdent("ASC") && IsIdent("DESC") && IsIdent("LIMIT")
    ensures IsIdent("SEARCH") && IsIdent("TAIL") && IsIdent("SELECT")
  {}

  lemma ItemWf(it: SelectItem)
    requires WfItem(it)
    ensures AllWf(PrintItem(it))
  {
    WordsWf();
    if it.field.Some? {
      FieldTokensWf(it.field.value);
    }
    if it.agg != "" {
      AggIsIdent(it.agg);
    }
  }

  lemma AggIsIdent(agg: string)
    requires IsAgg(agg)
    ensures IsIdent(agg)
  {}

  lemma {:induction false} ItemsWf(items: seq<SelectItem>)
    requires forall it :: it in items ==> WfItem(it)
    ensures AllWf(PrintItems(items))
  {
    if items != [] {
      ItemWf(items[0]);
      ItemsWf(items[1..]);
    }
  }

  lemma EndWf(s: Stmt, bare: bool)
    requires WritableStmt(s)
    ensures AllWf(PrintEnd(s, bare))
  {
    WordsWf();
    FieldsWf(s.groupBy);
    if s.orderBy.Some? {
      FieldTokensWf(s.orderBy.value.field);
    }
    TwoWf(PrintOrder(s.orderBy, bare), PrintLimit(s.limit));
    TwoWf(PrintGroup(s.groupBy), PrintOrder(s.orderBy, bare) + PrintLimit(s.limit));
  }

  lemma HeadWf(s: Stmt)
    requires WritableStmt(s)
    ensures AllWf(PrintFrom(s.table)) && AllWf(PrintWhere(s.where)) && AllWf(PrintLimit(s.limit))
  {
    WordsWf();
    if s.where.Some? {
      PrintedTokensWf(s.where.value);
    }
  }

  lemma StmtWf(s: Stmt, bare: bool)
    requires WritableStmt(s)
    ensures AllWf(PrintStmt(s, bare))
  {
    WordsWf();
    HeadWf(s);
    var f, w := PrintFrom(s.table), PrintWhere(s.where);
    match s.kind
    case Search =>
      TwoWf(w, PrintLimit(s.limit));
      TwoWf(f, w + PrintLimit(s.limit));
      TwoWf([Ident("SEARCH"), Str(s.search)], f + (w + PrintLimit(s.limit)));
    case Tail =>
      TwoWf(f, w);
      TwoWf([Ident("TAIL")], f + w);
    case Select =>
      var i, z := PrintItems(s.select), PrintEnd(s, bare);
      ItemsWf(s.select);
      EndWf(s, bare);
      TwoWf(w, z);
      TwoWf(f, w + z);
      TwoWf(i, f + (w + z));
      TwoWf([Ident("SELECT")], i + (f + (w + z)));
  }

  /** And so through the text: the phrase, the table, the list, the predicate, grouping, order and
      limit of the statement are those that were written. */
  lemma StatementTextRoundTrip(s: Stmt, bare: bool)
    requires PlainStmt(s) && WritableStmt(s)
    ensures Parse(Spaced(PrintStmt(s, bare))) == Ok(s)
  {
    StmtWf(s, bare);
    ScanSpaced(PrintStmt(s, bare));
    StatementRoundTrip(s, bare);
  }
}
