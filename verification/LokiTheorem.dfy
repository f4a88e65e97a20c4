/**
  What the Loki translator prints is tokenised, parsed and compiled by the query
  engine, and the tree holds exactly the asked matchers and a tight time window.
 */
module LokiTheorem {
  import opened Text
  import opened Lexer
  import opened Ast
  import opened ParserSpec
  import opened ParserLaws
  import opened Loki
  import Sql
  import opened Compile
  import CompileLoops
  import Meaning

  // ---------------------------------------------------------------- the intended tree

  function MatcherExpr(m: Matcher): Expr { Comparison([Lower(m.name)], m.op, ValString(m.value)) }

  function TimeExpr(op: string, seconds: nat): Expr {
    Comparison(["time"], op, ValTime(seconds, seconds != 0))
  }

  function MatcherExprs(ms: seq<Matcher>): seq<Expr> {
    seq(|ms|, i requires 0 <= i < |ms| => MatcherExpr(ms[i]))
  }

  /** The comparisons the query must hold: one per matcher, then the window. */
  function Wanted(q: Query, clock: int): (r: seq<Expr>)
    ensures r != []
  {
    MatcherExprs(q.matchers)
      + [TimeExpr(">=", Offset(NowOf(q, clock), StartOf(q, clock), true))]
      + [TimeExpr("<=", Offset(NowOf(q, clock), EndOf(q, clock), false))]
  }

  /** Left-nested AND of a list. */
  function Conjoin(es: seq<Expr>): Expr
    requires es != []
  {
    if |es| == 1 then es[0] else Binary(AND, Conjoin(es[..|es| - 1]), es[|es| - 1])
  }

  /** The comparisons of a pure conjunction, in order. */
  function Conjuncts(e: Expr): seq<Expr> {
    match e
    case Binary(AND, l, r) => Conjuncts(l) + Conjuncts(r)
    case _ => [e]
  }

  lemma {:induction false} ConjunctsOfConjoin(es: seq<Expr>)
    requires es != [] && forall e :: e in es ==> e.Comparison?
    ensures Conjuncts(Conjoin(es)) == es
  {
    if |es| == 1 {
      assert es[0] in es && es == [es[0]];
    } else {
      var init, last := es[..|es| - 1], es[|es| - 1];
      ConjunctsOfConjoin(init);
      assert last in es;
      assert Conjuncts(last) == [last];
      assert init + [last] == es;
    }
  }

  lemma {:induction false} ConjoinShape(es: seq<Expr>)
    requires es != [] && forall e :: e in es ==> e.Comparison? && IsPrim(e)
    ensures IsAnd(Conjoin(es)) && IsOr(Conjoin(es))
  {
    if |es| > 1 {
      ConjoinShape(es[..|es| - 1]);
    }
  }

  // ---------------------------------------------------------------- scanning the predicates

  lemma LabelIdent(name: string)
    requires name in LABELS
    ensures IsIdent(name)
  {}

  /** `col op value`, given how the value scans. */
  lemma SpacedOp(col: string, op: string, rel: string, trel: seq<Token>)
    requires IsIdent(col) && IsOp(op) && Open(Scan, rel, trel)
    ensures Open(Scan, col + " " + op + " " + rel, [Ident(col)] + [Op(op)] + trel)
  {
    TokenOpen(Ident(col));
    TokenOpen(Op(op));
    SpaceClosed();
    OpenSpaced(Scan, col, [Ident(col)], op, [Op(op)], rel, trel);
  }

  lemma MatcherScan(m: Matcher)
    requires Translatable(m)
    ensures Open(Scan, MatcherText(m), Print(MatcherExpr(m)))
  {
    var col := Lower(m.name);
    LabelIdent(col);
    TokenOpen(Str(m.value));
    SpacedOp(col, m.op, Quote(m.value), [Str(m.value)]);
  }

  lemma NowScan()
    ensures Open(Scan, "now()", [Ident("now"), LParen, RParen])
  {
    TokenOpen(Ident("now"));
    PunctClosed(LParen);
    PunctClosed(RParen);
    OpenUnit(Scan, "now", Ident("now"), LParen, RParen);
    assert "now" + "()" == "now()";
  }

  function NowTokens(): seq<Token> { [Ident("now"), LParen, RParen] }

  /** `now() - d`, given how its parts scan. */
  lemma SpacedOffset<T>(scan: Scanner<T>, now: seq<T>, minus: T, digits: string, dur: T)
    requires Closed(scan, " ", []) && Open(scan, "now()", now) && Open(scan, "-", [minus])
    requires Open(scan, digits + "s", [dur])
    ensures Open(scan, "now() - " + digits + "s", now + [minus, dur])
  {
    OpenSpaced(scan, "now()", now, "-", [minus], digits + "s", [dur]);
    assert "now()" + " " + "-" + " " == "now() - ";
    CatAssoc("now() - ", digits, "s");
    assert now + [minus] + [dur] == now + [minus, dur];
  }

  lemma DurationToken(seconds: nat)
    ensures WfToken(Dur(Decimal(seconds) + "s"))
  {
    var d := Decimal(seconds) + "s";
    assert d[..|d| - 1] == Decimal(seconds);
  }

  lemma RelOffsetScan(seconds: nat)
    ensures Open(Scan, "now() - " + Decimal(seconds) + "s", NowTokens() + [Minus, Dur(Decimal(seconds) + "s")])
  {
    NowScan();
    DurationToken(seconds);
    TokenOpen(Dur(Decimal(seconds) + "s"));
    TokenOpen(Minus);
    SpaceClosed();
    SpacedOffset(Scan, NowTokens(), Minus, Decimal(seconds), Dur(Decimal(seconds) + "s"));
  }

  lemma RelTimeScan(seconds: nat)
    ensures Open(Scan, RelText(seconds), PrintValue(ValTime(seconds, seconds != 0)))
  {
    if seconds == 0 {
      NowScan();
      assert NowTokens() + [] == NowTokens();
    } else {
      RelOffsetScan(seconds);
    }
  }

  function RelText(seconds: nat): string {
    if seconds == 0 then "now()" else "now() - " + Decimal(seconds) + "s"
  }

  /** `col op value`, given the text of `col op `. */
  lemma CompareScan(col: string, op: string, head: string, rel: string, v: Value)
    requires IsIdent(col) && IsOp(op) && head == col + " " + op + " " && Open(Scan, rel, PrintValue(v))
    ensures Open(Scan, head + rel, Print(Comparison([col], op, v)))
  {
    SpacedOp(col, op, rel, PrintValue(v));
    assert PrintField([col]) == [Ident(col)];
  }

  lemma TimeScan(op: string, head: string, seconds: nat)
    requires (op == ">=" && head == "time >= ") || (op == "<=" && head == "time <= ")
    ensures Open(Scan, head + RelText(seconds), Print(TimeExpr(op, seconds)))
  {
    RelTimeScan(seconds);
    assert head == "time" + " " + op + " ";
    CompareScan("time", op, head, RelText(seconds), ValTime(seconds, seconds != 0));
  }

  lemma AndScan(a: string, ta: seq<Token>, b: string, tb: seq<Token>)
    requires Open(Scan, a, ta) && Open(Scan, b, tb)
    ensures Open(Scan, a + " AND " + b, ta + [Ident("AND")] + tb)
  {
    WordClosed(" AND ", "AND");
    OpenClosed(Scan, a, ta, " AND ", [Ident("AND")]);
    ClosedOpen(Scan, a + " AND ", ta + [Ident("AND")], b, tb);
  }

  lemma JoinLast(texts: seq<string>)
    requires |texts| > 1
    ensures var n := |texts| - 1; Join(texts, " AND ") == Join(texts[..n], " AND ") + " AND " + texts[n]
  {
    var n := |texts| - 1;
    assert texts == texts[..n] + [texts[n]];
    JoinSnoc(texts[..n], texts[n], " AND ");
  }

  /** Texts that scan to the printed comparisons, joined by AND, scan to the printed tree. */
  lemma {:induction false} JoinScan(texts: seq<string>, es: seq<Expr>)
    requires |texts| == |es| > 0
    requires forall i :: 0 <= i < |es| ==> Open(Scan, texts[i], Print(es[i]))
    ensures Open(Scan, Join(texts, " AND "), Print(Conjoin(es)))
    decreases |es|
  {
    var n := |es| - 1;
    if n > 0 {
      JoinScan(texts[..n], es[..n]);
      JoinLast(texts);
      AndScan(Join(texts[..n], " AND "), Print(Conjoin(es[..n])), texts[n], Print(es[n]));
    }
  }

  lemma PredicatesScan(q: Query, clock: int)
    requires Accepts(q, clock)
    ensures Open(Scan, Join(Predicates(q, clock), " AND "), Print(Conjoin(Wanted(q, clock))))
  {
    var texts, es := Predicates(q, clock), Wanted(q, clock);
    var n := |q.matchers|;
    forall i | 0 <= i < |es| ensures Open(Scan, texts[i], Print(es[i])) {
      if i < n {
        assert q.matchers[i] in q.matchers;
        MatcherScan(q.matchers[i]);
      } else if i == n {
        TimeScan(">=", "time >= ", Offset(NowOf(q, clock), StartOf(q, clock), true));
      } else {
        TimeScan("<=", "time <= ", Offset(NowOf(q, clock), EndOf(q, clock), false));
      }
    }
    JoinScan(texts, es);
  }

  // ---------------------------------------------------------------- scanning the statement

  function CommaIdents(names: seq<string>): seq<Token> {
    if names == [] then []
    else if |names| == 1 then [Ident(names[0])]
    else [Ident(names[0]), Comma] + CommaIdents(names[1..])
  }

  lemma CommaClosed()
    ensures Closed(Scan, ", ", [Comma])
  {
    PunctClosed(Comma);
    SpaceClosed();
    ClosedCat(Scan, ",", [Comma], " ", []);
    assert "," + " " == ", " && [Comma] + [] == [Comma];
  }

  lemma {:induction false} NamesScan(names: seq<string>)
    requires names != [] && forall n :: n in names ==> IsIdent(n)
    ensures Open(Scan, Join(names, ", "), CommaIdents(names))
    decreases |names|
  {
    var w := names[0];
    TokenOpen(Ident(w));
    if |names| > 1 {
      NamesScan(names[1..]);
      CommaClosed();
      OpenClosed(Scan, w, [Ident(w)], ", ", [Comma]);
      ClosedOpen(Scan, w + ", ", [Ident(w)] + [Comma], Join(names[1..], ", "), CommaIdents(names[1..]));
      assert [Ident(w)] + [Comma] + CommaIdents(names[1..]) == CommaIdents(names);
    }
  }

  /** ` a b c ` */
  lemma ThreeWords<T>(scan: Scanner<T>, a: string, ta: T, b: string, tb: T, c: string, tc: T)
    requires Closed(scan, " ", []) && Open(scan, a, [ta]) && Open(scan, b, [tb]) && Open(scan, c, [tc])
    ensures Closed(scan, " " + (a + " " + b + " " + c) + " ", [ta, tb, tc])
  {
    OpenSpaced(scan, a, [ta], b, [tb], c, [tc]);
    SpacedWord(scan, a + " " + b + " " + c, [ta] + [tb] + [tc]);
    assert [ta] + [tb] + [tc] == [ta, tb, tc];
  }

  lemma WordsClosed(text: string, a: string, b: string, c: string)
    requires IsIdent(a) && IsIdent(b) && IsIdent(c) && text == " " + (a + " " + b + " " + c) + " "
    ensures Closed(Scan, text, [Ident(a), Ident(b), Ident(c)])
  {
    SpaceClosed();
    TokenOpen(Ident(a));
    TokenOpen(Ident(b));
    TokenOpen(Ident(c));
    ThreeWords(Scan, a, Ident(a), b, Ident(b), c, Ident(c));
  }

  lemma WordClosed(text: string, a: string)
    requires IsIdent(a) && (text == a + " " || text == " " + a + " ")
    ensures Closed(Scan, text, [Ident(a)])
  {
    SpaceClosed();
    TokenOpen(Ident(a));
    OpenSpace(Scan, a, [Ident(a)]);
    SpacedWord(Scan, a, [Ident(a)]);
  }

  lemma FromWhereClosed()
    ensures Closed(Scan, " FROM logs WHERE ", [Ident("FROM"), Ident("logs"), Ident("WHERE")])
  {
    WordsClosed(" FROM logs WHERE ", "FROM", "logs", "WHERE");
  }

  lemma OrderByClosed()
    ensures Closed(Scan, " ORDER BY timestamp ", [Ident("ORDER"), Ident("BY"), Ident("timestamp")])
  {
    WordsClosed(" ORDER BY timestamp ", "ORDER", "BY", "timestamp");
  }

  lemma ShortSeparators()
    ensures Closed(Scan, "SELECT ", [Ident("SELECT")]) && Closed(Scan, " LIMIT ", [Ident("LIMIT")])
  {
    WordClosed("SELECT ", "SELECT");
    WordClosed(" LIMIT ", "LIMIT");
  }

  /** Alternating separators and fragments. */
  lemma Alternating<T>(scan: Scanner<T>,
      s1: string, t1: seq<T>, a1: string, u1: seq<T>, s2: string, t2: seq<T>, a2: string, u2: seq<T>,
      s3: string, t3: seq<T>, a3: string, u3: seq<T>, s4: string, t4: seq<T>, a4: string, u4: seq<T>)
    requires Closed(scan, s1, t1) && Closed(scan, s2, t2) && Closed(scan, s3, t3) && Closed(scan, s4, t4)
    requires Open(scan, a1, u1) && Open(scan, a2, u2) && Open(scan, a3, u3) && Open(scan, a4, u4)
    requires s2 != "" && Safe(s2) && s3 != "" && Safe(s3) && s4 != "" && Safe(s4)
    ensures Open(scan, s1 + a1 + s2 + a2 + s3 + a3 + s4 + a4, t1 + u1 + t2 + u2 + t3 + u3 + t4 + u4)
  {
    ClosedOpen(scan, s1, t1, a1, u1);
    OpenClosed(scan, s1 + a1, t1 + u1, s2, t2);
    ClosedOpen(scan, s1 + a1 + s2, t1 + u1 + t2, a2, u2);
    OpenClosed(scan, s1 + a1 + s2 + a2, t1 + u1 + t2 + u2, s3, t3);
    ClosedOpen(scan, s1 + a1 + s2 + a2 + s3, t1 + u1 + t2 + u2 + t3, a3, u3);
    OpenClosed(scan, s1 + a1 + s2 + a2 + s3 + a3, t1 + u1 + t2 + u2 + t3 + u3, s4, t4);
    ClosedOpen(scan, s1 + a1 + s2 + a2 + s3 + a3 + s4, t1 + u1 + t2 + u2 + t3 + u3 + t4, a4, u4);
  }

  function DirName(forward: bool): string { if forward then "ASC" else "DESC" }

  /** The limit as printed: a negative one scans to a sign of its own. */
  function LimitTokens(n: int): seq<Token> { if n < 0 then [Minus, Num(Decimal(-n))] else [Num(Decimal(n))] }

  function StatementTokens(names: seq<string>, where: Expr, forward: bool, limit: seq<Token>): seq<Token> {
    [Ident("SELECT")] + CommaIdents(names) + [Ident("FROM"), Ident("logs"), Ident("WHERE")] + Print(where)
      + [Ident("ORDER"), Ident("BY"), Ident("timestamp")] + [Ident(DirName(forward))] + [Ident("LIMIT")] + limit
  }

  lemma BehindDash(scan: Scanner<Token>, dash: string, minus: Token, d: string, t: Token)
    requires Closed(scan, dash, [minus]) && Open(scan, d, [t])
    ensures Open(scan, dash + d, [minus, t])
  {
    ClosedOpen(scan, dash, [minus], d, [t]);
    assert [minus] + [t] == [minus, t];
  }

  lemma DashClosed()
    ensures Closed(Scan, "-", [Minus])
  {
    PunctClosed(Minus);
  }

  lemma NegativeScan(d: string, t: Token)
    requires Open(Scan, d, [t])
    ensures Open(Scan, "-" + d, [Minus, t])
  {
    DashClosed();
    BehindDash(Scan, "-", Minus, d, t);
  }

  lemma LimitScan(n: int)
    ensures Open(Scan, SignedDecimal(n), LimitTokens(n))
  {
    var d := Decimal(if n < 0 then -n else n);
    TokenOpen(Num(d));
    if n < 0 {
      NegativeScan(d, Num(d));
    }
  }

  lemma ColsAreIdents()
    ensures forall n :: n in COLS ==> IsIdent(n)
  {
    forall n | n in COLS ensures IsIdent(n) {
      assert n == "timestamp" || n == "service" || n == "level" || n == "environment"
          || n == "message" || n == "trace_id" || n == "span_id";
    }
  }

  lemma ScanOfOpen<T>(scan: Scanner<T>, a: string, ts: seq<T>)
    requires Open(scan, a, ts) && scan("") == Some([])
    ensures scan(a) == Some(ts)
  {
    assert Safe("");
    assert a + "" == a && ts + [] == ts;
  }

  lemma StatementScan(q: Query, opts: Loki.Options, clock: int)
    requires Accepts(q, clock)
    ensures LexSpec(TranslateText(q, opts, clock))
         == Ok(StatementTokens(COLS, Conjoin(Wanted(q, clock)), q.forward, LimitTokens(LimitOf(q, opts))) + [EOF])
  {
    StatementOpen(q, opts, clock);
    ScanOfOpen(Scan, TranslateText(q, opts, clock),
               StatementTokens(COLS, Conjoin(Wanted(q, clock)), q.forward, LimitTokens(LimitOf(q, opts))));
  }

  lemma StatementOpen(q: Query, opts: Loki.Options, clock: int)
    requires Accepts(q, clock)
    ensures Open(Scan, TranslateText(q, opts, clock),
                 StatementTokens(COLS, Conjoin(Wanted(q, clock)), q.forward, LimitTokens(LimitOf(q, opts))))
  {
    var preds, tree := Join(Predicates(q, clock), " AND "), Conjoin(Wanted(q, clock));
    var n := LimitOf(q, opts);
    FromWhereClosed();
    OrderByClosed();
    ShortSeparators();
    ColsAreIdents();
    NamesScan(COLS);
    PredicatesScan(q, clock);
    TokenOpen(Ident(DirName(q.forward)));
    LimitScan(n);
    Alternating(Scan, "SELECT ", [Ident("SELECT")], SelectCols(), CommaIdents(COLS),
      " FROM logs WHERE ", [Ident("FROM"), Ident("logs"), Ident("WHERE")], preds, Print(tree),
      " ORDER BY timestamp ", [Ident("ORDER"), Ident("BY"), Ident("timestamp")], DirName(q.forward), [Ident(DirName(q.forward))],
      " LIMIT ", [Ident("LIMIT")], SignedDecimal(n), LimitTokens(n));
  }

  // ---------------------------------------------------------------- parsing the statement

  function PlainItems(names: seq<string>): seq<SelectItem> {
    seq(|names|, i requires 0 <= i < |names| => SelectItem("", Some([names[i]]), ""))
  }

  /** A token that ends a select list of plain columns. */
  predicate EndsList(t: Token) { !t.Comma? && !t.Dot? && !t.LParen? && !IsKw(t, "AS") }

  lemma PlainItem(ts: seq<Token>, p: nat, name: string)
    requires At(ts, p) && ts[p] == Ident(name)
    requires !ts[p + 1].LParen? && !ts[p + 1].Dot? && !IsKw(ts[p + 1], "AS")
    ensures ParseSelectItem(ts, p) == Done(SelectItem("", Some([name]), ""), p + 1)
  {}

  lemma {:induction false} NamesParse(ts: seq<Token>, items: seq<SelectItem>, p: nat, names: seq<string>)
    requires names != [] && Stands(ts, p, CommaIdents(names)) && EndsList(ts[p + |CommaIdents(names)|])
    ensures ParseSelectList(ts, items, p) == Done(items + PlainItems(names), p + |CommaIdents(names)|)
    decreases |names|
  {
    StandsFirst(ts, p, CommaIdents(names));
    if |names| == 1 {
      PlainItem(ts, p, names[0]);
      assert PlainItems(names) == [SelectItem("", Some([names[0]]), "")];
    } else {
      var rest := CommaIdents(names[1..]);
      assert CommaIdents(names) == [Ident(names[0])] + [Comma] + rest;
      StandsMiddle(ts, p, [Ident(names[0])], Comma, rest);
      PlainItem(ts, p, names[0]);
      var first := SelectItem("", Some([names[0]]), "");
      NamesParse(ts, items + [first], p + 2, names[1..]);
      assert items + [first] + PlainItems(names[1..]) == items + PlainItems(names);
    }
  }

  function LokiStmt(names: seq<string>, where: Expr, forward: bool, n: nat): Stmt {
    Stmt(Select, "", "logs", PlainItems(names), Some(where), [], Some(OrderItem(["timestamp"], !forward)), n)
  }

  predicate TailStands(ts: seq<Token>, p: nat, forward: bool) {
    && At(ts, p) && p + 5 < |ts|
    && ts[p] == Ident("ORDER") && ts[p + 1] == Ident("BY") && ts[p + 2] == Ident("timestamp")
    && ts[p + 3] == Ident(DirName(forward)) && ts[p + 4] == Ident("LIMIT")
  }

  lemma OrderParse(ts: seq<Token>, p: nat, forward: bool)
    requires TailStands(ts, p, forward)
    ensures OptGroupBy(ts, p) == Done([], p)
    ensures OptOrderBy(ts, p) == Done(Some(OrderItem(["timestamp"], !forward)), p + 4)
  {
    KeywordsDiffer();
    assert ParseField(ts, p + 2) == Done(["timestamp"], p + 3);
  }

  lemma TailParse(ts: seq<Token>, s: Stmt, p: nat, forward: bool, n: nat)
    requires TailStands(ts, p, forward) && p + 6 == |ts| - 1 && n < TWO63 && ts[p + 5] == Num(Decimal(n))
    ensures SelectTail(ts, s, p)
         == Done(s.(groupBy := [], orderBy := Some(OrderItem(["timestamp"], !forward)), limit := n), p + 6)
  {
    OrderParse(ts, p, forward);
    KeywordsDiffer();
    SignedRoundTrip(n);
    assert OptLimit(ts, p + 4) == Done(n, p + 6);
  }

  /** A sign is no number: the parser refuses a negative limit. */
  lemma TailRefuses(ts: seq<Token>, s: Stmt, p: nat, forward: bool)
    requires TailStands(ts, p, forward) && ts[p + 5] == Minus
    ensures SelectTail(ts, s, p) == Fail
  {
    OrderParse(ts, p, forward);
    KeywordsDiffer();
    assert OptLimit(ts, p + 4) == Fail;
  }

  lemma KeywordsDiffer()
    ensures !EqualFold("ORDER", "GROUP") && EqualFold("ORDER", "ORDER") && EqualFold("BY", "BY")
    ensures EqualFold("DESC", "DESC") && EqualFold("ASC", "ASC") && !EqualFold("ASC", "DESC")
    ensures EqualFold("LIMIT", "LIMIT") && EqualFold("SELECT", "SELECT") && !EqualFold("SELECT", "SEARCH")
    ensures EqualFold("FROM", "FROM") && EqualFold("WHERE", "WHERE") && !EqualFold("FROM", "AS")
    ensures !EqualFold("ORDER", "AND") && !EqualFold("ORDER", "OR")
  {
    assert Lower("ORDER")[0] == 'o' && Lower("GROUP")[0] == 'g' && Lower("AND")[0] == 'a';
    assert Lower("ASC")[0] == 'a' && Lower("DESC")[0] == 'd';
    assert Lower("SELECT")[2] == 'l' && Lower("SEARCH")[2] == 'a';
    assert |Lower("FROM")| == 4 && |Lower("AS")| == 2 && |Lower("OR")| == 2;
  }

  function PlainHead(names: seq<string>, where: Expr): Stmt {
    Stmt(Select, "", "logs", PlainItems(names), Some(where), [], None, 0)
  }

  lemma SelectEnds(ts: seq<Token>, names: seq<string>, where: Expr, q: nat, forward: bool, n: nat)
    requires TailStands(ts, q, forward) && q + 6 == |ts| - 1 && n < TWO63 && ts[q + 5] == Num(Decimal(n))
    requires ParseStatement(ts) == SelectTail(ts, PlainHead(names, where), q)
    ensures ParseTokens(ts) == Ok(LokiStmt(names, where, forward, n))
  {
    TailParse(ts, PlainHead(names, where), q, forward, n);
  }

  /** Where each part of the statement stands. */
  predicate LaidOut(ts: seq<Token>, list: seq<Token>, tree: seq<Token>, forward: bool, limit: seq<Token>)
    requires limit != []
  {
    var p := 1 + |list|;
    var q := p + 3 + |tree|;
    && Terminated(ts) && q + 5 + |limit| == |ts| - 1
    && ts[0] == Ident("SELECT") && Stands(ts, 1, list)
    && ts[p] == Ident("FROM") && ts[p + 1] == Ident("logs") && ts[p + 2] == Ident("WHERE") && Stands(ts, p + 3, tree)
    && TailStands(ts, q, forward) && ts[q + 5] == limit[0]
  }

  lemma StartParse(ts: seq<Token>, names: seq<string>, where: Expr, p: nat, q: nat)
    requires names != [] && IsOr(where) && Terminated(ts) && p + 2 < q < |ts| && ts[0] == Ident("SELECT")
    requires Stands(ts, 1, CommaIdents(names)) && p == 1 + |CommaIdents(names)|
    requires ts[p] == Ident("FROM") && ts[p + 1] == Ident("logs") && ts[p + 2] == Ident("WHERE")
    requires Stands(ts, p + 3, Print(where)) && q == p + 3 + |Print(where)| && ts[q] == Ident("ORDER")
    ensures ParseStatement(ts) == SelectTail(ts, PlainHead(names, where), q)
  {
    KeywordsDiffer();
    NamesParse(ts, [], 1, names);
    assert [] + PlainItems(names) == PlainItems(names);
    FromWhereParse(ts, p, where, q);
    SelectSteps(ts, PlainItems(names), p, where, q);
  }

  lemma EitherEnd(ts: seq<Token>, names: seq<string>, where: Expr, q: nat, forward: bool, n: int, limit: seq<Token>)
    requires TailStands(ts, q, forward) && n < TWO63 && limit == LimitTokens(n)
    requires ts[q + 5] == limit[0] && q + 5 + |limit| == |ts| - 1
    requires ParseStatement(ts) == SelectTail(ts, PlainHead(names, where), q)
    ensures ParseTokens(ts) == if n >= 0 then Ok(LokiStmt(names, where, forward, n)) else Err
  {
    if n >= 0 {
      SelectEnds(ts, names, where, q, forward, n);
    } else {
      TailRefuses(ts, PlainHead(names, where), q, forward);
    }
  }

  /** The statement parses iff its limit is not negative. */
  lemma StatementParse(ts: seq<Token>, names: seq<string>, where: Expr, forward: bool, n: int)
    requires names != [] && IsOr(where) && n < TWO63
    requires LaidOut(ts, CommaIdents(names), Print(where), forward, LimitTokens(n))
    ensures ParseTokens(ts) == if n >= 0 then Ok(LokiStmt(names, where, forward, n)) else Err
  {
    var p := 1 + |CommaIdents(names)|;
    var q := p + 3 + |Print(where)|;
    StartParse(ts, names, where, p, q);
    EitherEnd(ts, names, where, q, forward, n, LimitTokens(n));
  }

  lemma FromWhereParse(ts: seq<Token>, p: nat, where: Expr, q: nat)
    requires At(ts, p) && q < |ts| && ts[p] == Ident("FROM") && ts[p + 1] == Ident("logs") && ts[p + 2] == Ident("WHERE")
    requires IsOr(where) && Stands(ts, p + 3, Print(where)) && q == p + 3 + |Print(where)| && ts[q] == Ident("ORDER")
    ensures ParseFrom(ts, p) == Done("logs", p + 2) && OptWhere(ts, p + 2) == Done(Some(where), q)
  {
    KeywordsDiffer();
    assert Lower("logs") == "logs";
    OrForward(ts, p + 3, where);
  }

  lemma SelectSteps(ts: seq<Token>, items: seq<SelectItem>, p: nat, where: Expr, q: nat)
    requires At(ts, 0) && ts[0] == Ident("SELECT") && At(ts, p) && At(ts, p + 2) && At(ts, q)
    requires ParseSelectList(ts, [], 1) == Done(items, p) && ParseFrom(ts, p) == Done("logs", p + 2)
    requires OptWhere(ts, p + 2) == Done(Some(where), q)
    ensures ParseStatement(ts) == SelectTail(ts, Stmt(Select, "", "logs", items, Some(where), [], None, 0), q)
  {
    KeywordsDiffer();
  }

  lemma StatementLayout(ts: seq<Token>, list: seq<Token>, tree: seq<Token>, forward: bool, limit: seq<Token>)
    requires limit != []
    requires ts == [Ident("SELECT")] + list + [Ident("FROM"), Ident("logs"), Ident("WHERE")] + tree
      + [Ident("ORDER"), Ident("BY"), Ident("timestamp")] + [Ident(DirName(forward))] + [Ident("LIMIT")]
      + limit + [EOF]
    ensures LaidOut(ts, list, tree, forward, limit)
  {}

  // ---------------------------------------------------------------- compiling the statement

  lemma LowerTwice(s: string)
    ensures Lower(Lower(s)) == Lower(s)
  {}

  lemma LabelsAreColumns(name: string)
    requires name in LABELS
    ensures name in LOGS_COLUMNS
  {}

  lemma MatcherCompiles(m: Matcher, tenant: string)
    requires Translatable(m)
    ensures CompileExpr("logs", tenant, MatcherExpr(m)).Ok?
  {
    LowerTwice(m.name);
    LabelsAreColumns(Lower(m.name));
  }

  lemma TimeCompiles(op: string, seconds: nat, tenant: string)
    ensures CompileExpr("logs", tenant, TimeExpr(op, seconds)).Ok?
  {
    assert Lower("time") == "time";
  }

  lemma {:induction false} ConjoinCompiles(es: seq<Expr>, tenant: string)
    requires es != [] && forall e :: e in es ==> CompileExpr("logs", tenant, e).Ok?
    ensures CompileExpr("logs", tenant, Conjoin(es)).Ok?
  {
    if |es| > 1 {
      ConjoinCompiles(es[..|es| - 1], tenant);
    }
  }

  lemma WantedCompiles(q: Query, clock: int, tenant: string)
    requires Accepts(q, clock)
    ensures CompileExpr("logs", tenant, Conjoin(Wanted(q, clock))).Ok?
  {
    forall e | e in Wanted(q, clock) ensures CompileExpr("logs", tenant, e).Ok? {
      var i :| 0 <= i < |Wanted(q, clock)| && Wanted(q, clock)[i] == e;
      if i < |q.matchers| {
        assert q.matchers[i] in q.matchers;
        MatcherCompiles(q.matchers[i], tenant);
      } else {
        TimeCompiles(e.cmp, e.value.seconds, tenant);
      }
    }
    ConjoinCompiles(Wanted(q, clock), tenant);
  }

  lemma {:induction false} NamesCompile(names: seq<string>)
    requires forall n :: n in names ==> Lower(n) == n && n in LOGS_COLUMNS
    ensures SelectParts("logs", PlainItems(names)).Ok?
    ensures names != [] ==> SelectParts("logs", PlainItems(names)).value.0 != []
  {
    if names != [] {
      var k := |names| - 1;
      NamesCompile(names[..k]);
      assert PlainItems(names)[..k] == PlainItems(names[..k]);
      assert names[k] in names;
    }
  }

  lemma ColsCompile()
    ensures forall n :: n in COLS ==> Lower(n) == n && n in LOGS_COLUMNS
  {
    forall n | n in COLS ensures Lower(n) == n && n in LOGS_COLUMNS {
      assert n == "timestamp" || n == "service" || n == "level" || n == "environment"
          || n == "message" || n == "trace_id" || n == "span_id";
      assert forall i :: 0 <= i < |n| ==> LowerChar(n[i]) == n[i];
    }
  }

  lemma TimestampMaps()
    ensures MapField("logs", ["timestamp"]).Ok?
  {
    assert Lower("timestamp") == "timestamp";
  }

  lemma SelectSucceeds(s: Stmt, tenant: string, opts: Compile.Options)
    requires s.table in TABLES && s.kind.Select? && SelectParts(s.table, s.select).Ok?
    requires SelectParts(s.table, s.select).value.0 != []
    requires WhereText(s, s.table, tenant).Ok? && SelectSuffix(s.table, s, opts).Ok?
    ensures CompileStmt(s, tenant, opts).Success?
  {}

  lemma StatementCompiles(where: Expr, forward: bool, n: nat, tenant: string, opts: Compile.Options)
    requires CompileExpr("logs", tenant, where).Ok?
    ensures CompileStmt(LokiStmt(COLS, where, forward, n), tenant, opts).Success?
  {
    ColsCompile();
    NamesCompile(COLS);
    TimestampMaps();
    NamedCompiles(COLS, where, forward, n, tenant, opts);
  }

  lemma NamedCompiles(names: seq<string>, where: Expr, forward: bool, n: nat, tenant: string, opts: Compile.Options)
    requires CompileExpr("logs", tenant, where).Ok? && MapField("logs", ["timestamp"]).Ok?
    requires SelectParts("logs", PlainItems(names)).Ok? && SelectParts("logs", PlainItems(names)).value.0 != []
    ensures CompileStmt(LokiStmt(names, where, forward, n), tenant, opts).Success?
  {
    SelectSucceeds(LokiStmt(names, where, forward, n), tenant, opts);
  }

  // ---------------------------------------------------------------- the theorem

  lemma WantedShape(q: Query, clock: int)
    ensures forall e :: e in Wanted(q, clock) ==> e.Comparison? && IsPrim(e)
  {
    forall e | e in Wanted(q, clock) ensures e.Comparison? && IsPrim(e) {
      var i :| 0 <= i < |Wanted(q, clock)| && Wanted(q, clock)[i] == e;
      if i < |q.matchers| {
        assert e == MatcherExpr(q.matchers[i]);
      }
    }
  }

  /** The text is read as one SELECT, or refused for a negative limit. Limits are 64-bit integers. */
  lemma TranslationParses(q: Query, opts: Loki.Options, clock: int)
    requires Accepts(q, clock) && LimitOf(q, opts) < TWO63
    ensures Parse(TranslateText(q, opts, clock)) ==
      if LimitOf(q, opts) >= 0 then Ok(LokiStmt(COLS, Conjoin(Wanted(q, clock)), q.forward, LimitOf(q, opts))) else Err
  {
    var tree, n := Conjoin(Wanted(q, clock)), LimitOf(q, opts);
    WantedShape(q, clock);
    ConjoinShape(Wanted(q, clock));
    StatementScan(q, opts, clock);
    var ts := StatementTokens(COLS, tree, q.forward, LimitTokens(n)) + [EOF];
    StatementLayout(ts, CommaIdents(COLS), Print(tree), q.forward, LimitTokens(n));
    StatementParse(ts, COLS, tree, q.forward, n);
  }

  lemma LimitIs(q: Query, opts: Loki.Options, n: int)
    requires Meaning.InForce(n, q.limit, opts.defaultLimit, opts.maxLimit)
    ensures n == LimitOf(q, opts)
  {}

  /**
    Every accepted Loki query: iff the limit in force is not negative the text is understood, and
    then it parses to a SELECT over logs whose WHERE is the conjunction of exactly the asked
    matchers, each with its value restored through the quoting, and the two time bounds; and it
    compiles for every tenant.
   */
  lemma TranslationIsUnderstood(q: Query, opts: Loki.Options, clock: int, tenant: string, limits: Compile.Options, n: int)
    requires Accepts(q, clock) && Meaning.InForce(n, q.limit, opts.defaultLimit, opts.maxLimit) && n < TWO63
    ensures var text := TranslateText(q, opts, clock);
            && (Parse(text).Ok? <==> n >= 0)
            && (CompileLoops.CompileText(text, tenant, limits).Success? <==> n >= 0)
            && (n >= 0 ==>
                && Parse(text) == Ok(LokiStmt(COLS, Conjoin(Wanted(q, clock)), q.forward, n))
                && Conjuncts(Conjoin(Wanted(q, clock))) == Wanted(q, clock))
  {
    LimitIs(q, opts, n);
    TranslationParses(q, opts, clock);
    WantedShape(q, clock);
    ConjunctsOfConjoin(Wanted(q, clock));
    if n >= 0 {
      WantedCompiles(q, clock, tenant);
      StatementCompiles(Conjoin(Wanted(q, clock)), q.forward, n, tenant, limits);
    }
  }

  /** The last two comparisons bound the time from below and above, by whole seconds before now,
      less than a second outside [start, end]. */
  ghost predicate Bounds(es: seq<Expr>, k: nat, now: int, start: int, end: int) {
    exists older: nat, newer: nat ::
      && |es| == k + 2 && es[k] == TimeExpr(">=", older) && es[k + 1] == TimeExpr("<=", newer)
      && start - 1_000_000_000 < now - older * 1_000_000_000 <= start
      && end <= now - newer * 1_000_000_000 < end + 1_000_000_000
  }

  lemma WantedBounds(q: Query, clock: int, now: int, start: int, end: int)
    requires Asks(q, clock, now, start, end) && -TWO63 <= start <= end <= now < TWO63 && now < start + TWO63
    ensures Bounds(Wanted(q, clock), |q.matchers|, now, start, end)
  {
    assert now == NowOf(q, clock) && end == EndOf(q, clock) && start == StartOf(q, clock);
    WindowIsTight(now, start, end);
    var es, older, newer := Wanted(q, clock), Offset(now, start, true), Offset(now, end, false);
    assert es[|q.matchers|] == TimeExpr(">=", older) && es[|q.matchers| + 1] == TimeExpr("<=", newer);
  }

  /** With start, end and now in order and less than 2^63 nanoseconds apart, the window an
      understood text asks for contains the query's own and is wider by less than a second on
      each side. */
  lemma TranslationWindow(q: Query, opts: Loki.Options, clock: int, now: int, start: int, end: int)
    requires Accepts(q, clock) && LimitOf(q, opts) < TWO63 && Parse(TranslateText(q, opts, clock)).Ok?
    requires Asks(q, clock, now, start, end) && -TWO63 <= start <= end <= now < TWO63 && now < start + TWO63
    ensures Parse(TranslateText(q, opts, clock)).value.where.Some?
    ensures Bounds(Conjuncts(Parse(TranslateText(q, opts, clock)).value.where.value), |q.matchers|, now, start, end)
  {
    TranslationIsUnderstood(q, opts, clock, "", Compile.Options(0, 0), LimitOf(q, opts));
    WantedBounds(q, clock, now, start, end);
  }
}
