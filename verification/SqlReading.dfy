/** Which texts the reader takes as a given term or condition, wherever they stand. */
module SqlReading {
  import opened Text
  import opened Sql
  import opened SqlScanning

  /** Tokens that cannot extend a term. */
  predicate StopsTerm(rest: seq<Tok>) {
    rest == [] || rest[0].RP? || rest[0].Cmp? || rest[0].Comma? || rest[0].Word?
  }

  /** Tokens that cannot extend a comparison. */
  predicate StopsCond(rest: seq<Tok>) {
    rest == [] || rest[0].RP? || rest[0].Word?
  }

  /** Tokens that cannot extend a WHERE clause. */
  predicate StopsWhere(rest: seq<Tok>) {
    rest == [] || rest[0].RP? || (rest[0].Word? && rest[0].w != "AND" && rest[0].w != "OR")
  }

  ghost predicate TokensRead(ts: seq<Tok>, t: Term) {
    ts != [] && !ts[0].LP? && forall rest {:trigger StopsTerm(rest)} :: StopsTerm(rest) ==> ReadTerm(ts + rest) == Got(t, rest)
  }

  ghost predicate TermText(a: string, ts: seq<Tok>, t: Term) {
    Open(SqlScan, a, ts) && TokensRead(ts, t)
  }

  ghost predicate PrimRead(ts: seq<Tok>, c: Cond) {
    forall rest {:trigger StopsCond(rest)} :: StopsCond(rest) ==> ReadPrim(ts + rest) == Got(c, rest)
  }

  ghost predicate CondText(a: string, ts: seq<Tok>, c: Cond) {
    Open(SqlScan, a, ts) && PrimRead(ts, c)
  }

  // ---------------------------------------------------------------- terms

  lemma ColumnRead(name: string)
    ensures TokensRead([Word(name)], Column(name))
  {
    forall rest | StopsTerm(rest) ensures ReadTerm([Word(name)] + rest) == Got(Column(name), rest) {
      var ts := [Word(name)] + rest;
      assert |ts| > 1 ==> ts[1] == rest[0];
      assert ts[1..] == rest;
    }
  }

  lemma LiteralRead(s: string)
    ensures TokensRead([Lit(s)], Literal(s))
  {
    forall rest | StopsTerm(rest) ensures ReadTerm([Lit(s)] + rest) == Got(Literal(s), rest) {
      assert ([Lit(s)] + rest)[1..] == rest;
    }
  }

  lemma NumeralRead(d: string)
    ensures TokensRead([Number(d)], Numeral(d))
  {
    forall rest | StopsTerm(rest) ensures ReadTerm([Number(d)] + rest) == Got(Numeral(d), rest) {
      assert ([Number(d)] + rest)[1..] == rest;
    }
  }

  lemma SubscriptRead(c: string, k: string)
    ensures TokensRead([Word(c), LB, Lit(k), RB], Subscript(c, k))
  {
    var a := [Word(c), LB, Lit(k), RB];
    forall rest | StopsTerm(rest) ensures ReadTerm(a + rest) == Got(Subscript(c, k), rest) {
      assert (a + rest)[4..] == rest;
    }
  }

  lemma NowRead()
    ensures TokensRead([Word("now"), LP, RP], Apply("now", []))
  {
    var a := [Word("now"), LP, RP];
    forall rest | StopsTerm(rest) ensures ReadTerm(a + rest) == Got(Apply("now", []), rest) {
      assert (a + rest)[3..] == rest;
    }
  }

  function SignedToks(n: int): seq<Tok> {
    if n < 0 then [Minus, Number(Decimal(-n))] else [Number(Decimal(n))]
  }

  function OffsetToks(minus: bool, n: int): seq<Tok> {
    [if minus then Minus else Plus] + [Word("INTERVAL")] + SignedToks(n) + [Word("SECOND")]
  }

  lemma PlainOffset(ts: seq<Tok>, b: Term, sign: Tok, d: string, rest: seq<Tok>)
    requires (sign.Plus? || sign.Minus?) && AllDigits(d)
    requires ReadBase(ts) == Got(b, [sign, Word("INTERVAL"), Number(d), Word("SECOND")] + rest)
    ensures ReadTerm(ts) == Got(Shifted(b, sign.Minus?, DigitsValue(d)), rest)
  {
    assert ([sign, Word("INTERVAL"), Number(d), Word("SECOND")] + rest)[4..] == rest;
  }

  lemma NegativeOffset(ts: seq<Tok>, b: Term, sign: Tok, d: string, rest: seq<Tok>)
    requires (sign.Plus? || sign.Minus?) && AllDigits(d)
    requires ReadBase(ts) == Got(b, [sign, Word("INTERVAL"), Minus, Number(d), Word("SECOND")] + rest)
    ensures ReadTerm(ts) == Got(Shifted(b, sign.Minus?, Negated(DigitsValue(d))), rest)
  {
    assert ([sign, Word("INTERVAL"), Minus, Number(d), Word("SECOND")] + rest)[5..] == rest;
  }

  lemma OffsetBelow(ts: seq<Tok>, b: Term, minus: bool, n: int, rest: seq<Tok>)
    requires n < 0 && ReadBase(ts) == Got(b, OffsetToks(minus, n) + rest)
    ensures ReadTerm(ts) == Got(Shifted(b, minus, n), rest)
  {
    var sign := if minus then Minus else Plus;
    DecimalRoundTrip(-n);
    assert OffsetToks(minus, n) == [sign, Word("INTERVAL"), Minus, Number(Decimal(-n)), Word("SECOND")];
    NegativeOffset(ts, b, sign, Decimal(-n), rest);
  }

  lemma OffsetAbove(ts: seq<Tok>, b: Term, minus: bool, n: nat, rest: seq<Tok>)
    requires ReadBase(ts) == Got(b, OffsetToks(minus, n) + rest)
    ensures ReadTerm(ts) == Got(Shifted(b, minus, n), rest)
  {
    var sign := if minus then Minus else Plus;
    DecimalRoundTrip(n);
    assert OffsetToks(minus, n) == [sign, Word("INTERVAL"), Number(Decimal(n)), Word("SECOND")];
    PlainOffset(ts, b, sign, Decimal(n), rest);
  }

  /** The optional offset after a base term. */
  lemma OffsetRead(ts: seq<Tok>, b: Term, minus: bool, n: int, rest: seq<Tok>)
    requires ReadBase(ts) == Got(b, OffsetToks(minus, n) + rest)
    ensures ReadTerm(ts) == Got(Shifted(b, minus, n), rest)
  {
    if n < 0 {
      OffsetBelow(ts, b, minus, n, rest);
    } else {
      OffsetAbove(ts, b, minus, n, rest);
    }
  }

  lemma ShiftedRead(minus: bool, n: int)
    ensures TokensRead([Word("now"), LP, RP] + OffsetToks(minus, n), Shifted(Apply("now", []), minus, n))
  {
    var a, b := [Word("now"), LP, RP], OffsetToks(minus, n);
    forall rest | StopsTerm(rest)
      ensures ReadTerm(a + b + rest) == Got(Shifted(Apply("now", []), minus, n), rest)
    {
      var ts := a + (b + rest);
      assert a + b + rest == ts;
      assert ts[3..] == b + rest;
      OffsetRead(ts, Apply("now", []), minus, n, rest);
    }
  }

  /** 'a', 'b', ... as tokens, and as arguments. */
  function KeyToks(keys: seq<string>): seq<Tok> {
    if keys == [] then []
    else if |keys| == 1 then [Lit(keys[0])]
    else [Lit(keys[0]), Comma] + KeyToks(keys[1..])
  }

  function Literals(keys: seq<string>): seq<Term> {
    seq(|keys|, i requires 0 <= i < |keys| => Literal(keys[i]))
  }

  lemma LastArg(ts: seq<Tok>, f: string, acc: seq<Term>, t: Term, rest: seq<Tok>)
    requires ReadAtom(ts) == Got(t, [RP] + rest)
    ensures ReadArgs(ts, f, acc) == Got(Apply(f, acc + [t]), rest)
  {
    assert ([RP] + rest)[1..] == rest;
  }

  lemma NextArg(ts: seq<Tok>, f: string, acc: seq<Term>, t: Term, rest: seq<Tok>)
    requires ReadAtom(ts) == Got(t, [Comma] + rest)
    ensures |rest| < |ts| && ReadArgs(ts, f, acc) == ReadArgs(rest, f, acc + [t])
  {
    assert ([Comma] + rest)[1..] == rest;
  }

  lemma LiteralAtom(s: string, rest: seq<Tok>)
    ensures ReadAtom([Lit(s)] + rest) == Got(Literal(s), rest)
  {
    assert ([Lit(s)] + rest)[1..] == rest;
  }

  lemma ColumnAtom(c: string, rest: seq<Tok>)
    requires rest != [] && !rest[0].LB?
    ensures ReadAtom([Word(c)] + rest) == Got(Column(c), rest)
  {
    var ts := [Word(c)] + rest;
    assert ts[1] == rest[0] && ts[1..] == rest;
  }

  lemma LastLiteral(s: string, f: string, acc: seq<Term>, rest: seq<Tok>)
    ensures ReadArgs([Lit(s)] + ([RP] + rest), f, acc) == Got(Apply(f, acc + [Literal(s)]), rest)
  {
    LiteralAtom(s, [RP] + rest);
    LastArg([Lit(s)] + ([RP] + rest), f, acc, Literal(s), rest);
  }

  lemma NextLiteral(s: string, f: string, acc: seq<Term>, rest: seq<Tok>)
    ensures ReadArgs([Lit(s)] + ([Comma] + rest), f, acc) == ReadArgs(rest, f, acc + [Literal(s)])
  {
    LiteralAtom(s, [Comma] + rest);
    NextArg([Lit(s)] + ([Comma] + rest), f, acc, Literal(s), rest);
  }

  lemma {:induction false} KeyLayout(keys: seq<string>, close: Tok, rest: seq<Tok>)
    requires keys != []
    ensures KeyToks(keys) + [close] + rest ==
      if |keys| == 1 then [Lit(keys[0])] + ([close] + rest)
      else [Lit(keys[0])] + ([Comma] + (KeyToks(keys[1..]) + [close] + rest))
    ensures Literals(keys) == [Literal(keys[0])] + Literals(keys[1..])
    ensures |keys| == 1 ==> Literals(keys[1..]) == []
  {
    if |keys| > 1 {
      var more := KeyToks(keys[1..]);
      assert [Lit(keys[0]), Comma] + more + [close] + rest == [Lit(keys[0])] + ([Comma] + (more + [close] + rest));
    }
  }

  lemma {:induction false} KeyArgsRead(keys: seq<string>, f: string, acc: seq<Term>, rest: seq<Tok>)
    requires keys != []
    ensures ReadArgs(KeyToks(keys) + [RP] + rest, f, acc) == Got(Apply(f, acc + Literals(keys)), rest)
    decreases |keys|
  {
    KeyLayout(keys, RP, rest);
    var first := Literal(keys[0]);
    if |keys| == 1 {
      LastLiteral(keys[0], f, acc, rest);
      assert Literals(keys) == [first];
    } else {
      NextLiteral(keys[0], f, acc, KeyToks(keys[1..]) + [RP] + rest);
      KeyArgsRead(keys[1..], f, acc + [first], rest);
      assert acc + [first] + Literals(keys[1..]) == acc + Literals(keys);
    }
  }

  /** A call, given how its arguments are read. */
  lemma CallRead(f: string, us: seq<Tok>, t: Term, rest: seq<Tok>)
    requires us != [] && !us[0].RP? && ReadArgs(us, f, []) == Got(t, rest) && StopsTerm(rest)
    ensures ReadTerm([Word(f), LP] + us) == Got(t, rest)
  {
    var ts := [Word(f), LP] + us;
    assert ts[2] == us[0] && ts[2..] == us;
  }

  lemma JsonArgs(f: string, column: string, keys: seq<string>, rest: seq<Tok>)
    requires keys != []
    ensures ReadArgs([Word(column)] + ([Comma] + (KeyToks(keys) + [RP] + rest)), f, [])
         == Got(Apply(f, [Column(column)] + Literals(keys)), rest)
  {
    var us := KeyToks(keys) + [RP] + rest;
    ColumnAtom(column, [Comma] + us);
    NextArg([Word(column)] + ([Comma] + us), f, [], Column(column), us);
    assert [] + [Column(column)] == [Column(column)];
    KeyArgsRead(keys, f, [Column(column)], rest);
  }

  lemma JsonLayout(f: string, column: string, ks: seq<Tok>, rest: seq<Tok>)
    ensures [Word(f), LP] + ([Word(column)] + [Comma] + ks) + [RP] + rest
         == [Word(f), LP] + ([Word(column)] + ([Comma] + (ks + [RP] + rest)))
  {}

  lemma JsonRead(f: string, column: string, keys: seq<string>)
    requires keys != []
    ensures TokensRead([Word(f), LP] + ([Word(column)] + [Comma] + KeyToks(keys)) + [RP],
                       Apply(f, [Column(column)] + Literals(keys)))
  {
    var a := [Word(f), LP] + ([Word(column)] + [Comma] + KeyToks(keys)) + [RP];
    forall rest | StopsTerm(rest)
      ensures ReadTerm(a + rest) == Got(Apply(f, [Column(column)] + Literals(keys)), rest)
    {
      JsonLayout(f, column, KeyToks(keys), rest);
      JsonArgs(f, column, keys, rest);
      CallRead(f, [Word(column)] + ([Comma] + (KeyToks(keys) + [RP] + rest)), Apply(f, [Column(column)] + Literals(keys)), rest);
    }
  }

  lemma LastItem(s: string, acc: seq<string>, rest: seq<Tok>)
    ensures ReadItems([Lit(s)] + ([RB] + rest), acc) == Got(Array(acc + [s]), rest)
  {
    assert ([Lit(s)] + ([RB] + rest))[2..] == rest;
  }

  lemma NextItem(s: string, acc: seq<string>, rest: seq<Tok>)
    ensures ReadItems([Lit(s)] + ([Comma] + rest), acc) == ReadItems(rest, acc + [s])
  {
    assert ([Lit(s)] + ([Comma] + rest))[2..] == rest;
  }

  lemma {:induction false} ItemsRead(items: seq<string>, acc: seq<string>, rest: seq<Tok>)
    requires items != []
    ensures ReadItems(KeyToks(items) + [RB] + rest, acc) == Got(Array(acc + items), rest)
    decreases |items|
  {
    KeyLayout(items, RB, rest);
    if |items| == 1 {
      LastItem(items[0], acc, rest);
      assert [items[0]] == items;
    } else {
      NextItem(items[0], acc, KeyToks(items[1..]) + [RB] + rest);
      ItemsRead(items[1..], acc + [items[0]], rest);
      assert acc + [items[0]] + items[1..] == acc + items;
    }
  }

  lemma ArrayAtom(items: seq<string>, rest: seq<Tok>)
    requires items != []
    ensures ReadAtom([LB] + KeyToks(items) + [RB] + rest) == Got(Array(items), rest)
  {
    var ts := [LB] + KeyToks(items) + [RB] + rest;
    assert ts[1..] == KeyToks(items) + [RB] + rest;
    ItemsRead(items, [], rest);
    assert [] + items == items;
  }

  /** indexOf([...], x) where x is one token. */
  lemma IndexOfRead(items: seq<string>, x: Tok, t: Term)
    requires items != [] && ((x.Word? && t == Column(x.w)) || (x.Lit? && t == Literal(x.s)))
    ensures TokensRead([Word("indexOf"), LP] + ([LB] + KeyToks(items) + [RB] + [Comma] + [x]) + [RP],
                       Apply("indexOf", [Array(items), t]))
  {
    var a := [Word("indexOf"), LP] + ([LB] + KeyToks(items) + [RB] + [Comma] + [x]) + [RP];
    forall rest | StopsTerm(rest)
      ensures ReadTerm(a + rest) == Got(Apply("indexOf", [Array(items), t]), rest)
    {
      var last := [x] + ([RP] + rest);
      var args := [LB] + KeyToks(items) + [RB] + ([Comma] + last);
      assert a + rest == [Word("indexOf"), LP] + args;
      ArrayAtom(items, [Comma] + last);
      NextArg(args, "indexOf", [], Array(items), last);
      if x.Word? { ColumnAtom(x.w, [RP] + rest); } else { LiteralAtom(x.s, [RP] + rest); }
      LastArg(last, "indexOf", [] + [Array(items)], t, rest);
      assert [] + [Array(items)] + [t] == [Array(items), t];
      CallRead("indexOf", args, Apply("indexOf", [Array(items), t]), rest);
    }
  }

  // ---------------------------------------------------------------- conditions

  lemma CompareRead(l: seq<Tok>, tl: Term, op: string, r: seq<Tok>, tr: Term)
    requires TokensRead(l, tl) && TokensRead(r, tr)
    ensures PrimRead(l + [Cmp(op)] + r, Compare(tl, op, tr))
  {
    forall rest | StopsCond(rest)
      ensures ReadPrim(l + [Cmp(op)] + r + rest) == Got(Compare(tl, op, tr), rest)
    {
      var more := [Cmp(op)] + (r + rest);
      assert l + [Cmp(op)] + r + rest == l + more;
      assert StopsTerm(more) && StopsTerm(rest);
      assert ReadTerm(l + more) == Got(tl, more);
      assert more[1..] == r + rest;
      assert (l + more)[0] == l[0];
    }
  }

  lemma CompareText(a: string, ta: seq<Tok>, l: Term, op: string, b: string, tb: seq<Tok>, r: Term)
    requires TermText(a, ta, l) && TermText(b, tb, r) && op in OPERATORS
    ensures CondText(a + " " + op + " " + b, ta + [Cmp(op)] + tb, Compare(l, op, r))
  {
    OpOpen(op);
    Spaced3(a, ta, op, [Cmp(op)], b, tb);
    CompareRead(ta, l, op, tb, r);
  }

  lemma HoldsText(a: string, ts: seq<Tok>, t: Term)
    requires TermText(a, ts, t)
    ensures CondText(a, ts, Holds(t))
  {
    forall rest | StopsCond(rest) ensures ReadPrim(ts + rest) == Got(Holds(t), rest) {
      assert (ts + rest)[0] == ts[0];
      assert StopsTerm(rest);
      assert ReadTerm(ts + rest) == Got(t, rest);
    }
  }

  lemma ParenRead(ts: seq<Tok>, c: Cond)
    requires forall rest {:trigger StopsWhere(rest)} :: StopsWhere(rest) ==> ReadOr(ts + rest) == Got(c, rest)
    ensures PrimRead([LP] + ts + [RP], c)
  {
    forall rest | StopsCond(rest) ensures ReadPrim([LP] + ts + [RP] + rest) == Got(c, rest) {
      var inner := ts + ([RP] + rest);
      var all := [LP] + ts + [RP] + rest;
      assert all == [LP] + inner;
      assert all[0] == LP && all[1..] == inner;
      assert StopsWhere([RP] + rest);
      assert ReadOr(inner) == Got(c, [RP] + rest);
      assert ([RP] + rest)[1..] == rest;
    }
  }

  lemma OrOfPrim(ts: seq<Tok>, c: Cond, rest: seq<Tok>)
    requires ReadPrim(ts) == Got(c, rest) && StopsWhere(rest)
    ensures ReadAnd(ts) == Got(c, rest) && ReadOr(ts) == Got(c, rest)
  {}

  lemma AndTurn(c: Cond, ts: seq<Tok>, d: Cond, rest: seq<Tok>)
    requires ReadPrim(ts) == Got(d, rest)
    ensures ReadAndRest(c, [Word("AND")] + ts) == ReadAndRest(And(c, d), rest)
  {
    assert ([Word("AND")] + ts)[1..] == ts;
  }

  lemma OrTurn(c: Cond, ts: seq<Tok>, d: Cond, rest: seq<Tok>)
    requires ReadAnd(ts) == Got(d, rest)
    ensures ReadOrRest(c, [Word("OR")] + ts) == ReadOrRest(Or(c, d), rest)
  {
    assert ([Word("OR")] + ts)[1..] == ts;
  }

  /** A lone primary, read as a whole clause. */
  lemma PrimAsOr(ts: seq<Tok>, c: Cond, rest: seq<Tok>)
    requires PrimRead(ts, c) && StopsWhere(rest)
    ensures ReadOr(ts + rest) == Got(c, rest)
  {
    assert StopsCond(rest);
    OrOfPrim(ts + rest, c, rest);
  }

  lemma ParenText(a: string, ts: seq<Tok>, c: Cond)
    requires CondText(a, ts, c)
    ensures CondText("(" + a + ")", [LP] + ts + [RP], c)
  {
    Parens(a, ts);
    forall rest | StopsWhere(rest) ensures ReadOr(ts + rest) == Got(c, rest) {
      PrimAsOr(ts, c, rest);
    }
    ParenRead(ts, c);
  }

  lemma AndOfPrim(ts: seq<Tok>, c: Cond, rest: seq<Tok>)
    requires ReadPrim(ts) == Got(c, rest)
    ensures ReadAnd(ts) == ReadAndRest(c, rest)
  {}

  lemma OrOfAnd(ts: seq<Tok>, c: Cond, rest: seq<Tok>)
    requires ReadAnd(ts) == Got(c, rest)
    ensures ReadOr(ts) == ReadOrRest(c, rest)
  {}

  lemma RestStops(c: Cond, rest: seq<Tok>)
    ensures !Head(rest, Word("AND")) ==> ReadAndRest(c, rest) == Got(c, rest)
    ensures !Head(rest, Word("OR")) ==> ReadOrRest(c, rest) == Got(c, rest)
  {}

  lemma AndAsOr(ta: seq<Tok>, a: Cond, tb: seq<Tok>, b: Cond, rest: seq<Tok>)
    requires PrimRead(ta, a) && PrimRead(tb, b) && StopsWhere(rest)
    ensures ReadOr(ta + [Word("AND")] + tb + rest) == Got(And(a, b), rest)
  {
    var more := [Word("AND")] + (tb + rest);
    var ts := ta + more;
    assert ta + [Word("AND")] + tb + rest == ts;
    assert StopsCond(rest) && StopsCond(more);
    calc {
      ReadAnd(ts);
      { AndOfPrim(ts, a, more); }
      ReadAndRest(a, more);
      { AndTurn(a, tb + rest, b, rest); }
      ReadAndRest(And(a, b), rest);
      { RestStops(And(a, b), rest); }
      Got(And(a, b), rest);
    }
    OrOfAnd(ts, And(a, b), rest);
    RestStops(And(a, b), rest);
  }

  lemma OrAsOr(ta: seq<Tok>, a: Cond, tb: seq<Tok>, b: Cond, rest: seq<Tok>)
    requires PrimRead(ta, a) && PrimRead(tb, b) && StopsWhere(rest)
    ensures ReadOr(ta + [Word("OR")] + tb + rest) == Got(Or(a, b), rest)
  {
    var more := [Word("OR")] + (tb + rest);
    var ts := ta + more;
    assert ta + [Word("OR")] + tb + rest == ts;
    assert StopsCond(rest) && StopsCond(more);
    calc {
      ReadOr(ts);
      { AndOfPrim(ts, a, more); RestStops(a, more); OrOfAnd(ts, a, more); }
      ReadOrRest(a, more);
      { OrOfPrim(tb + rest, b, rest); OrTurn(a, tb + rest, b, rest); }
      ReadOrRest(Or(a, b), rest);
      { RestStops(Or(a, b), rest); }
      Got(Or(a, b), rest);
    }
  }

  function Connect(conj: bool, a: Cond, b: Cond): Cond { if conj then And(a, b) else Or(a, b) }

  function Connective(conj: bool): string { if conj then "AND" else "OR" }

  lemma ConnectRead(ta: seq<Tok>, a: Cond, conj: bool, tb: seq<Tok>, b: Cond)
    requires PrimRead(ta, a) && PrimRead(tb, b)
    ensures PrimRead([LP] + ta + [Word(Connective(conj))] + tb + [RP], Connect(conj, a, b))
  {
    var ts := ta + [Word(Connective(conj))] + tb;
    forall rest | StopsWhere(rest) ensures ReadOr(ts + rest) == Got(Connect(conj, a, b), rest) {
      if conj { AndAsOr(ta, a, tb, b, rest); } else { OrAsOr(ta, a, tb, b, rest); }
    }
    ParenRead(ts, Connect(conj, a, b));
    assert [LP] + ta + [Word(Connective(conj))] + tb + [RP] == [LP] + ts + [RP];
  }

  /** `(a AND b)` or `(a OR b)` */
  lemma BinaryText(x: string, ta: seq<Tok>, a: Cond, conj: bool, y: string, tb: seq<Tok>, b: Cond)
    requires CondText(x, ta, a) && CondText(y, tb, b)
    ensures CondText("(" + x + " " + Connective(conj) + " " + y + ")",
                     [LP] + ta + [Word(Connective(conj))] + tb + [RP], Connect(conj, a, b))
  {
    var kw := Connective(conj);
    WordOpen(kw);
    PunctClosed('(');
    ClosedOpen(SqlScan, "(", [LP], x, ta);
    Spaced3("(" + x, [LP] + ta, kw, [Word(kw)], y, tb);
    OpenPunct("(" + x + " " + kw + " " + y, [LP] + ta + [Word(kw)] + tb, ')');
    ConnectRead(ta, a, conj, tb, b);
  }

  // ---------------------------------------------------------------- top-level conjunctions

  ghost predicate ChainRead(ts: seq<Tok>, c: Cond) {
    forall rest {:trigger StopsCond(rest)} :: StopsCond(rest) ==> ReadAnd(ts + rest) == ReadAndRest(c, rest)
  }

  /** Unparenthesised `a AND b AND ...`. */
  ghost predicate ChainText(a: string, ts: seq<Tok>, c: Cond) {
    Open(SqlScan, a, ts) && ChainRead(ts, c)
  }

  lemma ChainStart(a: string, ts: seq<Tok>, c: Cond)
    requires CondText(a, ts, c)
    ensures ChainText(a, ts, c)
  {
    forall rest | StopsCond(rest) ensures ReadAnd(ts + rest) == ReadAndRest(c, rest) {
      assert ReadPrim(ts + rest) == Got(c, rest);
    }
  }

  lemma AndWordClosed()
    ensures Closed(SqlScan, " AND ", [Word("AND")])
  {
    SpaceClosed();
    WordOpen("AND");
    SpacedWord(SqlScan, "AND", [Word("AND")]);
    assert " " + "AND" + " " == " AND ";
  }

  lemma ChainStep(ta: seq<Tok>, a: Cond, more: seq<Tok>)
    requires ChainRead(ta, a) && StopsCond(more)
    ensures ReadAnd(ta + more) == ReadAndRest(a, more)
  {}

  lemma ChainTurn(ta: seq<Tok>, a: Cond, tb: seq<Tok>, b: Cond, rest: seq<Tok>)
    requires ChainRead(ta, a) && PrimRead(tb, b) && StopsCond(rest)
    ensures ReadAnd(ta + [Word("AND")] + tb + rest) == ReadAndRest(And(a, b), rest)
  {
    var more := [Word("AND")] + (tb + rest);
    assert ta + [Word("AND")] + tb + rest == ta + more;
    ChainStep(ta, a, more);
    AndTurn(a, tb + rest, b, rest);
  }

  lemma ChainAnd(x: string, ta: seq<Tok>, a: Cond, y: string, tb: seq<Tok>, b: Cond)
    requires ChainText(x, ta, a) && CondText(y, tb, b)
    ensures ChainText(x + " AND " + y, ta + [Word("AND")] + tb, And(a, b))
  {
    AndWordClosed();
    OpenClosed(SqlScan, x, ta, " AND ", [Word("AND")]);
    ClosedOpen(SqlScan, x + " AND ", ta + [Word("AND")], y, tb);
    forall rest | StopsCond(rest)
      ensures ReadAnd(ta + [Word("AND")] + tb + rest) == ReadAndRest(And(a, b), rest)
    {
      ChainTurn(ta, a, tb, b, rest);
    }
  }

  lemma ChainAsOr(ts: seq<Tok>, c: Cond, rest: seq<Tok>)
    requires ChainRead(ts, c) && StopsWhere(rest)
    ensures ReadOr(ts + rest) == Got(c, rest)
  {
    assert StopsCond(rest);
    assert ReadAnd(ts + rest) == ReadAndRest(c, rest);
  }

  lemma ChainParens(a: string, ts: seq<Tok>, c: Cond)
    requires ChainText(a, ts, c)
    ensures CondText("(" + a + ")", [LP] + ts + [RP], c)
  {
    Parens(a, ts);
    forall rest | StopsWhere(rest) ensures ReadOr(ts + rest) == Got(c, rest) {
      ChainAsOr(ts, c, rest);
    }
    ParenRead(ts, c);
  }
}
