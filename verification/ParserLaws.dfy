/**
  The WHERE parser and a token printer undo each other (domains/query/parser.go:250-371).

  Forward: every tree of the left-associated grammar prints to tokens that parse
  back to it. Backward: what the parser accepts prints back to the tokens it
  consumed, up to the spelling the tree does not record (case of AND/OR/now, the
  unit of a duration); the one spelling that is lost entirely is `+ 0s`.
 */
module ParserLaws {
  import opened Text
  import opened Lexer
  import opened Ast
  import opened ParserSpec

  // ---------------------------------------------------------------- the printer

  function PrintField(f: Field): seq<Token> {
    if |f| == 1 then [Ident(f[0])] else PrintField(f[..|f| - 1]) + [Dot, Ident(f[|f| - 1])]
  }

  function PrintValue(v: Value): seq<Token> {
    match v
    case ValString(s) => [Str(s)]
    case ValNumber(s) => [Num(s)]
    case ValTime(n, sub) =>
      [Ident("now"), LParen, RParen] +
      if n == 0 && !sub then [] else [if sub then Minus else Plus, Dur(SignedDecimal(n) + "s")]
  }

  function KwToken(op: BoolOp): Token { Ident(if op.AND? then "AND" else "OR") }

  function Print(e: Expr): seq<Token> {
    match e
    case Binary(op, l, r) => Print(l) + [KwToken(op)] + Print(r)
    case Paren(i) => [LParen] + Print(i) + [RParen]
    case Comparison(f, op, v) => PrintField(f) + [Op(op)] + PrintValue(v)
  }

  // ---------------------------------------------------------------- the grammar's shapes

  predicate IsOr(e: Expr)
    decreases e, 2
  {
    IsAnd(e) || (e.Binary? && e.op.OR? && IsOr(e.left) && IsAnd(e.right))
  }

  predicate IsAnd(e: Expr)
    decreases e, 1
  {
    IsPrim(e) || (e.Binary? && e.op.AND? && IsAnd(e.left) && IsPrim(e.right))
  }

  predicate IsPrim(e: Expr)
    decreases e, 0
  {
    match e
    case Binary(_, _, _) => false
    case Paren(i) => IsOr(i)
    case Comparison(_, _, v) => v.ValTime? ==> -TWO63 <= v.seconds < TWO63
  }

  // ---------------------------------------------------------------- printing, then parsing

  /** The tokens `s` stand in `ts` at `p`, and something still follows them. */
  predicate Stands(ts: seq<Token>, p: nat, s: seq<Token>) {
    Terminated(ts) && p + |s| < |ts| && forall i {:trigger s[i]} :: 0 <= i < |s| ==> ts[p + i] == s[i]
  }

  /** Tokens that cannot extend a complete WHERE expression. */
  predicate EndsExpr(t: Token) {
    !IsKw(t, "OR") && EndsOperand(t)
  }

  predicate EndsOperand(t: Token) {
    !IsKw(t, "AND") && EndsValue(t)
  }

  predicate EndsValue(t: Token) { !t.Minus? && !t.Plus? }

  lemma StandsSplit(ts: seq<Token>, p: nat, a: seq<Token>, b: seq<Token>)
    requires Stands(ts, p, a + b)
    ensures Stands(ts, p, a) && Stands(ts, p + |a|, b)
  {
    var s := a + b;
    forall i | 0 <= i < |a| ensures ts[p + i] == a[i] { assert a[i] == s[i]; }
    forall i | 0 <= i < |b| ensures ts[p + |a| + i] == b[i] { assert b[i] == s[|a| + i]; }
  }

  /** A token between two runs. */
  lemma StandsMiddle(ts: seq<Token>, p: nat, a: seq<Token>, t: Token, b: seq<Token>)
    requires Stands(ts, p, a + [t] + b)
    ensures Stands(ts, p, a) && ts[p + |a|] == t && Stands(ts, p + |a| + 1, b)
  {
    StandsSplit(ts, p, a + [t], b);
    StandsSplit(ts, p, a, [t]);
    StandsFirst(ts, p + |a|, [t]);
  }

  lemma StandsFirst(ts: seq<Token>, p: nat, s: seq<Token>)
    requires Stands(ts, p, s) && s != []
    ensures ts[p] == s[0]
  {}

  lemma {:induction false} FieldForward(ts: seq<Token>, p: nat, f: Field)
    requires Stands(ts, p, PrintField(f))
    ensures ParseField(ts, p) == FieldRest(ts, f, p + |PrintField(f)|)
  {
    if |f| == 1 {
      StandsFirst(ts, p, PrintField(f));
      assert f == [f[0]];
    } else {
      var init, seg := f[..|f| - 1], f[|f| - 1];
      StandsSplit(ts, p, PrintField(init), [Dot, Ident(seg)]);
      FieldForward(ts, p, init);
      var q := p + |PrintField(init)|;
      assert ts[q] == [Dot, Ident(seg)][0] && ts[q + 1] == [Dot, Ident(seg)][1];
      assert init + [seg] == f;
    }
  }

  lemma SignedRoundTrip(n: int)
    requires -TWO63 <= n < TWO63
    ensures ParseInt64(SignedDecimal(n)) == Ok(n)
  {
    var s := SignedDecimal(n);
    if n < 0 {
      DecimalRoundTrip(-n);
      assert s[1..] == Decimal(-n);
    } else {
      DecimalRoundTrip(n);
      assert IsDigit(s[0]);
    }
  }

  lemma SecondsRoundTrip(n: int)
    requires -TWO63 <= n < TWO63
    ensures DurationSeconds(SignedDecimal(n) + "s") == Ok(n)
  {
    var d := SignedDecimal(n) + "s";
    SignedRoundTrip(n);
    assert d[..|d| - 1] == SignedDecimal(n);
  }

  lemma ValueForward(ts: seq<Token>, p: nat, v: Value)
    requires v.ValTime? ==> -TWO63 <= v.seconds < TWO63
    requires Stands(ts, p, PrintValue(v)) && EndsValue(ts[p + |PrintValue(v)|])
    ensures ParseValue(ts, p) == Done(v, p + |PrintValue(v)|)
  {
    var s := PrintValue(v);
    assert ts[p] == s[0];
    if v.ValTime? {
      assert EqualFold("now", "now");
      assert ts[p + 1] == s[1] && ts[p + 2] == s[2];
      if v.seconds != 0 || v.sub {
        assert ts[p + 3] == s[3] && ts[p + 4] == s[4];
        SecondsRoundTrip(v.seconds);
      }
    }
  }

  lemma ComparisonForward(ts: seq<Token>, p: nat, e: Expr)
    requires e.Comparison? && IsPrim(e)
    requires Stands(ts, p, Print(e)) && EndsValue(ts[p + |Print(e)|])
    ensures ParseComparison(ts, p) == Done(e, p + |Print(e)|)
  {
    var Comparison(f, op, v) := e;
    StandsMiddle(ts, p, PrintField(f), Op(op), PrintValue(v));
    FieldForward(ts, p, f);
    ValueForward(ts, p + |PrintField(f)| + 1, v);
  }

  ghost predicate PrimReads(ts: seq<Token>, p: nat, e: Expr, q: nat) {
    At(ts, p) && At(ts, q) && ParsePrimary(ts, p) == Done(e, q)
  }

  lemma ParenReads(ts: seq<Token>, p: nat, i: Expr, q: nat)
    requires At(ts, p) && At(ts, q) && ts[p].LParen? && ts[q].RParen?
    requires ParseOr(ts, p + 1) == Done(i, q)
    ensures PrimReads(ts, p, Paren(i), q + 1)
  {}

  lemma {:induction false} PrimForward(ts: seq<Token>, p: nat, e: Expr)
    requires IsPrim(e)
    requires Stands(ts, p, Print(e)) && EndsValue(ts[p + |Print(e)|])
    ensures PrimReads(ts, p, e, p + |Print(e)|)
    decreases e, 0
  {
    match e
    case Paren(i) =>
      assert Print(e) == [LParen] + Print(i) + [RParen];
      StandsSplit(ts, p, [LParen] + Print(i), [RParen]);
      StandsSplit(ts, p, [LParen], Print(i));
      StandsFirst(ts, p, [LParen]);
      StandsFirst(ts, p + 1 + |Print(i)|, [RParen]);
      OrForward(ts, p + 1, i);
      ParenReads(ts, p, i, p + 1 + |Print(i)|);
    case Comparison(f, _, _) =>
      ComparisonForward(ts, p, e);
      FieldHead(f);
      StandsFirst(ts, p, Print(e));
  }

  lemma {:induction false} FieldHead(f: Field)
    ensures |PrintField(f)| > 0 && PrintField(f)[0].Ident?
  {
    if |f| > 1 {
      FieldHead(f[..|f| - 1]);
    }
  }

  lemma KeywordTokens()
    ensures IsKw(KwToken(AND), "AND") && IsKw(KwToken(OR), "OR")
    ensures !IsKw(KwToken(OR), "AND") && !IsKw(KwToken(AND), "OR")
    ensures forall op :: WfToken(KwToken(op))
  {
    assert Lower("OR")[0] != Lower("AND")[0];
  }

  /** Having read `e` up to `q`, the AND loop goes on from there. */
  ghost predicate AndReads(ts: seq<Token>, p: nat, e: Expr, q: nat) {
    At(ts, p) && At(ts, q) && ParseAnd(ts, p) == AndRest(ts, e, q)
  }

  ghost predicate OrReads(ts: seq<Token>, p: nat, e: Expr, q: nat) {
    At(ts, p) && At(ts, q) && ParseOr(ts, p) == OrRest(ts, e, q)
  }

  lemma AndStart(ts: seq<Token>, p: nat, e: Expr, q: nat)
    requires PrimReads(ts, p, e, q)
    ensures AndReads(ts, p, e, q)
  {}

  lemma AndTurn(ts: seq<Token>, p: nat, left: Expr, q: nat, right: Expr, n: nat)
    requires AndReads(ts, p, left, q)
    requires IsKw(ts[q], "AND") && PrimReads(ts, q + 1, right, n)
    ensures AndReads(ts, p, Binary(AND, left, right), n)
  {}

  lemma OrStart(ts: seq<Token>, p: nat, e: Expr, q: nat)
    requires AndReads(ts, p, e, q) && !IsKw(ts[q], "AND")
    ensures OrReads(ts, p, e, q)
  {}

  lemma OrTurn(ts: seq<Token>, p: nat, left: Expr, q: nat, right: Expr, n: nat)
    requires OrReads(ts, p, left, q)
    requires IsKw(ts[q], "OR") && AndReads(ts, q + 1, right, n) && !IsKw(ts[n], "AND")
    ensures OrReads(ts, p, Binary(OR, left, right), n)
  {}

  lemma {:induction false} AndForward(ts: seq<Token>, p: nat, e: Expr)
    requires IsAnd(e)
    requires Stands(ts, p, Print(e)) && EndsValue(ts[p + |Print(e)|])
    ensures AndReads(ts, p, e, p + |Print(e)|)
    decreases e, 2
  {
    if IsPrim(e) {
      PrimForward(ts, p, e);
      AndStart(ts, p, e, p + |Print(e)|);
    } else {
      AndBinaryForward(ts, p, e);
    }
  }

  lemma {:induction false} AndBinaryForward(ts: seq<Token>, p: nat, e: Expr)
    requires e.Binary? && e.op.AND? && IsAnd(e.left) && IsPrim(e.right)
    requires Stands(ts, p, Print(e)) && EndsValue(ts[p + |Print(e)|])
    ensures AndReads(ts, p, e, p + |Print(e)|)
    decreases e, 1
  {
    var q := p + |Print(e.left)|;
    OperandsStand(ts, p, AND, e.left, e.right);
    AndForward(ts, p, e.left);
    PrimForward(ts, q + 1, e.right);
    AndTurn(ts, p, e.left, q, e.right, q + 1 + |Print(e.right)|);
  }

  /** The operands and the keyword of a printed conjunction or disjunction, each at its place. */
  lemma OperandsStand(ts: seq<Token>, p: nat, op: BoolOp, l: Expr, r: Expr)
    requires Stands(ts, p, Print(Binary(op, l, r)))
    ensures var q := p + |Print(l)|;
            && Stands(ts, p, Print(l)) && Stands(ts, q + 1, Print(r))
            && q + 1 + |Print(r)| == p + |Print(Binary(op, l, r))|
            && EndsValue(ts[q]) && (op.AND? ==> IsKw(ts[q], "AND")) && (op.OR? ==> IsKw(ts[q], "OR") && EndsOperand(ts[q]))
  {
    StandsMiddle(ts, p, Print(l), KwToken(op), Print(r));
    KeywordTokens();
  }

  lemma {:induction false} OrForwardRest(ts: seq<Token>, p: nat, e: Expr)
    requires IsOr(e)
    requires Stands(ts, p, Print(e)) && EndsOperand(ts[p + |Print(e)|])
    ensures OrReads(ts, p, e, p + |Print(e)|)
    decreases e, 4
  {
    if IsAnd(e) {
      AndForward(ts, p, e);
      OrStart(ts, p, e, p + |Print(e)|);
    } else {
      OrBinaryForward(ts, p, e);
    }
  }

  lemma {:induction false} OrBinaryForward(ts: seq<Token>, p: nat, e: Expr)
    requires e.Binary? && e.op.OR? && IsOr(e.left) && IsAnd(e.right)
    requires Stands(ts, p, Print(e)) && EndsOperand(ts[p + |Print(e)|])
    ensures OrReads(ts, p, e, p + |Print(e)|)
    decreases e, 3
  {
    var q := p + |Print(e.left)|;
    OperandsStand(ts, p, OR, e.left, e.right);
    OrForwardRest(ts, p, e.left);
    AndForward(ts, q + 1, e.right);
    OrTurn(ts, p, e.left, q, e.right, q + 1 + |Print(e.right)|);
  }

  /** Round trip, forward: any tree of the grammar's shape, anywhere in a token list. */
  lemma {:induction false} OrForward(ts: seq<Token>, p: nat, e: Expr)
    requires IsOr(e)
    requires Stands(ts, p, Print(e)) && EndsExpr(ts[p + |Print(e)|])
    ensures ParseOr(ts, p) == Done(e, p + |Print(e)|)
    decreases e, 5
  {
    OrForwardRest(ts, p, e);
  }

  // ---------------------------------------------------------------- parsing, then printing

  /** Same token up to what the tree does not record. */
  predicate SameToken(a: Token, b: Token) {
    || a == b
    || (a.Ident? && b.Ident? && EqualFold(a.text, b.text) && Lower(a.text) in {"and", "or", "now"})
    || (a.Dur? && b.Dur? && DurationSeconds(a.text).Ok? && DurationSeconds(a.text) == DurationSeconds(b.text))
  }

  predicate SameSpelling(a: seq<Token>, b: seq<Token>) {
    |a| == |b| && forall i :: 0 <= i < |a| ==> SameToken(a[i], b[i])
  }

  /** A `+` before a duration of zero seconds: parses like a bare `now()`. */
  predicate PlusZero(ts: seq<Token>, i: nat) {
    i + 1 < |ts| && ts[i].Plus? && ts[i + 1].Dur? && DurationSeconds(ts[i + 1].text) == Ok(0)
  }

  predicate NoPlusZero(ts: seq<Token>, p: nat, q: nat) {
    forall i :: p <= i < q ==> !PlusZero(ts, i)
  }

  /** `s` is what the parser should print for the tokens p..q. */
  ghost predicate Back(ts: seq<Token>, p: nat, q: nat, s: seq<Token>) {
    && p <= q <= |ts|
    && |s| <= q - p
    && (NoPlusZero(ts, p, q) <==> |s| == q - p)
    && (NoPlusZero(ts, p, q) ==> SameSpelling(s, ts[p..q]))
  }

  lemma BackCat(ts: seq<Token>, p: nat, q: nat, r: nat, a: seq<Token>, b: seq<Token>)
    requires Back(ts, p, q, a) && Back(ts, q, r, b)
    ensures Back(ts, p, r, a + b)
  {
    if NoPlusZero(ts, p, r) {
      assert NoPlusZero(ts, p, q) && NoPlusZero(ts, q, r);
      assert ts[p..r] == ts[p..q] + ts[q..r];
    } else if NoPlusZero(ts, p, q) && NoPlusZero(ts, q, r) {
      assert NoPlusZero(ts, p, r);
    }
  }

  lemma BackThree(ts: seq<Token>, p: nat, q: nat, r: nat, a: seq<Token>, t: Token, b: seq<Token>)
    requires Back(ts, p, q, a) && q < |ts| && SameToken(t, ts[q]) && !ts[q].Plus? && Back(ts, q + 1, r, b)
    ensures Back(ts, p, r, a + [t] + b)
  {
    BackOne(ts, q, t);
    BackCat(ts, p, q, q + 1, a, [t]);
    BackCat(ts, p, q + 1, r, a + [t], b);
  }

  lemma BackOne(ts: seq<Token>, p: nat, t: Token)
    requires p < |ts| && SameToken(t, ts[p]) && !ts[p].Plus?
    ensures Back(ts, p, p + 1, [t])
  {}

  lemma {:induction false} FieldRestBack(ts: seq<Token>, p0: nat, parts: Field, p: nat)
    requires At(ts, p) && Back(ts, p0, p, PrintField(parts))
    ensures var r := FieldRest(ts, parts, p);
            r.Done? ==> Back(ts, p0, r.pos, PrintField(r.value))
    decreases |ts| - p
  {
    if ts[p].Dot? && ts[p + 1].Ident? {
      var more := parts + [ts[p + 1].text];
      assert more[..|more| - 1] == parts;
      BackOne(ts, p, Dot);
      BackOne(ts, p + 1, ts[p + 1]);
      BackCat(ts, p, p + 1, p + 2, [Dot], [ts[p + 1]]);
      BackCat(ts, p0, p, p + 2, PrintField(parts), [Dot] + [ts[p + 1]]);
      FieldRestBack(ts, p0, more, p + 2);
    }
  }

  lemma FieldBack(ts: seq<Token>, p: nat)
    requires At(ts, p)
    ensures var r := ParseField(ts, p);
            r.Done? ==> Back(ts, p, r.pos, PrintField(r.value))
  {
    if ts[p].Ident? {
      BackOne(ts, p, ts[p]);
      FieldRestBack(ts, p, [ts[p].text], p + 1);
    }
  }

  lemma NowBack(ts: seq<Token>, p: nat)
    requires At(ts, p) && ts[p].Ident? && EqualFold(ts[p].text, "now")
    requires ts[p + 1].LParen? && ts[p + 2].RParen?
    ensures Back(ts, p, p + 3, [Ident("now"), LParen, RParen])
  {
    assert Lower("now") == "now";
    BackOne(ts, p, Ident("now"));
    BackOne(ts, p + 1, LParen);
    BackOne(ts, p + 2, RParen);
    BackCat(ts, p, p + 1, p + 2, [Ident("now")], [LParen]);
    BackCat(ts, p, p + 2, p + 3, [Ident("now")] + [LParen], [RParen]);
    assert [Ident("now")] + [LParen] + [RParen] == [Ident("now"), LParen, RParen];
  }

  /** The offset part: two tokens, printed as two unless it is `+ 0`. */
  lemma OffsetBack(ts: seq<Token>, p: nat, n: int, sub: bool)
    requires At(ts, p) && (if sub then ts[p].Minus? else ts[p].Plus?)
    requires ts[p + 1].Dur? && DurationSeconds(ts[p + 1].text) == Ok(n)
    ensures Back(ts, p, p + 2,
      if n == 0 && !sub then [] else [if sub then Minus else Plus, Dur(SignedDecimal(n) + "s")])
  {
    assert !PlusZero(ts, p + 1);
    assert PlusZero(ts, p) <==> n == 0 && !sub;
    SecondsRoundTrip(n);
    var d := Dur(SignedDecimal(n) + "s");
    assert SameToken(d, ts[p + 1]);
  }

  lemma ValueBack(ts: seq<Token>, p: nat)
    requires At(ts, p)
    ensures var r := ParseValue(ts, p);
            r.Done? ==>
              && Back(ts, p, r.pos, PrintValue(r.value))
              && (r.value.ValTime? ==> -TWO63 <= r.value.seconds < TWO63)
  {
    var r := ParseValue(ts, p);
    if r.Done? {
      match r.value
      case ValString(_) => BackOne(ts, p, ts[p]);
      case ValNumber(_) => BackOne(ts, p, ts[p]);
      case ValTime(n, sub) =>
        NowBack(ts, p);
        if r.pos == p + 5 {
          OffsetBack(ts, p + 3, n, sub);
          BackCat(ts, p, p + 3, p + 5, [Ident("now"), LParen, RParen],
            if n == 0 && !sub then [] else [if sub then Minus else Plus, Dur(SignedDecimal(n) + "s")]);
        } else {
          assert [Ident("now"), LParen, RParen] + [] == [Ident("now"), LParen, RParen];
        }
    }
  }

  lemma ComparisonBack(ts: seq<Token>, p: nat)
    requires At(ts, p)
    ensures var r := ParseComparison(ts, p);
            r.Done? ==> IsPrim(r.value) && Back(ts, p, r.pos, Print(r.value))
  {
    var f := ParseField(ts, p);
    FieldBack(ts, p);
    if f.Done? && ts[f.pos].Op? {
      var q := f.pos;
      ValueBack(ts, q + 1);
      var v := ParseValue(ts, q + 1);
      if v.Done? {
        BackThree(ts, p, q, v.pos, PrintField(f.value), ts[q], PrintValue(v.value));
      }
    }
  }

  lemma {:induction false} PrimaryBack(ts: seq<Token>, p: nat)
    requires At(ts, p)
    ensures var r := ParsePrimary(ts, p);
            r.Done? ==> IsPrim(r.value) && Back(ts, p, r.pos, Print(r.value))
    decreases |ts| - p, 0
  {
    if ts[p].LParen? {
      OrBack(ts, p + 1);
      var e := ParseOr(ts, p + 1);
      if e.Done? && ts[e.pos].RParen? {
        BackOne(ts, p, LParen);
        BackOne(ts, e.pos, RParen);
        BackCat(ts, p, p + 1, e.pos, [LParen], Print(e.value));
        BackCat(ts, p, e.pos, e.pos + 1, [LParen] + Print(e.value), [RParen]);
      }
    } else {
      ComparisonBack(ts, p);
    }
  }

  lemma KeywordSame(op: BoolOp, t: Token)
    requires IsKw(t, if op.AND? then "AND" else "OR")
    ensures SameToken(KwToken(op), t)
  {
    assert Lower("AND") == "and" && Lower("OR") == "or";
  }

  /** One turn of either loop: the connective and the operand after it. */
  lemma BinaryBack(ts: seq<Token>, p0: nat, left: Expr, p: nat, op: BoolOp, right: Expr, q: nat)
    requires At(ts, p)
    requires IsKw(ts[p], if op.AND? then "AND" else "OR")
    requires Back(ts, p0, p, Print(left)) && Back(ts, p + 1, q, Print(right))
    ensures Back(ts, p0, q, Print(Binary(op, left, right)))
  {
    KeywordSame(op, ts[p]);
    BackThree(ts, p0, p, q, Print(left), KwToken(op), Print(right));
  }

  lemma {:induction false} AndRestBack(ts: seq<Token>, p0: nat, left: Expr, p: nat)
    requires At(ts, p) && IsAnd(left) && Back(ts, p0, p, Print(left))
    ensures var r := AndRest(ts, left, p);
            r.Done? ==> IsAnd(r.value) && Back(ts, p0, r.pos, Print(r.value))
    decreases |ts| - p, 1
  {
    if IsKw(ts[p], "AND") {
      PrimaryBack(ts, p + 1);
      var right := ParsePrimary(ts, p + 1);
      if right.Done? {
        BinaryBack(ts, p0, left, p, AND, right.value, right.pos);
        AndRestBack(ts, p0, Binary(AND, left, right.value), right.pos);
      }
    }
  }

  lemma {:induction false} AndBack(ts: seq<Token>, p: nat)
    requires At(ts, p)
    ensures var r := ParseAnd(ts, p);
            r.Done? ==> IsAnd(r.value) && Back(ts, p, r.pos, Print(r.value))
    decreases |ts| - p, 2
  {
    PrimaryBack(ts, p);
    var first := ParsePrimary(ts, p);
    if first.Done? {
      AndRestBack(ts, p, first.value, first.pos);
    }
  }

  lemma {:induction false} OrRestBack(ts: seq<Token>, p0: nat, left: Expr, p: nat)
    requires At(ts, p) && IsOr(left) && Back(ts, p0, p, Print(left))
    ensures var r := OrRest(ts, left, p);
            r.Done? ==> IsOr(r.value) && Back(ts, p0, r.pos, Print(r.value))
    decreases |ts| - p, 3
  {
    if IsKw(ts[p], "OR") {
      AndBack(ts, p + 1);
      var right := ParseAnd(ts, p + 1);
      if right.Done? {
        BinaryBack(ts, p0, left, p, OR, right.value, right.pos);
        OrRestBack(ts, p0, Binary(OR, left, right.value), right.pos);
      }
    }
  }

  lemma {:induction false} OrBack(ts: seq<Token>, p: nat)
    requires At(ts, p)
    ensures var r := ParseOr(ts, p);
            r.Done? ==> IsOr(r.value) && Back(ts, p, r.pos, Print(r.value))
    decreases |ts| - p, 4
  {
    AndBack(ts, p);
    var first := ParseAnd(ts, p);
    if first.Done? {
      OrRestBack(ts, p, first.value, first.pos);
    }
  }

  /** Round trip, backward, with the exact condition: an accepted WHERE prints back to
      the tokens it was read from, up to spelling, iff none of them is a `+` before a
      zero duration. */
  lemma AcceptedPrintsBack(ts: seq<Token>, p: nat)
    requires At(ts, p) && ParseOr(ts, p).Done?
    ensures var Done(e, q) := ParseOr(ts, p);
            IsOr(e) && (SameSpelling(Print(e), ts[p..q]) <==> NoPlusZero(ts, p, q))
  {
    OrBack(ts, p);
  }

  /** The spelling that is lost: `a = now() + 0s` prints back as `a = now()`. */
  lemma PlusZeroIsLost()
    ensures var ts := [Ident("a"), Op("="), Ident("now"), LParen, RParen, Plus, Dur("0s"), EOF];
            && ParseOr(ts, 0) == Done(Comparison(["a"], "=", ValTime(0, false)), 7)
            && Print(Comparison(["a"], "=", ValTime(0, false))) == ts[..5]
  {
    var ts := [Ident("a"), Op("="), Ident("now"), LParen, RParen, Plus, Dur("0s"), EOF];
    assert ParseField(ts, 0) == Done(["a"], 1);
    assert "0s"[..1] == "0" && DigitsValue("0") == 0 by { assert "0"[..0] == ""; }
    assert DurationSeconds("0s") == Ok(0);
    assert EqualFold("now", "now");
    assert ParseValue(ts, 2) == Done(ValTime(0, false), 7);
    assert ParseComparison(ts, 0) == Done(Comparison(["a"], "=", ValTime(0, false)), 7);
  }

  /** A duration means digits times unit exactly when the product stays below 2^63. */
  lemma DurationExact(d: string)
    requires IsDuration(d)
    ensures var n := DigitsValue(d[..|d| - 1]);
            var unit := d[|d| - 1];
            var product := n * (if unit == 's' then 1 else if unit == 'm' then 60 else if unit == 'h' then 3600 else 86400);
            n < TWO63 ==> (DurationSeconds(d) == Ok(product) <==> product < TWO63)
    ensures DigitsValue(d[..|d| - 1]) >= TWO63 ==> DurationSeconds(d) == Err
  {
    var digits := d[..|d| - 1];
    assert IsDigit(digits[0]);
    var n := DigitsValue(digits);
    if n < TWO63 {
      assert ParseInt64(digits) == Ok(n);
    }
  }

  // ---------------------------------------------------------------- through the text

  /** Trees whose printed tokens the tokeniser can produce. */
  predicate Writable(e: Expr) {
    match e
    case Binary(_, l, r) => Writable(l) && Writable(r)
    case Paren(i) => Writable(i)
    case Comparison(f, op, v) =>
      WfComparison(f, op, v) && (v.ValTime? ==> 0 <= v.seconds < TWO63)
  }

  predicate AllWf(ts: seq<Token>) { forall t :: t in ts ==> WfToken(t) }

  predicate WfField(f: Field) { forall s :: s in f ==> IsIdent(s) }

  predicate WfComparison(f: Field, op: string, v: Value) {
    WfField(f) && IsOp(op) && (v.ValNumber? ==> v.num != "" && AllDigits(v.num))
  }

  /** What every WHERE tree read from text satisfies: names are identifiers, operators
      are the lexer's, numbers are digits only. */
  predicate WfExpr(e: Expr) {
    match e
    case Binary(_, l, r) => WfExpr(l) && WfExpr(r)
    case Paren(i) => WfExpr(i)
    case Comparison(f, op, v) => WfComparison(f, op, v)
  }

  /** Every token but the end marker is well-formed. */
  predicate Lexed(ts: seq<Token>) {
    Terminated(ts) && forall i :: 0 <= i < |ts| ==> ts[i].EOF? || WfToken(ts[i])
  }

  lemma LexSpecLexed(input: string)
    requires LexSpec(input).Ok?
    ensures Lexed(LexSpec(input).value)
  {
    ScanWf(input);
    var body := Scan(input).value;
    var ts := body + [EOF];
    forall i | 0 <= i < |ts| ensures ts[i].EOF? || WfToken(ts[i]) {
      if i < |body| { assert ts[i] == body[i] && body[i] in body; }
    }
  }

  lemma {:induction false} FieldRestWf(ts: seq<Token>, parts: Field, p: nat)
    requires Lexed(ts) && At(ts, p) && WfField(parts)
    ensures FieldRest(ts, parts, p).Done? ==> WfField(FieldRest(ts, parts, p).value)
    decreases |ts| - p
  {
    if ts[p].Dot? && ts[p + 1].Ident? {
      FieldRestWf(ts, parts + [ts[p + 1].text], p + 2);
    }
  }

  lemma FieldWf(ts: seq<Token>, p: nat)
    requires Lexed(ts) && At(ts, p)
    ensures ParseField(ts, p).Done? ==> WfField(ParseField(ts, p).value)
  {
    if ts[p].Ident? {
      FieldRestWf(ts, [ts[p].text], p + 1);
    }
  }

  lemma ComparisonWf(ts: seq<Token>, p: nat)
    requires Lexed(ts) && At(ts, p)
    ensures ParseComparison(ts, p).Done? ==> WfExpr(ParseComparison(ts, p).value)
  {
    FieldWf(ts, p);
  }

  lemma {:induction false} PrimaryWf(ts: seq<Token>, p: nat)
    requires Lexed(ts) && At(ts, p)
    ensures ParsePrimary(ts, p).Done? ==> WfExpr(ParsePrimary(ts, p).value)
    decreases |ts| - p, 0
  {
    if ts[p].LParen? {
      OrWf(ts, p + 1);
    } else {
      ComparisonWf(ts, p);
    }
  }

  lemma {:induction false} AndRestWf(ts: seq<Token>, left: Expr, p: nat)
    requires Lexed(ts) && At(ts, p) && WfExpr(left)
    ensures AndRest(ts, left, p).Done? ==> WfExpr(AndRest(ts, left, p).value)
    decreases |ts| - p, 1
  {
    if IsKw(ts[p], "AND") {
      PrimaryWf(ts, p + 1);
      var right := ParsePrimary(ts, p + 1);
      if right.Done? {
        AndRestWf(ts, Binary(AND, left, right.value), right.pos);
      }
    }
  }

  lemma {:induction false} AndWf(ts: seq<Token>, p: nat)
    requires Lexed(ts) && At(ts, p)
    ensures ParseAnd(ts, p).Done? ==> WfExpr(ParseAnd(ts, p).value)
    decreases |ts| - p, 2
  {
    PrimaryWf(ts, p);
    var first := ParsePrimary(ts, p);
    if first.Done? {
      AndRestWf(ts, first.value, first.pos);
    }
  }

  lemma {:induction false} OrRestWf(ts: seq<Token>, left: Expr, p: nat)
    requires Lexed(ts) && At(ts, p) && WfExpr(left)
    ensures OrRest(ts, left, p).Done? ==> WfExpr(OrRest(ts, left, p).value)
    decreases |ts| - p, 3
  {
    if IsKw(ts[p], "OR") {
      AndWf(ts, p + 1);
      var right := ParseAnd(ts, p + 1);
      if right.Done? {
        OrRestWf(ts, Binary(OR, left, right.value), right.pos);
      }
    }
  }

  lemma {:induction false} OrWf(ts: seq<Token>, p: nat)
    requires Lexed(ts) && At(ts, p)
    ensures ParseOr(ts, p).Done? ==> WfExpr(ParseOr(ts, p).value)
    decreases |ts| - p, 4
  {
    AndWf(ts, p);
    var first := ParseAnd(ts, p);
    if first.Done? {
      OrRestWf(ts, first.value, first.pos);
    }
  }

  lemma {:induction false} GroupFieldsWf(ts: seq<Token>, fs: seq<Field>, p: nat)
    requires Lexed(ts) && At(ts, p) && forall f :: f in fs ==> WfField(f)
    ensures var r := GroupFields(ts, fs, p); r.Done? ==> forall f :: f in r.value ==> WfField(f)
    decreases |ts| - p
  {
    FieldWf(ts, p);
    var f := ParseField(ts, p);
    if f.Done? && ts[f.pos].Comma? {
      GroupFieldsWf(ts, fs + [f.value], f.pos + 1);
    }
  }

  /** A projected column or aggregate: identifier field, known aggregate, identifier alias. */
  predicate WfItem(it: SelectItem) {
    && (it.field.Some? ==> WfField(it.field.value))
    && (it.agg == "" || IsAgg(it.agg)) && (it.alias == "" || IsIdent(it.alias))
  }

  lemma AliasWf(ts: seq<Token>, it: SelectItem, p: nat)
    requires Lexed(ts) && At(ts, p) && WfItem(it)
    ensures WfItem(OptAlias(ts, it, p).value)
  {
    if IsKw(ts[p], "AS") && ts[p + 1].Ident? {
      assert WfToken(ts[p + 1]);
    }
  }

  lemma SelectItemWf(ts: seq<Token>, p: nat)
    requires Lexed(ts) && At(ts, p)
    ensures var r := ParseSelectItem(ts, p); r.Done? ==> WfItem(r.value)
  {
    if ts[p].Ident? && ts[p + 1].LParen? {
      var agg := Lower(ts[p].text);
      if ts[p + 2].Star? {
        if IsAgg(agg) && ts[p + 3].RParen? {
          AliasWf(ts, SelectItem(agg, None, ""), p + 4);
        }
      } else {
        FieldWf(ts, p + 2);
        var f := ParseField(ts, p + 2);
        if IsAgg(agg) && f.Done? && ts[f.pos].RParen? {
          AliasWf(ts, SelectItem(agg, Some(f.value), ""), f.pos + 1);
        }
      }
    } else {
      FieldWf(ts, p);
      var f := ParseField(ts, p);
      if f.Done? {
        AliasWf(ts, SelectItem("", Some(f.value), ""), f.pos);
      }
    }
  }

  lemma {:induction false} SelectListWf(ts: seq<Token>, items: seq<SelectItem>, p: nat)
    requires Lexed(ts) && At(ts, p) && forall it :: it in items ==> WfItem(it)
    ensures var r := ParseSelectList(ts, items, p); r.Done? ==> forall it :: it in r.value ==> WfItem(it)
    decreases |ts| - p
  {
    SelectItemWf(ts, p);
    var item := if ts[p].Star? then Done(SelectItem("", None, ""), p + 1) else ParseSelectItem(ts, p);
    if item.Done? && ts[item.pos].Comma? {
      SelectListWf(ts, items + [item.value], item.pos + 1);
    }
  }

  /** What every statement read from text satisfies. */
  predicate WfStmt(s: Stmt) {
    && (forall it :: it in s.select ==> WfItem(it))
    && (s.where.Some? ==> WfExpr(s.where.value))
    && (forall f :: f in s.groupBy ==> WfField(f))
    && (s.orderBy.Some? ==> WfField(s.orderBy.value.field))
  }

  lemma SelectTailWf(ts: seq<Token>, s: Stmt, p: nat)
    requires Lexed(ts) && At(ts, p) && WfStmt(s)
    ensures SelectTail(ts, s, p).Done? ==> WfStmt(SelectTail(ts, s, p).value)
  {
    if IsKw(ts[p], "GROUP") && IsKw(ts[p + 1], "BY") {
      GroupFieldsWf(ts, [], p + 2);
    }
    var gb := OptGroupBy(ts, p);
    if gb.Done? && IsKw(ts[gb.pos], "ORDER") && IsKw(ts[gb.pos + 1], "BY") {
      FieldWf(ts, gb.pos + 2);
    }
  }

  lemma OptWhereWf(ts: seq<Token>, p: nat)
    requires Lexed(ts) && At(ts, p)
    ensures var r := OptWhere(ts, p); r.Done? && r.value.Some? ==> WfExpr(r.value.value)
  {
    if IsKw(ts[p], "WHERE") {
      OrWf(ts, p + 1);
    }
  }

  lemma SelectWf(ts: seq<Token>)
    requires Lexed(ts) && !ts[0].EOF?
    ensures var r := ParseSelect(ts, 0); r.Done? ==> WfStmt(r.value)
  {
    SelectListWf(ts, [], 1);
    var items := ParseSelectList(ts, [], 1);
    if items.Done? {
      var table := ParseFrom(ts, items.pos);
      if table.Done? {
        OptWhereWf(ts, table.pos);
        var w := OptWhere(ts, table.pos);
        if w.Done? {
          SelectTailWf(ts, Stmt(Select, "", table.value, items.value, w.value, [], None, 0), w.pos);
        }
      }
    }
  }

  lemma ParsedWf(input: string)
    requires Parse(input).Ok?
    ensures WfStmt(Parse(input).value)
  {
    LexSpecLexed(input);
    var ts := LexSpec(input).value;
    if IsKw(ts[0], "SEARCH") {
      var table := ParseFrom(ts, 2);
      if table.Done? { OptWhereWf(ts, table.pos); }
    } else if IsKw(ts[0], "SELECT") {
      SelectWf(ts);
    } else if IsKw(ts[0], "TAIL") {
      var table := ParseFrom(ts, 1);
      if table.Done? { OptWhereWf(ts, table.pos); }
    }
  }

  lemma {:induction false} FieldTokensWf(f: Field)
    requires forall s :: s in f ==> IsIdent(s)
    ensures AllWf(PrintField(f))
  {
    if |f| > 1 {
      FieldTokensWf(f[..|f| - 1]);
    }
  }

  lemma ValueTokensWf(v: Value)
    requires v.ValNumber? ==> v.num != "" && AllDigits(v.num)
    requires v.ValTime? ==> 0 <= v.seconds < TWO63
    ensures AllWf(PrintValue(v))
  {
    if v.ValTime? {
      var d := SignedDecimal(v.seconds) + "s";
      assert d[..|d| - 1] == Decimal(v.seconds);
      assert IsIdent("now");
    }
  }

  lemma {:induction false} PrintedTokensWf(e: Expr)
    requires Writable(e)
    ensures AllWf(Print(e))
  {
    match e
    case Binary(op, l, r) =>
      PrintedTokensWf(l);
      PrintedTokensWf(r);
      KeywordTokens();
    case Paren(i) =>
      PrintedTokensWf(i);
    case Comparison(f, op, v) =>
      FieldTokensWf(f);
      ValueTokensWf(v);
  }

  /** Text round trip: a printed WHERE tree is tokenised and parsed to the same tree. */
  lemma TextRoundTrip(e: Expr)
    requires IsOr(e) && Writable(e)
    ensures var lexed := LexSpec(Spaced(Print(e)));
            && lexed.Ok? && Terminated(lexed.value)
            && ParseOr(lexed.value, 0) == Done(e, |lexed.value| - 1)
  {
    PrintedTokensWf(e);
    ScanSpaced(Print(e));
    var ts := Print(e) + [EOF];
    assert ts[0..|Print(e)|] == Print(e);
    OrForward(ts, 0, e);
  }
}
