/**
  The LogQL++ tokeniser (domains/query/lexer.go). `Lex` is the index loop of the
  source; `Scan` is the function it computes, one token at a time from the left.
 */
module Lexer {
  import opened Text

  datatype Token =
    | EOF
    | Ident(text: string)
    | Str(text: string)
    | Num(text: string)
    | Dur(text: string)
    | Op(text: string)
    | LParen | RParen | Comma | Star | Dot | Minus | Plus

  predicate IsSpace(c: char) { c == ' ' || c == '\t' || c == '\n' || c == '\r' }

  predicate IsOpChar(c: char) { c == '=' || c == '!' || c == '<' || c == '>' }

  predicate IsUnit(c: char) { c == 's' || c == 'm' || c == 'h' || c == 'd' }

  // ---------------------------------------------------------------- specification

  /** Text between an opening quote and its closing quote, and the characters consumed
      including the closing quote. A backslash takes the next character literally. */
  function StringBody(r: string, quote: char): Option<(string, nat)> {
    if r == "" then None
    else if r[0] == '\\' && |r| > 1 then
      match StringBody(r[2..], quote)
      case None => None
      case Some((s, n)) => Some(([r[1]] + s, n + 2))
    else if r[0] == quote then Some(("", 1))
    else
      match StringBody(r[1..], quote)
      case None => None
      case Some((s, n)) => Some(([r[0]] + s, n + 1))
  }

  function LexOp(r: string): Option<string>
    requires r != ""
  {
    if |r| >= 2 && r[1] == '=' && IsOpChar(r[0]) then Some(r[..2])
    else if r[0] == '=' || r[0] == '<' || r[0] == '>' then Some(r[..1])
    else None
  }

  /** Digits, then a unit letter if no identifier character follows it. */
  function NumberToken(r: string): (Token, nat) {
    var j := DigitsLen(r);
    if j < |r| && IsUnit(r[j]) && (j + 1 >= |r| || !IsIdentPart(r[j + 1]))
    then (Dur(r[..j + 1]), j + 1)
    else (Num(r[..j]), j)
  }

  datatype Step = Skip | Emit(tok: Token, len: nat) | Bad

  /** What one round of the tokeniser's switch does at the head of `r`. */
  function StepAt(r: string): (s: Step)
    requires r != ""
    ensures s.Emit? ==> 0 < s.len
  {
    var c := r[0];
    if IsSpace(c) then Skip
    else if c == '(' then Emit(LParen, 1)
    else if c == ')' then Emit(RParen, 1)
    else if c == ',' then Emit(Comma, 1)
    else if c == '*' then Emit(Star, 1)
    else if c == '.' then Emit(Dot, 1)
    else if c == '-' then Emit(Minus, 1)
    else if c == '+' then Emit(Plus, 1)
    else if c == '\'' || c == '"' then
      match StringBody(r[1..], c)
      case None => Bad
      case Some((s, n)) => Emit(Str(s), n + 1)
    else if IsOpChar(c) then
      match LexOp(r)
      case None => Bad
      case Some(op) => Emit(Op(op), |op|)
    else if IsDigit(c) then
      var (t, n) := NumberToken(r);
      Emit(t, n)
    else if IsIdentStart(c) then Emit(Ident(r[..IdentLen(r)]), IdentLen(r))
    else Bad
  }

  lemma {:induction false} StringBodyLen(r: string, quote: char)
    ensures StringBody(r, quote).Some? ==> StringBody(r, quote).value.1 <= |r|
  {
    if r == "" {
    } else if r[0] == '\\' && |r| > 1 {
      StringBodyLen(r[2..], quote);
    } else if r[0] != quote {
      StringBodyLen(r[1..], quote);
    }
  }

  lemma StepLen(r: string)
    requires r != "" && StepAt(r).Emit?
    ensures StepAt(r).len <= |r|
  {
    if r[0] == '\'' || r[0] == '"' {
      StringBodyLen(r[1..], r[0]);
    }
  }

  /** The tokens of a text, without the end marker; None when the text is refused. */
  function Scan(r: string): Option<seq<Token>>
    decreases |r|
  {
    if r == "" then Some([])
    else match StepAt(r)
      case Skip => Scan(r[1..])
      case Emit(t, n) => StepLen(r); Prepend([t], Scan(r[n..]))
      case Bad => None
  }

  function LexSpec(input: string): Result<seq<Token>> {
    match Scan(input)
    case None => Err
    case Some(ts) => Ok(ts + [EOF])
  }

  // ---------------------------------------------------------------- the loops of the source

  method LexString(r: string, quote: char) returns (res: Option<(string, nat)>)
    requires r != ""
    ensures res == match StringBody(r[1..], quote)
                   case None => None
                   case Some((s, n)) => Some((s, n + 1))
  {
    var b: string := "";
    var i := 1;
    assert StringBody(r[1..], quote).Some? ==> b + StringBody(r[1..], quote).value.0 == StringBody(r[1..], quote).value.0;
    while i < |r|
      invariant 1 <= i <= |r|
      invariant StringBody(r[1..], quote) ==
                match StringBody(r[i..], quote)
                case None => None
                case Some((s, n)) => Some((b + s, n + i - 1))
    {
      var c := r[i];
      if c == '\\' && i + 1 < |r| {
        assert r[i..][2..] == r[i + 2..];
        AppendAssoc(b, r[i + 1], StringBody(r[i + 2..], quote));
        b := b + [r[i + 1]];
        i := i + 2;
      } else {
        if c == quote {
          assert StringBody(r[i..], quote) == Some(("", 1));
          assert b + "" == b;
          return Some((b, i + 1));
        }
        assert r[i..][1..] == r[i + 1..];
        AppendAssoc(b, c, StringBody(r[i + 1..], quote));
        b := b + [c];
        i := i + 1;
      }
    }
    return None;
  }

  lemma AppendAssoc(b: string, c: char, o: Option<(string, nat)>)
    ensures o.Some? ==> b + ([c] + o.value.0) == b + [c] + o.value.0
  {}

  method LexNumber(r: string) returns (tok: Token, n: nat)
    requires r != "" && IsDigit(r[0])
    ensures (tok, n) == NumberToken(r)
  {
    var j := 0;
    while j < |r| && IsDigit(r[j])
      invariant 0 <= j <= |r|
      invariant DigitsLen(r) == j + DigitsLen(r[j..])
    {
      assert r[j..][1..] == r[j + 1..];
      j := j + 1;
    }
    if j < |r| {
      var u := r[j];
      if u == 's' || u == 'm' || u == 'h' || u == 'd' {
        if j + 1 >= |r| || !IsIdentPart(r[j + 1]) {
          return Dur(r[..j + 1]), j + 1;
        }
      }
    }
    return Num(r[..j]), j;
  }

  /** One round of the switch in the loop of `Lex`. */
  method LexOne(r: string) returns (s: Step)
    requires r != ""
    ensures s == StepAt(r)
  {
    var c := r[0];
    if IsSpace(c) {
      return Skip;
    } else if c == '(' {
      return Emit(LParen, 1);
    } else if c == ')' {
      return Emit(RParen, 1);
    } else if c == ',' {
      return Emit(Comma, 1);
    } else if c == '*' {
      return Emit(Star, 1);
    } else if c == '.' {
      return Emit(Dot, 1);
    } else if c == '-' {
      return Emit(Minus, 1);
    } else if c == '+' {
      return Emit(Plus, 1);
    } else if c == '\'' || c == '"' {
      var lit := LexString(r, c);
      return if lit.None? then Bad else Emit(Str(lit.value.0), lit.value.1);
    } else if IsOpChar(c) {
      var op := LexOp(r);
      return if op.None? then Bad else Emit(Op(op.value), |op.value|);
    } else if IsDigit(c) {
      var tok, n := LexNumber(r);
      return Emit(tok, n);
    } else if IsIdentStart(c) {
      var n := LexWord(r);
      return Emit(Ident(r[..n]), n);
    }
    return Bad;
  }

  /** What is left to do at index `i` of the loop of `Lex`, given the tokens so far. */
  ghost predicate Pending(input: string, toks: seq<Token>, i: nat) {
    i <= |input| && Scan(input) == Prepend(toks, Scan(input[i..]))
  }

  lemma PendingSkip(input: string, toks: seq<Token>, i: nat)
    requires Pending(input, toks, i) && i < |input| && StepAt(input[i..]) == Skip
    ensures Pending(input, toks, i + 1)
  {
    assert input[i..][1..] == input[i + 1..];
  }

  lemma PendingEmit(input: string, toks: seq<Token>, i: nat, tok: Token, n: nat)
    requires Pending(input, toks, i) && i < |input| && StepAt(input[i..]) == Emit(tok, n)
    ensures Pending(input, toks + [tok], i + n)
  {
    var r := input[i..];
    StepLen(r);
    assert r[n..] == input[i + n..];
    PrependCat(toks, [tok], Scan(r[n..]));
  }

  lemma PendingStart(input: string)
    ensures Pending(input, [], 0)
  {
    PrependNothing(Scan(input));
    assert input[0..] == input;
  }

  lemma PendingEnd(input: string, toks: seq<Token>)
    requires Pending(input, toks, |input|)
    ensures Scan(input) == Some(toks)
  {
    assert toks + [] == toks;
  }

  /** The body of the loop of `Lex`: None when the text is refused. */
  method LexRound(input: string, toks: seq<Token>, i: nat) returns (next: Option<(seq<Token>, nat)>)
    requires Pending(input, toks, i) && i < |input|
    ensures next.None? ==> Scan(input) == None
    ensures next.Some? ==> i < next.value.1 && Pending(input, next.value.0, next.value.1)
  {
    var s := LexOne(input[i..]);
    match s
    case Skip =>
      PendingSkip(input, toks, i);
      return Some((toks, i + 1));
    case Bad =>
      return None;
    case Emit(tok, n) =>
      PendingEmit(input, toks, i, tok, n);
      return Some((toks + [tok], i + n));
  }

  method Lex(input: string) returns (res: Result<seq<Token>>)
    ensures res == LexSpec(input)
  {
    var toks: seq<Token> := [];
    var i := 0;
    PendingStart(input);
    while i < |input|
      invariant Pending(input, toks, i)
    {
      var next := LexRound(input, toks, i);
      if next.None? {
        return Err;
      }
      toks, i := next.value.0, next.value.1;
    }
    PendingEnd(input, toks);
    return Ok(toks + [EOF]);
  }

  /** The inner scan to the end of an identifier. */
  method LexWord(r: string) returns (j: nat)
    requires r != "" && IsIdentStart(r[0])
    ensures j == IdentLen(r)
  {
    j := 1;
    while j < |r| && IsIdentPart(r[j])
      invariant 1 <= j <= |r|
      invariant IdentLen(r) == j + IdentLen(r[j..])
    {
      assert r[j..][1..] == r[j + 1..];
      j := j + 1;
    }
  }

  // ---------------------------------------------------------------- what tokens can be

  const COMPARISONS := {"=", "!=", "<", ">", "<=", ">="}

  predicate IsOp(op: string) { op in COMPARISONS || op == "==" }

  /** Duration text: digits and one unit letter. */
  predicate IsDuration(d: string) {
    |d| >= 2 && AllDigits(d[..|d| - 1]) && IsUnit(d[|d| - 1])
  }

  predicate WfToken(t: Token) {
    match t
    case Ident(s) => IsIdent(s)
    case Num(s) => s != "" && AllDigits(s)
    case Dur(s) => IsDuration(s)
    case Op(s) => IsOp(s)
    case EOF => false
    case _ => true
  }

  lemma StepWf(r: string)
    requires r != "" && StepAt(r).Emit?
    ensures WfToken(StepAt(r).tok)
  {
    var c := r[0];
    if IsSpace(c) || c in "(),*.-+\'\"" {
    } else if IsOpChar(c) {
      if |r| >= 2 && r[1] == '=' {
        assert r[..2] == [r[0], '='];
        assert r[..2] in ["==", "!=", "<=", ">="];
      } else {
        assert r[..1] == [r[0]];
        assert r[..1] in ["=", "<", ">"];
      }
    } else if IsDigit(c) {
      var j := DigitsLen(r);
      assert j > 0;
      if j < |r| && IsUnit(r[j]) {
        assert r[..j + 1][..j] == r[..j];
      }
    }
  }

  /** Whatever the text, every token carries what its kind promises. */
  lemma {:induction false} ScanWf(r: string)
    ensures Scan(r).Some? ==> forall t :: t in Scan(r).value ==> WfToken(t)
    decreases |r|
  {
    if r != "" {
      match StepAt(r)
      case Skip => ScanWf(r[1..]);
      case Emit(t, n) =>
        StepLen(r);
        StepWf(r);
        ScanWf(r[n..]);
      case Bad =>
    }
  }

  // ---------------------------------------------------------------- token texts

  /** The text of a token; strings are written single-quoted. */
  function TokenText(t: Token): string {
    match t
    case EOF => ""
    case Ident(s) => s
    case Str(s) => Quote(s)
    case Num(s) => s
    case Dur(s) => s
    case Op(s) => s
    case LParen => "("
    case RParen => ")"
    case Comma => ","
    case Star => "*"
    case Dot => "."
    case Minus => "-"
    case Plus => "+"
  }

  /** Reading a quoted literal gives the original characters back, whatever follows. */
  lemma {:induction false} StringBodyEscape(s: string, rest: string)
    ensures StringBody(Escape(s) + "'" + rest, '\'') == Some((s, |Escape(s)| + 1))
  {
    var t := Escape(s) + "'" + rest;
    if s == "" {
      assert t == "'" + rest;
    } else {
      StringBodyEscape(s[1..], rest);
      var u := Escape(s[1..]) + "'" + rest;
      if s[0] == '\\' || s[0] == '\'' {
        assert t == ['\\', s[0]] + u;
        assert t[2..] == u;
        assert [s[0]] + s[1..] == s;
      } else {
        assert t == [s[0]] + u;
        assert t[1..] == u;
        assert [s[0]] + s[1..] == s;
      }
    }
  }

  /** A word, number or operator is read back up to the next boundary character. */
  lemma TokenOpen(t: Token)
    requires WfToken(t)
    ensures Open(Scan, TokenText(t), [t])
  {
    var a := TokenText(t);
    forall rest: string | Safe(rest) ensures Scan(a + rest) == Prepend([t], Scan(rest)) {
      TokenHead(t, rest);
      var r := a + rest;
      assert r[|a|..] == rest;
    }
  }

  lemma TokenHead(t: Token, rest: string)
    requires WfToken(t) && Safe(rest)
    ensures TokenText(t) + rest != ""
    ensures StepAt(TokenText(t) + rest) == Emit(t, |TokenText(t)|)
  {
    var a := TokenText(t);
    var r := a + rest;
    match t
    case Ident(s) =>
      IdentSpan(s, rest);
      assert r[..|s|] == s;
    case Str(s) =>
      StrHead(s, rest);
    case Num(s) =>
      NumberHead(s, rest);
    case Dur(s) =>
      DurationHead(s, rest);
    case Op(s) =>
      OpHead(s, rest);
    case EOF =>
    case _ =>
      assert r[0] == a[0];
  }

  lemma StrHead(s: string, rest: string)
    ensures StepAt(Quote(s) + rest) == Emit(Str(s), |Quote(s)|)
  {
    QuoteEscapes(s);
    var r := Quote(s) + rest;
    assert r == "'" + Escape(s) + "'" + rest;
    assert r[1..] == Escape(s) + "'" + rest;
    StringBodyEscape(s, rest);
  }

  lemma NumberHead(s: string, rest: string)
    requires s != "" && AllDigits(s) && Safe(rest)
    ensures StepAt(s + rest) == Emit(Num(s), |s|)
  {
    var r := s + rest;
    DigitsSpan(s, rest);
    assert r[..|s|] == s;
    assert IsDigit(r[0]);
    assert NumberToken(r) == (Num(s), |s|);
  }

  lemma DurationHead(s: string, rest: string)
    requires IsDuration(s) && Safe(rest)
    ensures StepAt(s + rest) == Emit(Dur(s), |s|)
  {
    var j := |s| - 1;
    var r := s + rest;
    var u := [s[j]] + rest;
    assert r == s[..j] + u;
    DigitsSpan(s[..j], u);
    assert r[..|s|] == s;
    assert IsDigit(s[..j][0]);
    assert IsDigit(r[0]);
    assert NumberToken(r) == (Dur(s), |s|);
  }

  lemma OpHead(s: string, rest: string)
    requires IsOp(s) && Safe(rest)
    ensures s + rest != "" && IsOpChar((s + rest)[0])
    ensures LexOp(s + rest) == Some(s)
  {
    var r := s + rest;
    if |s| == 2 {
      assert r[..2] == s;
    } else {
      assert |s| == 1;
      assert r[..1] == s;
      assert |r| >= 2 ==> r[1] == rest[0];
    }
  }

  /** Punctuation needs no boundary after it. */
  lemma PunctClosed(t: Token)
    requires t in {LParen, RParen, Comma, Star, Dot, Minus, Plus}
    ensures Closed(Scan, TokenText(t), [t])
  {
    var a := TokenText(t);
    forall rest: string ensures Scan(a + rest) == Prepend([t], Scan(rest)) {
      var r := a + rest;
      assert r[0] == a[0];
      assert r[1..] == rest;
    }
  }

  lemma SpaceClosed()
    ensures Closed(Scan, " ", [])
  {
    forall rest: string ensures Scan(" " + rest) == Prepend([], Scan(rest)) {
      assert (" " + rest)[1..] == rest;
      PrependNothing(Scan(rest));
    }
  }

  /** Tokens written out with single spaces between them. */
  function Spaced(ts: seq<Token>): string {
    if ts == [] then "" else TokenText(ts[0]) + " " + Spaced(ts[1..])
  }

  /** The tokeniser undoes printing, for every list of well-formed tokens. */
  lemma {:induction false} ScanSpaced(ts: seq<Token>)
    requires forall t :: t in ts ==> WfToken(t)
    ensures Scan(Spaced(ts)) == Some(ts)
  {
    if ts != [] {
      var rest := Spaced(ts[1..]);
      ScanSpaced(ts[1..]);
      TokenOpen(ts[0]);
      SpaceClosed();
      OpenClosed(Scan, TokenText(ts[0]), [ts[0]], " ", []);
      assert Scan(TokenText(ts[0]) + " " + rest) == Prepend([ts[0]] + [], Scan(rest));
      assert [ts[0]] + [] + ts[1..] == ts;
    }
  }
}
