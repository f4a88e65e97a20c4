/** Parsing undoes printing for expressions: words, paths, literals, numbers and nested calls. */
module RemapRoundTrip {
  import opened Text
  import opened RemapSyntax
  import opened RemapPrinting

  // ---------------------------------------------------------------- trimming and words

  /** No white space at either end. */
  predicate Tight(t: string) { t != "" && !IsSpace(t[0]) && !IsSpace(t[|t| - 1]) }

  lemma TrimPadded(t: string)
    requires Tight(t)
    ensures Trim(t) == t && Trim(t + " ") == t && Trim(" " + t) == t
  {
    assert (t + " ")[..|t|] == t && (" " + t)[1..] == t;
    assert (t + " ")[0] == t[0] && TrimStart(t + " ") == t + " ";
    assert TrimStart(" " + t) == t;
    assert TrimEnd(t + " ") == t;
  }

  predicate NoSpace(t: string) { forall i :: 0 <= i < |t| ==> !IsSpace(t[i]) }

  lemma SpaceAt(word: string, tail: string)
    requires NoSpace(word)
    ensures IndexWhere(word + " " + tail, IsSpace) == |word|
  {
    var s := word + " " + tail;
    assert s[|word|] == ' ';
    assert forall k :: 0 <= k < |word| ==> s[k] == word[k];
    FoundAt(s, IsSpace, |word|);
  }

  lemma FirstWord(word: string, tail: string)
    requires NoSpace(word) && (tail == "" || !IsSpace(tail[0]))
    ensures SplitFirstWord(word + " " + tail) == (word, tail)
  {
    var s := word + " " + tail;
    SpaceAt(word, tail);
    assert s[..|word|] == word && s[|word|..] == " " + tail;
    assert (" " + tail)[1..] == tail;
    assert TrimStart(" " + tail) == TrimStart(tail) == tail;
  }

  // ---------------------------------------------------------------- paths

  lemma PathBack(p: seq<string>)
    requires PlainPath(p)
    ensures ParsePath(PathText(p)) == Value(p)
    ensures Tight(PathText(p)) && NoSpace(PathText(p))
  {
    PathTextChars(p);
    forall i | 0 <= i < |p| ensures '.' !in p[i] && p[i] != "" {
      assert PlainSeg(p[i]);
    }
    SplitOnJoin(p, '.');
    assert PathText(p)[1..] == Join(p, ".");
    assert Join(p, ".") != "" by {
      assert PlainSeg(p[0]);
    }
  }

  lemma {:induction false} SplitOnPieces(s: string, c: char, i: nat)
    requires i < |SplitOn(s, c)|
    ensures c !in SplitOn(s, c)[i]
  {
    if s != "" {
      var r := SplitOn(s[1..], c);
      if s[0] == c {
        if i > 0 {
          SplitOnPieces(s[1..], c, i - 1);
        }
      } else if i == 0 {
        SplitOnPieces(s[1..], c, 0);
      } else {
        SplitOnPieces(s[1..], c, i);
        assert SplitOn(s, c)[i] == r[i];
      }
    }
  }

  /** Every path the parser accepts has a segment, and no empty one. */
  lemma ParsedPath(s: string)
    requires ParsePath(s).Value?
    ensures ParsePath(s).value != []
    ensures forall i :: 0 <= i < |ParsePath(s).value| ==> ParsePath(s).value[i] != "" && '.' !in ParsePath(s).value[i]
  {
    var p := ParsePath(s).value;
    forall i | 0 <= i < |p| ensures p[i] != "" && '.' !in p[i] {
      SplitOnPieces(s[1..], '.', i);
      assert p[i] in p;
    }
  }

  // ---------------------------------------------------------------- numbers

  lemma AllDigitsIndex(t: string)
    requires AllDigits(t)
    ensures IndexWhere(t, NotDigit) == |t|
  {
    FoundAt(t, NotDigit, |t|);
  }

  lemma DecimalMagnitude(n: nat)
    ensures Magnitude(Decimal(n)) == Some(n as real)
  {
    var t := Decimal(n);
    AllDigitsIndex(t);
    DecimalRoundTrip(n);
    assert t[..|t|] == t && t[|t|..] == "" && t + "" == t;
    assert Exponent("") == Some(0) && Pow10(0) == 1.0;
  }

  lemma NotAWord(t: string, word: string)
    requires t != "" && IsDigit(t[0]) && word != "" && 'a' <= word[0] <= 'z'
    ensures !EqualFold(t, word)
  {
    assert Lower(t)[0] == t[0] && Lower(word)[0] == word[0];
  }

  lemma SignedMagnitude(s: string, t: string, v: real)
    requires s != "" && Unsigned(s) == t != "" && IsDigit(t[0]) && Magnitude(t) == Some(v)
    ensures ParseFloat(s) == Some(Fin(if s[0] == '-' then -v else v))
  {
    NotAWord(t, "inf");
    NotAWord(t, "infinity");
    NotAWord(t, "nan");
  }

  lemma SignOf(n: int)
    ensures var s, t := SignedDecimal(n), Decimal(if n < 0 then -n else n);
            s != "" && Unsigned(s) == t && IsDigit(t[0]) && (s[0] == '-' <==> n < 0)
  {
    var t := Decimal(if n < 0 then -n else n);
    assert ("-" + t)[1..] == t;
    assert IsDigit(t[0]);
  }

  lemma NumberBack(n: int)
    ensures ParseFloat(SignedDecimal(n)) == Some(Fin(n as real))
  {
    var m: nat := if n < 0 then -n else n;
    var s, t := SignedDecimal(n), Decimal(m);
    SignOf(n);
    DecimalMagnitude(m);
    SignedFloat(n, m, s, t);
  }

  lemma SignedFloat(n: int, m: nat, s: string, t: string)
    requires m == (if n < 0 then -n else n) && s != "" && Unsigned(s) == t != "" && IsDigit(t[0])
    requires (s[0] == '-' <==> n < 0) && Magnitude(t) == Some(m as real)
    ensures ParseFloat(s) == Some(Fin(n as real))
  {
    SignedMagnitude(s, t, m as real);
  }

  // ---------------------------------------------------------------- expressions

  lemma {:induction false} ExprTight(e: Expr)
    requires Canonical(e)
    ensures Tight(ExprText(e))
  {
    match e {
      case Path(p) => PathBack(p);
      case Num(n) => NumberTextChars(n.value.Floor);
      case Call(name, args) =>
        assert ExprText(e)[0] == name[0] && IsIdentPart(name[0]);
      case _ =>
    }
  }

  lemma StrBack(s: string)
    ensures ParseExpr(Literal(s)) == Value(Str(s))
  {
    var t := Literal(s);
    TrimPadded(t);
    UnescapeInverts(s);
    assert t[1..|t| - 1] == EscapeAll(s);
  }

  lemma NoOpen(t: string)
    requires forall i :: 0 <= i < |t| ==> t[i] != '('
    ensures IndexWhere(t, IsOpen) == |t|
  {
    FoundAt(t, IsOpen, |t|);
  }

  lemma NumAtom(t: string, n: RemapSyntax.Num)
    requires NumberChars(t) && ParseFloat(t) == Some(n)
    ensures ParseAtom(t) == Value(Num(n))
  {
    assert t[0] == '-' || IsDigit(t[0]);
    assert "true"[0] == 't' && "false"[0] == 'f';
  }

  lemma AtomParse(t: string, e: Expr)
    requires Tight(t) && t[0] != '"' && ParseAtom(t) == Value(e)
    requires forall i :: 0 <= i < |t| ==> t[i] != '('
    ensures ParseExpr(t) == Value(e)
  {
    TrimPadded(t);
    NoOpen(t);
    assert !IsCall(t);
  }

  lemma NumBack(n: int)
    ensures ParseExpr(SignedDecimal(n)) == Value(Num(Fin(n as real)))
  {
    var t := SignedDecimal(n);
    NumberTextChars(n);
    NumberBack(n);
    NumAtom(t, Fin(n as real));
    AtomParse(t, Num(Fin(n as real)));
  }

  lemma BoolBack(b: bool)
    ensures ParseExpr(ExprText(Bool(b))) == Value(Bool(b))
  {
    AtomParse(ExprText(Bool(b)), Bool(b));
  }

  lemma PathExprBack(p: seq<string>)
    requires PlainPath(p)
    ensures ParseExpr(PathText(p)) == Value(Path(p))
  {
    var t := PathText(p);
    PathBack(p);
    PathTextChars(p);
    AtomParse(t, Path(p));
  }

  /** The splitter cuts at the first top-level comma. */
  lemma SplitAtTop(a: string, b: string)
    requires Taken(a, 0, false)
    ensures Split(a, "", 0, false) == [a]
    ensures Split(a + "," + b, "", 0, false) == [a] + Split(b, "", 0, false)
  {
    assert a + "" == a && "" + a == a;
    assert Split(a + "", "", 0, false) == Split("", a, 0, false);
    assert a + "," + b == a + ("," + b);
    assert Split(a + ("," + b), "", 0, false) == Split("," + b, a, 0, false);
    assert ("," + b)[1..] == b;
  }

  function Texts(args: seq<Expr>): seq<string> {
    if args == [] then [] else [ExprText(args[0])] + Texts(args[1..])
  }

  /** The splitter cuts an argument list exactly at its top-level commas. */
  lemma {:induction false} SplitArgsText(args: seq<Expr>)
    requires args != [] && forall i :: 0 <= i < |args| ==> Canonical(args[i])
    ensures Split(ArgsText(args), "", 0, false) == Texts(args)
  {
    ExprPasses(args[0]);
    if |args| == 1 {
      SplitAtTop(ExprText(args[0]), "");
      assert Texts(args[1..]) == [];
    } else {
      SplitArgsText(args[1..]);
      SplitAtTop(ExprText(args[0]), ArgsText(args[1..]));
    }
  }

  lemma CallHead(name: string, inner: string)
    requires IsName(name)
    ensures var s := name + "(" + inner + ")";
            && Trim(s) == s && s[0] != '"' && IsCall(s) && CallName(s) == name
            && CallArgs(s) == Split(inner, "", 0, false)
  {
    var s := name + "(" + inner + ")";
    assert s[|name|] == '(';
    assert forall k :: 0 <= k < |name| ==> s[k] == name[k] && IsIdentPart(name[k]);
    FoundAt(s, IsOpen, |name|);
    assert s[..|name|] == name && s[|name| + 1..|s| - 1] == inner;
    assert IsIdentPart(s[0]);
    TrimPadded(s);
  }

  lemma {:induction false} CallBack(name: string, inner: string, args: seq<Expr>)
    requires IsName(name)
    requires var n := |name| + |inner| + 2;
             && (forall p :: p in Split(inner, "", 0, false) ==> |p| < n)
             && ParseArgs(Split(inner, "", 0, false), n) == Value(args)
    ensures ParseExpr(name + "(" + inner + ")") == Value(Call(name, args))
  {
    var s := name + "(" + inner + ")";
    assert |s| == |name| + |inner| + 2;
    CallHead(name, inner);
    CallParse(s, args);
  }

  lemma {:induction false} CallParse(s: string, args: seq<Expr>)
    requires Trim(s) == s != "" && s[0] != '"' && IsCall(s) && ParseArgs(CallArgs(s), |s|) == Value(args)
    ensures ParseExpr(s) == Value(Call(CallName(s), args))
  {}

  /** The canonical text of an expression parses back to that expression. */
  lemma {:induction false} ExprRoundTrip(e: Expr)
    requires Canonical(e)
    ensures ParseExpr(ExprText(e)) == Value(e)
    decreases e
  {
    match e {
      case Str(s) => StrBack(s);
      case Num(n) => NumBack(n.value.Floor);
      case Bool(b) => BoolBack(b);
      case Path(p) => PathExprBack(p);
      case Call(name, args) =>
        var inner := ArgsText(args);
        var n := |name| + |inner| + 2;
        PiecesShort(inner);
        if args == [] {
          assert Split(inner, "", 0, false) == [""];
          assert Trim("") == "" && [""][1..] == [];
          assert ParseArgs([""], n) == ParseArgs([], n);
        } else {
          SplitArgsText(args);
          ArgsRoundTrip(args, n);
        }
        CallBack(name, inner, args);
    }
  }

  lemma {:induction false} ArgsRoundTrip(args: seq<Expr>, n: nat)
    requires forall i :: 0 <= i < |args| ==> Canonical(args[i])
    requires forall p :: p in Texts(args) ==> |p| < n
    ensures ParseArgs(Texts(args), n) == Value(args)
    decreases args
  {
    if args != [] {
      var a := args[0];
      ExprRoundTrip(a);
      ExprTight(a);
      TrimPadded(ExprText(a));
      assert Texts(args)[1..] == Texts(args[1..]);
      ArgsRoundTrip(args[1..], n);
      assert [a] + args[1..] == args;
    }
  }
}
