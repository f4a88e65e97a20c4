/** Which texts the SQL scanner turns into given tokens, wherever they stand. */
module SqlScanning {
  import opened Text
  import opened Sql

  /** Scanning a text whose first token is known. */
  lemma ScanHead(a: string, t: Tok, rest: string)
    requires a != "" && a[0] != ' ' && HeadTok(a + rest) == Some((t, |a|))
    ensures SqlScan(a + rest) == Prepend([t], SqlScan(rest))
  {
    var r := a + rest;
    assert r[0] == a[0] && r[|a|..] == rest;
  }

  lemma WordHead(w: string, rest: string)
    requires IsIdent(w) && Safe(rest)
    ensures HeadTok(w + rest) == Some((Word(w), |w|))
  {
    var r := w + rest;
    IdentSpan(w, rest);
    assert r[0] == w[0] && r[..|w|] == w;
  }

  lemma WordOpen(w: string)
    requires IsIdent(w)
    ensures Open(SqlScan, w, [Word(w)])
  {
    forall rest: string | Safe(rest) ensures SqlScan(w + rest) == Prepend([Word(w)], SqlScan(rest)) {
      WordHead(w, rest);
      ScanHead(w, Word(w), rest);
    }
  }

  lemma NumberHead(d: string, rest: string)
    requires d != "" && AllDigits(d) && Safe(rest)
    ensures HeadTok(d + rest) == Some((Number(d), |d|))
  {
    var r := d + rest;
    DigitsSpan(d, rest);
    assert r[0] == d[0] && IsDigit(d[0]) && r[..|d|] == d;
  }

  lemma NumberOpen(d: string)
    requires d != "" && AllDigits(d)
    ensures Open(SqlScan, d, [Number(d)])
  {
    forall rest: string | Safe(rest) ensures SqlScan(d + rest) == Prepend([Number(d)], SqlScan(rest)) {
      NumberHead(d, rest);
      assert IsDigit(d[0]);
      ScanHead(d, Number(d), rest);
    }
  }

  lemma OpOpen(op: string)
    requires op in OPERATORS
    ensures Open(SqlScan, op, [Cmp(op)])
  {
    forall rest: string | Safe(rest) ensures SqlScan(op + rest) == Prepend([Cmp(op)], SqlScan(rest)) {
      OpSpan(op, rest);
      assert (op + rest)[0] == op[0] && (op + rest)[..|op|] == op;
      ScanHead(op, Cmp(op), rest);
    }
  }

  lemma OpSpan(op: string, rest: string)
    requires op in OPERATORS && Safe(rest)
    ensures op + rest != "" && OpLen(op + rest) == |op|
    ensures var c := (op + rest)[0]; Punct(c).None? && c != '\'' && c != ' '
  {
    var r := op + rest;
    if |op| == 2 {
      assert r[1] == '=';
    } else {
      assert |op| == 1;
      assert |r| > 1 ==> r[1] == rest[0];
    }
  }

  /** No literal, whatever its characters, escapes its quotes. */
  lemma {:induction false} LitBodyEscape(s: string, rest: string)
    requires rest == "" || rest[0] != '\''
    ensures LitBody(Escape(s) + "'" + rest) == Some((s, |Escape(s)| + 1))
  {
    var t := Escape(s) + "'" + rest;
    if s == "" {
      assert t == "'" + rest;
      assert |t| > 1 ==> t[1] == rest[0];
    } else {
      LitBodyEscape(s[1..], rest);
      var u := Escape(s[1..]) + "'" + rest;
      assert [s[0]] + s[1..] == s;
      if s[0] == '\\' || s[0] == '\'' {
        assert t == ['\\', s[0]] + u;
        assert t[2..] == u;
      } else {
        assert t == [s[0]] + u;
        assert t[1..] == u;
      }
    }
  }

  lemma QuoteHead(s: string, rest: string)
    requires Safe(rest)
    ensures Quote(s)[0] == '\'' && HeadTok(Quote(s) + rest) == Some((Lit(s), |Quote(s)|))
  {
    QuoteEscapes(s);
    var r := Quote(s) + rest;
    assert r == "'" + Escape(s) + "'" + rest;
    assert r[1..] == Escape(s) + "'" + rest;
    LitBodyEscape(s, rest);
  }

  lemma QuoteOpen(s: string)
    ensures Open(SqlScan, Quote(s), [Lit(s)])
  {
    forall rest: string | Safe(rest) ensures SqlScan(Quote(s) + rest) == Prepend([Lit(s)], SqlScan(rest)) {
      QuoteHead(s, rest);
      ScanHead(Quote(s), Lit(s), rest);
    }
  }

  lemma PunctHead(c: char, rest: string)
    requires Punct(c).Some?
    ensures c != ' ' && HeadTok([c] + rest) == Some((Punct(c).value, 1))
  {
    assert ([c] + rest)[0] == c;
  }

  lemma PunctClosed(c: char)
    requires Punct(c).Some?
    ensures Closed(SqlScan, [c], [Punct(c).value])
  {
    var t := Punct(c).value;
    forall rest: string ensures SqlScan([c] + rest) == Prepend([t], SqlScan(rest)) {
      PunctHead(c, rest);
      ScanHead([c], t, rest);
    }
  }

  lemma SpaceClosed()
    ensures Closed(SqlScan, " ", [])
  {
    forall rest: string ensures SqlScan(" " + rest) == Prepend([], SqlScan(rest)) {
      assert (" " + rest)[1..] == rest;
      PrependNothing(SqlScan(rest));
    }
  }

  /** A fragment and a closing bracket or comma after it. */
  lemma OpenPunct(a: string, ta: seq<Tok>, c: char)
    requires Open(SqlScan, a, ta) && Punct(c).Some? && c in "()[],"
    ensures Closed(SqlScan, a + [c], ta + [Punct(c).value])
  {
    PunctClosed(c);
    OpenClosed(SqlScan, a, ta, [c], [Punct(c).value]);
  }

  lemma ClosedIsOpen(a: string, ta: seq<Tok>)
    requires Closed(SqlScan, a, ta)
    ensures Open(SqlScan, a, ta)
  {}

  lemma Spaced3(a: string, ta: seq<Tok>, b: string, tb: seq<Tok>, c: string, tc: seq<Tok>)
    requires Open(SqlScan, a, ta) && Open(SqlScan, b, tb) && Open(SqlScan, c, tc)
    ensures Open(SqlScan, a + " " + b + " " + c, ta + tb + tc)
  {
    SpaceClosed();
    OpenSpaced(SqlScan, a, ta, b, tb, c, tc);
  }

  lemma Parens(a: string, ta: seq<Tok>)
    requires Open(SqlScan, a, ta)
    ensures Open(SqlScan, "(" + a + ")", [LP] + ta + [RP])
  {
    PunctClosed('(');
    ClosedOpen(SqlScan, "(", [LP], a, ta);
    OpenPunct("(" + a, [LP] + ta, ')');
  }

  /** `a,b` */
  lemma TightCommaText(a: string, ta: seq<Tok>, b: string, tb: seq<Tok>)
    requires Open(SqlScan, a, ta) && Open(SqlScan, b, tb)
    ensures Open(SqlScan, a + "," + b, ta + [Comma] + tb)
  {
    OpenPunct(a, ta, ',');
    ClosedOpen(SqlScan, a + ",", ta + [Comma], b, tb);
  }

  /** `[a]` */
  lemma Brackets(a: string, ta: seq<Tok>)
    requires Open(SqlScan, a, ta)
    ensures Open(SqlScan, "[" + a + "]", [LB] + ta + [RB])
  {
    PunctClosed('[');
    ClosedOpen(SqlScan, "[", [LB], a, ta);
    OpenPunct("[" + a, [LB] + ta, ']');
  }

  lemma SubscriptHead(c: string, head: string)
    requires IsIdent(c) && head == c + "["
    ensures Closed(SqlScan, head, [Word(c)] + [LB])
  {
    WordOpen(c);
    OpenPunct(c, [Word(c)], '[');
  }

  lemma SubscriptRest(head: string, th: seq<Tok>, a: string, ta: seq<Tok>)
    requires Closed(SqlScan, head, th) && Open(SqlScan, a, ta)
    ensures Open(SqlScan, head + a + "]", th + ta + [RB])
  {
    ClosedOpen(SqlScan, head, th, a, ta);
    OpenPunct(head + a, th + ta, ']');
  }

  /** `c[a]`, given the text of `c[`. */
  lemma SubscriptText(c: string, head: string, a: string, ta: seq<Tok>)
    requires IsIdent(c) && head == c + "[" && Open(SqlScan, a, ta)
    ensures Open(SqlScan, head + a + "]", [Word(c)] + [LB] + ta + [RB])
  {
    SubscriptHead(c, head);
    SubscriptRest(head, [Word(c)] + [LB], a, ta);
  }

  lemma CommaSpaceClosed()
    ensures Closed(SqlScan, ", ", [Comma])
  {
    PunctClosed(',');
    SpaceClosed();
    ClosedCat(SqlScan, ",", [Comma], " ", []);
    assert "," + " " == ", " && [Comma] + [] == [Comma];
  }

  /** `a, b` */
  lemma CommaText(a: string, ta: seq<Tok>, b: string, tb: seq<Tok>)
    requires Open(SqlScan, a, ta) && Open(SqlScan, b, tb)
    ensures Open(SqlScan, a + ", " + b, ta + [Comma] + tb)
  {
    CommaSpaceClosed();
    OpenClosed(SqlScan, a, ta, ", ", [Comma]);
    ClosedOpen(SqlScan, a + ", ", ta + [Comma], b, tb);
  }

  /** `f(a, b)`, given the text of `f(`. */
  lemma CallText(f: string, head: string, a: string, ta: seq<Tok>, b: string, tb: seq<Tok>)
    requires IsIdent(f) && head == f + "(" && Open(SqlScan, a, ta) && Open(SqlScan, b, tb)
    ensures Open(SqlScan, head + a + ", " + b + ")", [Word(f), LP] + (ta + [Comma] + tb) + [RP])
  {
    WordOpen(f);
    OpenPunct(f, [Word(f)], '(');
    var open := [Word(f)] + [LP];
    ClosedOpen(SqlScan, head, open, a, ta);
    CommaText(head + a, open + ta, b, tb);
    OpenPunct(head + a + ", " + b, open + ta + [Comma] + tb, ')');
    assert open == [Word(f), LP];
    Regroup([Word(f), LP], ta, [Comma], tb, [RP]);
  }

  lemma Regroup<T>(a: seq<T>, b: seq<T>, c: seq<T>, d: seq<T>, e: seq<T>)
    ensures a + b + c + d + e == a + (b + c + d) + e == a + (b + c + d + e)
  {}
}
