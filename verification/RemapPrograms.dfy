/** Statements and whole programs. */
module RemapPrograms {
  import opened Text
  import opened RemapSyntax
  import opened RemapPrinting
  import opened RemapRoundTrip

  function OpText(op: Op): string {
    match op
    case Eq => "=="
    case Ne => "!="
    case Lt => "<"
    case Gt => ">"
  }

  /** The condition's text, with the text of the statement it guards behind it. */
  function CondText(c: Cond, tail: string): string {
    match c
    case Compare(op, p, e) => PathText(p) + " " + (OpText(op) + " " + (ExprText(e) + " " + tail))
    case Exists(p) => PathText(p) + " " + ("exists" + " " + tail)
    case Absent(p) => PathText(p) + " " + ("absent" + " " + tail)
  }

  function StmtText(st: Stmt): string {
    match st
    case Set(p, e) => "set" + " " + (PathText(p) + " = " + ExprText(e))
    case Del(p) => "del" + " " + PathText(p)
    case Redact(p) => "redact" + " " + PathText(p)
    case Rename(a, b) => "rename" + " " + (PathText(a) + " " + PathText(b))
    case If(c, body) => "if" + " " + CondText(c, StmtText(body))
    case Route(t) => "route" + " " + ("\"" + t + "\"")
  }

  /** A condition's value is a string literal or has no white space: the condition grammar cuts
      any other value at its first blank. */
  predicate CanonicalCond(c: Cond) {
    && PlainPath(c.path)
    && (c.Compare? ==> Canonical(c.e) && (c.e.Str? || NoSpace(ExprText(c.e))))
  }

  predicate TableText(t: string) { forall i :: 0 <= i < |t| ==> t[i] != '"' && t[i] != '\\' && t[i] != '\n' }

  predicate CanonicalStmt(st: Stmt) {
    match st
    case Set(p, e) => PlainPath(p) && Canonical(e)
    case Del(p) => PlainPath(p)
    case Redact(p) => PlainPath(p)
    case Rename(a, b) => PlainPath(a) && PlainPath(b)
    case If(c, body) => CanonicalCond(c) && CanonicalStmt(body)
    case Route(t) => TableText(t)
  }

  // ---------------------------------------------------------------- leaf statements

  lemma EqualsAt(pt: string, et: string)
    requires forall i :: 0 <= i < |pt| ==> pt[i] != '='
    ensures IndexWhere(pt + " = " + et, IsEquals) == |pt| + 1
    ensures (pt + " = " + et)[..|pt| + 1] == pt + " " && (pt + " = " + et)[|pt| + 2..] == " " + et
  {
    var s := pt + " = " + et;
    assert s[|pt| + 1] == '=' && s[|pt|] == ' ';
    assert forall k :: 0 <= k < |pt| ==> s[k] == pt[k];
    FoundAt(s, IsEquals, |pt| + 1);
  }

  lemma {:induction false} SetParse(rest: string, i: nat, left: string, right: string, p: seq<string>, e: Expr)
    requires i == IndexWhere(rest, IsEquals) < |rest| && Trim(rest[..i]) == left && Trim(rest[i + 1..]) == right
    requires ParsePath(left) == Value(p) && ParseExpr(right) == Value(e)
    ensures ParseSet(rest) == Value(Set(p, e))
  {}

  lemma {:induction false} PaddedPath(pt: string, p: seq<string>)
    requires Tight(pt) && ParsePath(pt) == Value(p)
    ensures ParsePath(Trim(pt + " ")) == Value(p) && ParsePath(Trim(pt)) == Value(p)
  {
    TrimPadded(pt);
  }

  lemma SidesOfEquals(pt: string, et: string)
    requires Tight(pt) && Tight(et) && forall i :: 0 <= i < |pt| ==> pt[i] != '='
    ensures var rest, i := pt + " = " + et, |pt| + 1;
            i == IndexWhere(rest, IsEquals) < |rest| && Trim(rest[..i]) == pt && Trim(rest[i + 1..]) == et
  {
    EqualsAt(pt, et);
    TrimPadded(pt);
    TrimPadded(et);
  }

  lemma SetBack(pt: string, et: string, p: seq<string>, e: Expr)
    requires Tight(pt) && (forall i :: 0 <= i < |pt| ==> pt[i] != '=') && ParsePath(pt) == Value(p)
    requires Tight(et) && ParseExpr(et) == Value(e)
    ensures ParseSet(pt + " = " + et) == Value(Set(p, e))
  {
    SidesOfEquals(pt, et);
    SetParse(pt + " = " + et, |pt| + 1, pt, et, p, e);
  }

  lemma {:induction false} RenameParse(s: string, i: nat, left: string, right: string, a: seq<string>, b: seq<string>)
    requires Trim(s) == s && i == IndexWhere(s, IsSpace) < |s| && s[..i] == left && s[i + 1..] == right
    requires ParsePath(Trim(left)) == Value(a) && ParsePath(Trim(right)) == Value(b)
    ensures ParseRename(s) == Value(Rename(a, b))
  {}

  lemma RenameBack(at: string, bt: string, a: seq<string>, b: seq<string>)
    requires Tight(at) && NoSpace(at) && ParsePath(at) == Value(a)
    requires Tight(bt) && ParsePath(bt) == Value(b)
    ensures ParseRename(at + " " + bt) == Value(Rename(a, b))
  {
    var s := at + " " + bt;
    SpaceAt(at, bt);
    TrimPadded(s);
    PaddedPath(at, a);
    PaddedPath(bt, b);
    assert s[..|at|] == at && s[|at| + 1..] == bt;
    RenameParse(s, |at|, at, bt, a, b);
  }

  lemma RouteBack(t: string)
    ensures ParseRoute("\"" + t + "\"") == Value(Route(t))
  {
    var s := "\"" + t + "\"";
    TrimPadded(s);
    assert s[1..|s| - 1] == t;
  }

  lemma LeafStmt(word: string, kw: Keyword, tail: string, st: Stmt)
    requires NoSpace(word) && KeywordOf(word) == kw != IfWord
    requires tail != "" && !IsSpace(tail[0]) && ParseLeaf(kw, tail) == Value(st)
    ensures ParseStmt(word + " " + tail) == Value(st)
  {
    FirstWord(word, tail);
  }

  lemma PlainPathText(p: seq<string>)
    requires PlainPath(p)
    ensures Tight(PathText(p)) && NoSpace(PathText(p)) && ParsePath(PathText(p)) == Value(p)
    ensures Trim(PathText(p)) == PathText(p)
    ensures forall i :: 0 <= i < |PathText(p)| ==> PathText(p)[i] != '='
  {
    PathBack(p);
    PathTextChars(p);
    TrimPadded(PathText(p));
  }

  lemma SetWordIs()
    ensures NoSpace("set") && KeywordOf("set") == SetWord
  {}

  lemma DelWordIs()
    ensures NoSpace("del") && KeywordOf("del") == DelWord
  {
    assert "del"[0] == 'd' && "set"[0] == 's';
  }

  lemma RedactWordIs()
    ensures NoSpace("redact") && KeywordOf("redact") == RedactWord
  {
    assert |"redact"| == 6 && |"set"| == 3 && |"del"| == 3;
  }

  lemma RenameWordIs()
    ensures NoSpace("rename") && KeywordOf("rename") == RenameWord
  {
    assert |"rename"| == 6 && |"set"| == 3 && |"del"| == 3 && "redact"[2] == 'd' && "rename"[2] == 'n';
  }

  lemma RouteWordIs()
    ensures NoSpace("route") && KeywordOf("route") == RouteWord
  {
    assert |"route"| == 5 && |"set"| == 3 && |"del"| == 3 && |"redact"| == 6 && |"rename"| == 6 && |"if"| == 2;
  }

  lemma IfWordIs()
    ensures NoSpace("if") && KeywordOf("if") == IfWord
  {
    assert |"if"| == 2 && |"set"| == 3 && |"del"| == 3 && |"redact"| == 6 && |"rename"| == 6;
  }

  lemma SetStmtBack(word: string, p: seq<string>, e: Expr)
    requires NoSpace(word) && KeywordOf(word) == SetWord && PlainPath(p) && Canonical(e)
    ensures ParseStmt(word + " " + (PathText(p) + " = " + ExprText(e))) == Value(Set(p, e))
  {
    PlainPathText(p);
    ExprTight(e);
    ExprRoundTrip(e);
    SetBack(PathText(p), ExprText(e), p, e);
    LeafStmt(word, SetWord, PathText(p) + " = " + ExprText(e), Set(p, e));
  }

  lemma PathStmtBack(word: string, kw: Keyword, p: seq<string>)
    requires NoSpace(word) && KeywordOf(word) == kw && (kw == DelWord || kw == RedactWord) && PlainPath(p)
    ensures ParseStmt(word + " " + PathText(p)) == Value(if kw == DelWord then Del(p) else Redact(p))
  {
    PlainPathText(p);
    LeafStmt(word, kw, PathText(p), if kw == DelWord then Del(p) else Redact(p));
  }

  lemma RenameStmtBack(word: string, a: seq<string>, b: seq<string>)
    requires NoSpace(word) && KeywordOf(word) == RenameWord && PlainPath(a) && PlainPath(b)
    ensures ParseStmt(word + " " + (PathText(a) + " " + PathText(b))) == Value(Rename(a, b))
  {
    PlainPathText(a);
    PlainPathText(b);
    RenameBack(PathText(a), PathText(b), a, b);
    LeafStmt(word, RenameWord, PathText(a) + " " + PathText(b), Rename(a, b));
  }

  lemma RouteStmtBack(word: string, t: string)
    requires NoSpace(word) && KeywordOf(word) == RouteWord
    ensures ParseStmt(word + " " + ("\"" + t + "\"")) == Value(Route(t))
  {
    RouteBack(t);
    LeafStmt(word, RouteWord, "\"" + t + "\"", Route(t));
  }

  lemma LeafBack(st: Stmt)
    requires CanonicalStmt(st) && !st.If?
    ensures ParseStmt(StmtText(st)) == Value(st)
  {
    match st {
      case Set(p, e) =>
        SetWordIs();
        SetStmtBack("set", p, e);
      case Del(p) =>
        DelWordIs();
        PathStmtBack("del", DelWord, p);
      case Redact(p) =>
        RedactWordIs();
        PathStmtBack("redact", RedactWord, p);
      case Rename(a, b) =>
        RenameWordIs();
        RenameStmtBack("rename", a, b);
      case Route(t) =>
        RouteWordIs();
        RouteStmtBack("route", t);
    }
  }

  // ---------------------------------------------------------------- conditions

  lemma LiteralEndStep(pre: string, c: char, rest: string)
    ensures LiteralEnd(pre + Escaped(c) + rest, |pre|) == LiteralEnd(pre + Escaped(c) + rest, |pre| + |Escaped(c)|)
  {
    var s := pre + Escaped(c) + rest;
    assert s[|pre|] == Escaped(c)[0];
  }

  /** The literal scan of a condition stops right behind the canonical literal. */
  lemma {:induction false} LiteralEndIs(pre: string, s: string, tail: string)
    ensures LiteralEnd(pre + EscapeAll(s) + ("\"" + tail), |pre|) == |pre| + |EscapeAll(s)| + 1
    decreases |s|
  {
    var t := pre + EscapeAll(s) + ("\"" + tail);
    if s == "" {
      assert t[|pre|] == '"';
    } else {
      var more := EscapeAll(s[1..]) + ("\"" + tail);
      assert t == pre + Escaped(s[0]) + more;
      LiteralEndStep(pre, s[0], more);
      LiteralEndIs(pre + Escaped(s[0]), s[1..], tail);
      assert t == pre + Escaped(s[0]) + EscapeAll(s[1..]) + ("\"" + tail);
    }
  }

  lemma ValueBack(e: Expr, tail: string)
    requires Canonical(e) && (e.Str? || NoSpace(ExprText(e))) && (tail == "" || !IsSpace(tail[0]))
    ensures CondValue(ExprText(e) + " " + tail) == Value((ExprText(e), tail))
  {
    var t := ExprText(e);
    var s := t + " " + tail;
    if e.Str? {
      LiteralEndIs("\"", e.s, " " + tail);
      assert s == "\"" + EscapeAll(e.s) + ("\"" + (" " + tail));
      assert s[..|t|] == t && s[|t|..] == " " + tail;
      assert (" " + tail)[1..] == tail;
      assert TrimStart(" " + tail) == TrimStart(tail) == tail;
    } else {
      ExprUnquoted(e);
      FirstWord(t, tail);
    }
  }

  lemma ExprUnquoted(e: Expr)
    requires Canonical(e) && !e.Str?
    ensures ExprText(e) != "" && ExprText(e)[0] != '"'
  {
    ExprTight(e);
    match e {
      case Num(n) => NumberTextChars(n.value.Floor);
      case Call(name, _) => assert IsIdentPart(name[0]);
      case _ =>
    }
  }

  lemma CompareBack(pt: string, op: Op, rest: string, p: seq<string>, e: Expr, et: string, tail: string)
    requires NoSpace(pt) && ParsePath(pt) == Value(p) && rest != "" && !IsSpace(rest[0])
    requires CondValue(rest) == Value((et, tail)) && ParseExpr(et) == Value(e)
    ensures ParseCond(pt + " " + (OpText(op) + " " + rest)) == Value((Compare(op, p, e), tail))
  {
    FirstWord(pt, OpText(op) + " " + rest);
    FirstWord(OpText(op), rest);
    OpBack(op);
  }

  lemma OpBack(op: Op)
    ensures ParseOp(OpText(op)) == Value(op)
    ensures OpText(op) != "exists" && OpText(op) != "absent"
  {
    assert |"exists"| == 6 && |"absent"| == 6;
  }

  lemma TestBack(pt: string, word: string, p: seq<string>, tail: string)
    requires NoSpace(pt) && ParsePath(pt) == Value(p) && (tail == "" || !IsSpace(tail[0]))
    requires word == "exists" || word == "absent"
    ensures ParseCond(pt + " " + (word + " " + tail)) == Value((if word == "exists" then Exists(p) else Absent(p), tail))
  {
    FirstWord(pt, word + " " + tail);
    FirstWord(word, tail);
  }

  lemma CondBack(c: Cond, tail: string)
    requires CanonicalCond(c) && Tight(tail)
    ensures ParseCond(CondText(c, tail)) == Value((c, tail))
  {
    PlainPathText(c.path);
    match c {
      case Compare(op, p, e) =>
        ValueBack(e, tail);
        ExprTight(e);
        ExprRoundTrip(e);
        CompareBack(PathText(p), op, ExprText(e) + " " + tail, p, e, ExprText(e), tail);
      case Exists(p) => TestBack(PathText(p), "exists", p, tail);
      case Absent(p) => TestBack(PathText(p), "absent", p, tail);
    }
  }

  lemma CondTight(c: Cond, tail: string)
    requires CanonicalCond(c) && Tight(tail)
    ensures Tight(CondText(c, tail))
  {
    PlainPathText(c.path);
  }

  lemma {:induction false} StmtTight(st: Stmt)
    requires CanonicalStmt(st)
    ensures Tight(StmtText(st))
  {
    match st {
      case Set(p, e) => ExprTight(e);
      case Del(p) => PlainPathText(p);
      case Redact(p) => PlainPathText(p);
      case Rename(a, b) => PlainPathText(b);
      case If(c, body) =>
        StmtTight(body);
        CondTight(c, StmtText(body));
      case Route(_) =>
    }
  }

  lemma IfBack(ct: string, c: Cond, tail: string, body: Stmt)
    requires Tight(ct) && ParseCond(ct) == Value((c, tail)) && Tight(tail) && |tail| <= |ct| && ParseStmt(tail) == Value(body)
    ensures ParseStmt("if" + " " + ct) == Value(If(c, body))
  {
    IfWordIs();
    FirstWord("if", ct);
    TrimPadded(ct);
    TrimPadded(tail);
  }

  /** The canonical text of a statement parses back to that statement. */
  lemma {:induction false} StmtRoundTrip(st: Stmt)
    requires CanonicalStmt(st)
    ensures ParseStmt(StmtText(st)) == Value(st)
  {
    if st.If? {
      var tail := StmtText(st.body);
      StmtRoundTrip(st.body);
      StmtTight(st.body);
      CondBack(st.cond, tail);
      CondTight(st.cond, tail);
      IfBack(CondText(st.cond, tail), st.cond, tail, st.body);
    } else {
      LeafBack(st);
    }
  }

  // ---------------------------------------------------------------- lines

  lemma WordKept(w: string, t: string)
    requires (forall i :: 0 <= i < |w| ==> w[i] != '"' && w[i] != '#') && Kept(t, false)
    ensures Kept(w + " " + t, false)
  {
    QuietKept(w);
    CharKept(' ');
    KeptCat(w, " ", false);
    KeptCat(w + " ", t, false);
  }

  lemma PathThen(p: seq<string>, t: string)
    requires PlainPath(p) && Kept(t, false)
    ensures Kept(PathText(p) + " " + t, false)
  {
    PathTextChars(p);
    WordKept(PathText(p), t);
  }

  lemma CondKept(c: Cond, tail: string)
    requires CanonicalCond(c) && Kept(tail, false)
    ensures Kept(CondText(c, tail), false)
  {
    match c {
      case Compare(op, p, e) =>
        ExprPasses(e);
        CharKept(' ');
        KeptCat(ExprText(e), " ", false);
        KeptCat(ExprText(e) + " ", tail, false);
        WordKept(OpText(op), ExprText(e) + " " + tail);
        PathThen(p, OpText(op) + " " + (ExprText(e) + " " + tail));
      case Exists(p) =>
        WordKept("exists", tail);
        PathThen(p, "exists" + " " + tail);
      case Absent(p) =>
        WordKept("absent", tail);
        PathThen(p, "absent" + " " + tail);
    }
  }

  lemma {:induction false} TableKept(t: string)
    requires TableText(t)
    ensures Kept(t, true)
  {
    if t == "" {
      EmptyPasses(0, true);
    } else {
      TableKept(t[1..]);
      forall rest: string ensures Strip([t[0]] + rest, true) == [t[0]] + Strip(rest, true) {
        assert ([t[0]] + rest)[1..] == rest;
      }
      KeptCat([t[0]], t[1..], true);
      assert t == [t[0]] + t[1..];
    }
  }

  lemma SetKept(p: seq<string>, e: Expr)
    requires PlainPath(p) && Canonical(e)
    ensures Kept("set" + " " + (PathText(p) + " = " + ExprText(e)), false)
  {
    ExprPasses(e);
    PathPasses(p);
    QuietKept(" = ");
    KeptCat(PathText(p), " = ", false);
    KeptCat(PathText(p) + " = ", ExprText(e), false);
    WordKept("set", PathText(p) + " = " + ExprText(e));
  }

  /** No part of a canonical statement is taken for a comment. */
  lemma {:induction false} StmtKept(st: Stmt)
    requires CanonicalStmt(st)
    ensures Kept(StmtText(st), false)
  {
    match st {
      case Set(p, e) => SetKept(p, e);
      case Del(p) =>
        PathPasses(p);
        WordKept("del", PathText(p));
      case Redact(p) =>
        PathPasses(p);
        WordKept("redact", PathText(p));
      case Rename(a, b) =>
        PathPasses(b);
        PathThen(a, PathText(b));
        WordKept("rename", PathText(a) + " " + PathText(b));
      case If(c, body) =>
        StmtKept(body);
        CondKept(c, StmtText(body));
        WordKept("if", CondText(c, StmtText(body)));
      case Route(t) =>
        TableKept(t);
        QuotesKept(t);
        WordKept("route", "\"" + t + "\"");
    }
  }

  lemma {:induction false} EscapeOneLine(s: string)
    ensures '\n' !in EscapeAll(s)
  {
    if s != "" {
      EscapeOneLine(s[1..]);
    }
  }

  lemma PathOneLine(p: seq<string>)
    requires PlainPath(p)
    ensures '\n' !in PathText(p)
  {
    PlainPathText(p);
  }

  lemma {:induction false} ExprOneLine(e: Expr)
    requires Canonical(e)
    ensures '\n' !in ExprText(e)
    decreases e
  {
    match e {
      case Str(s) => EscapeOneLine(s);
      case Num(n) => NumberTextChars(n.value.Floor);
      case Bool(_) =>
      case Path(p) => PathOneLine(p);
      case Call(name, args) =>
        ArgsOneLine(args);
        assert forall i :: 0 <= i < |name| ==> IsIdentPart(name[i]);
    }
  }

  lemma {:induction false} ArgsOneLine(args: seq<Expr>)
    requires forall i :: 0 <= i < |args| ==> Canonical(args[i])
    ensures '\n' !in ArgsText(args)
    decreases args
  {
    if args != [] {
      ExprOneLine(args[0]);
      ArgsOneLine(args[1..]);
    }
  }

  lemma CondOneLine(c: Cond, tail: string)
    requires CanonicalCond(c) && '\n' !in tail
    ensures '\n' !in CondText(c, tail)
  {
    PathOneLine(c.path);
    if c.Compare? {
      ExprOneLine(c.e);
    }
  }

  lemma LeafOneLine(st: Stmt)
    requires CanonicalStmt(st) && !st.If?
    ensures '\n' !in StmtText(st)
  {
    match st {
      case Set(p, e) =>
        PathOneLine(p);
        ExprOneLine(e);
      case Del(p) => PathOneLine(p);
      case Redact(p) => PathOneLine(p);
      case Rename(a, b) =>
        PathOneLine(a);
        PathOneLine(b);
      case Route(_) =>
    }
  }

  lemma {:induction false} StmtOneLine(st: Stmt)
    requires CanonicalStmt(st)
    ensures '\n' !in StmtText(st)
  {
    if st.If? {
      StmtOneLine(st.body);
      CondOneLine(st.cond, StmtText(st.body));
    } else {
      LeafOneLine(st);
    }
  }

  // ---------------------------------------------------------------- programs

  function StmtTexts(prog: seq<Stmt>): (r: seq<string>)
    ensures |r| == |prog| && forall i :: 0 <= i < |prog| ==> r[i] == StmtText(prog[i])
  {
    seq(|prog|, i requires 0 <= i < |prog| => StmtText(prog[i]))
  }

  function ProgramText(prog: seq<Stmt>): string { Join(StmtTexts(prog), "\n") }

  lemma LinesBack(texts: seq<string>)
    requires texts != [] && forall i :: 0 <= i < |texts| ==> '\n' !in texts[i] && Tight(texts[i])
    ensures Lines(Join(texts, "\n")) == texts
  {
    SplitOnJoin(texts, '\n');
    forall i | 0 <= i < |texts| ensures DropReturn(texts[i]) == texts[i] {
      assert IsSpace('\r');
    }
  }

  lemma {:induction false} LinesParse(parse: string -> Outcome<Stmt>, texts: seq<string>, prog: seq<Stmt>, n: nat)
    requires |texts| == |prog|
    requires forall i :: 0 <= i < |texts| ==>
      Trim(Strip(texts[i], false)) == texts[i] != "" && parse(texts[i]) == Value(prog[i])
    ensures ParseLines(parse, texts, n) ==
            if prog == [] || n + |prog| <= 200 then Value(prog) else Failed
    decreases |texts|
  {
    if prog != [] {
      LinesParse(parse, texts[1..], prog[1..], n + 1);
      assert [prog[0]] + prog[1..] == prog;
    }
  }

  lemma LineBack(st: Stmt)
    requires CanonicalStmt(st)
    ensures Trim(Strip(StmtText(st), false)) == StmtText(st) != ""
  {
    var t := StmtText(st);
    StmtTight(st);
    StmtKept(st);
    TrimPadded(t);
    assert t + "" == t && Strip("", false) == "";
    assert Strip(t + "", false) == t + "";
  }

  /** The canonical text of a program parses back to that program, up to the statement cap;
      a longer one is refused. */
  lemma ProgramRoundTrip(prog: seq<Stmt>)
    requires forall i :: 0 <= i < |prog| ==> CanonicalStmt(prog[i])
    ensures ParseProgram(ProgramText(prog)) == if |prog| <= 200 then Value(prog) else Failed
  {
    var texts := StmtTexts(prog);
    if prog == [] {
      assert Lines("") == [];
    } else {
      forall i | 0 <= i < |prog| ensures '\n' !in texts[i] && Tight(texts[i])
        ensures Trim(Strip(texts[i], false)) == texts[i] != "" && ParseStmt(texts[i]) == Value(prog[i])
      {
        StmtOneLine(prog[i]);
        StmtTight(prog[i]);
        StmtRoundTrip(prog[i]);
        LineBack(prog[i]);
      }
      LinesBack(texts);
      LinesParse(ParseStmt, texts, prog, 0);
    }
  }
}
