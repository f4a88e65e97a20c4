/** Where the parser does not report an error but panics. */
module RemapPanics {
  import opened Text
  import opened RemapSyntax
  import opened RemapPrinting
  import opened RemapRoundTrip
  import opened RemapPrograms

  /** A piece of a literal: an escape pair, or one character that is neither quote nor backslash. */
  predicate Unit(u: string) {
    (|u| == 2 && u[0] == '\\') || (|u| == 1 && u[0] != '\\' && u[0] != '"')
  }

  function Concat(us: seq<string>): string { if us == [] then "" else us[0] + Concat(us[1..]) }

  /** An unterminated literal cut off inside an escape. */
  ghost predicate Dangling(s: string) {
    exists us: seq<string> :: (forall i :: 0 <= i < |us| ==> Unit(us[i])) && s == "\"" + Concat(us) + "\\"
  }

  ghost predicate CutUnits(s: string, i: nat, us: seq<string>) {
    i <= |s| && (forall k :: 0 <= k < |us| ==> Unit(us[k])) && s[i..] == Concat(us) + "\\"
  }

  lemma {:induction false} ConcatUnit(u: string, us: seq<string>)
    ensures Concat([u] + us) == u + Concat(us)
  {
    assert ([u] + us)[1..] == us;
  }

  lemma {:induction false} Overrun(s: string, i: nat) returns (us: seq<string>)
    requires i <= |s| && LiteralEnd(s, i) > |s|
    ensures CutUnits(s, i, us)
    decreases |s| - i
  {
    if s[i] == '\\' {
      if i + 1 == |s| {
        us := [];
        assert s[i..] == "\\";
      } else {
        var more := Overrun(s, i + 2);
        us := [s[i..i + 2]] + more;
        ConcatUnit(s[i..i + 2], more);
        assert s[i..] == s[i..i + 2] + s[i + 2..];
      }
    } else {
      var more := Overrun(s, i + 1);
      us := [s[i..i + 1]] + more;
      ConcatUnit(s[i..i + 1], more);
      assert s[i..] == s[i..i + 1] + s[i + 1..];
    }
  }

  lemma {:induction false} CutOverruns(s: string, i: nat, us: seq<string>)
    requires CutUnits(s, i, us)
    ensures LiteralEnd(s, i) > |s|
    decreases |us|
  {
    if us == [] {
      assert s[i..] == "\\" && s[i] == s[i..][0];
    } else {
      var n := |us[0]|;
      assert s[i..] == us[0] + (Concat(us[1..]) + "\\");
      assert s[i..][n..] == Concat(us[1..]) + "\\" && s[i..][n..] == s[i + n..];
      assert s[i] == s[i..][0] == us[0][0];
      CutOverruns(s, i + n, us[1..]);
    }
  }

  /** Reading a condition's value panics iff the text is a literal cut off inside an escape. */
  lemma CondValuePanics(s: string)
    ensures CondValue(s) == Panicked <==> Dangling(s)
  {
    if CondValue(s) == Panicked {
      var us := Overrun(s, 1);
      assert s == "\"" + s[1..];
      assert s == "\"" + Concat(us) + "\\";
    }
    if Dangling(s) {
      var us: seq<string> :| (forall i :: 0 <= i < |us| ==> Unit(us[i])) && s == "\"" + Concat(us) + "\\";
      assert s[1..] == Concat(us) + "\\";
      CutOverruns(s, 1, us);
    }
  }

  lemma {:induction false} ExprNeverPanics(s: string)
    ensures !ParseExpr(s).Panicked?
    decreases |s|, 1, 0
  {
    var t := Trim(s);
    if t != "" && t[0] != '"' && IsCall(t) {
      ArgsNeverPanic(CallArgs(t), |t|);
    }
  }

  lemma {:induction false} ArgsNeverPanic(parts: seq<string>, n: nat)
    requires forall p :: p in parts ==> |p| < n
    ensures !ParseArgs(parts, n).Panicked?
    decreases n, 0, |parts|
  {
    if parts != [] {
      assert parts[0] in parts;
      ExprNeverPanics(parts[0]);
      ArgsNeverPanic(parts[1..], n);
    }
  }

  predicate EndsWith(s: string, c: char) { s != "" && s[|s| - 1] == c }

  lemma DanglingEnds(s: string)
    ensures Dangling(s) ==> EndsWith(s, '\\')
  {}

  lemma LeafNeverPanics(kw: Keyword, rest: string)
    ensures !ParseLeaf(kw, rest).Panicked?
  {
    if kw == SetWord {
      ExprNeverPanics(Trim(rest[if IndexWhere(rest, IsEquals) < |rest| then IndexWhere(rest, IsEquals) + 1 else 0..]));
    }
  }

  lemma LeafCase(line: string, word: string, rest: string)
    requires (word, rest) == SplitFirstWord(line) && KeywordOf(word) != IfWord
    ensures !ParseStmt(line).Panicked?
  {
    LeafNeverPanics(KeywordOf(word), rest);
  }

  lemma CondOnPanics(path: seq<string>, op: Op, s: string)
    requires CondValue(s) == Panicked
    ensures CondOn(path, OpText(op), s) == Panicked
  {
    OpBack(op);
  }

  lemma CondPanics(pt: string, p: seq<string>, op: Op, s: string)
    requires NoSpace(pt) && ParsePath(pt) == Value(p) && Dangling(s)
    ensures ParseCond(pt + " " + (OpText(op) + " " + s)) == Panicked
  {
    assert s != "" && s[0] == '"';
    FirstWord(pt, OpText(op) + " " + s);
    FirstWord(OpText(op), s);
    CondValuePanics(s);
    CondOnPanics(p, op, s);
  }

  lemma IfPanics(ct: string)
    requires Tight(ct) && ParseCond(ct) == Panicked
    ensures ParseStmt("if" + " " + ct) == Panicked
  {
    IfWordIs();
    FirstWord("if", ct);
    TrimPadded(ct);
  }

  /** Loading a program is not always an error or a program: every comparison whose value is
      such a literal panics. */
  lemma DanglingPanics(p: seq<string>, op: Op, s: string)
    requires PlainPath(p) && Dangling(s)
    ensures ParseStmt("if" + " " + (PathText(p) + " " + (OpText(op) + " " + s))) == Panicked
  {
    PlainPathText(p);
    CondPanics(PathText(p), p, op, s);
    DanglingEnds(s);
    IfPanics(PathText(p) + " " + (OpText(op) + " " + s));
  }

  // ---------------------------------------------------------------- statements, exactly

  /** `PATH OP s`: a path that parses, an operator that takes a value (known or not), and a value
      cut off inside an escape. */
  ghost predicate CutCondition(s: string) {
    var (path, afterPath) := SplitFirstWord(s);
    var (op, value) := SplitFirstWord(afterPath);
    ParsePath(path).Value? && op != "exists" && op != "absent" && Dangling(value)
  }

  /** Conditions that parse, one inside the other, and a cut one at the end. */
  ghost predicate CutChain(line: string)
    decreases |line|
  {
    var (word, rest) := SplitFirstWord(line);
    word == "if" && (
      || CutCondition(Trim(rest))
      || (ParseCond(Trim(rest)).Value? && CutChain(Trim(ParseCond(Trim(rest)).value.1))))
  }

  lemma ValueCondNeverPanics(path: seq<string>, op: string, e: Outcome<Expr>, body: string)
    requires !e.Panicked?
    ensures !ValueCond(path, op, e, body).Panicked?
  {}

  /** The value is read before the operator is looked at. */
  lemma CondOnPanicsExactly(path: seq<string>, op: string, s: string)
    ensures CondOn(path, op, s).Panicked? <==> op != "exists" && op != "absent" && CondValue(s).Panicked?
  {
    if CondValue(s).Value? {
      var v := CondValue(s).value;
      ExprNeverPanics(v.0);
      ValueCondNeverPanics(path, op, ParseExpr(v.0), v.1);
    }
  }

  lemma CondPanicsExactly(s: string)
    ensures ParseCond(s).Panicked? <==> CutCondition(s)
  {
    var (path, afterPath) := SplitFirstWord(s);
    var (op, value) := SplitFirstWord(afterPath);
    CondValuePanics(value);
    if ParsePath(path).Value? {
      CondOnPanicsExactly(ParsePath(path).value, op, value);
    }
  }

  lemma IfWordOnly(word: string)
    ensures KeywordOf(word) == IfWord <==> word == "if"
  {
    IfWordIs();
  }

  lemma IfPanicsExactly(line: string, word: string, rest: string, c: Outcome<(Cond, string)>)
    requires (word, rest) == SplitFirstWord(line) && KeywordOf(word) == IfWord && c == ParseCond(Trim(rest))
    ensures ParseStmt(line).Panicked? <==> c.Panicked? || (c.Value? && ParseStmt(Trim(c.value.1)).Panicked?)
  {}

  /** A statement makes the parser panic iff it is such a chain. */
  lemma {:induction false} StmtPanicsExactly(line: string)
    ensures ParseStmt(line).Panicked? <==> CutChain(line)
    decreases |line|
  {
    var (word, rest) := SplitFirstWord(line);
    IfWordOnly(word);
    if word != "if" {
      LeafCase(line, word, rest);
    } else {
      var c := ParseCond(Trim(rest));
      CondPanicsExactly(Trim(rest));
      IfPanicsExactly(line, word, rest, c);
      IfIsShorter(line, word, rest);
      if c.Value? {
        StmtPanicsExactly(Trim(c.value.1));
      }
    }
  }

  // ---------------------------------------------------------------- how such a line ends

  /** The text is empty or ends as s does. */
  predicate Tail(t: string, s: string) { t == "" || (s != "" && t[|t| - 1] == s[|s| - 1]) }

  lemma {:induction false} TrimStartTail(s: string)
    ensures Tail(TrimStart(s), s)
  {
    if s != "" && IsSpace(s[0]) {
      TrimStartTail(s[1..]);
    }
  }

  lemma FirstWordTail(s: string)
    ensures Tail(SplitFirstWord(s).1, s)
  {
    TrimStartTail(s[IndexWhere(s, IsSpace)..]);
  }

  lemma TrimTail(s: string)
    requires s == "" || !IsSpace(s[|s| - 1])
    ensures Tail(Trim(s), s)
  {
    TrimStartTail(s);
  }

  lemma CondValueTail(s: string)
    requires CondValue(s).Value?
    ensures Tail(CondValue(s).value.1, s)
  {
    if s != "" && s[0] == '"' {
      TrimStartTail(s[LiteralEnd(s, 1)..]);
    } else {
      FirstWordTail(s);
    }
  }

  lemma CondOnTail(path: seq<string>, op: string, s: string)
    ensures CondOn(path, op, s).Value? ==> Tail(CondOn(path, op, s).value.1, s)
  {
    if CondValue(s).Value? {
      CondValueTail(s);
    }
  }

  lemma CondTail(s: string)
    requires ParseCond(s).Value?
    ensures Tail(ParseCond(s).value.1, s)
  {
    var (path, afterPath) := SplitFirstWord(s);
    var (op, afterOp) := SplitFirstWord(afterPath);
    FirstWordTail(s);
    FirstWordTail(afterPath);
    CondOnTail(ParsePath(path).value, op, afterOp);
  }

  lemma CutConditionEnds(s: string)
    requires CutCondition(s)
    ensures EndsWith(s, '\\')
  {
    var (path, afterPath) := SplitFirstWord(s);
    FirstWordTail(s);
    FirstWordTail(afterPath);
    DanglingEnds(SplitFirstWord(afterPath).1);
  }

  predicate Trimmed(s: string) { s == "" || !IsSpace(s[|s| - 1]) }

  /** What stands behind the first word, and behind a condition there. */
  lemma ConditionTail(line: string)
    requires Trimmed(line)
    ensures var cond := Trim(SplitFirstWord(line).1);
            && Tail(cond, line)
            && (ParseCond(cond).Value? ==> Tail(Trim(ParseCond(cond).value.1), line))
  {
    var rest := SplitFirstWord(line).1;
    FirstWordTail(line);
    TrimTail(rest);
    if ParseCond(Trim(rest)).Value? {
      CondTail(Trim(rest));
      TrimTail(ParseCond(Trim(rest)).value.1);
    }
  }

  lemma ChainSplits(line: string, cond: string)
    requires CutChain(line) && cond == Trim(SplitFirstWord(line).1) && !CutCondition(cond)
    ensures ParseCond(cond).Value? && |Trim(ParseCond(cond).value.1)| < |line| && CutChain(Trim(ParseCond(cond).value.1))
  {
    IfWordOnly("if");
    IfIsShorter(line, "if", SplitFirstWord(line).1);
  }

  lemma {:induction false} ChainEnds(line: string)
    requires Trimmed(line) && CutChain(line)
    ensures EndsWith(line, '\\')
    decreases |line|
  {
    var cond := Trim(SplitFirstWord(line).1);
    ConditionTail(line);
    if CutCondition(cond) {
      CutConditionEnds(cond);
    } else {
      ChainSplits(line, cond);
      ChainEnds(Trim(ParseCond(cond).value.1));
    }
  }

  /** A trimmed line makes the parser panic only if it ends in a backslash. */
  lemma PanicNeedsBackslash(line: string)
    requires line == "" || !IsSpace(line[|line| - 1])
    requires ParseStmt(line).Panicked?
    ensures EndsWith(line, '\\')
  {
    StmtPanicsExactly(line);
    ChainEnds(line);
  }

  // ---------------------------------------------------------------- programs, exactly

  /** What is left of a line without comment and margins. */
  function Core(line: string): string { Trim(Strip(line, false)) }

  function Statements(lines: seq<string>): nat {
    if lines == [] then 0 else (if Core(lines[0]) == "" then 0 else 1) + Statements(lines[1..])
  }

  /** The lines before k are blank or parse, and leave room under the cap. */
  ghost predicate Reached(parse: string -> Outcome<Stmt>, lines: seq<string>, n: nat, k: nat)
    requires k <= |lines|
  {
    && n + Statements(lines[..k]) < MAX_STATEMENTS
    && forall j :: 0 <= j < k ==> Core(lines[j]) == "" || parse(Core(lines[j])).Value?
  }

  ghost predicate StopsAt(parse: string -> Outcome<Stmt>, lines: seq<string>, n: nat, k: nat) {
    k < |lines| && Core(lines[k]) != "" && parse(Core(lines[k])).Panicked? && Reached(parse, lines, n, k)
  }

  lemma StopsLater(parse: string -> Outcome<Stmt>, lines: seq<string>, n: nat, k: nat)
    requires lines != [] && (Core(lines[0]) == "" || parse(Core(lines[0])).Value?)
    ensures var n' := if Core(lines[0]) == "" then n else n + 1;
            StopsAt(parse, lines, n, k + 1) <==> StopsAt(parse, lines[1..], n', k)
  {
    if k + 1 < |lines| {
      var n' := if Core(lines[0]) == "" then n else n + 1;
      assert lines[..k + 1][1..] == lines[1..][..k];
      assert n + Statements(lines[..k + 1]) == n' + Statements(lines[1..][..k]);
      assert forall j :: 0 <= j < k ==> lines[1..][j] == lines[j + 1];
      assert forall j :: 1 <= j < k + 1 ==> lines[j] == lines[1..][j - 1];
    }
  }

  lemma {:induction false} LinesPanicExactly(parse: string -> Outcome<Stmt>, lines: seq<string>, n: nat)
    ensures ParseLines(parse, lines, n).Panicked? <==> exists k: nat :: StopsAt(parse, lines, n, k)
    decreases |lines|
  {
    if lines != [] {
      var first := Core(lines[0]);
      if first == "" || (n < MAX_STATEMENTS && parse(first).Value?) {
        var n' := if first == "" then n else n + 1;
        LinesPanicExactly(parse, lines[1..], n');
        if k: nat :| StopsAt(parse, lines, n, k) {
          StopsLater(parse, lines, n, k - 1);
        }
        if k: nat :| StopsAt(parse, lines[1..], n', k) {
          StopsLater(parse, lines, n, k);
        }
      } else {
        FirstDecides(parse, lines, n);
      }
    }
  }

  /** A first line that fails, panics or overflows the cap ends the parse. */
  lemma FirstDecides(parse: string -> Outcome<Stmt>, lines: seq<string>, n: nat)
    requires lines != [] && Core(lines[0]) != "" && !(n < MAX_STATEMENTS && parse(Core(lines[0])).Value?)
    ensures (exists k: nat :: StopsAt(parse, lines, n, k)) <==> n < MAX_STATEMENTS && parse(Core(lines[0])).Panicked?
  {
    assert lines[..0] == [];
    if n < MAX_STATEMENTS && parse(Core(lines[0])).Panicked? {
      assert StopsAt(parse, lines, n, 0);
    }
  }

  /** The line a program's parse panics at. */
  ghost predicate CutLine(lines: seq<string>, k: nat) {
    && k < |lines| && CutChain(Core(lines[k])) && Statements(lines[..k]) < 200
    && forall j :: 0 <= j < k ==> Core(lines[j]) == "" || ParseStmt(Core(lines[j])).Value?
  }

  lemma CutLineStops(lines: seq<string>, k: nat)
    ensures CutLine(lines, k) <==> StopsAt(ParseStmt, lines, 0, k)
  {
    if k < |lines| {
      StmtPanicsExactly(Core(lines[k]));
      if Core(lines[k]) == "" {
        EmptyIsNoChain();
      }
    }
  }

  lemma EmptyIsNoChain()
    ensures !CutChain("")
  {
    assert SplitFirstWord("").0 == "";
  }

  /** Loading a program panics iff some line within the cap is such a chain and all before it
      parse. */
  lemma ProgramPanicsExactly(src: string)
    ensures ParseProgram(src).Panicked? <==> exists k: nat :: CutLine(Lines(src), k)
  {
    var lines := Lines(src);
    LinesPanicExactly(ParseStmt, lines, 0);
    if k: nat :| CutLine(lines, k) {
      CutLineStops(lines, k);
    }
    if k: nat :| StopsAt(ParseStmt, lines, 0, k) {
      CutLineStops(lines, k);
    }
  }
}
