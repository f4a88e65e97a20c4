/**
  The remap language's text side (ingest/core/src/remap.rs:69-85, 167-345, 482-507): comment
  stripping, argument splitting, unescaping and the statement and expression parser.
 */
module RemapSyntax {
  import opened Text

  /** A finite number, or one of the special values the number syntax admits. */
  datatype Num = Fin(value: real) | Infinite(negative: bool) | NaN

  datatype Expr =
    | Str(s: string)
    | Num(n: Num)
    | Bool(b: bool)
    | Path(path: seq<string>)
    | Call(name: string, args: seq<Expr>)

  datatype Op = Eq | Ne | Lt | Gt

  datatype Cond =
    | Compare(op: Op, path: seq<string>, e: Expr)
    | Exists(path: seq<string>)
    | Absent(path: seq<string>)

  datatype Stmt =
    | Set(path: seq<string>, e: Expr)
    | Del(path: seq<string>)
    | Redact(path: seq<string>)
    | Rename(src: seq<string>, dst: seq<string>)
    | If(cond: Cond, body: Stmt)
    | Route(table: string)

  const MAX_STATEMENTS := 200

  /** A parse: a value, a reported error, or a run-time panic. */
  datatype Outcome<+T> = Value(value: T) | Failed | Panicked {
    predicate IsFailure() { !Value? }
    function PropagateFailure<U>(): Outcome<U>
      requires IsFailure()
    {
      if Failed? then Failed else Panicked
    }
    function Extract(): T
      requires !IsFailure()
    {
      value
    }
  }

  // ---------------------------------------------------------------- white space and words

  /** The Unicode White_Space property. */
  predicate IsSpace(c: char) {
    || '\t' <= c <= '\r' || c == ' ' || c == '\U{0085}' || c == '\U{00A0}' || c == '\U{1680}'
    || '\U{2000}' <= c <= '\U{200A}' || c == '\U{2028}' || c == '\U{2029}' || c == '\U{202F}'
    || c == '\U{205F}' || c == '\U{3000}'
  }

  function TrimStart(s: string): (r: string)
    ensures |r| <= |s| && (r != "" ==> !IsSpace(r[0]))
  {
    if s != "" && IsSpace(s[0]) then TrimStart(s[1..]) else s
  }

  function TrimEnd(s: string): (r: string)
    ensures |r| <= |s| && (r != "" ==> !IsSpace(r[|r| - 1]))
  {
    if s != "" && IsSpace(s[|s| - 1]) then TrimEnd(s[..|s| - 1]) else s
  }

  function Trim(s: string): (r: string)
    ensures |r| <= |s|
  {
    TrimEnd(TrimStart(s))
  }

  function SplitFirstWord(s: string): (r: (string, string))
    ensures |r.0| + |r.1| <= |s|
  {
    var i := IndexWhere(s, IsSpace);
    (s[..i], TrimStart(s[i..]))
  }

  /** The lines of a text: cut at line feeds, one trailing carriage return dropped from each,
      no empty line after a final line feed. */
  function Lines(s: string): seq<string> {
    var parts := SplitOn(s, '\n');
    var all := if parts[|parts| - 1] == "" then parts[..|parts| - 1] else parts;
    seq(|all|, i requires 0 <= i < |all| => DropReturn(all[i]))
  }

  function DropReturn(s: string): string {
    if s != "" && s[|s| - 1] == '\r' then s[..|s| - 1] else s
  }

  // ---------------------------------------------------------------- scanners

  /** The line up to the first # outside a string literal. */
  function Strip(s: string, inStr: bool): string {
    if s == "" then ""
    else if s[0] == '"' then ['"'] + Strip(s[1..], !inStr)
    else if s[0] == '\\' && inStr then (if |s| == 1 then s else s[..2] + Strip(s[2..], inStr))
    else if s[0] == '#' && !inStr then ""
    else [s[0]] + Strip(s[1..], inStr)
  }

  /** The stripped line, from a point reached within it. */
  ghost predicate StripFrom(line: string, all: string, i: nat, inStr: bool) {
    if i <= |line| then all == line[..i] + Strip(line[i..], inStr) else all == line
  }

  lemma StripOne(line: string, all: string, i: nat, inStr: bool, inStr': bool)
    requires i < |line| && StripFrom(line, all, i, inStr) && !(line[i] == '\\' && inStr) && !(line[i] == '#' && !inStr)
    requires inStr' == if line[i] == '"' then !inStr else inStr
    ensures StripFrom(line, all, i + 1, inStr')
  {
    assert line[i..][1..] == line[i + 1..];
    var more := Strip(line[i + 1..], inStr');
    assert line[..i] + ([line[i]] + more) == line[..i + 1] + more;
  }

  lemma StripTwo(line: string, all: string, i: nat)
    requires i < |line| && StripFrom(line, all, i, true) && line[i] == '\\'
    ensures StripFrom(line, all, i + 2, true)
  {
    if i + 1 == |line| {
      assert line[..i] + line[i..] == line;
    } else {
      assert line[i..][2..] == line[i + 2..];
      var more := Strip(line[i + 2..], true);
      assert line[..i] + (line[i..][..2] + more) == line[..i + 2] + more;
    }
  }

  lemma StripEnds(line: string, all: string, i: nat, inStr: bool)
    requires StripFrom(line, all, i, inStr)
    ensures i >= |line| ==> all == line
    ensures i < |line| && line[i] == '#' && !inStr ==> all == line[..i]
  {}

  method StripComment(line: string) returns (r: string)
    ensures r == Strip(line, false)
  {
    var inStr, i := false, 0;
    ghost var all := Strip(line, false);
    assert line[0..] == line;
    while i < |line|
      invariant 0 <= i <= |line| + 1 && StripFrom(line, all, i, inStr)
    {
      ghost var k, q := i, inStr;
      if line[i] == '"' {
        inStr := !inStr;
      } else if line[i] == '\\' && inStr {
        i := i + 1;
      } else if line[i] == '#' && !inStr {
        StripEnds(line, all, i, inStr);
        return line[..i];
      }
      i := i + 1;
      if i == k + 2 {
        StripTwo(line, all, k);
      } else {
        StripOne(line, all, k, q, inStr);
      }
    }
    StripEnds(line, all, i, inStr);
    return line;
  }

  /** Cutting at the commas outside parentheses and string literals; `cur` is the argument begun. */
  function Split(s: string, cur: string, depth: int, inStr: bool): seq<string>
    decreases |s|
  {
    if s == "" then [cur]
    else if s[0] == '"' then Split(s[1..], cur + [s[0]], depth, !inStr)
    else if s[0] == '\\' && inStr then
      if |s| == 1 then [cur + s] else Split(s[2..], cur + s[..2], depth, inStr)
    else if s[0] == '(' && !inStr then Split(s[1..], cur + [s[0]], depth + 1, inStr)
    else if s[0] == ')' && !inStr then Split(s[1..], cur + [s[0]], depth - 1, inStr)
    else if s[0] == ',' && !inStr && depth == 0 then [cur] + Split(s[1..], "", depth, inStr)
    else Split(s[1..], cur + [s[0]], depth, inStr)
  }

  /** No argument is longer than the text it was cut from. */
  lemma {:induction false} SplitShort(s: string, cur: string, depth: int, inStr: bool, p: string)
    requires p in Split(s, cur, depth, inStr)
    ensures |p| <= |cur| + |s|
    decreases |s|
  {
    if s == "" {
    } else if s[0] == '"' {
      SplitShort(s[1..], cur + [s[0]], depth, !inStr, p);
    } else if s[0] == '\\' && inStr {
      if |s| > 1 {
        SplitShort(s[2..], cur + s[..2], depth, inStr, p);
      }
    } else if s[0] == ',' && !inStr && depth == 0 {
      if p != cur {
        SplitShort(s[1..], "", depth, inStr, p);
      }
    } else {
      var deeper := if s[0] == '(' && !inStr then 1 else if s[0] == ')' && !inStr then -1 else 0;
      SplitShort(s[1..], cur + [s[0]], depth + deeper, inStr, p);
    }
  }

  lemma PiecesShort(s: string)
    ensures forall p :: p in Split(s, "", 0, false) ==> |p| <= |s|
  {
    forall p | p in Split(s, "", 0, false) ensures |p| <= |s| {
      SplitShort(s, "", 0, false, p);
    }
  }

  /** The whole split, from a point reached within it. */
  ghost predicate SplitFrom(s: string, all: seq<string>, out: seq<string>, start: nat, i: nat, depth: int, inStr: bool)
    requires start <= i
  {
    start <= |s| && all == out + if i <= |s| then Split(s[i..], s[start..i], depth, inStr) else [s[start..]]
  }

  lemma SplitAtComma(s: string, all: seq<string>, out: seq<string>, start: nat, i: nat)
    requires start <= i < |s| && SplitFrom(s, all, out, start, i, 0, false) && s[i] == ','
    ensures SplitFrom(s, all, out + [s[start..i]], i + 1, i + 1, 0, false)
  {
    assert s[i..][1..] == s[i + 1..] && s[i + 1..i + 1] == "";
    var more := Split(s[i + 1..], "", 0, false);
    assert out + ([s[start..i]] + more) == out + [s[start..i]] + more;
  }

  lemma SplitEscape(s: string, all: seq<string>, out: seq<string>, start: nat, i: nat, depth: int)
    requires start <= i < |s| && SplitFrom(s, all, out, start, i, depth, true) && s[i] == '\\'
    ensures SplitFrom(s, all, out, start, i + 2, depth, true)
  {
    if i + 1 == |s| {
      assert s[start..] == s[start..i] + s[i..];
    } else {
      assert s[i..][2..] == s[i + 2..] && s[start..i + 2] == s[start..i] + s[i..][..2];
    }
  }

  /** Any other character. */
  lemma SplitChar(s: string, all: seq<string>, out: seq<string>, start: nat, i: nat, depth: int, inStr: bool,
                  depth': int, inStr': bool)
    requires start <= i < |s| && SplitFrom(s, all, out, start, i, depth, inStr)
    requires !(s[i] == '\\' && inStr) && !(s[i] == ',' && !inStr && depth == 0)
    requires inStr' == if s[i] == '"' then !inStr else inStr
    requires depth' == if s[i] == '(' && !inStr then depth + 1 else if s[i] == ')' && !inStr then depth - 1 else depth
    ensures SplitFrom(s, all, out, start, i + 1, depth', inStr')
  {
    assert s[i..][1..] == s[i + 1..];
    assert s[start..i + 1] == s[start..i] + [s[i]];
  }

  lemma SplitStarts(s: string)
    ensures SplitFrom(s, Split(s, "", 0, false), [], 0, 0, 0, false)
  {
    assert s[0..] == s && s[0..0] == "";
  }

  lemma SplitEnds(s: string, all: seq<string>, out: seq<string>, start: nat, i: nat, depth: int, inStr: bool)
    requires start <= i && SplitFrom(s, all, out, start, i, depth, inStr) && i >= |s|
    ensures all == out + [s[start..]]
  {
    if i == |s| {
      assert s[i..] == "" && s[start..i] == s[start..];
    }
  }

  method SplitArgs(s: string) returns (out: seq<string>)
    ensures out == Split(s, "", 0, false)
  {
    out := [];
    var depth, inStr, start, i := 0, false, 0, 0;
    ghost var all := Split(s, "", 0, false);
    SplitStarts(s);
    while i < |s|
      invariant 0 <= start <= i <= |s| + 1
      invariant SplitFrom(s, all, out, start, i, depth, inStr)
    {
      ghost var d, q := depth, inStr;
      if s[i] == '\\' && inStr {
        SplitEscape(s, all, out, start, i, depth);
        i := i + 1;
      } else if s[i] == ',' && !inStr && depth == 0 {
        SplitAtComma(s, all, out, start, i);
        out := out + [s[start..i]];
        start := i + 1;
      } else {
        if s[i] == '"' {
          inStr := !inStr;
        } else if s[i] == '(' && !inStr {
          depth := depth + 1;
        } else if s[i] == ')' && !inStr {
          depth := depth - 1;
        }
        SplitChar(s, all, out, start, i, d, q, depth, inStr);
      }
      i := i + 1;
    }
    SplitEnds(s, all, out, start, i, depth, inStr);
    out := out + [s[start..]];
  }

  function Unescaped(c: char): string {
    if c == 'n' then "\n" else if c == 't' then "\t"
    else if c == '"' then "\"" else if c == '\\' then "\\"
    else ['\\', c]
  }

  function Unescape(s: string): string {
    if s == "" then ""
    else if s[0] != '\\' then [s[0]] + Unescape(s[1..])
    else if |s| == 1 then "\\"
    else Unescaped(s[1]) + Unescape(s[2..])
  }

  method UnescapeLoop(s: string) returns (out: string)
    ensures out == Unescape(s)
  {
    out := "";
    var i := 0;
    while i < |s|
      invariant 0 <= i <= |s|
      invariant Unescape(s) == out + Unescape(s[i..])
    {
      var c, rest := s[i], s[i..];
      assert rest[1..] == s[i + 1..];
      i := i + 1;
      if c == '\\' {
        if i < |s| {
          assert rest[2..] == s[i + 1..];
          out := out + Unescaped(s[i]);
          i := i + 1;
        } else {
          out := out + "\\";
        }
      } else {
        out := out + [c];
      }
    }
  }

  /** One past the closing quote of a literal scanned from i, or where the scan ran off. */
  function LiteralEnd(s: string, i: nat): (r: nat)
    ensures i <= r <= if i <= |s| then |s| + 1 else i
    decreases |s| - i
  {
    if i >= |s| then i
    else if s[i] == '\\' then LiteralEnd(s, i + 2)
    else if s[i] == '"' then i + 1
    else LiteralEnd(s, i + 1)
  }

  method ScanLiteral(s: string) returns (i: nat)
    requires s != "" && s[0] == '"'
    ensures i == LiteralEnd(s, 1)
  {
    i := 1;
    while i < |s|
      invariant LiteralEnd(s, i) == LiteralEnd(s, 1)
    {
      if s[i] == '\\' {
        i := i + 2;
      } else if s[i] == '"' {
        i := i + 1;
        break;
      } else {
        i := i + 1;
      }
    }
  }

  // ---------------------------------------------------------------- numbers

  function Pow10(e: int): (r: real)
    ensures r > 0.0
    decreases if e < 0 then -e else e
  {
    if e == 0 then 1.0 else if e > 0 then 10.0 * Pow10(e - 1) else Pow10(e + 1) / 10.0
  }

  predicate NotDigit(c: char) { !IsDigit(c) }

  function Unsigned(s: string): string {
    if s != "" && (s[0] == '+' || s[0] == '-') then s[1..] else s
  }

  function Exponent(s: string): Option<int> {
    if s == "" then Some(0)
    else if s[0] != 'e' && s[0] != 'E' then None
    else
      var digits := Unsigned(s[1..]);
      if digits == "" || !AllDigits(digits) then None
      else Some((if s[1] == '-' then -1 else 1) * DigitsValue(digits))
  }

  /** The magnitude a decimal literal without sign denotes. */
  function Magnitude(t: string): Option<real> {
    var m := IndexWhere(t, NotDigit);
    NoneBefore(t, NotDigit);
    var whole, tail := t[..m], t[m..];
    var dotted := tail != "" && tail[0] == '.';
    var k := if dotted then IndexWhere(tail[1..], NotDigit) else 0;
    NoneBefore(if dotted then tail[1..] else "", NotDigit);
    var frac := if dotted then tail[1..][..k] else "";
    var exp := Exponent(if dotted then tail[1..][k..] else tail);
    if whole + frac == "" || exp.None? then None
    else Some(DigitsValue(whole + frac) as real * Pow10(exp.value - |frac|))
  }

  /** Rust's float syntax, without rounding. */
  function ParseFloat(s: string): Option<Num> {
    var negative := s != "" && s[0] == '-';
    var t := Unsigned(s);
    if EqualFold(t, "inf") || EqualFold(t, "infinity") then Some(Infinite(negative))
    else if EqualFold(t, "nan") then Some(NaN)
    else match Magnitude(t)
      case None => None
      case Some(v) => Some(Fin(if negative then -v else v))
  }

  // ---------------------------------------------------------------- parser

  predicate IsName(s: string) { s != "" && forall i :: 0 <= i < |s| ==> IsIdentPart(s[i]) }

  predicate IsOpen(c: char) { c == '(' }

  predicate IsEquals(c: char) { c == '=' }

  function ParsePath(s: string): Outcome<seq<string>> {
    if s == "" || s[0] != '.' || |s| == 1 then Failed
    else
      var parts := SplitOn(s[1..], '.');
      if "" in parts then Failed else Value(parts)
  }

  /** A quoted text. */
  function ParseString(s: string): Outcome<Expr>
    requires s != ""
  {
    if |s| > 1 && s[|s| - 1] == '"' then Value(Str(Unescape(s[1..|s| - 1]))) else Failed
  }

  /** NAME(...). */
  predicate IsCall(s: string) {
    var open := IndexWhere(s, IsOpen);
    open < |s| && s[|s| - 1] == ')' && IsName(s[..open])
  }

  function CallName(s: string): string { s[..IndexWhere(s, IsOpen)] }

  function CallArgs(s: string): (r: seq<string>)
    requires IsCall(s)
    ensures forall p :: p in r ==> |p| < |s|
  {
    var inner := s[IndexWhere(s, IsOpen) + 1..|s| - 1];
    PiecesShort(inner);
    Split(inner, "", 0, false)
  }

  /** A path, a truth value or a number. */
  function ParseAtom(s: string): Outcome<Expr>
    requires s != ""
  {
    if s[0] == '.' then
      var p :- ParsePath(s);
      Value(Path(p))
    else if s == "true" then Value(Bool(true))
    else if s == "false" then Value(Bool(false))
    else match ParseFloat(s)
      case Some(n) => Value(Num(n))
      case None => Failed
  }

  function ParseExpr(src: string): Outcome<Expr>
    decreases |src|, 1, 0
  {
    var s := Trim(src);
    if s == "" then Failed
    else if s[0] == '"' then ParseString(s)
    else if IsCall(s) then
      var args :- ParseArgs(CallArgs(s), |s|);
      Value(Call(CallName(s), args))
    else ParseAtom(s)
  }

  /** Blank arguments are passed over. */
  function ParseArgs(parts: seq<string>, n: nat): Outcome<seq<Expr>>
    requires forall p :: p in parts ==> |p| < n
    decreases n, 0, |parts|
  {
    if parts == [] then Value([])
    else
      assert parts[0] in parts;
      if Trim(parts[0]) == "" then ParseArgs(parts[1..], n)
      else
        var e :- ParseExpr(parts[0]);
        var es :- ParseArgs(parts[1..], n);
        Value([e] + es)
  }

  /** The value text of a condition and what follows it. */
  function CondValue(s: string): (r: Outcome<(string, string)>)
    ensures r.Value? ==> |r.value.1| <= |s|
  {
    if s != "" && s[0] == '"' then
      var i := LiteralEnd(s, 1);
      if i > |s| then Panicked else Value((s[..i], TrimStart(s[i..])))
    else Value(SplitFirstWord(s))
  }

  function ParseOp(op: string): Outcome<Op> {
    if op == "==" then Value(Eq) else if op == "!=" then Value(Ne)
    else if op == "<" then Value(Lt) else if op == ">" then Value(Gt)
    else Failed
  }

  function ValueCond(path: seq<string>, op: string, value: Outcome<Expr>, body: string): Outcome<(Cond, string)> {
    var e :- value;
    var o :- ParseOp(op);
    Value((Compare(o, path, e), body))
  }

  /** The condition on a path that an operator and what stands behind it make. */
  function CondOn(path: seq<string>, op: string, afterOp: string): (r: Outcome<(Cond, string)>)
    ensures r.Value? ==> |r.value.1| <= |afterOp|
  {
    if op == "exists" then Value((Exists(path), afterOp))
    else if op == "absent" then Value((Absent(path), afterOp))
    else
      var v :- CondValue(afterOp);
      ValueCond(path, op, ParseExpr(v.0), v.1)
  }

  /** A condition and the text of the statement it guards. */
  function ParseCond(s: string): (r: Outcome<(Cond, string)>)
    ensures r.Value? ==> |r.value.1| <= |s|
  {
    var (pathTok, afterPath) := SplitFirstWord(s);
    var path :- ParsePath(pathTok);
    var (op, afterOp) := SplitFirstWord(afterPath);
    CondOn(path, op, afterOp)
  }

  function ParseSet(rest: string): Outcome<Stmt> {
    var i := IndexWhere(rest, IsEquals);
    if i == |rest| then Failed
    else
      var p :- ParsePath(Trim(rest[..i]));
      var e :- ParseExpr(Trim(rest[i + 1..]));
      Value(Set(p, e))
  }

  function ParseRename(rest: string): Outcome<Stmt> {
    var s := Trim(rest);
    var i := IndexWhere(s, IsSpace);
    if i == |s| then Failed
    else
      var a :- ParsePath(Trim(s[..i]));
      var b :- ParsePath(Trim(s[i + 1..]));
      Value(Rename(a, b))
  }

  function ParseRoute(rest: string): Outcome<Stmt> {
    var t := Trim(rest);
    if |t| > 1 && t[0] == '"' && t[|t| - 1] == '"' then Value(Route(t[1..|t| - 1])) else Failed
  }

  datatype Keyword = SetWord | DelWord | RedactWord | RenameWord | IfWord | RouteWord | Unknown

  function KeywordOf(s: string): Keyword {
    if s == "set" then SetWord
    else if s == "del" then DelWord
    else if s == "redact" then RedactWord
    else if s == "rename" then RenameWord
    else if s == "if" then IfWord
    else if s == "route" then RouteWord
    else Unknown
  }

  /** The statements that hold no other statement. */
  function ParseLeaf(kw: Keyword, rest: string): Outcome<Stmt> {
    match kw
    case SetWord => ParseSet(rest)
    case DelWord => var p :- ParsePath(Trim(rest)); Value(Del(p))
    case RedactWord => var p :- ParsePath(Trim(rest)); Value(Redact(p))
    case RenameWord => ParseRename(rest)
    case RouteWord => ParseRoute(rest)
    case _ => Failed
  }

  function ParseStmt(line: string): Outcome<Stmt>
    decreases |line|
  {
    var (word, rest) := SplitFirstWord(line);
    var kw := KeywordOf(word);
    if kw.IfWord? then
      assert word == "if";
      var c :- ParseCond(Trim(rest));
      var body :- ParseStmt(Trim(c.1));
      Value(If(c.0, body))
    else ParseLeaf(kw, rest)
  }

  lemma IfIsShorter(line: string, word: string, rest: string)
    requires (word, rest) == SplitFirstWord(line) && KeywordOf(word) == IfWord
    ensures |rest| < |line|
  {
    assert word == "if";
  }

  function ParseLines(parse: string -> Outcome<Stmt>, lines: seq<string>, n: nat): Outcome<seq<Stmt>> {
    if lines == [] then Value([])
    else
      var line := Trim(Strip(lines[0], false));
      if line == "" then ParseLines(parse, lines[1..], n)
      else if n >= MAX_STATEMENTS then Failed
      else
        var stmt :- parse(line);
        var more :- ParseLines(parse, lines[1..], n + 1);
        Value([stmt] + more)
  }

  function ParseProgram(src: string): Outcome<seq<Stmt>> { ParseLines(ParseStmt, Lines(src), 0) }

  /** What the parsed rest of a program adds to the statements read so far. */
  function Onto(stmts: seq<Stmt>, more: Outcome<seq<Stmt>>): Outcome<seq<Stmt>> {
    if more.Value? then Value(stmts + more.value) else more
  }

  lemma OntoNothing(more: Outcome<seq<Stmt>>)
    ensures Onto([], more) == more
  {
    assert more.Value? ==> [] + more.value == more.value;
  }

  lemma OntoSnoc(stmts: seq<Stmt>, x: Stmt, more: Outcome<seq<Stmt>>)
    ensures Onto(stmts + [x], more) == if more.Value? then Onto(stmts, Value([x] + more.value)) else more
  {
    assert more.Value? ==> stmts + ([x] + more.value) == stmts + [x] + more.value;
  }

  /** The program's parse, from a line reached within it. */
  ghost predicate ParseFrom(parse: string -> Outcome<Stmt>, lines: seq<string>, all: Outcome<seq<Stmt>>, stmts: seq<Stmt>, i: nat)
    requires i <= |lines|
  {
    all == Onto(stmts, ParseLines(parse, lines[i..], |stmts|))
  }

  lemma ParseStarts(parse: string -> Outcome<Stmt>, lines: seq<string>)
    ensures ParseFrom(parse, lines, ParseLines(parse, lines, 0), [], 0)
  {
    assert lines[0..] == lines;
    OntoNothing(ParseLines(parse, lines, 0));
  }

  lemma BlankLine(parse: string -> Outcome<Stmt>, lines: seq<string>, all: Outcome<seq<Stmt>>, stmts: seq<Stmt>, i: nat)
    requires i < |lines| && ParseFrom(parse, lines, all, stmts, i) && Trim(Strip(lines[i], false)) == ""
    ensures ParseFrom(parse, lines, all, stmts, i + 1)
  {
    assert lines[i..][1..] == lines[i + 1..];
  }

  lemma StmtLine(parse: string -> Outcome<Stmt>, lines: seq<string>, all: Outcome<seq<Stmt>>, stmts: seq<Stmt>, i: nat, line: string, stmt: Outcome<Stmt>)
    requires i < |lines| && ParseFrom(parse, lines, all, stmts, i) && line == Trim(Strip(lines[i], false)) != ""
    requires stmt == parse(line)
    ensures if |stmts| >= MAX_STATEMENTS then all == Failed
            else if stmt.Value? then ParseFrom(parse, lines, all, stmts + [stmt.value], i + 1)
            else all == stmt.PropagateFailure()
  {
    assert lines[i..][1..] == lines[i + 1..];
    if |stmts| < MAX_STATEMENTS && stmt.Value? {
      OntoSnoc(stmts, stmt.value, ParseLines(parse, lines[i + 1..], |stmts| + 1));
    }
  }

  lemma ParseEnds(parse: string -> Outcome<Stmt>, lines: seq<string>, all: Outcome<seq<Stmt>>, stmts: seq<Stmt>)
    requires ParseFrom(parse, lines, all, stmts, |lines|)
    ensures all == Value(stmts)
  {
    assert stmts + [] == stmts;
  }

  method ParseLoop(src: string) returns (r: Outcome<seq<Stmt>>)
    ensures r == ParseProgram(src)
  {
    var stmts: seq<Stmt> := [];
    var lines := Lines(src);
    ghost var all := ParseLines(ParseStmt, lines, 0);
    ParseStarts(ParseStmt, lines);
    for i := 0 to |lines|
      invariant ParseFrom(ParseStmt, lines, all, stmts, i)
    {
      var stripped := StripComment(lines[i]);
      var line := Trim(stripped);
      if line == "" {
        BlankLine(ParseStmt, lines, all, stmts, i);
        continue;
      }
      ghost var parsed := ParseStmt(line);
      StmtLine(ParseStmt, lines, all, stmts, i, line, parsed);
      if |stmts| >= MAX_STATEMENTS {
        return Failed;
      }
      var stmt :- ParseStmt(line);
      stmts := stmts + [stmt];
    }
    ParseEnds(ParseStmt, lines, all, stmts);
    return Value(stmts);
  }
}
