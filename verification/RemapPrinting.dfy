/** The canonical text of remap programs, and the scanners' view of it. */
module RemapPrinting {
  import opened Text
  import opened RemapSyntax

  /** Characters a plain path segment is made of. */
  predicate PlainChar(c: char) {
    !IsSpace(c) && c != '.' && c != '(' && c != ')' && c != ',' && c != '"' && c != '#' && c != '='
  }

  predicate PlainSeg(s: string) { s != "" && forall i :: 0 <= i < |s| ==> PlainChar(s[i]) }

  predicate PlainPath(p: seq<string>) { p != [] && forall i :: 0 <= i < |p| ==> PlainSeg(p[i]) }

  /** Expressions with a canonical text: any strings, any integers, plain paths, nested calls. */
  predicate Canonical(e: Expr) {
    match e
    case Str(_) => true
    case Num(n) => n.Fin? && n.value == n.value.Floor as real
    case Bool(_) => true
    case Path(p) => PlainPath(p)
    case Call(name, args) => IsName(name) && forall i :: 0 <= i < |args| ==> Canonical(args[i])
  }

  function Escaped(c: char): (r: string)
    ensures r != ""
  {
    if c == '\n' then "\\n" else if c == '\t' then "\\t"
    else if c == '"' then "\\\"" else if c == '\\' then "\\\\"
    else [c]
  }

  function EscapeAll(s: string): string {
    if s == "" then "" else Escaped(s[0]) + EscapeAll(s[1..])
  }

  function Literal(s: string): string { "\"" + EscapeAll(s) + "\"" }

  function PathText(p: seq<string>): string { "." + Join(p, ".") }

  function ExprText(e: Expr): string {
    match e
    case Str(s) => Literal(s)
    case Num(n) => if n.Fin? then SignedDecimal(n.value.Floor) else ""
    case Bool(b) => if b then "true" else "false"
    case Path(p) => PathText(p)
    case Call(name, args) => name + "(" + ArgsText(args) + ")"
  }

  function ArgsText(args: seq<Expr>): string {
    if args == [] then ""
    else if |args| == 1 then ExprText(args[0])
    else ExprText(args[0]) + "," + ArgsText(args[1..])
  }

  // ---------------------------------------------------------------- scanners over fragments

  /** The comment scanner keeps the fragment whole wherever it stands outside (inside) a literal. */
  ghost predicate Kept(t: string, inStr: bool) {
    forall rest: string {:trigger Strip(t + rest, inStr)} :: Strip(t + rest, inStr) == t + Strip(rest, inStr)
  }

  /** The argument splitter takes the fragment whole at every depth from `floor` on. */
  ghost predicate Taken(t: string, floor: int, inStr: bool) {
    forall rest: string, cur: string, d: int {:trigger Split(t + rest, cur, d, inStr)} :: d >= floor
      ==> Split(t + rest, cur, d, inStr) == Split(rest, cur + t, d, inStr)
  }

  lemma KeptCat(a: string, b: string, inStr: bool)
    requires Kept(a, inStr) && Kept(b, inStr)
    ensures Kept(a + b, inStr)
  {
    forall rest: string ensures Strip(a + b + rest, inStr) == a + b + Strip(rest, inStr) {
      assert a + b + rest == a + (b + rest);
      assert a + (b + Strip(rest, inStr)) == a + b + Strip(rest, inStr);
    }
  }

  lemma TakenCat(a: string, b: string, floor: int, inStr: bool)
    requires Taken(a, floor, inStr) && Taken(b, floor, inStr)
    ensures Taken(a + b, floor, inStr)
  {
    forall rest: string, cur: string, d: int | d >= floor
      ensures Split(a + b + rest, cur, d, inStr) == Split(rest, cur + (a + b), d, inStr)
    {
      assert a + b + rest == a + (b + rest);
      assert cur + (a + b) == cur + a + b;
    }
  }

  lemma TakenWeaken(t: string, floor: int)
    requires Taken(t, 0, false) && floor >= 0
    ensures Taken(t, floor, false)
  {}

  lemma EmptyPasses(floor: int, inStr: bool)
    ensures Kept("", inStr) && Taken("", floor, inStr)
  {
    forall rest: string ensures Strip("" + rest, inStr) == "" + Strip(rest, inStr) {
      assert "" + rest == rest;
    }
    forall rest: string, cur: string, d: int ensures Split("" + rest, cur, d, inStr) == Split(rest, cur + "", d, inStr) {
      assert "" + rest == rest && cur + "" == cur;
    }
  }

  predicate Quiet(c: char) { c != '"' && c != '#' && c != '(' && c != ')' && c != ',' }

  lemma CharKept(c: char)
    requires c != '"' && c != '#'
    ensures Kept([c], false)
  {
    forall rest: string ensures Strip([c] + rest, false) == [c] + Strip(rest, false) {
      assert ([c] + rest)[1..] == rest;
    }
  }

  lemma CharTaken(c: char, floor: int)
    requires Quiet(c) || (c == ',' && floor > 0)
    ensures Taken([c], floor, false)
  {
    forall rest: string, cur: string, d: int | d >= floor
      ensures Split([c] + rest, cur, d, false) == Split(rest, cur + [c], d, false)
    {
      assert ([c] + rest)[1..] == rest;
    }
  }

  lemma {:induction false} QuietKept(t: string)
    requires forall i :: 0 <= i < |t| ==> t[i] != '"' && t[i] != '#'
    ensures Kept(t, false)
  {
    if t == "" {
      EmptyPasses(0, false);
    } else {
      QuietKept(t[1..]);
      CharKept(t[0]);
      KeptCat([t[0]], t[1..], false);
      assert t == [t[0]] + t[1..];
    }
  }

  lemma {:induction false} QuietTaken(t: string)
    requires forall i :: 0 <= i < |t| ==> Quiet(t[i])
    ensures Taken(t, 0, false)
  {
    if t == "" {
      EmptyPasses(0, false);
    } else {
      QuietTaken(t[1..]);
      CharTaken(t[0], 0);
      TakenCat([t[0]], t[1..], 0, false);
      assert t == [t[0]] + t[1..];
    }
  }

  /** What stands between parentheses may hold commas. */
  lemma ParensTaken(t: string)
    requires Taken(t, 1, false)
    ensures Taken("(" + t + ")", 0, false)
  {
    forall rest: string, cur: string, d: int | d >= 0
      ensures Split("(" + t + ")" + rest, cur, d, false) == Split(rest, cur + ("(" + t + ")"), d, false)
    {
      var s := "(" + t + ")" + rest;
      assert s[1..] == t + (")" + rest);
      assert Split(s, cur, d, false) == Split(t + (")" + rest), cur + "(", d + 1, false);
      assert (")" + rest)[1..] == rest;
      assert Split(")" + rest, cur + "(" + t, d + 1, false) == Split(rest, cur + "(" + t + ")", d, false);
      assert cur + "(" + t + ")" == cur + ("(" + t + ")");
    }
  }

  // ---------------------------------------------------------------- string literals

  lemma QuotesKept(t: string)
    requires Kept(t, true)
    ensures Kept("\"" + t + "\"", false)
  {
    forall rest: string ensures Strip("\"" + t + "\"" + rest, false) == "\"" + t + "\"" + Strip(rest, false) {
      var s := "\"" + t + "\"" + rest;
      assert s[1..] == t + ("\"" + rest);
      assert ("\"" + rest)[1..] == rest;
      assert ['"'] + (t + (['"'] + Strip(rest, false))) == "\"" + t + "\"" + Strip(rest, false);
    }
  }

  lemma QuotesTaken(t: string)
    requires Taken(t, 0, true)
    ensures Taken("\"" + t + "\"", 0, false)
  {
    forall rest: string, cur: string, d: int | d >= 0
      ensures Split("\"" + t + "\"" + rest, cur, d, false) == Split(rest, cur + ("\"" + t + "\""), d, false)
    {
      var s := "\"" + t + "\"" + rest;
      assert s[1..] == t + ("\"" + rest);
      assert Split(s, cur, d, false) == Split(t + ("\"" + rest), cur + "\"", d, true);
      assert ("\"" + rest)[1..] == rest;
      assert Split("\"" + rest, cur + "\"" + t, d, true) == Split(rest, cur + "\"" + t + "\"", d, false);
      assert cur + "\"" + t + "\"" == cur + ("\"" + t + "\"");
    }
  }

  lemma EscapedKept(c: char)
    ensures Kept(Escaped(c), true)
  {
    forall rest: string ensures Strip(Escaped(c) + rest, true) == Escaped(c) + Strip(rest, true) {
      var s := Escaped(c) + rest;
      assert if |Escaped(c)| == 2 then s[..2] == Escaped(c) && s[2..] == rest else s[1..] == rest;
    }
  }

  lemma EscapedTaken(c: char)
    ensures Taken(Escaped(c), 0, true)
  {
    forall rest: string, cur: string, d: int | d >= 0
      ensures Split(Escaped(c) + rest, cur, d, true) == Split(rest, cur + Escaped(c), d, true)
    {
      var s := Escaped(c) + rest;
      assert if |Escaped(c)| == 2 then s[..2] == Escaped(c) && s[2..] == rest else s[1..] == rest;
    }
  }

  lemma {:induction false} InsidePasses(s: string)
    ensures Kept(EscapeAll(s), true) && Taken(EscapeAll(s), 0, true)
  {
    if s == "" {
      EmptyPasses(0, true);
    } else {
      InsidePasses(s[1..]);
      EscapedKept(s[0]);
      EscapedTaken(s[0]);
      KeptCat(Escaped(s[0]), EscapeAll(s[1..]), true);
      TakenCat(Escaped(s[0]), EscapeAll(s[1..]), 0, true);
    }
  }

  lemma LiteralPasses(s: string)
    ensures Kept(Literal(s), false) && Taken(Literal(s), 0, false)
  {
    InsidePasses(s);
    QuotesKept(EscapeAll(s));
    QuotesTaken(EscapeAll(s));
  }

  lemma EscapedBack(c: char, rest: string)
    ensures Unescape(Escaped(c) + rest) == [c] + Unescape(rest)
  {
    var s := Escaped(c) + rest;
    if |Escaped(c)| == 2 {
      assert s[2..] == rest;
    } else {
      assert s[1..] == rest;
    }
  }

  lemma {:induction false} UnescapeInverts(s: string)
    ensures Unescape(EscapeAll(s)) == s
  {
    if s != "" {
      UnescapeInverts(s[1..]);
      EscapedBack(s[0], EscapeAll(s[1..]));
    }
  }

  // ---------------------------------------------------------------- characters of canonical text

  lemma {:induction false} JoinChars(p: seq<string>, i: nat)
    requires forall k :: 0 <= k < |p| ==> PlainSeg(p[k])
    requires i < |Join(p, ".")|
    ensures Join(p, ".")[i] == '.' || PlainChar(Join(p, ".")[i])
  {
    if |p| > 1 && i > |p[0]| {
      assert Join(p, ".")[i] == Join(p[1..], ".")[i - |p[0]| - 1];
      JoinChars(p[1..], i - |p[0]| - 1);
    } else if |p| > 1 {
      assert i < |p[0]| ==> Join(p, ".")[i] == p[0][i];
      assert i == |p[0]| ==> Join(p, ".")[i] == '.';
    }
  }

  predicate PathChars(t: string) { forall i :: 0 <= i < |t| ==> t[i] == '.' || PlainChar(t[i]) }

  lemma PathTextChars(p: seq<string>)
    requires PlainPath(p)
    ensures PathChars(PathText(p))
  {
    var t := PathText(p);
    forall i | 0 <= i < |t| ensures t[i] == '.' || PlainChar(t[i]) {
      if i > 0 {
        assert t[i] == Join(p, ".")[i - 1];
        JoinChars(p, i - 1);
      }
    }
  }

  predicate NumberChars(t: string) { t != "" && forall i :: 0 <= i < |t| ==> t[i] == '-' || IsDigit(t[i]) }

  lemma NumberTextChars(n: int)
    ensures NumberChars(SignedDecimal(n))
  {}

  // ---------------------------------------------------------------- expressions pass both scanners

  lemma PathPasses(p: seq<string>)
    requires PlainPath(p)
    ensures Kept(PathText(p), false) && Taken(PathText(p), 0, false)
  {
    PathTextChars(p);
    QuietKept(PathText(p));
    QuietTaken(PathText(p));
  }

  lemma NumberPasses(n: int)
    ensures Kept(SignedDecimal(n), false) && Taken(SignedDecimal(n), 0, false)
  {
    NumberTextChars(n);
    QuietKept(SignedDecimal(n));
    QuietTaken(SignedDecimal(n));
  }

  lemma BoolPasses(b: bool)
    ensures Kept(ExprText(Bool(b)), false) && Taken(ExprText(Bool(b)), 0, false)
  {
    QuietKept(ExprText(Bool(b)));
    QuietTaken(ExprText(Bool(b)));
  }

  lemma NamePasses(name: string)
    requires IsName(name)
    ensures Kept(name, false) && Taken(name, 0, false)
  {
    forall i | 0 <= i < |name| ensures Quiet(name[i]) {
      assert IsIdentPart(name[i]);
    }
    QuietKept(name);
    QuietTaken(name);
  }

  lemma CallPasses(name: string, inner: string)
    requires IsName(name) && Kept(inner, false) && Taken(inner, 1, false)
    ensures Kept(name + "(" + inner + ")", false) && Taken(name + "(" + inner + ")", 0, false)
  {
    NamePasses(name);
    CharKept('(');
    CharKept(')');
    KeptCat(name, "(", false);
    KeptCat(name + "(", inner, false);
    KeptCat(name + "(" + inner, ")", false);
    ParensTaken(inner);
    TakenCat(name, "(" + inner + ")", 0, false);
    assert name + ("(" + inner + ")") == name + "(" + inner + ")";
  }

  lemma CommaPasses(a: string, b: string)
    requires Kept(a, false) && Kept(b, false) && Taken(a, 0, false) && Taken(b, 1, false)
    ensures Kept(a + "," + b, false) && Taken(a + "," + b, 1, false)
  {
    CharKept(',');
    CharTaken(',', 1);
    KeptCat(a, ",", false);
    KeptCat(a + ",", b, false);
    TakenWeaken(a, 1);
    TakenCat(a, ",", 1, false);
    TakenCat(a + ",", b, 1, false);
  }

  /** Every canonical expression is invisible to the comment scanner and is one argument to
      the splitter. */
  lemma {:induction false} ExprPasses(e: Expr)
    requires Canonical(e)
    ensures Kept(ExprText(e), false) && Taken(ExprText(e), 0, false)
    decreases e
  {
    match e {
      case Str(s) => LiteralPasses(s);
      case Num(n) => NumberPasses(n.value.Floor);
      case Bool(b) => BoolPasses(b);
      case Path(p) => PathPasses(p);
      case Call(name, args) =>
        ArgsPass(args);
        CallPasses(name, ArgsText(args));
    }
  }

  lemma {:induction false} ArgsPass(args: seq<Expr>)
    requires forall i :: 0 <= i < |args| ==> Canonical(args[i])
    ensures Kept(ArgsText(args), false) && Taken(ArgsText(args), 1, false)
    decreases args
  {
    if args == [] {
      EmptyPasses(1, false);
    } else {
      ExprPasses(args[0]);
      if |args| == 1 {
        TakenWeaken(ExprText(args[0]), 1);
      } else {
        ArgsPass(args[1..]);
        CommaPasses(ExprText(args[0]), ArgsText(args[1..]));
      }
    }
  }
}
