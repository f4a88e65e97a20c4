/**
  A reader for the boolean fragment of ClickHouse SQL that the query compiler
  emits, with its meaning over rows. It knows nothing of the compiler: it scans
  characters, parses AND over OR with parentheses, and evaluates the result.
 */
module Sql {
  import opened Text

  // ---------------------------------------------------------------- tokens

  datatype Tok =
    | Word(w: string)
    | Lit(s: string)
    | Number(digits: string)
    | Cmp(op: string)
    | LP | RP | LB | RB | Comma | Plus | Minus

  const OPERATORS := {"=", "==", "!=", "<", ">", "<=", ">="}

  /** A literal up to its closing quote: `\\` and `\'` are escapes, `''` is a quote,
      any other backslash is outside the grammar. */
  function LitBody(r: string): Option<(string, nat)> {
    if r == "" then None
    else if r[0] == '\\' then
      if |r| > 1 && (r[1] == '\\' || r[1] == '\'') then LitCons(r[1], 2, LitBody(r[2..])) else None
    else if r[0] == '\'' then
      if |r| > 1 && r[1] == '\'' then LitCons('\'', 2, LitBody(r[2..])) else Some(("", 1))
    else LitCons(r[0], 1, LitBody(r[1..]))
  }

  function LitCons(c: char, n: nat, o: Option<(string, nat)>): Option<(string, nat)> {
    match o
    case None => None
    case Some((s, k)) => Some(([c] + s, k + n))
  }

  lemma {:induction false} LitBodyLen(r: string)
    ensures LitBody(r).Some? ==> LitBody(r).value.1 <= |r|
  {
    if r == "" {
    } else if r[0] == '\\' {
      if |r| > 1 { LitBodyLen(r[2..]); }
    } else if r[0] == '\'' {
      if |r| > 1 && r[1] == '\'' { LitBodyLen(r[2..]); }
    } else {
      LitBodyLen(r[1..]);
    }
  }

  function OpLen(r: string): (n: nat)
    requires r != ""
    ensures n <= |r|
    ensures n > 0 ==> r[..n] in OPERATORS
  {
    if |r| > 1 && r[0] in "=!<>" && r[1] == '=' then
      assert r[..2] == [r[0], '=']; assert r[..2] in ["==", "!=", "<=", ">="]; 2
    else if r[0] in "=<>" then assert r[..1] == [r[0]]; assert r[..1] in ["=", "<", ">"]; 1
    else 0
  }

  function Punct(c: char): Option<Tok> {
    match c
    case '(' => Some(LP)
    case ')' => Some(RP)
    case '[' => Some(LB)
    case ']' => Some(RB)
    case ',' => Some(Comma)
    case '+' => Some(Plus)
    case '-' => Some(Minus)
    case _ => None
  }

  /** The token at the head of a text that does not start with a space, and its length. */
  function HeadTok(r: string): Option<(Tok, nat)>
    requires r != ""
  {
    var c := r[0];
    if Punct(c).Some? then Some((Punct(c).value, 1))
    else if c == '\'' then
      match LitBody(r[1..])
      case None => None
      case Some((s, n)) => Some((Lit(s), n + 1))
    else if OpLen(r) > 0 then Some((Cmp(r[..OpLen(r)]), OpLen(r)))
    else if IsDigit(c) then
      var n := DigitsLen(r);
      if n < |r| && IsIdentStart(r[n]) then None else Some((Number(r[..n]), n))
    else if IsIdentStart(c) then Some((Word(r[..IdentLen(r)]), IdentLen(r)))
    else None
  }

  lemma HeadTokLen(r: string)
    requires r != "" && HeadTok(r).Some?
    ensures 0 < HeadTok(r).value.1 <= |r|
  {
    if r[0] == '\'' {
      LitBodyLen(r[1..]);
    }
  }

  function SqlScan(r: string): Option<seq<Tok>>
    decreases |r|
  {
    if r == "" then Some([])
    else if r[0] == ' ' then SqlScan(r[1..])
    else match HeadTok(r)
      case None => None
      case Some((t, n)) => HeadTokLen(r); Prepend([t], SqlScan(r[n..]))
  }

  // ---------------------------------------------------------------- syntax

  datatype Term =
    | Column(name: string)
    | Literal(s: string)
    | Numeral(digits: string)
    | Array(items: seq<string>)
    | Apply(f: string, args: seq<Term>)
    | Subscript(column: string, key: string)
    | Shifted(base: Term, minus: bool, seconds: int)

  datatype Cond =
    | And(l: Cond, r: Cond)
    | Or(l: Cond, r: Cond)
    | Compare(lhs: Term, op: string, rhs: Term)
    | Holds(t: Term)

  datatype Read<+T> = Got(value: T, rest: seq<Tok>) | No

  predicate Head(ts: seq<Tok>, t: Tok) { ts != [] && ts[0] == t }

  /** 'a', 'b', ... ] */
  function ReadItems(ts: seq<Tok>, acc: seq<string>): (r: Read<Term>)
    ensures r.Got? ==> |r.rest| < |ts|
  {
    if |ts| < 2 || !ts[0].Lit? then No
    else if ts[1].RB? then Got(Array(acc + [ts[0].s]), ts[2..])
    else if ts[1].Comma? then ReadItems(ts[2..], acc + [ts[0].s])
    else No
  }

  function ReadAtom(ts: seq<Tok>): (r: Read<Term>)
    ensures r.Got? ==> |r.rest| < |ts|
  {
    if ts == [] then No
    else match ts[0]
      case Lit(s) => Got(Literal(s), ts[1..])
      case Number(d) => Got(Numeral(d), ts[1..])
      case LB => ReadItems(ts[1..], [])
      case Word(w) =>
        if |ts| > 3 && ts[1].LB? && ts[2].Lit? && ts[3].RB? then Got(Subscript(w, ts[2].s), ts[4..])
        else Got(Column(w), ts[1..])
      case _ => No
  }

  /** Arguments of a call, after the opening parenthesis. */
  function ReadArgs(ts: seq<Tok>, f: string, acc: seq<Term>): (r: Read<Term>)
    ensures r.Got? ==> |r.rest| < |ts|
    decreases |ts|
  {
    match ReadAtom(ts)
    case No => No
    case Got(a, rest) =>
      if Head(rest, RP) then Got(Apply(f, acc + [a]), rest[1..])
      else if Head(rest, Comma) then ReadArgs(rest[1..], f, acc + [a])
      else No
  }

  function ReadBase(ts: seq<Tok>): (r: Read<Term>)
    ensures r.Got? ==> |r.rest| < |ts|
  {
    if |ts| > 2 && ts[0].Word? && ts[1].LP? then
      if ts[2].RP? then Got(Apply(ts[0].w, []), ts[3..]) else ReadArgs(ts[2..], ts[0].w, [])
    else ReadAtom(ts)
  }

  /** term := base [ ('+'|'-') INTERVAL ['-'] n SECOND ] */
  function ReadTerm(ts: seq<Tok>): (r: Read<Term>)
    ensures r.Got? ==> |r.rest| < |ts|
  {
    match ReadBase(ts)
    case No => No
    case Got(b, rest) =>
      if |rest| > 3 && (rest[0].Plus? || rest[0].Minus?) && rest[1] == Word("INTERVAL") then
        if rest[2].Number? && AllDigits(rest[2].digits) && rest[3] == Word("SECOND") then
          Got(Shifted(b, rest[0].Minus?, DigitsValue(rest[2].digits)), rest[4..])
        else if |rest| > 4 && rest[2].Minus? && rest[3].Number? && AllDigits(rest[3].digits)
             && rest[4] == Word("SECOND") then
          Got(Shifted(b, rest[0].Minus?, Negated(DigitsValue(rest[3].digits))), rest[5..])
        else No
      else Got(b, rest)
  }

  function Negated(n: int): int { -n }

  function ReadOr(ts: seq<Tok>): (r: Read<Cond>)
    ensures r.Got? ==> |r.rest| < |ts|
    decreases |ts|, 3
  {
    match ReadAnd(ts)
    case No => No
    case Got(c, rest) => ReadOrRest(c, rest)
  }

  function ReadOrRest(left: Cond, ts: seq<Tok>): (r: Read<Cond>)
    ensures r.Got? ==> |r.rest| <= |ts|
    decreases |ts|, 2
  {
    if !Head(ts, Word("OR")) then Got(left, ts)
    else match ReadAnd(ts[1..])
      case No => No
      case Got(c, rest) => ReadOrRest(Or(left, c), rest)
  }

  function ReadAnd(ts: seq<Tok>): (r: Read<Cond>)
    ensures r.Got? ==> |r.rest| < |ts|
    decreases |ts|, 2
  {
    match ReadPrim(ts)
    case No => No
    case Got(c, rest) => ReadAndRest(c, rest)
  }

  function ReadAndRest(left: Cond, ts: seq<Tok>): (r: Read<Cond>)
    ensures r.Got? ==> |r.rest| <= |ts|
    decreases |ts|, 1
  {
    if !Head(ts, Word("AND")) then Got(left, ts)
    else match ReadPrim(ts[1..])
      case No => No
      case Got(c, rest) => ReadAndRest(And(left, c), rest)
  }

  function ReadPrim(ts: seq<Tok>): (r: Read<Cond>)
    ensures r.Got? ==> |r.rest| < |ts|
    decreases |ts|, 1
  {
    if Head(ts, LP) then
      match ReadOr(ts[1..])
      case No => No
      case Got(c, rest) => if Head(rest, RP) then Got(c, rest[1..]) else No
    else match ReadTerm(ts)
      case No => No
      case Got(l, rest) =>
        if rest != [] && rest[0].Cmp? then
          match ReadTerm(rest[1..])
          case No => No
          case Got(r, rest') => Got(Compare(l, rest[0].op, r), rest')
        else Got(Holds(l), rest)
  }

  // ---------------------------------------------------------------- meaning

  datatype Json =
    | JNull
    | JBool(b: bool)
    | JNum(n: real)
    | JStr(s: string)
    | JArr(items: seq<Json>)
    | JObj(fields: map<string, Json>)

  datatype Val =
    | Text(s: string)
    | Num(n: int)
    | Time(ns: int)
    | Labels(m: map<string, string>)
    | Items(items: seq<string>)
    | Truth(b: bool)
    | Null

  /** One row, one clock, and the two library functions the text may call on. */
  datatype Env = Env(
    row: map<string, Val>,
    now: int,
    json: string -> Option<Json>,
    hasToken: (string, string) -> bool)

  const NANOS := 1_000_000_000

  function JsonAt(j: Json, path: seq<string>): Option<Json> {
    if path == [] then Some(j)
    else if j.JObj? && path[0] in j.fields then JsonAt(j.fields[path[0]], path[1..])
    else None
  }

  /** JSONExtractString: the string at the path, or the empty string. */
  function JsonText(env: Env, column: string, path: seq<string>): string {
    match Get(env, column)
    case Text(s) => (
      match env.json(s)
      case None => ""
      case Some(j) => match JsonAt(j, path) case Some(JStr(t)) => t case _ => "")
    case _ => ""
  }

  function Get(env: Env, column: string): Val {
    if column in env.row then env.row[column] else Null
  }

  /** 1-based position, 0 when absent. */
  function IndexOf(items: seq<string>, s: string): nat {
    if items == [] then 0
    else if items[|items| - 1] == s && s !in items[..|items| - 1] then |items|
    else IndexOf(items[..|items| - 1], s)
  }

  predicate OpHolds(op: string, c: int) {
    match op
    case "=" => c == 0
    case "==" => c == 0
    case "!=" => c != 0
    case "<" => c < 0
    case ">" => c > 0
    case "<=" => c <= 0
    case ">=" => c >= 0
    case _ => false
  }

  /** Values compare within their own type only; coercions are not modelled. */
  predicate Compares(op: string, a: Val, b: Val) {
    match (a, b)
    case (Text(x), Text(y)) => OpHolds(op, Order(x, y))
    case (Num(x), Num(y)) => OpHolds(op, x - y)
    case (Time(x), Time(y)) => OpHolds(op, x - y)
    case _ => false
  }

  predicate AllLiterals(args: seq<Term>) {
    forall a :: a in args ==> a.Literal?
  }

  function LiteralTexts(args: seq<Term>): seq<string>
    requires AllLiterals(args)
  {
    seq(|args|, i requires 0 <= i < |args| => args[i].s)
  }

  function EvalAtom(t: Term, env: Env): Val {
    match t
    case Column(c) => Get(env, c)
    case Literal(s) => Text(s)
    case Numeral(d) => if AllDigits(d) then Num(DigitsValue(d)) else Null
    case Array(items) => Items(items)
    case Subscript(c, k) => (
      match Get(env, c)
      case Labels(m) => Text(if k in m then m[k] else "")
      case _ => Null)
    case _ => Null
  }

  function EvalCall(f: string, args: seq<Term>, env: Env): Val {
    if f == "now" && args == [] then Time(env.now)
    else if f == "JSONExtractString" && args != [] && args[0].Column? && AllLiterals(args[1..]) then
      Text(JsonText(env, args[0].name, LiteralTexts(args[1..])))
    else if f == "indexOf" && |args| == 2 then
      (match (EvalAtom(args[0], env), EvalAtom(args[1], env))
       case (Items(xs), Text(s)) => Num(IndexOf(xs, s))
       case _ => Null)
    else if f == "hasTokenCaseInsensitive" && |args| == 2 then
      (match (EvalAtom(args[0], env), EvalAtom(args[1], env))
       case (Text(m), Text(s)) => Truth(env.hasToken(m, s))
       case _ => Null)
    else Null
  }

  function EvalTerm(t: Term, env: Env): Val {
    match t
    case Apply(f, args) => EvalCall(f, args, env)
    case Shifted(b, minus, n) => (
      match EvalTerm(b, env)
      case Time(x) => Time(if minus then x - n * NANOS else x + n * NANOS)
      case _ => Null)
    case _ => EvalAtom(t, env)
  }

  predicate EvalCond(c: Cond, env: Env) {
    match c
    case And(l, r) => EvalCond(l, env) && EvalCond(r, env)
    case Or(l, r) => EvalCond(l, env) || EvalCond(r, env)
    case Compare(l, op, r) => Compares(op, EvalTerm(l, env), EvalTerm(r, env))
    case Holds(t) => EvalTerm(t, env) == Truth(true)
  }
}
