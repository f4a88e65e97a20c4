/** Statements and programs. */
module RemapRun {
  import opened Text
  import opened S = RemapSyntax
  import opened J = RemapJson

  /** Library routines whose results no law depends on: JSON printing and Unicode case mapping. */
  datatype Lib = Lib(show: Json -> string, upper: string -> string, lower: string -> string)

  // ---------------------------------------------------------------- evaluation

  function ToStr(lib: Lib, v: Json): string {
    match v
    case Str(s) => s
    case Null => ""
    case _ => lib.show(v)
  }

  function ToNum(v: Json): Option<S.Num> {
    match v
    case Int(n) => Some(Fin(n as real))
    case Float(x) => Some(Fin(x))
    case Str(s) => ParseFloat(s)
    case Bool(b) => Some(Fin(if b then 1.0 else 0.0))
    case _ => None
  }

  function JsonNum(n: S.Num): Json {
    if !n.Fin? then J.Null
    else if n.value == n.value.Floor as real && -9007000000000000.0 < n.value < 9007000000000000.0 then
      J.Int(n.value.Floor)
    else J.Float(n.value)
  }

  function Truncated(n: S.Num): S.Num {
    if !n.Fin? then n
    else if n.value < 0.0 then Fin(-((-n.value).Floor as real))
    else Fin(n.value.Floor as real)
  }

  function Eval(lib: Lib, e: S.Expr, ev: Json): Result<Json>
    decreases e, 0
  {
    match e
    case Str(s) => Ok(J.Str(s))
    case Num(n) => Ok(JsonNum(n))
    case Bool(b) => Ok(J.Bool(b))
    case Path(p) => Ok(match Get(ev, p) case Some(v) => v case None => J.Null)
    case Call(name, args) =>
      if name == "concat" then Concat(lib, args, ev, "")
      else if name == "coalesce" then Coalesce(lib, args, ev)
      else if name == "to_string" || name == "upcase" || name == "downcase" || name == "to_int" || name == "to_float" then
        if args == [] then Err
        else match Eval(lib, args[0], ev)
          case Err => Err
          case Ok(v) => Convert(lib, name, v)
      else Err
  }

  function Convert(lib: Lib, name: string, v: Json): Result<Json> {
    if name == "to_string" then Ok(J.Str(ToStr(lib, v)))
    else if name == "upcase" then Ok(J.Str(lib.upper(ToStr(lib, v))))
    else if name == "downcase" then Ok(J.Str(lib.lower(ToStr(lib, v))))
    else match ToNum(v)
      case None => Err
      case Some(n) => Ok(JsonNum(if name == "to_int" then Truncated(n) else n))
  }

  function Concat(lib: Lib, args: seq<S.Expr>, ev: Json, acc: string): Result<Json>
    decreases args, 1
  {
    if args == [] then Ok(J.Str(acc))
    else match Eval(lib, args[0], ev)
      case Err => Err
      case Ok(v) => Concat(lib, args[1..], ev, acc + ToStr(lib, v))
  }

  function Coalesce(lib: Lib, args: seq<S.Expr>, ev: Json): Result<Json>
    decreases args, 1
  {
    if args == [] then Ok(J.Null)
    else match Eval(lib, args[0], ev)
      case Err => Err
      case Ok(v) => if v != J.Null && v != J.Str("") then Ok(v) else Coalesce(lib, args[1..], ev)
  }

  function OrNull(v: Option<Json>): Json { match v case Some(w) => w case None => J.Null }

  function ValueOr(r: Result<Json>): Json { match r case Ok(v) => v case Err => J.Null }

  /** IEEE order: nothing is below or above NaN. */
  predicate NumLess(a: S.Num, b: S.Num) {
    match (a, b)
    case (NaN, _) => false
    case (_, NaN) => false
    case (Infinite(n), Infinite(m)) => n && !m
    case (Infinite(n), Fin(_)) => n
    case (Fin(_), Infinite(m)) => !m
    case (Fin(x), Fin(y)) => x < y
  }

  predicate Below(a: Option<S.Num>, b: Option<S.Num>) { a.Some? && b.Some? && NumLess(a.value, b.value) }

  function NumOf(v: Option<Json>): Option<S.Num> { if v.Some? then ToNum(v.value) else None }

  predicate Holds(lib: Lib, c: Cond, ev: Json) {
    match c
    case Exists(p) => Get(ev, p).Some?
    case Absent(p) => Get(ev, p).None?
    case Compare(op, p, e) =>
      var left, right := Get(ev, p), Eval(lib, e, ev);
      var rightNum := if right.Ok? then ToNum(right.value) else None;
      match op
      case Eq => OrNull(left) == ValueOr(right)
      case Ne => OrNull(left) != ValueOr(right)
      case Lt => Below(NumOf(left), rightNum)
      case Gt => Below(rightNum, NumOf(left))
  }

  // ---------------------------------------------------------------- statements

  /** Every path has a segment: what the parser guarantees. */
  predicate WfStmt(st: S.Stmt) {
    match st
    case Set(p, _) => p != []
    case Del(p) => p != []
    case Redact(p) => p != []
    case Rename(a, b) => a != [] && b != []
    case If(_, body) => WfStmt(body)
    case Route(_) => true
  }

  const TABLES: seq<string> := ["logs", "metrics", "traces", "auth_events", "change_events"]

  /** The event after the statement and the route it asks for; an error keeps the event. */
  datatype Effect = Effect(event: Json, route: Option<string>) | Fault

  function Exec(lib: Lib, st: S.Stmt, ev: Json): Effect
    requires WfStmt(st)
  {
    match st
    case If(c, body) => if Holds(lib, c, ev) then Exec(lib, body, ev) else Effect(ev, None)
    case Route(t) => if t in TABLES then Effect(ev, Some(t)) else Fault
    case Set(p, e) => (match Eval(lib, e, ev) case Err => Fault case Ok(v) => Effect(Put(ev, p, v), None))
    case Del(p) => Effect(Drop(ev, p), None)
    case Redact(p) => Effect(Redacted(ev, p), None)
    case Rename(a, b) => Effect(Renamed(ev, a, b), None)
  }

  function After(lib: Lib, st: S.Stmt, ev: Json): Json
    requires WfStmt(st)
  {
    match Exec(lib, st, ev) case Effect(ev', _) => ev' case Fault => ev
  }

  // ---------------------------------------------------------------- what a statement does, read by read

  /** v stands at p with all that is below it, and every path apart from p reads as before. */
  ghost predicate Written(ev: Json, ev': Json, p: Key, v: Json) {
    && (forall below: Key :: Get(ev', p + below) == Get(v, below))
    && (forall q: Key :: Apart(p, q) ==> Get(ev', q) == Get(ev, q))
  }

  /** p and all below it are gone, every path apart from p reads as before, and what is above p
      is there iff it was: still an object, or untouched. */
  ghost predicate Removed(ev: Json, ev': Json, p: Key) {
    && (forall below: Key :: Get(ev', p + below) == None)
    && (forall q: Key :: Apart(p, q) ==> Get(ev', q) == Get(ev, q))
    && (forall q: Key :: q < p ==>
          Get(ev', q) == Get(ev, q) || (Get(ev', q).Some? && Get(ev, q).Some? && Get(ev', q).value.Obj? && Get(ev, q).value.Obj?))
  }

  /** Moved whole from a to b; a is gone unless b stands in the way. */
  ghost predicate Moved(ev: Json, ev': Json, a: Key, b: Key, v: Json) {
    && (exists mid :: Removed(ev, mid, a) && Written(mid, ev', b, v))
    && (forall below: Key :: Get(ev', b + below) == Get(v, below))
    && (Apart(a, b) ==> Get(ev', a) == None)
    && (forall q: Key :: Apart(a, q) && Apart(b, q) ==> Get(ev', q) == Get(ev, q))
  }

  ghost predicate Did(lib: Lib, st: S.Stmt, ev: Json, ev': Json)
    requires WfStmt(st)
  {
    match st
    case If(c, body) => if Holds(lib, c, ev) then Did(lib, body, ev, ev') else ev' == ev
    case Route(_) => ev' == ev
    case Set(p, e) => (match Eval(lib, e, ev) case Err => ev' == ev case Ok(v) => Written(ev, ev', p, v))
    case Del(p) => Removed(ev, ev', p)
    case Redact(p) => if Get(ev, p).Some? then Written(ev, ev', p, J.Str("[REDACTED]")) else ev' == ev
    case Rename(a, b) => (match Get(ev, a) case None => ev' == ev case Some(v) => Moved(ev, ev', a, b, v))
  }

  /** What a statement answers: the five tables can be routed to, a value that cannot be computed
      is an error, everything else succeeds without a route. */
  predicate Answers(lib: Lib, st: S.Stmt, ev: Json, r: Result<Option<string>>)
    requires WfStmt(st)
  {
    match st
    case If(c, body) => if Holds(lib, c, ev) then Answers(lib, body, ev, r) else r == Ok(None)
    case Route(t) => r == if t in {"logs", "metrics", "traces", "auth_events", "change_events"} then Ok(Some(t)) else Err
    case Set(p, e) => r == if Eval(lib, e, ev).Ok? then Ok(None) else Err
    case _ => r == Ok(None)
  }

  lemma PutWrites(ev: Json, p: Key, v: Json)
    requires p != []
    ensures Written(ev, Put(ev, p, v), p, v)
  {
    forall below: Key ensures Get(Put(ev, p, v), p + below) == Get(v, below) { GetPut(ev, p, v, below); }
    forall q: Key | Apart(p, q) ensures Get(Put(ev, p, v), q) == Get(ev, q) { GetApartPut(ev, p, v, q); }
  }

  lemma DropRemoves(ev: Json, p: Key)
    requires p != []
    ensures Removed(ev, Drop(ev, p), p)
  {
    forall below: Key ensures Get(Drop(ev, p), p + below) == None { GetDrop(ev, p, below); }
    forall q: Key | Apart(p, q) ensures Get(Drop(ev, p), q) == Get(ev, q) { GetApartDrop(ev, p, q); }
    forall q: Key | q < p
      ensures Get(Drop(ev, p), q) == Get(ev, q)
           || (Get(Drop(ev, p), q).Some? && Get(ev, q).Some? && Get(Drop(ev, p), q).value.Obj? && Get(ev, q).value.Obj?)
    {
      assert p == q + p[|q|..];
      GetAboveDrop(ev, q, p[|q|..]);
    }
  }

  lemma RenameMoves(ev: Json, a: Key, b: Key, v: Json)
    requires a != [] && b != [] && Get(ev, a) == Some(v)
    ensures Moved(ev, Renamed(ev, a, b), a, b, v)
  {
    DropRemoves(ev, a);
    PutWrites(Drop(ev, a), b, v);
    RenameSource(ev, a, b, v);
  }

  /** Every statement does to the event what its kind promises, and answers accordingly. */
  lemma {:induction false} StatementDoes(lib: Lib, st: S.Stmt, ev: Json)
    requires WfStmt(st)
    ensures Did(lib, st, ev, After(lib, st, ev))
    ensures Answers(lib, st, ev, match Exec(lib, st, ev) case Effect(_, route) => Ok(route) case Fault => Err)
  {
    match st
    case If(c, body) => StatementDoes(lib, body, ev);
    case Route(t) =>
    case Set(p, e) =>
      if Eval(lib, e, ev).Ok? {
        PutWrites(ev, p, Eval(lib, e, ev).value);
      }
    case Del(p) => DropRemoves(ev, p);
    case Redact(p) => PutWrites(ev, p, REDACTED);
    case Rename(a, b) =>
      if Get(ev, a).Some? {
        RenameMoves(ev, a, b, Get(ev, a).value);
      }
  }

  predicate WfProgram(prog: seq<S.Stmt>) { forall i :: 0 <= i < |prog| ==> WfStmt(prog[i]) }

  /** The event after the first n statements. */
  function EventAt(lib: Lib, prog: seq<S.Stmt>, ev: Json, n: nat): Json
    requires WfProgram(prog) && n <= |prog|
  {
    if n == 0 then (if ev.Obj? then ev else Obj(map[]))
    else After(lib, prog[n - 1], EventAt(lib, prog, ev, n - 1))
  }

  /** What statement k did in the run. */
  function EffectAt(lib: Lib, prog: seq<S.Stmt>, ev: Json, k: nat): Effect
    requires WfProgram(prog) && k < |prog|
  {
    Exec(lib, prog[k], EventAt(lib, prog, ev, k))
  }

  ghost predicate Routes(lib: Lib, prog: seq<S.Stmt>, ev: Json, k: nat)
    requires WfProgram(prog) && k < |prog|
  {
    EffectAt(lib, prog, ev, k).Effect? && EffectAt(lib, prog, ev, k).route.Some?
  }

  /** The statements among the first n that failed. */
  ghost function Failures(lib: Lib, prog: seq<S.Stmt>, ev: Json, n: nat): set<nat>
    requires WfProgram(prog) && n <= |prog|
  {
    set k: nat | k < n && EffectAt(lib, prog, ev, k).Fault?
  }

  /** The route is that of the last statement that succeeded with one. */
  ghost predicate LastRoute(lib: Lib, prog: seq<S.Stmt>, ev: Json, n: nat, route: Option<string>)
    requires WfProgram(prog) && n <= |prog|
  {
    match route
    case None => forall k: nat :: k < n ==> !Routes(lib, prog, ev, k)
    case Some(t) => exists k: nat :: k < n && IsLast(lib, prog, ev, n, k) && EffectAt(lib, prog, ev, k).route == Some(t)
  }

  ghost predicate IsLast(lib: Lib, prog: seq<S.Stmt>, ev: Json, n: nat, k: nat)
    requires WfProgram(prog) && k < n <= |prog|
  {
    Routes(lib, prog, ev, k) && forall j: nat :: k < j < n ==> !Routes(lib, prog, ev, j)
  }

  datatype Report = Report(applied: nat, errors: nat, route: Option<string>)

  // ---------------------------------------------------------------- in place

  /** The values on the way down a path, rebuilt around a new value at its end. */
  ghost function Rebuild(spine: seq<map<string, Json>>, p: Key, cur: Json): Json
    requires |spine| == |p|
  {
    if spine == [] then cur
    else
      var k := |p| - 1;
      Rebuild(spine[..k], p[..k], Obj(spine[k][p[k] := cur]))
  }

  lemma DescendPut(spine: seq<map<string, Json>>, path: Key, i: nat, cur: Json, x: Json)
    requires |spine| == i < |path| - 1
    ensures Rebuild(spine + [Fields(cur)], path[..i + 1], Put(Child(cur, path[i]), path[i + 1..], x))
         == Rebuild(spine, path[..i], Put(cur, path[i..], x))
  {
    assert (spine + [Fields(cur)])[..i] == spine && path[..i + 1][..i] == path[..i];
    assert path[i..][1..] == path[i + 1..];
  }

  lemma DescendDrop(spine: seq<map<string, Json>>, path: Key, i: nat, cur: Json)
    requires |spine| == i < |path| - 1 && cur.Obj? && path[i] in cur.fields
    ensures Rebuild(spine + [cur.fields], path[..i + 1], Drop(cur.fields[path[i]], path[i + 1..]))
         == Rebuild(spine, path[..i], Drop(cur, path[i..]))
  {
    assert (spine + [cur.fields])[..i] == spine && path[..i + 1][..i] == path[..i];
    assert path[i..][1..] == path[i + 1..];
  }

  /** An event object that statements change. */
  class Event {
    var root: Json

    constructor (root: Json)
      ensures this.root == root
    {
      this.root := root;
    }

    method WriteBack(spine: seq<map<string, Json>>, path: Key, value: Json)
      requires |spine| == |path|
      modifies this
      ensures root == Rebuild(spine, path, value)
    {
      var cur, k := value, |path|;
      assert spine[..k] == spine && path[..k] == path;
      while k > 0
        invariant 0 <= k <= |path|
        invariant Rebuild(spine[..k], path[..k], cur) == Rebuild(spine, path, value)
      {
        k := k - 1;
        assert spine[..k + 1][..k] == spine[..k] && path[..k + 1][..k] == path[..k];
        cur := Obj(spine[k][path[k] := cur]);
      }
      root := cur;
    }

    method SetPath(path: Key, x: Json)
      requires path != []
      modifies this
      ensures root == Put(old(root), path, x)
    {
      var cur, spine: seq<map<string, Json>> := root, [];
      var last := |path| - 1;
      assert path[..0] == [] && path[0..] == path;
      for i := 0 to last
        invariant |spine| == i && root == old(root)
        invariant Rebuild(spine, path[..i], Put(cur, path[i..], x)) == Put(root, path, x)
      {
        DescendPut(spine, path, i, cur, x);
        if !cur.Obj? {
          cur := Obj(map[]);
        }
        var fields := cur.fields;
        spine := spine + [fields];
        cur := if path[i] in fields then fields[path[i]] else Obj(map[]);
      }
      assert path[last..] == [path[last]];
      assert Put(cur, path[last..], x) == Obj(Fields(cur)[path[last] := x]);
      if !cur.Obj? {
        cur := Obj(map[]);
      }
      WriteBack(spine, path[..last], Obj(cur.fields[path[last] := x]));
    }

    method DelPath(path: Key)
      requires path != []
      modifies this
      ensures root == Drop(old(root), path)
    {
      var cur, spine: seq<map<string, Json>> := root, [];
      var last := |path| - 1;
      assert path[..0] == [] && path[0..] == path;
      for i := 0 to last
        invariant |spine| == i && root == old(root)
        invariant Rebuild(spine, path[..i], Drop(cur, path[i..])) == Drop(root, path)
        invariant Rebuild(spine, path[..i], cur) == root
      {
        assert path[i..][0] == path[i];
        if !cur.Obj? || path[i] !in cur.fields {
          assert Drop(cur, path[i..]) == cur;
          return;
        }
        DescendDrop(spine, path, i, cur);
        assert (spine + [cur.fields])[..i] == spine && path[..i + 1][..i] == path[..i];
        assert cur.fields[path[i] := cur.fields[path[i]]] == cur.fields;
        spine := spine + [cur.fields];
        cur := cur.fields[path[i]];
      }
      assert path[last..] == [path[last]];
      if cur.Obj? {
        assert path[last] !in cur.fields ==> cur.fields - {path[last]} == cur.fields;
        assert Drop(cur, path[last..]) == Obj(cur.fields - {path[last]});
        WriteBack(spine, path[..last], Obj(cur.fields - {path[last]}));
      }
    }

    method ExecTop(lib: Lib, st: S.Stmt) returns (r: Result<Option<string>>)
      requires WfStmt(st)
      modifies this
      ensures root == After(lib, st, old(root))
      ensures r == match Exec(lib, st, old(root)) case Effect(_, route) => Ok(route) case Fault => Err
      ensures Did(lib, st, old(root), root) && Answers(lib, st, old(root), r)
      decreases st
    {
      StatementDoes(lib, st, root);
      match st {
        case If(c, body) =>
          if Holds(lib, c, root) {
            r := ExecTop(lib, body);
          } else {
            r := Ok(None);
          }
        case Route(t) =>
          r := if t in TABLES then Ok(Some(t)) else Err;
        case Set(p, e) =>
          var v := Eval(lib, e, root);
          if v.Err? {
            return Err;
          }
          SetPath(p, v.value);
          r := Ok(None);
        case Del(p) =>
          DelPath(p);
          r := Ok(None);
        case Redact(p) =>
          if Get(root, p).Some? {
            SetPath(p, REDACTED);
          }
          r := Ok(None);
        case Rename(a, b) =>
          var v := Get(root, a);
          if v.Some? {
            DelPath(a);
            SetPath(b, v.value);
          }
          r := Ok(None);
      }
    }

    /** The whole program, fail-open: the event is that of the statements in turn, every statement
        is either applied or an error, and the route is the last successful one. */
    method Apply(lib: Lib, prog: seq<S.Stmt>) returns (report: Report)
      requires WfProgram(prog)
      modifies this
      ensures root == EventAt(lib, prog, old(root), |prog|)
      ensures report.applied + report.errors == |prog|
      ensures report.errors == |Failures(lib, prog, old(root), |prog|)|
      ensures LastRoute(lib, prog, old(root), |prog|, report.route)
    {
      ghost var ev := root;
      if !root.Obj? {
        root := Obj(map[]);
      }
      var applied, errors, route: Option<string> := 0, 0, None;
      for i := 0 to |prog|
        invariant root == EventAt(lib, prog, ev, i)
        invariant applied + errors == i
        invariant errors == |Failures(lib, prog, ev, i)|
        invariant LastRoute(lib, prog, ev, i, route)
      {
        FailuresStep(lib, prog, ev, i);
        RouteStep(lib, prog, ev, i, route);
        var r := ExecTop(lib, prog[i]);
        match r {
          case Ok(maybe) =>
            if maybe.Some? {
              route := maybe;
            }
            applied := applied + 1;
          case Err =>
            errors := errors + 1;
        }
      }
      return Report(applied, errors, route);
    }

    /** A tenant's program text on an event: one that does not parse or is empty leaves the event
        alone, any other is fit to be applied. */
    method Transform(lib: Lib, src: string) returns (r: Outcome<Report>)
      modifies this
      ensures match ParseProgram(src)
              case Value(prog) =>
                && WfProgram(prog) && |prog| <= MAX_STATEMENTS
                && root == (if prog == [] then old(root) else EventAt(lib, prog, old(root), |prog|))
                && r.Value? && r.value.applied + r.value.errors == |prog|
                && LastRoute(lib, prog, old(root), |prog|, r.value.route)
              case _ => root == old(root) && r == ParseProgram(src).PropagateFailure()
    {
      var parsed := ParseLoop(src);
      if !parsed.Value? {
        return parsed.PropagateFailure();
      }
      ParsedProgramWf(Lines(src), 0);
      if parsed.value == [] {
        return Value(Report(0, 0, None));
      }
      var report := Apply(lib, parsed.value);
      return Value(report);
    }
  }

  lemma FailuresStep(lib: Lib, prog: seq<S.Stmt>, ev: Json, n: nat)
    requires WfProgram(prog) && n < |prog|
    ensures |Failures(lib, prog, ev, n + 1)|
         == |Failures(lib, prog, ev, n)| + if EffectAt(lib, prog, ev, n).Fault? then 1 else 0
  {
    var now := Failures(lib, prog, ev, n);
    assert Failures(lib, prog, ev, n + 1) == if EffectAt(lib, prog, ev, n).Fault? then now + {n} else now;
  }

  lemma RouteStep(lib: Lib, prog: seq<S.Stmt>, ev: Json, n: nat, route: Option<string>)
    requires WfProgram(prog) && n < |prog| && LastRoute(lib, prog, ev, n, route)
    ensures LastRoute(lib, prog, ev, n + 1,
                      if Routes(lib, prog, ev, n) then EffectAt(lib, prog, ev, n).route else route)
  {
    if Routes(lib, prog, ev, n) {
      assert IsLast(lib, prog, ev, n + 1, n);
    } else if route.Some? {
      var k: nat :| k < n && IsLast(lib, prog, ev, n, k) && EffectAt(lib, prog, ev, k).route == route;
      StaysLast(lib, prog, ev, n, k);
    }
  }

  lemma StaysLast(lib: Lib, prog: seq<S.Stmt>, ev: Json, n: nat, k: nat)
    requires WfProgram(prog) && k < n < |prog| && IsLast(lib, prog, ev, n, k) && !Routes(lib, prog, ev, n)
    ensures IsLast(lib, prog, ev, n + 1, k)
  {}

  // ---------------------------------------------------------------- laws

  /** A failing statement leaves the event as it was: the run is the run without it. */
  lemma {:induction false} FailOpen(lib: Lib, prog: seq<S.Stmt>, ev: Json, k: nat, n: nat)
    requires WfProgram(prog) && k < n <= |prog| && EffectAt(lib, prog, ev, k).Fault?
    ensures WfProgram(prog[..k] + prog[k + 1..])
    ensures EventAt(lib, prog[..k] + prog[k + 1..], ev, n - 1) == EventAt(lib, prog, ev, n)
    decreases n
  {
    var rest := prog[..k] + prog[k + 1..];
    if n == k + 1 {
      SamePrefix(lib, prog, rest, ev, k);
    } else {
      FailOpen(lib, prog, ev, k, n - 1);
      assert rest[n - 2] == prog[n - 1];
    }
  }

  lemma {:induction false} SamePrefix(lib: Lib, a: seq<S.Stmt>, b: seq<S.Stmt>, ev: Json, n: nat)
    requires WfProgram(a) && WfProgram(b) && n <= |a| && n <= |b| && a[..n] == b[..n]
    ensures EventAt(lib, a, ev, n) == EventAt(lib, b, ev, n)
  {
    if n > 0 {
      assert a[..n - 1] == a[..n][..n - 1] && b[..n - 1] == b[..n][..n - 1];
      assert a[n - 1] == a[..n][n - 1] && b[n - 1] == b[..n][n - 1];
      SamePrefix(lib, a, b, ev, n - 1);
    }
  }

  /** The event stays an object through any program. */
  lemma {:induction false} StaysObject(lib: Lib, prog: seq<S.Stmt>, ev: Json, n: nat)
    requires WfProgram(prog) && n <= |prog|
    ensures EventAt(lib, prog, ev, n).Obj?
  {
    if n > 0 {
      StaysObject(lib, prog, ev, n - 1);
      ExecObject(lib, prog[n - 1], EventAt(lib, prog, ev, n - 1));
    }
  }

  lemma {:induction false} ExecObject(lib: Lib, st: S.Stmt, ev: Json)
    requires WfStmt(st) && ev.Obj?
    ensures After(lib, st, ev).Obj?
  {
    if st.If? {
      ExecObject(lib, st.body, ev);
    }
  }

  lemma IfParsed(line: string, word: string, rest: string, c: Outcome<(Cond, string)>)
    requires (word, rest) == SplitFirstWord(line) && KeywordOf(word) == IfWord && c == ParseCond(Trim(rest))
    requires ParseStmt(line).Value?
    ensures c.Value? && ParseStmt(Trim(c.value.1)).Value?
    ensures ParseStmt(line).value == If(c.value.0, ParseStmt(Trim(c.value.1)).value)
  {}

  lemma LeafParsed(line: string, word: string, rest: string)
    requires (word, rest) == SplitFirstWord(line) && KeywordOf(word) != IfWord && ParseStmt(line).Value?
    ensures ParseLeaf(KeywordOf(word), rest) == ParseStmt(line)
  {}

  /** The parser hands over only statements whose paths have a segment. */
  lemma {:induction false} ParsedStmtWf(line: string)
    requires ParseStmt(line).Value?
    ensures WfStmt(ParseStmt(line).value)
    decreases |line|
  {
    var (word, rest) := SplitFirstWord(line);
    if KeywordOf(word) == IfWord {
      var c := ParseCond(Trim(rest));
      IfParsed(line, word, rest, c);
      IfIsShorter(line, word, rest);
      ParsedStmtWf(Trim(c.value.1));
    } else {
      LeafParsed(line, word, rest);
      LeafWf(KeywordOf(word), rest);
    }
  }

  lemma LeafWf(kw: Keyword, rest: string)
    requires ParseLeaf(kw, rest).Value?
    ensures WfStmt(ParseLeaf(kw, rest).value)
  {}

  lemma {:induction false} ParsedProgramWf(lines: seq<string>, n: nat)
    requires ParseLines(ParseStmt, lines, n).Value?
    ensures WfProgram(ParseLines(ParseStmt, lines, n).value)
    ensures n <= MAX_STATEMENTS ==> |ParseLines(ParseStmt, lines, n).value| + n <= MAX_STATEMENTS
  {
    if lines != [] {
      var line := Trim(Strip(lines[0], false));
      if line == "" {
        ParsedProgramWf(lines[1..], n);
      } else {
        ParsedStmtWf(line);
        ParsedProgramWf(lines[1..], n + 1);
      }
    }
  }
}
