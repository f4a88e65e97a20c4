/**
  What expressions and conditions of the remap language mean (ingest/core/src/remap.rs:347-420,
  457-480), as a relation between an expression, an event and a value.
 */
module RemapLaws {
  import opened Text
  import opened S = RemapSyntax
  import opened J = RemapJson
  import opened RemapRun

  // ---------------------------------------------------------------- values

  /** A value as text: strings as they are, null as nothing, the rest in JSON notation. */
  ghost predicate Shown(lib: Lib, v: Json, s: string) {
    && (v.Str? ==> s == v.s) && (v.Null? ==> s == "") && (!v.Str? && !v.Null? ==> s == lib.show(v))
  }

  function Whole(k: int): real { k as real }

  /** A number as a value: whole numbers below 9.007e15 are integers, infinities and NaN are null. */
  ghost predicate Numeral(n: S.Num, v: Json) {
    match n
    case Fin(x) =>
      if exists k: int :: Whole(k) == x && -9007000000000000 < k < 9007000000000000 then v.Int? && Whole(v.n) == x
      else v == J.Float(x)
    case _ => v == J.Null
  }

  /** A value as a number: numbers, numeric text, and 1 or 0 for a boolean. */
  ghost predicate Counts(v: Json, n: S.Num) {
    || (v.Int? && n == Fin(v.n as real)) || (v.Float? && n == Fin(v.x)) || (v.Str? && ParseFloat(v.s) == Some(n))
    || (v == J.Bool(true) && n == Fin(1.0)) || (v == J.Bool(false) && n == Fin(0.0))
  }

  /** t is x without its fraction. */
  ghost predicate WithoutFraction(x: real, t: real) {
    && (exists k: int :: Whole(k) == t) && (if x < 0.0 then x <= t <= 0.0 && t - x < 1.0 else 0.0 <= t <= x && x - t < 1.0)
  }

  ghost predicate Cut(n: S.Num, m: S.Num) { if n.Fin? then m.Fin? && WithoutFraction(n.value, m.value) else m == n }

  ghost function Joined(texts: seq<string>): string { if texts == [] then "" else texts[0] + Joined(texts[1..]) }

  predicate Blank(v: Json) { v == J.Null || v == J.Str("") }

  predicate Blanks(vals: seq<Json>) { forall i :: 0 <= i < |vals| ==> Blank(vals[i]) }

  /** The expression has that value over the event. */
  ghost predicate Has(lib: Lib, e: S.Expr, ev: Json, v: Json)
    decreases e, 0
  {
    match e
    case Str(s) => v == J.Str(s)
    case Num(n) => Numeral(n, v)
    case Bool(b) => v == J.Bool(b)
    case Path(p) => v == if Get(ev, p).Some? then Get(ev, p).value else J.Null
    case Call(name, args) =>
      || (name == "concat" && exists vals: seq<Json>, texts: seq<string> ::
            Each(lib, args, ev, vals) && |texts| == |vals| && Texts(lib, vals, texts) && v == J.Str(Joined(texts)))
      || (name == "coalesce" && exists vals: seq<Json> :: Blanks(vals) && First(lib, args, ev, vals, v))
      || (args != [] && exists w :: Has(lib, args[0], ev, w) && Applied(lib, name, w, v))
  }

  ghost predicate Texts(lib: Lib, vals: seq<Json>, texts: seq<string>)
    requires |texts| == |vals|
  {
    forall i :: 0 <= i < |vals| ==> Shown(lib, vals[i], texts[i])
  }

  /** The values of the arguments, one by one. */
  ghost predicate Each(lib: Lib, args: seq<S.Expr>, ev: Json, vals: seq<Json>)
    decreases args, 1
  {
    |vals| == |args| && forall i {:trigger vals[i]} :: 0 <= i < |args| ==> Has(lib, args[i], ev, vals[i])
  }

  /** Arguments are valued up to the first that is neither null nor empty: that is the value, or
      null when there is none. */
  ghost predicate First(lib: Lib, args: seq<S.Expr>, ev: Json, vals: seq<Json>, v: Json)
    decreases args, 1
  {
    && |vals| <= |args| && (forall i {:trigger vals[i]} :: 0 <= i < |vals| ==> Has(lib, args[i], ev, vals[i]))
    && if |vals| == |args| then v == J.Null else Has(lib, args[|vals|], ev, v) && !Blank(v)
  }

  /** A function of one argument, on its value. */
  ghost predicate Applied(lib: Lib, name: string, w: Json, v: Json) {
    || (name == "to_string" && exists s :: Shown(lib, w, s) && v == J.Str(s))
    || (name == "upcase" && exists s :: Shown(lib, w, s) && v == J.Str(lib.upper(s)))
    || (name == "downcase" && exists s :: Shown(lib, w, s) && v == J.Str(lib.lower(s)))
    || (name == "to_float" && exists n :: Counts(w, n) && Numeral(n, v))
    || (name == "to_int" && exists n, m :: Counts(w, n) && Cut(n, m) && Numeral(m, v))
  }

  lemma ShownIs(lib: Lib, v: Json, s: string)
    ensures Shown(lib, v, s) <==> s == ToStr(lib, v)
  {}

  lemma NumeralIs(n: S.Num, v: Json)
    ensures Numeral(n, v) <==> v == JsonNum(n)
  {
    if n.Fin? {
      assert Whole(n.value.Floor) == n.value.Floor as real;
    }
  }

  lemma CountsIs(v: Json, n: S.Num)
    ensures Counts(v, n) <==> ToNum(v) == Some(n)
  {}

  lemma CutIs(n: S.Num, m: S.Num)
    ensures Cut(n, m) <==> m == Truncated(n)
  {
    if n.Fin? && m.Fin? {
      var t := Truncated(n).value;
      assert Whole(if n.value < 0.0 then -(-n.value).Floor else n.value.Floor) == t;
      if WithoutFraction(n.value, m.value) {
        var k: int :| Whole(k) == m.value;
        assert n.value < 0.0 ==> -k == (-n.value).Floor;
        assert n.value >= 0.0 ==> k == n.value.Floor;
      }
    }
  }

  lemma TextApplied(lib: Lib, name: string, w: Json, v: Json)
    requires name in {"to_string", "upcase", "downcase"}
    ensures Applied(lib, name, w, v) <==> Convert(lib, name, w) == Ok(v)
  {
    var s := ToStr(lib, w);
    ShownIs(lib, w, s);
    if Applied(lib, name, w, v) {
      var s' :| Shown(lib, w, s') && v in {J.Str(s'), J.Str(lib.upper(s')), J.Str(lib.lower(s'))};
      ShownIs(lib, w, s');
    }
  }

  lemma FloatApplied(w: Json, v: Json)
    ensures (exists n :: Counts(w, n) && Numeral(n, v))
       <==> ToNum(w).Some? && v == JsonNum(ToNum(w).value)
  {
    if ToNum(w).Some? {
      CountsIs(w, ToNum(w).value);
      NumeralIs(ToNum(w).value, v);
    }
    if n :| Counts(w, n) && Numeral(n, v) {
      CountsIs(w, n);
      NumeralIs(n, v);
    }
  }

  lemma IntApplied(w: Json, v: Json)
    ensures (exists n, m :: Counts(w, n) && Cut(n, m) && Numeral(m, v))
       <==> ToNum(w).Some? && v == JsonNum(Truncated(ToNum(w).value))
  {
    if ToNum(w).Some? {
      var n := ToNum(w).value;
      CountsIs(w, n);
      CutIs(n, Truncated(n));
      NumeralIs(Truncated(n), v);
    }
    if n, m :| Counts(w, n) && Cut(n, m) && Numeral(m, v) {
      CountsIs(w, n);
      CutIs(n, m);
      NumeralIs(m, v);
    }
  }

  lemma AppliedIs(lib: Lib, name: string, w: Json, v: Json)
    requires name in {"to_string", "upcase", "downcase", "to_int", "to_float"}
    ensures Applied(lib, name, w, v) <==> Convert(lib, name, w) == Ok(v)
  {
    if name in {"to_string", "upcase", "downcase"} {
      TextApplied(lib, name, w, v);
    } else {
      FloatApplied(w, v);
      IntApplied(w, v);
    }
  }

  // ---------------------------------------------------------------- expressions

  /** What evaluation returns is a value of the expression. */
  lemma {:induction false} EvalHas(lib: Lib, e: S.Expr, ev: Json, v: Json)
    requires Eval(lib, e, ev) == Ok(v)
    ensures Has(lib, e, ev, v)
    decreases e, 0
  {
    match e
    case Str(_) =>
    case Num(n) => NumeralIs(n, v);
    case Bool(_) =>
    case Path(_) =>
    case Call(name, args) =>
      if name == "concat" {
        var vals, texts := ConcatHas(lib, args, ev, "", v);
        assert "" + Joined(texts) == Joined(texts);
      } else if name == "coalesce" {
        var vals := CoalesceHas(lib, args, ev, v);
      } else {
        var w := Eval(lib, args[0], ev).value;
        EvalHas(lib, args[0], ev, w);
        AppliedIs(lib, name, w, v);
      }
  }

  lemma {:induction false} ConcatHas(lib: Lib, args: seq<S.Expr>, ev: Json, acc: string, v: Json)
      returns (vals: seq<Json>, texts: seq<string>)
    requires Concat(lib, args, ev, acc) == Ok(v)
    ensures Each(lib, args, ev, vals) && |texts| == |vals| && Texts(lib, vals, texts) && v == J.Str(acc + Joined(texts))
    decreases args, 1
  {
    if args == [] {
      vals, texts := [], [];
      assert acc + Joined(texts) == acc;
    } else {
      var w := Eval(lib, args[0], ev).value;
      var s := ToStr(lib, w);
      EvalHas(lib, args[0], ev, w);
      var vs, ts := ConcatHas(lib, args[1..], ev, acc + s, v);
      OneMore(lib, args, ev, w, vs, s, ts);
      assert acc + s + Joined(ts) == acc + (s + Joined(ts));
      vals, texts := [w] + vs, [s] + ts;
    }
  }

  lemma {:induction false} CoalesceHas(lib: Lib, args: seq<S.Expr>, ev: Json, v: Json) returns (vals: seq<Json>)
    requires Coalesce(lib, args, ev) == Ok(v)
    ensures Blanks(vals) && First(lib, args, ev, vals, v)
    decreases args, 1
  {
    vals := [];
    if args != [] {
      var w := Eval(lib, args[0], ev).value;
      EvalHas(lib, args[0], ev, w);
      if Blank(w) {
        var vs := CoalesceHas(lib, args[1..], ev, v);
        BlankFirst(lib, args, ev, w, vs, v);
        vals := [w] + vs;
      }
    }
  }

  /** A value of the expression is what evaluation returns. */
  lemma {:induction false} HasEval(lib: Lib, e: S.Expr, ev: Json, v: Json)
    requires Has(lib, e, ev, v)
    ensures Eval(lib, e, ev) == Ok(v)
    decreases e, 0
  {
    match e
    case Str(_) =>
    case Num(n) => NumeralIs(n, v);
    case Bool(_) =>
    case Path(_) =>
    case Call(name, args) =>
      if name == "concat" {
        var vals, texts := ConcatParts(lib, args, ev, v);
        HasConcat(lib, args, ev, "", vals, texts);
        assert "" + Joined(texts) == Joined(texts);
      } else if name == "coalesce" {
        var vals := CoalesceParts(lib, args, ev, v);
        HasCoalesce(lib, args, ev, vals, v);
      } else {
        var w := AppliedParts(lib, name, args, ev, v);
        HasEval(lib, args[0], ev, w);
        AppliedIs(lib, name, w, v);
      }
  }

  lemma ConcatParts(lib: Lib, args: seq<S.Expr>, ev: Json, v: Json) returns (vals: seq<Json>, texts: seq<string>)
    requires Has(lib, S.Call("concat", args), ev, v)
    ensures Each(lib, args, ev, vals) && |texts| == |vals| && Texts(lib, vals, texts) && v == J.Str(Joined(texts))
  {
    vals, texts :| Each(lib, args, ev, vals) && |texts| == |vals| && Texts(lib, vals, texts) && v == J.Str(Joined(texts));
  }

  lemma CoalesceParts(lib: Lib, args: seq<S.Expr>, ev: Json, v: Json) returns (vals: seq<Json>)
    requires Has(lib, S.Call("coalesce", args), ev, v)
    ensures Blanks(vals) && First(lib, args, ev, vals, v)
  {
    vals :| Blanks(vals) && First(lib, args, ev, vals, v);
  }

  lemma AppliedParts(lib: Lib, name: string, args: seq<S.Expr>, ev: Json, v: Json) returns (w: Json)
    requires Has(lib, S.Call(name, args), ev, v) && name != "concat" && name != "coalesce"
    ensures args != [] && Has(lib, args[0], ev, w) && Applied(lib, name, w, v)
  {
    w :| Has(lib, args[0], ev, w) && Applied(lib, name, w, v);
  }

  lemma {:induction false} HasConcat(lib: Lib, args: seq<S.Expr>, ev: Json, acc: string, vals: seq<Json>, texts: seq<string>)
    requires Each(lib, args, ev, vals) && |texts| == |vals| && Texts(lib, vals, texts)
    ensures Concat(lib, args, ev, acc) == Ok(J.Str(acc + Joined(texts)))
    decreases args, 1
  {
    if args == [] {
      assert acc + Joined(texts) == acc;
    } else {
      OneLess(lib, args, ev, vals, texts);
      HasEval(lib, args[0], ev, vals[0]);
      HasConcat(lib, args[1..], ev, acc + texts[0], vals[1..], texts[1..]);
      assert acc + texts[0] + Joined(texts[1..]) == acc + Joined(texts);
    }
  }

  lemma {:induction false} HasCoalesce(lib: Lib, args: seq<S.Expr>, ev: Json, vals: seq<Json>, v: Json)
    requires Blanks(vals) && First(lib, args, ev, vals, v)
    ensures Coalesce(lib, args, ev) == Ok(v)
    decreases args, 1
  {
    if vals != [] {
      assert Has(lib, args[0], ev, vals[0]);
      HasEval(lib, args[0], ev, vals[0]);
      FirstRest(lib, args, ev, vals, v);
      HasCoalesce(lib, args[1..], ev, vals[1..], v);
    } else if args != [] {
      HasEval(lib, args[0], ev, v);
    }
  }

  /** An expression evaluates to a value iff it has that value; without one it is an error. */
  lemma EvalIs(lib: Lib, e: S.Expr, ev: Json, v: Json)
    ensures Eval(lib, e, ev) == Ok(v) <==> Has(lib, e, ev, v)
  {
    if Eval(lib, e, ev) == Ok(v) {
      EvalHas(lib, e, ev, v);
    }
    if Has(lib, e, ev, v) {
      HasEval(lib, e, ev, v);
    }
  }

  /** A value in front. */
  lemma HasShift(lib: Lib, args: seq<S.Expr>, ev: Json, v: Json, vals: seq<Json>)
    requires |vals| < |args| && Has(lib, args[0], ev, v)
    requires forall i {:trigger vals[i]} :: 0 <= i < |vals| ==> Has(lib, args[1..][i], ev, vals[i])
    ensures forall i {:trigger ([v] + vals)[i]} :: 0 <= i <= |vals| ==> Has(lib, args[i], ev, ([v] + vals)[i])
  {
    forall i | 0 <= i <= |vals| ensures Has(lib, args[i], ev, ([v] + vals)[i]) {
      if i > 0 {
        assert args[i] == args[1..][i - 1] && ([v] + vals)[i] == vals[i - 1];
      }
    }
  }

  lemma TextsShift(lib: Lib, v: Json, vals: seq<Json>, s: string, texts: seq<string>)
    requires |texts| == |vals| && Texts(lib, vals, texts) && Shown(lib, v, s)
    ensures Texts(lib, [v] + vals, [s] + texts) && Joined([s] + texts) == s + Joined(texts)
  {
    forall i | 0 <= i <= |vals| ensures Shown(lib, ([v] + vals)[i], ([s] + texts)[i]) {
      if i > 0 {
        assert ([v] + vals)[i] == vals[i - 1] && ([s] + texts)[i] == texts[i - 1];
      }
    }
    assert ([s] + texts)[1..] == texts;
  }

  lemma OneMore(lib: Lib, args: seq<S.Expr>, ev: Json, v: Json, vals: seq<Json>, s: string, texts: seq<string>)
    requires args != [] && Has(lib, args[0], ev, v) && Each(lib, args[1..], ev, vals)
    requires |texts| == |vals| && Texts(lib, vals, texts) && s == ToStr(lib, v)
    ensures Each(lib, args, ev, [v] + vals) && Texts(lib, [v] + vals, [s] + texts) && Joined([s] + texts) == s + Joined(texts)
  {
    ShownIs(lib, v, s);
    HasShift(lib, args, ev, v, vals);
    TextsShift(lib, v, vals, s, texts);
  }

  lemma OneLess(lib: Lib, args: seq<S.Expr>, ev: Json, vals: seq<Json>, texts: seq<string>)
    requires args != [] && Each(lib, args, ev, vals) && |texts| == |vals| && Texts(lib, vals, texts)
    ensures Has(lib, args[0], ev, vals[0]) && texts[0] == ToStr(lib, vals[0])
    ensures Each(lib, args[1..], ev, vals[1..]) && Texts(lib, vals[1..], texts[1..])
  {
    assert Has(lib, args[0], ev, vals[0]);
    ShownIs(lib, vals[0], texts[0]);
    forall i | 0 <= i < |args| - 1 ensures Has(lib, args[1..][i], ev, vals[1..][i]) {
      assert args[1..][i] == args[i + 1] && vals[1..][i] == vals[i + 1];
    }
    forall i | 0 <= i < |args| - 1 ensures Shown(lib, vals[1..][i], texts[1..][i]) {
      assert vals[1..][i] == vals[i + 1] && texts[1..][i] == texts[i + 1];
    }
  }

  lemma BlankFirst(lib: Lib, args: seq<S.Expr>, ev: Json, b: Json, vals: seq<Json>, v: Json)
    requires args != [] && Has(lib, args[0], ev, b) && Blank(b) && Blanks(vals) && First(lib, args[1..], ev, vals, v)
    ensures Blanks([b] + vals) && First(lib, args, ev, [b] + vals, v)
  {
    HasShift(lib, args, ev, b, vals);
  }

  lemma FirstRest(lib: Lib, args: seq<S.Expr>, ev: Json, vals: seq<Json>, v: Json)
    requires vals != [] && Blanks(vals) && First(lib, args, ev, vals, v)
    ensures Blanks(vals[1..]) && First(lib, args[1..], ev, vals[1..], v)
  {
    forall i | 0 <= i < |vals| - 1 ensures Has(lib, args[1..][i], ev, vals[1..][i]) && Blank(vals[1..][i]) {
      assert args[1..][i] == args[i + 1] && vals[1..][i] == vals[i + 1];
    }
  }

  // ---------------------------------------------------------------- conditions

  /** The number order: negative infinity, the finite ones by size, positive infinity; NaN is
      neither below nor above anything. */
  ghost predicate Smaller(a: S.Num, b: S.Num) {
    && !a.NaN? && !b.NaN? && a != b
    && (a == Infinite(true) || b == Infinite(false) || (a.Fin? && b.Fin? && a.value < b.value))
  }

  /** The value at the path, or null. */
  ghost predicate AtPath(ev: Json, p: Key, v: Json) { v == if Get(ev, p).Some? then Get(ev, p).value else J.Null }

  /** The value of the expression, or null when it has none. */
  ghost predicate Computes(lib: Lib, e: S.Expr, ev: Json, v: Json) {
    Has(lib, e, ev, v) || (v == J.Null && forall w :: !Has(lib, e, ev, w))
  }

  /** The path's number and the expression's. */
  ghost predicate Numbers(lib: Lib, p: Key, e: S.Expr, ev: Json, a: S.Num, b: S.Num) {
    exists v, w :: Get(ev, p) == Some(v) && Has(lib, e, ev, w) && Counts(v, a) && Counts(w, b)
  }

  /** The condition is met over the event. */
  ghost predicate Met(lib: Lib, c: Cond, ev: Json) {
    match c
    case Exists(p) => Get(ev, p).Some?
    case Absent(p) => Get(ev, p).None?
    case Compare(Eq, p, e) => exists v :: AtPath(ev, p, v) && Computes(lib, e, ev, v)
    case Compare(Ne, p, e) => !exists v :: AtPath(ev, p, v) && Computes(lib, e, ev, v)
    case Compare(Lt, p, e) => exists a, b :: Numbers(lib, p, e, ev, a, b) && Smaller(a, b)
    case Compare(Gt, p, e) => exists a, b :: Numbers(lib, p, e, ev, a, b) && Smaller(b, a)
  }

  lemma ComputesIs(lib: Lib, e: S.Expr, ev: Json, v: Json)
    ensures Computes(lib, e, ev, v) <==> v == ValueOr(Eval(lib, e, ev))
  {
    forall w ensures Has(lib, e, ev, w) <==> Eval(lib, e, ev) == Ok(w) { EvalIs(lib, e, ev, w); }
  }

  lemma SmallerIs(a: S.Num, b: S.Num)
    ensures Smaller(a, b) <==> NumLess(a, b)
  {}

  lemma NumbersThere(lib: Lib, p: Key, e: S.Expr, ev: Json) returns (a: S.Num, b: S.Num)
    requires Holds(lib, Compare(Lt, p, e), ev) || Holds(lib, Compare(Gt, p, e), ev)
    ensures Numbers(lib, p, e, ev, a, b)
  {
    var v, w := Get(ev, p).value, Eval(lib, e, ev).value;
    a, b := ToNum(v).value, ToNum(w).value;
    EvalIs(lib, e, ev, w);
    CountsIs(v, a);
    CountsIs(w, b);
  }

  /** A condition holds in the run iff it is met. */
  lemma HoldsIs(lib: Lib, c: Cond, ev: Json)
    ensures Holds(lib, c, ev) <==> Met(lib, c, ev)
  {
    if c.Compare? {
      if c.op.Eq? || c.op.Ne? {
        forall v ensures Computes(lib, c.e, ev, v) <==> v == ValueOr(Eval(lib, c.e, ev)) { ComputesIs(lib, c.e, ev, v); }
        assert AtPath(ev, c.path, OrNull(Get(ev, c.path)));
      } else {
        OrderIs(lib, c, ev);
      }
    }
  }

  lemma LessHolds(lib: Lib, p: Key, e: S.Expr, ev: Json, v: Json, w: Json, a: S.Num, b: S.Num)
    requires Get(ev, p) == Some(v) && Eval(lib, e, ev) == Ok(w) && ToNum(v) == Some(a) && ToNum(w) == Some(b)
    ensures Holds(lib, Compare(Lt, p, e), ev) <==> NumLess(a, b)
    ensures Holds(lib, Compare(Gt, p, e), ev) <==> NumLess(b, a)
  {}

  lemma LessMet(lib: Lib, p: Key, e: S.Expr, ev: Json, a: S.Num, b: S.Num)
    requires Numbers(lib, p, e, ev, a, b)
    ensures Holds(lib, Compare(Lt, p, e), ev) <==> Smaller(a, b)
    ensures Holds(lib, Compare(Gt, p, e), ev) <==> Smaller(b, a)
  {
    var v, w :| Get(ev, p) == Some(v) && Has(lib, e, ev, w) && Counts(v, a) && Counts(w, b);
    EvalIs(lib, e, ev, w);
    CountsIs(v, a);
    CountsIs(w, b);
    LessHolds(lib, p, e, ev, v, w, a, b);
    SmallerIs(a, b);
    SmallerIs(b, a);
  }

  lemma OrderIs(lib: Lib, c: Cond, ev: Json)
    requires c.Compare? && (c.op.Lt? || c.op.Gt?)
    ensures Holds(lib, c, ev) <==> Met(lib, c, ev)
  {
    if Holds(lib, c, ev) {
      var a, b := NumbersThere(lib, c.path, c.e, ev);
      LessMet(lib, c.path, c.e, ev, a, b);
    }
    if Met(lib, c, ev) {
      var a, b :| Numbers(lib, c.path, c.e, ev, a, b) && if c.op.Lt? then Smaller(a, b) else Smaller(b, a);
      LessMet(lib, c.path, c.e, ev, a, b);
    }
  }
}
