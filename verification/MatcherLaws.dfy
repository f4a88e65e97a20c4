/**
  When live tail shows a record (domains/query/matcher.go:18-191), clause by clause: what a field
  names in the record, how its printed form stands to the literal, and what a missing or
  unreadable value does.
 */
module MatcherLaws {
  import opened Text
  import opened Ast
  import opened Compile
  import opened Sql
  import opened Matcher

  // ---------------------------------------------------------------- what a field names

  /** The printed form of a decoded value. */
  ghost predicate Printed(lib: Lib, v: Json, t: string) {
    && (v.JNull? ==> t == "") && (v.JStr? ==> t == v.s) && (v.JNum? ==> t == lib.formatFloat(v.n))
    && (v.JBool? || v.JArr? || v.JObj? ==> t == lib.sprint(v))
  }

  /** Every step of the walk goes through an object that has the key. */
  ghost predicate Walk(nodes: seq<Json>, path: seq<string>) {
    && |nodes| == |path| + 1
    && forall i {:trigger path[i]} :: 0 <= i < |path| ==>
         nodes[i].JObj? && path[i] in nodes[i].fields && nodes[i + 1] == nodes[i].fields[path[i]]
  }

  /** The decoded document of a JSON column leads along the path to the leaf. */
  ghost predicate Leads(lib: Lib, rec: Record, column: string, path: seq<string>, leaf: Json) {
    && column in rec && rec[column].JStr? && rec[column].s != "" && lib.json(rec[column].s).Some?
    && exists nodes: seq<Json> ::
         Walk(nodes, path) && nodes[0] == lib.json(rec[column].s).value && nodes[|path|] == leaf
  }

  /** The value that a field names in the record. */
  ghost predicate Names(lib: Lib, rec: Record, f: Field, v: Json) {
    var head := Lower(f[0]);
    if |f| == 1 then
      var column := if head == "time" then "timestamp" else if head == "tenant" then "tenant_id" else head;
      column in rec && v == rec[column]
    else if head == "body" || head == "resource" then Leads(lib, rec, head, f[1..], v)
    else head == "auth" && |f| == 2 && Lower(f[1]) in rec && v == rec[Lower(f[1])]
  }

  lemma PrintedIs(lib: Lib, v: Json, t: string)
    ensures Printed(lib, v, t) <==> t == Stringify(lib, v)
  {}

  lemma {:induction false} WalkIs(nodes: seq<Json>, path: seq<string>)
    requires Walk(nodes, path)
    ensures JsonAt(nodes[0], path) == Some(nodes[|path|])
  {
    if path != [] {
      forall i | 0 <= i < |path| - 1
        ensures nodes[1..][i].JObj? && path[1..][i] in nodes[1..][i].fields
             && nodes[1..][i + 1] == nodes[1..][i].fields[path[1..][i]]
      {
        assert path[1..][i] == path[i + 1];
      }
      assert nodes[0].JObj? && path[0] in nodes[0].fields;
      WalkIs(nodes[1..], path[1..]);
    }
  }

  lemma {:induction false} WalkFound(j: Json, path: seq<string>) returns (nodes: seq<Json>)
    requires JsonAt(j, path).Some?
    ensures Walk(nodes, path) && nodes[0] == j && nodes[|path|] == JsonAt(j, path).value
  {
    if path == [] {
      nodes := [j];
    } else {
      var rest := WalkFound(j.fields[path[0]], path[1..]);
      nodes := [j] + rest;
      forall i | 0 <= i < |path|
        ensures nodes[i].JObj? && path[i] in nodes[i].fields && nodes[i + 1] == nodes[i].fields[path[i]]
      {
        if i > 0 {
          assert path[1..][i - 1] == path[i];
        }
      }
    }
  }

  lemma LeadsTo(lib: Lib, rec: Record, column: string, path: seq<string>)
    ensures ExtractSpec(lib, Lookup(rec, column), path).None? ==> forall v :: !Leads(lib, rec, column, path, v)
    ensures forall v :: Leads(lib, rec, column, path, v) ==>
              ExtractSpec(lib, Lookup(rec, column), path) == Some(Stringify(lib, v))
    ensures ExtractSpec(lib, Lookup(rec, column), path).Some? ==> exists v :: Leads(lib, rec, column, path, v)
  {
    forall v | Leads(lib, rec, column, path, v)
      ensures ExtractSpec(lib, Lookup(rec, column), path) == Some(Stringify(lib, v))
    {
      var nodes: seq<Json> :| Walk(nodes, path) && nodes[0] == lib.json(rec[column].s).value && nodes[|path|] == v;
      WalkIs(nodes, path);
    }
    if ExtractSpec(lib, Lookup(rec, column), path).Some? {
      var j := lib.json(rec[column].s).value;
      var nodes := WalkFound(j, path);
      assert Leads(lib, rec, column, path, nodes[|path|]);
    }
  }

  /** The matcher's lookup is that relation. */
  lemma FieldNames(lib: Lib, rec: Record, f: Field)
    ensures forall v :: Names(lib, rec, f, v) ==> FieldString(lib, f, rec) == Some(Stringify(lib, v))
    ensures FieldString(lib, f, rec).Some? ==> exists v :: Names(lib, rec, f, v)
  {
    LeadsTo(lib, rec, Lower(f[0]), f[1..]);
    if FieldString(lib, f, rec).Some? {
      var head := Lower(f[0]);
      if |f| == 1 {
        assert Names(lib, rec, f, rec[ColumnOf(head)]);
      } else if head == "body" || head == "resource" {
        var v :| Leads(lib, rec, head, f[1..], v);
        assert Names(lib, rec, f, v);
      } else {
        assert Names(lib, rec, f, rec[Lower(f[1])]);
      }
    }
  }

  // ---------------------------------------------------------------- how the two sides compare

  predicate Ints(op: string, a: int, b: int) {
    (op == "=" && a == b) || (op == "!=" && a != b) || (op == "<" && a < b) || (op == ">" && a > b)
    || (op == "<=" && a <= b) || (op == ">=" && a >= b)
  }

  predicate Reals(op: string, a: real, b: real) {
    (op == "=" && a == b) || (op == "!=" && a != b) || (op == "<" && a < b) || (op == ">" && a > b)
    || (op == "<=" && a <= b) || (op == ">=" && a >= b)
  }

  /** a comes before b: at the first difference it ends or has the smaller character. */
  ghost predicate Before(a: string, b: string) {
    exists k :: 0 <= k <= |a| && k < |b| && a[..k] == b[..k] && (k == |a| || a[k] < b[k])
  }

  ghost predicate Strings(op: string, a: string, b: string) {
    (op == "=" && a == b) || (op == "!=" && a != b) || (op == "<" && Before(a, b)) || (op == ">" && Before(b, a))
    || (op == "<=" && !Before(b, a)) || (op == ">=" && !Before(a, b))
  }

  /** The place of a level among the six, in any letter case; -1 for any other text. */
  ghost predicate Ranks(level: string, r: int) {
    if r == -1 then forall i {:trigger LEVELS[i]} :: 0 <= i < 6 ==> Lower(level) != LEVELS[i]
    else 0 <= r < 6 && Lower(level) == ["trace", "debug", "info", "warn", "error", "fatal"][r]
  }

  /** How the printed form of a value stands to a literal. */
  ghost predicate Meets(lib: Lib, now: int, f: Field, op: string, v: Value, t: string) {
    if |f| == 1 && Lower(f[0]) == "level" && v.ValString? && op in {"<", ">", "<=", ">="} then
      exists a, b :: Ranks(t, a) && Ranks(v.str, b) && Ints(op, a, b)
    else
      match v
      case ValString(s) => Strings(op, t, s)
      case ValNumber(d) => lib.parseFloat(t).Some? && lib.parseFloat(d).Some?
                           && Reals(op, lib.parseFloat(t).value, lib.parseFloat(d).value)
      case ValTime(n, sub) => lib.parseTime(t).Some?
                              && Ints(op, lib.parseTime(t).value, if sub then now - n * NANOS else now + n * NANOS)
  }

  lemma {:induction false} OrderIs(a: string, b: string)
    ensures Order(a, b) == 0 <==> a == b
    ensures Order(a, b) < 0 ==> Before(a, b)
    ensures Order(a, b) > 0 ==> Before(b, a)
  {
    if a == b {
    } else if a == "" {
      assert a[..0] == b[..0];
    } else if b == "" {
      assert b[..0] == a[..0];
    } else if a[0] != b[0] {
      assert a[..0] == b[..0];
    } else {
      var x, y := a[1..], b[1..];
      OrderIs(x, y);
      assert a == [a[0]] + x && b == [b[0]] + y;
      if Before(x, y) {
        BeforeGrows(x, y, a[0]);
      }
      if Before(y, x) {
        BeforeGrows(y, x, a[0]);
      }
    }
  }

  lemma BeforeGrows(a: string, b: string, c: char)
    requires Before(a, b)
    ensures Before([c] + a, [c] + b)
  {
    var k :| 0 <= k <= |a| && k < |b| && a[..k] == b[..k] && (k == |a| || a[k] < b[k]);
    var x, y := [c] + a, [c] + b;
    assert x[..k + 1] == [c] + a[..k] && y[..k + 1] == [c] + b[..k];
    assert (k + 1 == |x| || x[k + 1] < y[k + 1]);
  }

  lemma SamePrefix(a: string, b: string, n: nat, i: nat)
    requires i < n <= |a| && n <= |b| && a[..n] == b[..n]
    ensures a[i] == b[i]
  {
    assert a[..n][i] == b[..n][i];
  }

  /** No two texts come before each other. */
  lemma OneBefore(a: string, b: string)
    requires Before(a, b)
    ensures !Before(b, a) && a != b
  {
    var k :| 0 <= k <= |a| && k < |b| && a[..k] == b[..k] && (k == |a| || a[k] < b[k]);
    forall m | 0 <= m <= |b| && m < |a| && b[..m] == a[..m]
      ensures !(m == |b| || b[m] < a[m])
    {
      if k < m {
        SamePrefix(a, b, m, k);
      } else if m < k {
        SamePrefix(a, b, k, m);
      }
    }
  }

  lemma StringsIs(op: string, a: string, b: string)
    ensures ApplyOp(op, Order(a, b)) <==> Strings(op, a, b)
  {
    OrderIs(a, b);
    if Before(a, b) {
      OneBefore(a, b);
    }
    if Before(b, a) {
      OneBefore(b, a);
    }
  }

  lemma RankIs(level: string)
    ensures Ranks(level, LevelRank(level)) && forall r :: Ranks(level, r) ==> r == LevelRank(level)
  {
    assert LEVELS == ["trace", "debug", "info", "warn", "error", "fatal"];
    LevelsAreLower();
    RankFromIs(level, 0);
  }

  lemma LevelsAreLower()
    ensures forall i {:trigger LEVELS[i]} :: 0 <= i < 6 ==> Lower(LEVELS[i]) == LEVELS[i]
    ensures forall i, k {:trigger LEVELS[i], LEVELS[k]} :: 0 <= i < 6 && 0 <= k < 6 && LEVELS[i] == LEVELS[k] ==> i == k
  {
    assert LEVELS[0] == "trace" && LEVELS[1] == "debug" && LEVELS[2] == "info";
    assert LEVELS[3] == "warn" && LEVELS[4] == "error" && LEVELS[5] == "fatal";
  }

  lemma {:induction false} RankFromIs(level: string, i: nat)
    requires i <= |LEVELS|
    ensures var r := RankFrom(level, i);
            if r == -1 then forall k {:trigger LEVELS[k]} :: i <= k < |LEVELS| ==> !EqualFold(level, LEVELS[k])
            else i <= r < |LEVELS| && EqualFold(level, LEVELS[r])
    decreases |LEVELS| - i
  {
    if i < |LEVELS| {
      RankFromIs(level, i + 1);
    }
  }

  lemma LevelsCompare(op: string, t: string, s: string)
    ensures ApplyOp(op, LevelRank(t) - LevelRank(s)) <==> exists a, b :: Ranks(t, a) && Ranks(s, b) && Ints(op, a, b)
  {
    RankIs(t);
    RankIs(s);
    IntsIs(op, LevelRank(t), LevelRank(s));
  }

  lemma IntsIs(op: string, a: int, b: int)
    ensures ApplyOp(op, a - b) <==> Ints(op, a, b)
    ensures ApplyOp(op, Sign(a, b)) <==> Ints(op, a, b)
  {}

  lemma NumbersCompare(op: string, x: real, y: real)
    ensures ApplyOp(op, if x < y then -1 else if x > y then 1 else 0) <==> Reals(op, x, y)
  {}

  /** The 64-bit product and negation do not wrap. */
  lemma BaseIs(now: int, n: int, sub: bool)
    requires Fits(n)
    ensures TimeBase(now, n, sub) == if sub then now - n * NANOS else now + n * NANOS
  {}

  lemma TextsCompare(lib: Lib, now: int, f: Field, op: string, s: string, rec: Record, t: string)
    requires !IsTenantField(f) && FieldString(lib, f, rec) == Some(t)
    ensures EvalComparison(lib, now, f, op, ValString(s), rec) <==> Meets(lib, now, f, op, ValString(s), t)
  {
    LevelsCompare(op, t, s);
    StringsIs(op, t, s);
    assert Lower("level") == "level";
  }

  /** A comparison with anything but a tenant field, on the printed form of its field. */
  lemma ComparisonIs(lib: Lib, now: int, f: Field, op: string, v: Value, rec: Record, t: string)
    requires !IsTenantField(f) && FieldString(lib, f, rec) == Some(t)
    requires v.ValTime? ==> Fits(v.seconds)
    ensures EvalComparison(lib, now, f, op, v, rec) <==> Meets(lib, now, f, op, v, t)
  {
    match v
    case ValString(s) => TextsCompare(lib, now, f, op, s, rec, t);
    case ValNumber(d) =>
      if lib.parseFloat(t).Some? && lib.parseFloat(d).Some? {
        NumbersCompare(op, lib.parseFloat(t).value, lib.parseFloat(d).value);
      }
    case ValTime(n, sub) =>
      BaseIs(now, n, sub);
      if lib.parseTime(t).Some? {
        IntsIs(op, lib.parseTime(t).value, TimeBase(now, n, sub));
      }
  }

  /** The offset fits 64-bit nanoseconds. */
  predicate Fits(seconds: int) { -TWO63 < seconds * NANOS < TWO63 }

  /** Live tail shows a record for a comparison iff the field names a value of the record whose
      printed form stands to the literal as the operator says; tenant fields always pass. */
  lemma Shown(lib: Lib, now: int, f: Field, op: string, v: Value, rec: Record)
    requires v.ValTime? ==> Fits(v.seconds)
    ensures Match(lib, now, Some(Comparison(f, op, v)), rec)
       <==> (|f| == 1 && Lower(f[0]) in {"tenant", "tenant_id"})
            || exists j, t :: Names(lib, rec, f, j) && Printed(lib, j, t) && Meets(lib, now, f, op, v, t)
  {
    FieldNames(lib, rec, f);
    if !IsTenantField(f) && FieldString(lib, f, rec).Some? {
      var t := FieldString(lib, f, rec).value;
      ComparisonIs(lib, now, f, op, v, rec, t);
      var j :| Names(lib, rec, f, j);
      PrintedIs(lib, j, t);
      forall j', t' | Names(lib, rec, f, j') && Printed(lib, j', t') ensures t' == t { PrintedIs(lib, j', t'); }
    }
  }

  /** A number literal on a JSON path: a leaf that reads as a number stands to the literal's value
      by size, not by its digits; one that does not is refused. */
  lemma NumberAtPath(lib: Lib, now: int, f: Field, op: string, d: string, rec: Record, leaf: Json, t: string)
    requires |f| > 1 && Lower(f[0]) in {"body", "resource"} && Leads(lib, rec, Lower(f[0]), f[1..], leaf)
    requires Printed(lib, leaf, t) && AllDigits(d) && lib.parseFloat(d) == Some(DigitsValue(d) as real)
    ensures Match(lib, now, Some(Comparison(f, op, ValNumber(d))), rec)
       <==> lib.parseFloat(t).Some? && Reals(op, lib.parseFloat(t).value, DigitsValue(d) as real)
  {
    Shown(lib, now, f, op, ValNumber(d), rec);
    FieldNames(lib, rec, f);
    assert Names(lib, rec, f, leaf);
    PrintedIs(lib, leaf, t);
    forall j, t' | Names(lib, rec, f, j) && Printed(lib, j, t') ensures t' == t { PrintedIs(lib, j, t'); }
  }

  /** So over the body {"ms":1000}, `body.ms > 500` holds, for every printer of numbers that the
      reader of numbers undoes. */
  lemma NumberLeaf(lib: Lib, now: int, f: Field, op: string, d: string, rec: Record, x: real)
    requires |f| > 1 && Lower(f[0]) in {"body", "resource"} && Leads(lib, rec, Lower(f[0]), f[1..], JNum(x))
    requires lib.parseFloat(lib.formatFloat(x)) == Some(x)
    requires AllDigits(d) && lib.parseFloat(d) == Some(DigitsValue(d) as real)
    ensures Match(lib, now, Some(Comparison(f, op, ValNumber(d))), rec) <==> Reals(op, x, DigitsValue(d) as real)
  {
    NumberAtPath(lib, now, f, op, d, rec, JNum(x), lib.formatFloat(x));
  }

  /** Where a field names nothing, no comparison holds, not even an inequality. */
  lemma NothingShown(lib: Lib, now: int, f: Field, op: string, v: Value, rec: Record)
    requires !IsTenantField(f) && forall j :: !Names(lib, rec, f, j)
    ensures !Match(lib, now, Some(Comparison(f, op, v)), rec)
  {
    FieldNames(lib, rec, f);
  }
}
