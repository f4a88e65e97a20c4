/**
  The ClickHouse writer's deduplication token (ingest/writer/src/main.rs:200-209): order-independent
  by sorting, injective on ids without commas.
 */
module DedupToken {
  import opened Text

  // ---------------------------------------------------------------- sorting

  predicate AtMost(a: string, b: string) { Order(a, b) <= 0 }

  predicate Ordered(s: seq<string>) { forall i, j :: 0 <= i < j < |s| ==> AtMost(s[i], s[j]) }

  function Insert(x: string, s: seq<string>): seq<string> {
    if s == [] || AtMost(x, s[0]) then [x] + s else [s[0]] + Insert(x, s[1..])
  }

  function Sort(ids: seq<string>): seq<string> {
    if ids == [] then [] else Insert(ids[0], Sort(ids[1..]))
  }

  lemma AtMostTransitive(a: string, b: string, c: string)
    requires AtMost(a, b) && AtMost(b, c)
    ensures AtMost(a, c)
  {
    OrderFlips(a, b);
    OrderFlips(b, c);
    if Order(a, b) < 0 && Order(b, c) < 0 {
      OrderTransitive(a, b, c);
    }
  }

  lemma {:induction false} InsertKeeps(x: string, s: seq<string>)
    ensures multiset(Insert(x, s)) == multiset(s) + multiset{x}
  {
    if s != [] && !AtMost(x, s[0]) {
      InsertKeeps(x, s[1..]);
      assert s == [s[0]] + s[1..];
    }
  }

  lemma {:induction false} SortKeeps(ids: seq<string>)
    ensures multiset(Sort(ids)) == multiset(ids)
  {
    if ids != [] {
      SortKeeps(ids[1..]);
      InsertKeeps(ids[0], Sort(ids[1..]));
      assert ids == [ids[0]] + ids[1..];
    }
  }

  lemma ConsOrdered(x: string, s: seq<string>)
    requires Ordered(s) && forall y :: y in s ==> AtMost(x, y)
    ensures Ordered([x] + s)
  {}

  lemma InSame(s: seq<string>, t: seq<string>, y: string)
    requires multiset(s) == multiset(t) && y in s
    ensures y in t
  {
    assert y in multiset(s) && y in multiset(t);
  }

  lemma {:induction false} InsertOrdered(x: string, s: seq<string>)
    requires Ordered(s)
    ensures Ordered(Insert(x, s))
  {
    if s == [] {
    } else if AtMost(x, s[0]) {
      forall y | y in s ensures AtMost(x, y) {
        var k :| 0 <= k < |s| && s[k] == y;
        if k > 0 { AtMostTransitive(x, s[0], y); }
      }
      ConsOrdered(x, s);
    } else {
      InsertOrdered(x, s[1..]);
      InsertKeeps(x, s[1..]);
      OrderFlips(x, s[0]);
      forall y | y in Insert(x, s[1..]) ensures AtMost(s[0], y) {
        InSame(Insert(x, s[1..]), s[1..] + [x], y);
      }
      ConsOrdered(s[0], Insert(x, s[1..]));
    }
  }

  lemma {:induction false} SortOrdered(ids: seq<string>)
    ensures Ordered(Sort(ids))
  {
    if ids != [] {
      SortOrdered(ids[1..]);
      InsertOrdered(ids[0], Sort(ids[1..]));
    }
  }

  lemma HeadIsLeast(s: seq<string>, y: string)
    requires Ordered(s) && y in s
    ensures AtMost(s[0], y)
  {
    OrderFlips(s[0], s[0]);
  }

  lemma HeadsAgree(a: seq<string>, b: seq<string>)
    requires Ordered(a) && Ordered(b) && multiset(a) == multiset(b) && a != [] && b != []
    ensures a[0] == b[0]
  {
    InSame(a, b, a[0]);
    InSame(b, a, b[0]);
    HeadIsLeast(a, b[0]);
    HeadIsLeast(b, a[0]);
    OrderFlips(a[0], b[0]);
  }

  lemma TailMultiset(a: seq<string>)
    requires a != []
    ensures multiset(a) == multiset{a[0]} + multiset(a[1..])
  {
    assert a == [a[0]] + a[1..];
  }

  lemma TailsAgree(a: seq<string>, b: seq<string>)
    requires a != [] && b != [] && a[0] == b[0] && multiset(a) == multiset(b)
    ensures multiset(a[1..]) == multiset(b[1..])
  {
    TailMultiset(a);
    TailMultiset(b);
    assert multiset(a[1..]) == multiset(a) - multiset{a[0]} == multiset(b[1..]);
  }

  lemma OrderedTail(a: seq<string>)
    requires Ordered(a) && a != []
    ensures Ordered(a[1..])
  {}

  /** A sorted list is determined by what it holds. */
  lemma {:induction false} OrderedUnique(a: seq<string>, b: seq<string>)
    requires Ordered(a) && Ordered(b) && multiset(a) == multiset(b)
    ensures a == b
  {
    assert |a| == |multiset(a)| == |multiset(b)| == |b|;
    if a != [] {
      HeadsAgree(a, b);
      TailsAgree(a, b);
      OrderedTail(a);
      OrderedTail(b);
      OrderedUnique(a[1..], b[1..]);
      assert a == [a[0]] + a[1..] && b == [b[0]] + b[1..];
    }
  }

  // ---------------------------------------------------------------- the token

  /** What is hashed: every id with a comma behind it. */
  function Commaed(ids: seq<string>): string {
    if ids == [] then "" else ids[0] + "," + Commaed(ids[1..])
  }

  /** The token, up to the injective hash. */
  function Token(ids: seq<string>): string { Commaed(Sort(ids)) }

  predicate CommaFree(ids: seq<string>) { forall i :: 0 <= i < |ids| ==> ',' !in ids[i] }

  lemma CommaInside(a: string, x: string, b: string, y: string)
    requires a + "," + x == b + "," + y && |a| < |b|
    ensures ',' in b
  {
    assert (a + "," + x)[|a|] == ',' && (b + "," + y)[|a|] == b[|a|];
  }

  lemma CutAtComma(a: string, x: string, b: string, y: string)
    requires ',' !in a && ',' !in b && a + "," + x == b + "," + y
    ensures a == b && x == y
  {
    if |a| < |b| {
      CommaInside(a, x, b, y);
    } else if |b| < |a| {
      CommaInside(b, y, a, x);
    } else {
      var s, t := a + "," + x, b + "," + y;
      assert a == s[..|a|] && b == t[..|b|] && x == s[|a| + 1..] && y == t[|b| + 1..];
    }
  }

  lemma {:induction false} CommaedInjective(a: seq<string>, b: seq<string>)
    requires CommaFree(a) && CommaFree(b) && Commaed(a) == Commaed(b)
    ensures a == b
  {
    if a != [] && b != [] {
      CutAtComma(a[0], Commaed(a[1..]), b[0], Commaed(b[1..]));
      CommaedInjective(a[1..], b[1..]);
      assert a == [a[0]] + a[1..] && b == [b[0]] + b[1..];
    }
  }

  lemma SortCommaFree(ids: seq<string>)
    requires CommaFree(ids)
    ensures CommaFree(Sort(ids))
  {
    SortKeeps(ids);
    forall i | 0 <= i < |Sort(ids)| ensures ',' !in Sort(ids)[i] {
      InSame(Sort(ids), ids, Sort(ids)[i]);
    }
  }

  /** The order in which a batch arrives does not change its token. */
  lemma TokenIgnoresOrder(a: seq<string>, b: seq<string>)
    requires multiset(a) == multiset(b)
    ensures Token(a) == Token(b)
  {
    SortKeeps(a);
    SortKeeps(b);
    SortOrdered(a);
    SortOrdered(b);
    OrderedUnique(Sort(a), Sort(b));
  }

  /** On ids without commas, equal tokens mean equal ids, counted with repetition. */
  lemma TokenInjective(a: seq<string>, b: seq<string>)
    requires CommaFree(a) && CommaFree(b)
    ensures Token(a) == Token(b) <==> multiset(a) == multiset(b)
  {
    if Token(a) == Token(b) {
      SortCommaFree(a);
      SortCommaFree(b);
      CommaedInjective(Sort(a), Sort(b));
      SortKeeps(a);
      SortKeeps(b);
    }
    if multiset(a) == multiset(b) {
      TokenIgnoresOrder(a, b);
    }
  }

  /** A comma in an id breaks this. */
  lemma CommaCollides(x: string, y: string)
    requires AtMost(x, y)
    ensures Token([x, y]) == Token([x + "," + y])
  {
    assert [x, y][1..] == [y] && [y][1..] == [] && [x + "," + y][1..] == [];
    assert Sort([y]) == [y] && Sort([x, y]) == [x, y] && Sort([x + "," + y]) == [x + "," + y];
    assert Commaed([y]) == y + "," + "";
    assert Commaed([x, y]) == x + "," + (y + "," + "");
    assert Commaed([x + "," + y]) == x + "," + y + "," + "";
    assert x + "," + (y + "," + "") == x + "," + y + "," + "";
  }

  lemma {:induction false} InsertLength(x: string, s: seq<string>)
    ensures |Commaed(Insert(x, s))| == |Commaed(s)| + |x| + 1
  {
    if s == [] || AtMost(x, s[0]) {
      assert ([x] + s)[1..] == s;
    } else {
      InsertLength(x, s[1..]);
      assert ([s[0]] + Insert(x, s[1..]))[1..] == Insert(x, s[1..]);
    }
  }

  lemma TokenOfCons(x: string, ids: seq<string>)
    ensures |Token([x] + ids)| == |Token(ids)| + |x| + 1
  {
    assert ([x] + ids)[1..] == ids;
    InsertLength(x, Sort(ids));
  }

  /** Every id makes the token longer, commas or not. */
  lemma TokenGrows(ids: seq<string>, x: string)
    ensures |Token(ids + [x])| == |Token(ids)| + |x| + 1
  {
    assert multiset(ids + [x]) == multiset([x] + ids);
    TokenIgnoresOrder(ids + [x], [x] + ids);
    TokenOfCons(x, ids);
  }

  lemma {:induction false} CommaedSnoc(ids: seq<string>, x: string)
    ensures Commaed(ids + [x]) == Commaed(ids) + x + ","
  {
    if ids == [] {
      assert ids + [x] == [x] && [x][1..] == [];
    } else {
      CommaedSnoc(ids[1..], x);
      assert (ids + [x])[1..] == ids[1..] + [x];
      assert ids[0] + "," + (Commaed(ids[1..]) + x + ",") == ids[0] + "," + Commaed(ids[1..]) + x + ",";
    }
  }

  method ComputeToken(ids: seq<string>) returns (sorted: seq<string>, token: string)
    ensures sorted == Sort(ids) && token == Token(ids)
  {
    sorted := Sort(ids);
    token := "";
    for i := 0 to |sorted|
      invariant token == Commaed(sorted[..i])
    {
      CommaedSnoc(sorted[..i], sorted[i]);
      assert sorted[..i + 1] == sorted[..i] + [sorted[i]];
      token := token + sorted[i] + ",";
    }
    assert sorted[..|sorted|] == sorted;
  }
}
