/**
  Shared vocabulary: results, ASCII folding, decimal numerals, and the notion of
  a text fragment that a scanner reads as a fixed run of tokens wherever it stands.
 */
module Text {

  datatype Option<+T> = None | Some(value: T)

  /** Errors carry no message: the model keeps which inputs are refused, not the wording. */
  datatype Result<+T> = Ok(value: T) | Err

  // ---------------------------------------------------------------- characters

  predicate IsDigit(c: char) { '0' <= c <= '9' }

  predicate IsIdentStart(c: char) { c == '_' || 'a' <= c <= 'z' || 'A' <= c <= 'Z' }

  predicate IsIdentPart(c: char) { IsIdentStart(c) || IsDigit(c) }

  function LowerChar(c: char): char {
    if 'A' <= c <= 'Z' then c - 'A' + 'a' else c
  }

  /** ASCII lower-casing; identifiers of the query language are ASCII only. */
  function Lower(s: string): (r: string)
    ensures |r| == |s|
    ensures forall i :: 0 <= i < |s| ==> r[i] == LowerChar(s[i])
  {
    seq(|s|, i requires 0 <= i < |s| => LowerChar(s[i]))
  }

  predicate EqualFold(a: string, b: string) { Lower(a) == Lower(b) }

  predicate AllDigits(s: string) { forall i :: 0 <= i < |s| ==> IsDigit(s[i]) }

  predicate IsIdent(s: string) {
    |s| > 0 && IsIdentStart(s[0]) && forall i :: 0 <= i < |s| ==> IsIdentPart(s[i])
  }

  lemma LowerIdent(s: string)
    requires IsIdent(s)
    ensures IsIdent(Lower(s))
  {
    var r := Lower(s);
    forall i | 0 <= i < |r| ensures IsIdentPart(r[i]) {
      assert IsIdentPart(s[i]);
    }
  }

  // ---------------------------------------------------------------- decimals

  function DigitChar(d: nat): (c: char)
    requires d < 10
    ensures IsDigit(c)
  {
    '0' + d as char
  }

  /** The numeral `%d` prints for a non-negative integer. */
  function Decimal(n: nat): (s: string)
    ensures |s| > 0 && AllDigits(s)
  {
    if n < 10 then [DigitChar(n)] else Decimal(n / 10) + [DigitChar(n % 10)]
  }

  /** The value of a digit string (0 for the empty one). */
  function DigitsValue(s: string): nat
    requires AllDigits(s)
  {
    if s == "" then 0
    else 10 * DigitsValue(s[..|s| - 1]) + (s[|s| - 1] - '0') as nat
  }

  lemma {:induction false} DecimalRoundTrip(n: nat)
    ensures DigitsValue(Decimal(n)) == n
  {
    if n < 10 {
      assert Decimal(n)[..0] == "";
    } else {
      DecimalRoundTrip(n / 10);
      assert Decimal(n)[..|Decimal(n)| - 1] == Decimal(n / 10);
    }
  }

  /** `%d` of any integer. */
  function SignedDecimal(n: int): string {
    if n < 0 then "-" + Decimal(-n) else Decimal(n)
  }

  // ---------------------------------------------------------------- joining

  function Join(parts: seq<string>, sep: string): string {
    if |parts| == 0 then ""
    else if |parts| == 1 then parts[0]
    else parts[0] + sep + Join(parts[1..], sep)
  }

  lemma {:induction false} JoinSnoc(parts: seq<string>, p: string, sep: string)
    ensures Join(parts + [p], sep) == if parts == [] then p else Join(parts, sep) + sep + p
  {
    if |parts| == 0 {
      assert parts + [p] == [p];
    } else if |parts| == 1 {
      assert (parts + [p])[1..] == [p];
    } else {
      JoinSnoc(parts[1..], p, sep);
      assert (parts + [p])[1..] == parts[1..] + [p];
      assert parts[0] + sep + (Join(parts[1..], sep) + sep + p)
          == parts[0] + sep + Join(parts[1..], sep) + sep + p;
    }
  }

  lemma {:induction false} JoinCat(a: seq<string>, b: seq<string>, sep: string)
    requires a != [] && b != []
    ensures Join(a + b, sep) == Join(a, sep) + sep + Join(b, sep)
  {
    assert (a + b)[1..] == a[1..] + b;
    if |a| == 1 {
      assert a[1..] + b == b;
    } else {
      JoinCat(a[1..], b, sep);
      assert a[0] + sep + (Join(a[1..], sep) + sep + Join(b, sep)) == a[0] + sep + Join(a[1..], sep) + sep + Join(b, sep);
    }
  }

  // ---------------------------------------------------------------- order

  /** Three-way comparison of strings, character by character. */
  function Order(a: string, b: string): int {
    if a == b then 0
    else if a == "" then -1
    else if b == "" then 1
    else if a[0] < b[0] then -1
    else if a[0] > b[0] then 1
    else Order(a[1..], b[1..])
  }

  lemma {:induction false} OrderFlips(a: string, b: string)
    ensures Order(a, b) == -Order(b, a)
    ensures Order(a, b) == 0 <==> a == b
  {
    if a != "" && b != "" && a[0] == b[0] {
      OrderFlips(a[1..], b[1..]);
      assert a == [a[0]] + a[1..] && b == [b[0]] + b[1..];
    }
  }

  lemma {:induction false} OrderTransitive(a: string, b: string, c: string)
    requires Order(a, b) < 0 && Order(b, c) < 0
    ensures Order(a, c) < 0
  {
    if a != "" && b != "" && c != "" && a[0] == b[0] == c[0] {
      OrderTransitive(a[1..], b[1..], c[1..]);
    } else {
      OrderFlips(a, c);
    }
  }

  // ---------------------------------------------------------------- cutting

  /** Where the first character of the kind stands; the length when there is none. */
  function IndexWhere(s: string, p: char -> bool): (i: nat)
    ensures i <= |s| && (i < |s| ==> p(s[i]))
  {
    if s == "" || p(s[0]) then 0 else 1 + IndexWhere(s[1..], p)
  }

  lemma {:induction false} NoneBefore(s: string, p: char -> bool)
    ensures forall k :: 0 <= k < IndexWhere(s, p) ==> !p(s[k])
  {
    if s != "" && !p(s[0]) {
      NoneBefore(s[1..], p);
      assert forall k :: 1 <= k < |s| ==> s[k] == s[1..][k - 1];
    }
  }

  /** Whatever stands first is found. */
  lemma FoundAt(s: string, p: char -> bool, i: nat)
    requires i <= |s| && (i < |s| ==> p(s[i])) && forall k :: 0 <= k < i ==> !p(s[k])
    ensures IndexWhere(s, p) == i
  {
    NoneBefore(s, p);
  }

  /** The pieces between the c's. */
  function SplitOn(s: string, c: char): (r: seq<string>)
    ensures |r| > 0
  {
    if s == "" then [""]
    else
      var r := SplitOn(s[1..], c);
      if s[0] == c then [""] + r else [[s[0]] + r[0]] + r[1..]
  }

  lemma {:induction false} SplitOnPiece(a: string, rest: string, c: char)
    requires c !in a
    ensures SplitOn(a, c) == [a]
    ensures SplitOn(a + [c] + rest, c) == [a] + SplitOn(rest, c)
  {
    var s := a + [c] + rest;
    if a == "" {
      assert s[1..] == rest;
    } else {
      SplitOnPiece(a[1..], rest, c);
      assert s[1..] == a[1..] + [c] + rest;
      assert [a[0]] + a[1..] == a;
    }
  }

  lemma {:induction false} SplitOnJoin(parts: seq<string>, c: char)
    requires parts != [] && forall i :: 0 <= i < |parts| ==> c !in parts[i]
    ensures SplitOn(Join(parts, [c]), c) == parts
  {
    if |parts| == 1 {
      SplitOnPiece(parts[0], "", c);
    } else {
      SplitOnJoin(parts[1..], c);
      SplitOnPiece(parts[0], Join(parts[1..], [c]), c);
    }
  }

  lemma CutInside(a: string, x: string, b: string, y: string, c: char)
    requires a + [c] + x == b + [c] + y && |b| < |a|
    ensures c in y
  {
    assert (a + [c] + x)[|a|] == c;
    assert (b + [c] + y)[|a|] == y[|a| - |b| - 1];
  }

  /** A text is cut at its last c in only one way. */
  lemma LastCut(a: string, x: string, b: string, y: string, c: char)
    requires a + [c] + x == b + [c] + y && c !in x && c !in y
    ensures a == b && x == y
  {
    if |b| < |a| {
      CutInside(a, x, b, y, c);
    } else if |a| < |b| {
      CutInside(b, y, a, x, c);
    } else {
      var s := a + [c] + x;
      assert a == s[..|a|] && b == (b + [c] + y)[..|b|];
      assert x == s[|a| + 1..] && y == (b + [c] + y)[|b| + 1..];
    }
  }

  lemma CatAssoc(a: string, b: string, c: string)
    ensures a + (b + c) == a + b + c
  {}

  // ---------------------------------------------------------------- quoting

  /** strings.ReplaceAll for a one-character pattern. */
  function ReplaceAll(s: string, c: char, with: string): string {
    if s == "" then "" else (if s[0] == c then with else [s[0]]) + ReplaceAll(s[1..], c, with)
  }

  /** The two replacement passes both quoting routines make. */
  function Quote(s: string): string {
    "'" + ReplaceAll(ReplaceAll(s, '\\', "\\\\"), '\'', "\\'") + "'"
  }

  /** One pass: every backslash and every single quote gets a backslash in front. */
  function Escape(s: string): string {
    if s == "" then ""
    else (if s[0] == '\\' || s[0] == '\'' then ['\\', s[0]] else [s[0]]) + Escape(s[1..])
  }

  lemma {:induction false} ReplaceCat(a: string, b: string, c: char, with: string)
    ensures ReplaceAll(a + b, c, with) == ReplaceAll(a, c, with) + ReplaceAll(b, c, with)
  {
    if a == "" {
      assert a + b == b;
    } else {
      ReplaceCat(a[1..], b, c, with);
      assert (a + b)[1..] == a[1..] + b;
      var head := if a[0] == c then with else [a[0]];
      assert head + (ReplaceAll(a[1..], c, with) + ReplaceAll(b, c, with))
          == head + ReplaceAll(a[1..], c, with) + ReplaceAll(b, c, with);
    }
  }

  /** The order of the two passes is right: together they escape each character once. */
  lemma {:induction false} QuoteEscapes(s: string)
    ensures Quote(s) == "'" + Escape(s) + "'"
    decreases |s|
  {
    TwoPasses(s);
  }

  lemma {:induction false} TwoPasses(s: string)
    ensures ReplaceAll(ReplaceAll(s, '\\', "\\\\"), '\'', "\\'") == Escape(s)
  {
    if s != "" {
      TwoPasses(s[1..]);
      var head := if s[0] == '\\' then "\\\\" else [s[0]];
      ReplaceCat(head, ReplaceAll(s[1..], '\\', "\\\\"), '\'', "\\'");
      var one := ReplaceAll(head, '\'', "\\'");
      assert one == if s[0] == '\\' || s[0] == '\'' then ['\\', s[0]] else [s[0]] by {
        assert head[1..] == if s[0] == '\\' then "\\" else "";
        if s[0] == '\\' {
          assert head[1..][1..] == "";
          assert ReplaceAll(head[1..], '\'', "\\'") == "\\" + ReplaceAll("", '\'', "\\'");
        }
      }
    }
  }

  // ---------------------------------------------------------------- spans

  /** Length of the longest prefix of identifier characters. */
  function IdentLen(r: string): (n: nat)
    ensures n <= |r|
    ensures forall i :: 0 <= i < n ==> IsIdentPart(r[i])
    ensures n < |r| ==> !IsIdentPart(r[n])
  {
    if r != "" && IsIdentPart(r[0]) then 1 + IdentLen(r[1..]) else 0
  }

  /** Length of the longest prefix of digits. */
  function DigitsLen(r: string): (n: nat)
    ensures n <= |r|
    ensures AllDigits(r[..n])
    ensures n < |r| ==> !IsDigit(r[n])
  {
    if r != "" && IsDigit(r[0]) then 1 + DigitsLen(r[1..]) else 0
  }

  lemma {:induction false} IdentSpan(s: string, rest: string)
    requires forall i :: 0 <= i < |s| ==> IsIdentPart(s[i])
    requires rest == "" || !IsIdentPart(rest[0])
    ensures IdentLen(s + rest) == |s|
  {
    if s == "" {
      assert s + rest == rest;
    } else {
      IdentSpan(s[1..], rest);
      assert (s + rest)[1..] == s[1..] + rest;
    }
  }

  lemma {:induction false} DigitsSpan(s: string, rest: string)
    requires AllDigits(s)
    requires rest == "" || !IsDigit(rest[0])
    ensures DigitsLen(s + rest) == |s|
  {
    if s == "" {
      assert s + rest == rest;
    } else {
      DigitsSpan(s[1..], rest);
      assert (s + rest)[1..] == s[1..] + rest;
    }
  }

  // ---------------------------------------------------------------- scanning fragments

  type Scanner<!T> = string -> Option<seq<T>>

  /** Tokens read so far in front of what the scanner makes of the rest. */
  function Prepend<T>(ts: seq<T>, r: Option<seq<T>>): Option<seq<T>> {
    match r
    case None => None
    case Some(rest) => Some(ts + rest)
  }

  /** Characters that end a word, an operator or a quoted literal whatever came before. */
  predicate Safe(rest: string) {
    rest == "" || rest[0] in " ()[],"
  }

  /** `a` scans to `ta` in front of any text at all. */
  ghost predicate Closed<T>(scan: Scanner<T>, a: string, ta: seq<T>) {
    forall rest: string :: scan(a + rest) == Prepend(ta, scan(rest))
  }

  /** `a` scans to `ta` in front of any text that starts with a boundary character. */
  ghost predicate Open<T>(scan: Scanner<T>, a: string, ta: seq<T>) {
    forall rest: string :: Safe(rest) ==> scan(a + rest) == Prepend(ta, scan(rest))
  }

  lemma ClosedCat<T>(scan: Scanner<T>, a: string, ta: seq<T>, b: string, tb: seq<T>)
    requires Closed(scan, a, ta) && Closed(scan, b, tb)
    ensures Closed(scan, a + b, ta + tb)
  {
    forall rest: string ensures scan(a + b + rest) == Prepend(ta + tb, scan(rest)) {
      assert a + b + rest == a + (b + rest);
      assert scan(b + rest) == Prepend(tb, scan(rest));
      PrependCat(ta, tb, scan(rest));
    }
  }

  lemma ClosedOpen<T>(scan: Scanner<T>, a: string, ta: seq<T>, b: string, tb: seq<T>)
    requires Closed(scan, a, ta) && Open(scan, b, tb)
    ensures Open(scan, a + b, ta + tb)
  {
    forall rest: string | Safe(rest) ensures scan(a + b + rest) == Prepend(ta + tb, scan(rest)) {
      assert a + b + rest == a + (b + rest);
      assert scan(b + rest) == Prepend(tb, scan(rest));
      PrependCat(ta, tb, scan(rest));
    }
  }

  /** A word followed by a fragment that starts with a boundary character. */
  lemma OpenClosed<T>(scan: Scanner<T>, a: string, ta: seq<T>, b: string, tb: seq<T>)
    requires Open(scan, a, ta) && Closed(scan, b, tb)
    requires b != "" && Safe(b)
    ensures Closed(scan, a + b, ta + tb)
  {
    forall rest: string ensures scan(a + b + rest) == Prepend(ta + tb, scan(rest)) {
      assert a + b + rest == a + (b + rest);
      assert scan(b + rest) == Prepend(tb, scan(rest));
      assert (b + rest)[0] == b[0];
      PrependCat(ta, tb, scan(rest));
    }
  }

  lemma OpenOpen<T>(scan: Scanner<T>, a: string, ta: seq<T>, b: string, tb: seq<T>)
    requires Open(scan, a, ta) && Open(scan, b, tb)
    requires b != "" && Safe(b)
    ensures Open(scan, a + b, ta + tb)
  {
    forall rest: string | Safe(rest) ensures scan(a + b + rest) == Prepend(ta + tb, scan(rest)) {
      assert a + b + rest == a + (b + rest);
      assert scan(b + rest) == Prepend(tb, scan(rest));
      assert (b + rest)[0] == b[0];
      PrependCat(ta, tb, scan(rest));
    }
  }

  /** A word and the space after it. */
  lemma OpenSpace<T>(scan: Scanner<T>, a: string, ta: seq<T>)
    requires Closed(scan, " ", []) && Open(scan, a, ta)
    ensures Closed(scan, a + " ", ta)
  {
    OpenClosed(scan, a, ta, " ", []);
    assert ta + [] == ta;
  }

  /** `a b c`, with single spaces. */
  lemma OpenSpaced<T>(scan: Scanner<T>, a: string, ta: seq<T>, b: string, tb: seq<T>, c: string, tc: seq<T>)
    requires Closed(scan, " ", []) && Open(scan, a, ta) && Open(scan, b, tb) && Open(scan, c, tc)
    ensures Open(scan, a + " " + b + " " + c, ta + tb + tc)
  {
    OpenSpace(scan, a, ta);
    ClosedOpen(scan, a + " ", ta, b, tb);
    OpenSpace(scan, a + " " + b, ta + tb);
    ClosedOpen(scan, a + " " + b + " ", ta + tb, c, tc);
  }

  /** A word between spaces. */
  lemma SpacedWord<T>(scan: Scanner<T>, w: string, tw: seq<T>)
    requires Closed(scan, " ", []) && Open(scan, w, tw)
    ensures Closed(scan, " " + w + " ", tw)
  {
    ClosedOpen(scan, " ", [], w, tw);
    OpenSpace(scan, " " + w, [] + tw);
    assert [] + tw == tw;
  }

  /** `a()` */
  lemma OpenUnit<T>(scan: Scanner<T>, a: string, t: T, l: T, r: T)
    requires Open(scan, a, [t]) && Closed(scan, "(", [l]) && Closed(scan, ")", [r])
    ensures Open(scan, a + "()", [t, l, r])
  {
    OpenClosed(scan, a, [t], "(", [l]);
    ClosedCat(scan, a + "(", [t] + [l], ")", [r]);
    assert a + "(" + ")" == a + "()" && [t] + [l] + [r] == [t, l, r];
  }

  lemma PrependNothing<T>(r: Option<seq<T>>)
    ensures Prepend([], r) == r
  {
    if r.Some? {
      assert [] + r.value == r.value;
    }
  }

  lemma PrependCat<T>(ta: seq<T>, tb: seq<T>, r: Option<seq<T>>)
    ensures Prepend(ta + tb, r) == Prepend(ta, Prepend(tb, r))
  {
    if r.Some? {
      assert ta + tb + r.value == ta + (tb + r.value);
    }
  }
}
