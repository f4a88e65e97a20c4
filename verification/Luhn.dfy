/**
  The card-number checksum of the PII gate (ingest/core/src/pii.rs:134-151) against the
  Luhn formula of Annex B of ISO/IEC 7812-1, and the errors it detects.
 */
module Luhn {
  import opened Text

  type Digit = d: int | 0 <= d < 10

  /** The digits of a text, everything else skipped. */
  function Digits(s: string): seq<Digit> {
    if s == "" then []
    else Digits(s[..|s| - 1]) + if IsDigit(s[|s| - 1]) then [(s[|s| - 1] - '0') as int] else []
  }

  // ---------------------------------------------------------------- the standard's formula

  /** Sum of the decimal digits of a number below 20. */
  function DigitSum(x: nat): nat
    requires x < 20
  {
    if x < 10 then x else 1 + (x - 10)
  }

  /** Every second digit from the right is doubled and replaced by the sum of the digits of
      the product. */
  function Term(d: Digit, doubled: bool): (t: nat)
    ensures t < 10
  {
    if doubled then DigitSum(2 * d) else d
  }

  predicate Doubled(n: nat, i: nat)
    requires i < n
  {
    (n - 1 - i) % 2 == 1
  }

  /** Sum of the terms of the first k digits of a number. */
  function PartialSum(ds: seq<Digit>, k: nat): nat
    requires k <= |ds|
  {
    if k == 0 then 0 else PartialSum(ds, k - 1) + Term(ds[k - 1], Doubled(|ds|, k - 1))
  }

  predicate Checks(ds: seq<Digit>) { PartialSum(ds, |ds|) % 10 == 0 }

  predicate LuhnSpec(ds: seq<Digit>) { 13 <= |ds| <= 19 && Checks(ds) }

  ghost function Twice(d: int): int { if d < 5 then 2 * d else 2 * d - 9 }

  /** The formula from the right, two digits at a time: the last counts once, the one before it
      twice, less nine where that has two digits. */
  ghost function FromRight(ds: seq<Digit>): int {
    var n := |ds|;
    if n == 0 then 0
    else if n == 1 then ds[0]
    else FromRight(ds[..n - 2]) + ds[n - 1] + Twice(ds[n - 2])
  }

  lemma {:induction false} SumFromRight(ds: seq<Digit>)
    ensures PartialSum(ds, |ds|) == FromRight(ds)
  {
    var n := |ds|;
    if n == 1 {
      assert PartialSum(ds, 1) == PartialSum(ds, 0) + ds[0];
    } else if n > 1 {
      SumFromRight(ds[..n - 2]);
      SamePrefix(ds, ds[..n - 2], n - 2);
      assert PartialSum(ds, n) == PartialSum(ds, n - 2) + Term(ds[n - 2], true) + Term(ds[n - 1], false);
    }
  }

  /** Two digits less on the right leave the doubled places as they are. */
  lemma {:induction false} SamePrefix(ds: seq<Digit>, es: seq<Digit>, k: nat)
    requires k <= |es| && |ds| == |es| + 2 && es == ds[..|es|]
    ensures PartialSum(ds, k) == PartialSum(es, k)
  {
    if k > 0 {
      SamePrefix(ds, es, k - 1);
    }
  }

  lemma {:induction false} DigitsSplit(a: string, b: string)
    ensures Digits(a + b) == Digits(a) + Digits(b)
  {
    if b == "" {
      assert a + b == a;
    } else {
      DigitsSplit(a, b[..|b| - 1]);
      assert (a + b)[..|a + b| - 1] == a + b[..|b| - 1];
    }
  }

  lemma OneCharacter(c: char)
    ensures '0' <= c <= '9' ==> Digits([c]) == [(c - '0') as int]
    ensures !('0' <= c <= '9') ==> Digits([c]) == []
  {
    assert Digits([]) == [] && [c][..0] == [];
  }

  /** 4111 1111 1111 1111 is a valid number. */
  lemma KnownNumber()
    ensures LuhnSpec([4, 1, 1, 1, 1, 1, 1, 1, 1, 1, 1, 1, 1, 1, 1, 1])
  {
    var ds := [4, 1, 1, 1, 1, 1, 1, 1, 1, 1, 1, 1, 1, 1, 1, 1];
    assert PartialSum(ds, 2) == 9 && PartialSum(ds, 4) == 12;
    assert PartialSum(ds, 6) == 15 && PartialSum(ds, 8) == 18;
    assert PartialSum(ds, 10) == 21 && PartialSum(ds, 12) == 24;
    assert PartialSum(ds, 14) == 27 && PartialSum(ds, 16) == 30;
  }

  // ---------------------------------------------------------------- the loops of the source

  method CollectDigits(s: string) returns (ds: seq<Digit>)
    ensures ds == Digits(s)
  {
    ds := [];
    for i := 0 to |s|
      invariant ds == Digits(s[..i])
    {
      assert s[..i + 1][..i] == s[..i];
      if IsDigit(s[i]) {
        ds := ds + [(s[i] - '0') as int];
      }
    }
    assert s[..|s|] == s;
  }

  /** The loop runs over the reversed digits, the formula over the digits as written. */
  method LuhnOk(s: string) returns (ok: bool)
    ensures ok <==> LuhnSpec(Digits(s))
    ensures ok <==> 13 <= |Digits(s)| <= 19 && FromRight(Digits(s)) % 10 == 0
  {
    SumFromRight(Digits(s));
    var digits := CollectDigits(s);
    if |digits| < 13 || |digits| > 19 {
      return false;
    }
    var n := |digits|;
    var sum: nat := 0;
    for i := 0 to n
      invariant sum + PartialSum(digits, n - i) == PartialSum(digits, n)
    {
      var d: int := digits[n - 1 - i];
      if i % 2 == 1 {
        d := d * 2;
        if d > 9 {
          d := d - 9;
        }
      }
      sum := sum + d;
    }
    return sum % 10 == 0;
  }

  // ---------------------------------------------------------------- what it detects

  lemma {:induction false} SumUpdate(ds: seq<Digit>, j: nat, x: Digit, k: nat)
    requires j < |ds| && k <= |ds|
    ensures var es := ds[j := x];
            PartialSum(es, k) == PartialSum(ds, k) +
              if j < k then Term(x, Doubled(|ds|, j)) - Term(ds[j], Doubled(|ds|, j)) else 0
    decreases k
  {
    if k > 0 {
      SumUpdate(ds, j, x, k - 1);
    }
  }

  /** Either kind of term is a permutation of the digits. */
  lemma TermInjective(a: Digit, b: Digit, doubled: bool)
    requires a != b
    ensures Term(a, doubled) != Term(b, doubled)
  {}

  /** Replacing one digit of an accepted number always makes it rejected. */
  lemma SingleErrorDetected(ds: seq<Digit>, j: nat, x: Digit)
    requires LuhnSpec(ds) && j < |ds| && x != ds[j]
    ensures !LuhnSpec(ds[j := x])
  {
    var p := Doubled(|ds|, j);
    SumUpdate(ds, j, x, |ds|);
    TermInjective(x, ds[j], p);
    var s: int, t: int := PartialSum(ds, |ds|), PartialSum(ds[j := x], |ds|);
    assert t - s == Term(x, p) - Term(ds[j], p) && -10 < t - s < 10 && t != s;
  }

  function Swapped(ds: seq<Digit>, j: nat): seq<Digit>
    requires j + 1 < |ds|
  {
    ds[j := ds[j + 1]][j + 1 := ds[j]]
  }

  /** What a digit gains by being doubled. */
  function Gain(d: Digit): (g: int)
    ensures g == if d < 5 then d else d - 9
  {
    Term(d, true) - d
  }

  predicate NineAndZero(a: Digit, b: Digit) { (a == 0 && b == 9) || (a == 9 && b == 0) }

  lemma Alternates(n: nat, j: nat)
    requires j + 1 < n
    ensures Doubled(n, j + 1) == !Doubled(n, j)
  {}

  lemma SwapTerms(a: Digit, b: Digit, p: bool)
    ensures Term(b, p) - Term(a, p) + Term(a, !p) - Term(b, !p) == if p then Gain(b) - Gain(a) else Gain(a) - Gain(b)
  {}

  lemma TwoUpdates(ds: seq<Digit>, j: nat, p: bool)
    requires j + 1 < |ds| && p == Doubled(|ds|, j) && !p == Doubled(|ds|, j + 1)
    ensures var a, b := ds[j], ds[j + 1];
            PartialSum(Swapped(ds, j), |ds|) == PartialSum(ds, |ds|) + Term(b, p) - Term(a, p) + Term(a, !p) - Term(b, !p)
  {
    var es := ds[j := ds[j + 1]];
    SumUpdate(ds, j, ds[j + 1], |ds|);
    SumUpdate(es, j + 1, ds[j], |ds|);
  }

  lemma SwapSum(ds: seq<Digit>, j: nat)
    requires j + 1 < |ds|
    ensures var gain := Gain(ds[j + 1]) - Gain(ds[j]);
            PartialSum(Swapped(ds, j), |ds|) - PartialSum(ds, |ds|) == if Doubled(|ds|, j) then gain else -gain
  {
    Alternates(|ds|, j);
    TwoUpdates(ds, j, Doubled(|ds|, j));
    SwapTerms(ds[j], ds[j + 1], Doubled(|ds|, j));
  }

  /** Swapping two different neighbouring digits of an accepted number is noticed, except
      for 0 and 9. */
  lemma AdjacentSwap(ds: seq<Digit>, j: nat)
    requires LuhnSpec(ds) && j + 1 < |ds| && ds[j] != ds[j + 1]
    ensures LuhnSpec(Swapped(ds, j)) <==> NineAndZero(ds[j], ds[j + 1])
  {
    SwapSum(ds, j);
    var gain := Gain(ds[j + 1]) - Gain(ds[j]);
    SameRemainder(PartialSum(ds, |ds|), PartialSum(Swapped(ds, j), |ds|), if Doubled(|ds|, j) then gain else -gain);
    assert -10 < gain < 10 && (gain == 0 <==> NineAndZero(ds[j], ds[j + 1]));
  }

  lemma SameRemainder(s: int, t: int, d: int)
    requires s % 10 == 0 && t - s == d && -10 < d < 10
    ensures t % 10 == 0 <==> d == 0
  {}
}
