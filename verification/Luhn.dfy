/** The checksum that decides whether a digit run is redacted as a card number
    (src/masova_agent/runtime/guardrails.py), against Annex B of ISO/IEC 7812-1. */
module Luhn {

  type Digit = d: int | 0 <= d <= 9

  /** Contribution of one digit: a doubled digit counts with its digit sum. */
  function Weigh(d: Digit, doubled: bool): Digit {
    if !doubled then d
    else if 2 * d > 9 then 2 * d - 9
    else 2 * d
  }

  /** Every second digit from the right is doubled; the last one is not. */
  predicate Doubled(s: seq<Digit>, i: nat)
    requires i < |s|
  {
    (|s| - 1 - i) % 2 == 1
  }

  /** Weighted sum of the first `n` digits. */
  ghost function SumTo(s: seq<Digit>, n: nat): nat
    requires n <= |s|
  {
    if n == 0 then 0 else SumTo(s, n - 1) + Weigh(s[n - 1], Doubled(s, n - 1))
  }

  ghost predicate Valid(s: seq<Digit>) {
    SumTo(s, |s|) % 10 == 0
  }

  method LuhnValid(digits: seq<Digit>) returns (ok: bool)
    ensures ok <==> Valid(digits)
  {
    var total, n := 0, |digits|;
    for i := 0 to n
      invariant total + SumTo(digits, n - i) == SumTo(digits, n)
    {
      var d: int := digits[n - 1 - i];
      if i % 2 == 1 {
        d := d * 2;
        if d > 9 {
          d := d - 9;
        }
      }
      total := total + d;
    }
    ok := total % 10 == 0;
  }

  // ---- local edits ----

  ghost predicate AgreeOn(s: seq<Digit>, t: seq<Digit>, lo: nat, hi: nat) {
    |s| == |t| && hi <= |s| && forall i :: lo <= i < hi ==> s[i] == t[i]
  }

  lemma {:induction false} SameStretch(s: seq<Digit>, t: seq<Digit>, lo: nat, hi: nat)
    requires lo <= hi && AgreeOn(s, t, lo, hi)
    ensures SumTo(s, hi) - SumTo(s, lo) == SumTo(t, hi) - SumTo(t, lo)
    decreases hi
  {
    if lo < hi {
      SameStretch(s, t, lo, hi - 1);
    }
  }

  lemma SameResidue(rest: int, x: Digit, y: Digit)
    requires (rest + x) % 10 == 0 && (rest + y) % 10 == 0
    ensures x == y
  {
  }

  lemma WeighInjective(x: Digit, y: Digit, d: bool)
    requires Weigh(x, d) == Weigh(y, d)
    ensures x == y
  {
  }

  /** No two valid strings of equal length differ in exactly one digit. */
  lemma SingleDigitErrorDetected(s: seq<Digit>, t: seq<Digit>, i: nat)
    requires i < |s| == |t| && s[i] != t[i]
    requires AgreeOn(s, t, 0, i) && AgreeOn(s, t, i + 1, |s|)
    ensures !(Valid(s) && Valid(t))
  {
    if Valid(s) && Valid(t) {
      SameStretch(s, t, 0, i);
      SameStretch(s, t, i + 1, |s|);
      var d := Doubled(s, i);
      assert Doubled(t, i) == d;
      SameResidue(SumTo(s, |s|) - Weigh(s[i], d), Weigh(s[i], d), Weigh(t[i], d));
      WeighInjective(s[i], t[i], d);
    }
  }

  /** A doubled digit weighs the digit sum of its double, any other what it is. */
  lemma WeightIsDigitSum(d: Digit)
    ensures Weigh(d, false) == d && Weigh(d, true) == (2 * d) / 10 + (2 * d) % 10
  {
  }

  predicate TwinPair(x: Digit, y: Digit) {
    (x == 2 && y == 5) || (x == 3 && y == 6) || (x == 4 && y == 7)
  }

  lemma TwinWeights(x: Digit, y: Digit)
    requires x != y
    ensures (Weigh(x, false) + Weigh(x, true) - Weigh(y, false) - Weigh(y, true)) % 10 == 0 <==> TwinPair(x, y) || TwinPair(y, x)
  {
  }

  /** Of two valid strings none differs from the other in a pair of equal neighbours that
      became another such pair, but for 22 and 55, 33 and 66, 44 and 77, which pass. */
  lemma TwinErrorDetected(s: seq<Digit>, t: seq<Digit>, i: nat)
    requires i + 1 < |s| == |t| && s[i] == s[i + 1] && t[i] == t[i + 1] && s[i] != t[i]
    requires AgreeOn(s, t, 0, i) && AgreeOn(s, t, i + 2, |s|)
    requires Valid(s)
    ensures Valid(t) <==> TwinPair(s[i], t[i]) || TwinPair(t[i], s[i])
  {
    EditEffect(s, t, i, 2);
    SpanOfTwo(s, i);
    SpanOfTwo(t, i);
    assert Doubled(s, i + 1) == !Doubled(s, i) && Doubled(t, i) == Doubled(s, i);
    TwinWeights(s[i], t[i]);
    SameResidueAfter(SumTo(s, |s|), Span(s, i, 2) - Span(t, i, 2));
  }

  lemma SameResidueAfter(total: int, change: int)
    requires total % 10 == 0
    ensures (total - change) % 10 == 0 <==> change % 10 == 0
  {
  }

  function Swap(s: seq<Digit>, i: nat, j: nat): seq<Digit>
    requires i < |s| && j < |s|
  {
    s[i := s[j]][j := s[i]]
  }

  predicate IsZeroNine(x: Digit, y: Digit) {
    (x == 0 && y == 9) || (x == 9 && y == 0)
  }

  /** Weighted value of the digits at two or three places from `i` on. */
  ghost function Span(s: seq<Digit>, i: nat, n: nat): int
    requires i + n <= |s|
  {
    if n == 0 then 0 else Span(s, i, n - 1) + Weigh(s[i + n - 1], Doubled(s, i + n - 1))
  }

  lemma {:induction false} SpanIsDifference(s: seq<Digit>, i: nat, n: nat)
    requires i + n <= |s|
    ensures SumTo(s, i + n) == SumTo(s, i) + Span(s, i, n)
  {
    if n > 0 {
      SpanIsDifference(s, i, n - 1);
    }
  }

  /** Only the edited stretch changes the total. */
  lemma EditEffect(s: seq<Digit>, t: seq<Digit>, i: nat, n: nat)
    requires i + n <= |s| && AgreeOn(s, t, 0, i) && AgreeOn(s, t, i + n, |s|)
    ensures SumTo(t, |t|) == SumTo(s, |s|) - Span(s, i, n) + Span(t, i, n)
  {
    SameStretch(s, t, 0, i);
    SameStretch(s, t, i + n, |s|);
    SpanIsDifference(s, i, n);
    SpanIsDifference(t, i, n);
  }

  lemma SpanOfTwo(s: seq<Digit>, i: nat)
    requires i + 1 < |s|
    ensures Span(s, i, 2) == Weigh(s[i], Doubled(s, i)) + Weigh(s[i + 1], Doubled(s, i + 1))
  {
    assert Span(s, i, 0) == 0;
    assert Span(s, i, 1) == Span(s, i, 0) + Weigh(s[i], Doubled(s, i));
    assert Span(s, i, 2) == Span(s, i, 1) + Weigh(s[i + 1], Doubled(s, i + 1));
  }

  lemma SwapSpans(s: seq<Digit>, i: nat)
    requires i + 1 < |s| && s[i] != s[i + 1]
    ensures var a, b := Span(s, i, 2), Span(Swap(s, i, i + 1), i, 2);
            -10 < a - b < 10 && (a == b <==> IsZeroNine(s[i], s[i + 1]))
  {
    var t := Swap(s, i, i + 1);
    var d := Doubled(s, i);
    assert Doubled(s, i + 1) == !d && Doubled(t, i + 1) == !d && Doubled(t, i) == d;
    SpanOfTwo(s, i);
    SpanOfTwo(t, i);
    SwapWeights(s[i], s[i + 1], d);
  }

  /** Swapping two neighbours that differ keeps validity exactly for the pair 0 and 9. */
  lemma AdjacentSwapDetected(s: seq<Digit>, i: nat)
    requires i + 1 < |s| && s[i] != s[i + 1]
    requires Valid(s)
    ensures Valid(Swap(s, i, i + 1)) <==> IsZeroNine(s[i], s[i + 1])
  {
    var t := Swap(s, i, i + 1);
    EditEffect(s, t, i, 2);
    SwapSpans(s, i);
    SameAsBefore(SumTo(s, |s|), Span(s, i, 2), Span(t, i, 2));
  }

  lemma SwapWeights(x: Digit, y: Digit, d: bool)
    requires x != y
    ensures Weigh(x, d) + Weigh(y, !d) == Weigh(y, d) + Weigh(x, !d) <==> IsZeroNine(x, y)
    ensures -10 < (Weigh(x, d) + Weigh(y, !d)) - (Weigh(y, d) + Weigh(x, !d)) < 10
  {
  }

  lemma SameAsBefore(total: int, before: int, after: int)
    requires total % 10 == 0 && -10 < before - after < 10
    ensures (total - before + after) % 10 == 0 <==> before == after
  {
  }

  /** Digits two apart carry the same weight, so swapping them is never noticed. */
  lemma JumpSwapUndetected(s: seq<Digit>, i: nat)
    requires i + 2 < |s|
    ensures Valid(s) <==> Valid(Swap(s, i, i + 2))
  {
    var t := Swap(s, i, i + 2);
    EditEffect(s, t, i, 3);
    JumpSpans(s, i);
  }

  lemma JumpSpans(s: seq<Digit>, i: nat)
    requires i + 2 < |s|
    ensures Span(s, i, 3) == Span(Swap(s, i, i + 2), i, 3)
  {
    var t := Swap(s, i, i + 2);
    var d := Doubled(s, i);
    assert Doubled(s, i + 2) == d && Doubled(t, i + 2) == d && Doubled(t, i) == d;
    assert Doubled(s, i + 1) == Doubled(t, i + 1);
    SpanOfTwo(s, i);
    SpanOfTwo(t, i);
    assert Span(s, i, 3) == Span(s, i, 2) + Weigh(s[i + 2], Doubled(s, i + 2));
    assert Span(t, i, 3) == Span(t, i, 2) + Weigh(t[i + 2], Doubled(t, i + 2));
  }

  /** The digit that completes a prefix. */
  ghost function CheckDigit(prefix: seq<Digit>): Digit {
    (10 - SumTo(prefix + [0], |prefix|) % 10) % 10
  }

  /** Every prefix is completed to a valid string by exactly one digit. */
  lemma CheckDigitUnique(prefix: seq<Digit>, d: Digit)
    ensures Valid(prefix + [d]) <==> d == CheckDigit(prefix)
  {
    var s, t, n := prefix + [0], prefix + [d], |prefix|;
    SameStretch(s, t, 0, n);
    assert !Doubled(t, n);
    Completes(SumTo(s, n), d);
  }

  lemma Completes(sum: nat, d: Digit)
    ensures (sum + d) % 10 == 0 <==> d == (10 - sum % 10) % 10
  {
  }
}
