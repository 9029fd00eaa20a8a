/** Stripping of blanks, for ASCII blanks. */
module Texts {

  predicate IsSpace(c: char) {
    c == ' ' || '\t' <= c <= '\r'
  }

  function StripLeft(s: string): string {
    if s != "" && IsSpace(s[0]) then StripLeft(s[1..]) else s
  }

  function StripRight(s: string): string {
    if s != "" && IsSpace(s[|s| - 1]) then StripRight(s[..|s| - 1]) else s
  }

  function Strip(s: string): string {
    StripRight(StripLeft(s))
  }

  predicate AllSpace(s: string) {
    forall i :: 0 <= i < |s| ==> IsSpace(s[i])
  }

  /** A text that neither begins nor ends with a blank. */
  predicate Bare(s: string) {
    s == "" || (!IsSpace(s[0]) && !IsSpace(s[|s| - 1]))
  }

  lemma {:induction false} StripLeftBlanks(left: string, s: string)
    requires AllSpace(left) && (s == "" || !IsSpace(s[0]))
    ensures StripLeft(left + s) == s
  {
    if left == "" {
      assert left + s == s;
    } else {
      assert (left + s)[1..] == left[1..] + s;
      StripLeftBlanks(left[1..], s);
    }
  }

  lemma {:induction false} StripRightBlanks(s: string, right: string)
    requires AllSpace(right) && (s == "" || !IsSpace(s[|s| - 1]))
    ensures StripRight(s + right) == s
  {
    if right == "" {
      assert s + right == s;
    } else {
      assert (s + right)[..|s + right| - 1] == s + right[..|right| - 1];
      StripRightBlanks(s, right[..|right| - 1]);
    }
  }

  /** Stripping takes off the blanks at both ends and nothing else. */
  lemma StripExactly(left: string, core: string, right: string)
    requires AllSpace(left) && AllSpace(right) && Bare(core)
    ensures Strip(left + core + right) == core
  {
    if core == "" {
      assert left + core + right == (left + right) + "";
      assert AllSpace(left + right);
      StripLeftBlanks(left + right, "");
    } else {
      assert left + core + right == left + (core + right);
      StripLeftBlanks(left, core + right);
      StripRightBlanks(core, right);
    }
  }
}
