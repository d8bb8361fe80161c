/** White space as C's routines see it, and case folding of ASCII text. */
module Ascii {
  predicate IsBlank(c: char) { c in {' ', '\t', '\n', '\r', 11 as char, 12 as char} }

  function SkipBlanks(s: string): string { if s != "" && IsBlank(s[0]) then SkipBlanks(s[1..]) else s }

  function LowerChar(c: char): char { if 'A' <= c <= 'Z' then c + 32 as char else c }

  function Lower(s: string): (r: string)
    ensures |r| == |s|
  {
    if s == "" then "" else [LowerChar(s[0])] + Lower(s[1..])
  }

  function Upper(s: string): string {
    if s == "" then "" else [if 'a' <= s[0] <= 'z' then s[0] - 32 as char else s[0]] + Upper(s[1..])
  }

  /** Two characters count as one letter exactly when they are the same or the two cases of one. */
  lemma SameLetterExactly(c: char, d: char)
    ensures LowerChar(c) == LowerChar(d)
       <==> c == d || ('a' <= c <= 'z' && c as int - d as int == 'a' as int - 'A' as int)
            || ('a' <= d <= 'z' && d as int - c as int == 'a' as int - 'A' as int)
  {
  }

  /** In upper case no small letter is left and nothing but case has changed. */
  lemma {:induction false} UpperHolds(s: string)
    ensures |Upper(s)| == |s|
    ensures forall i :: 0 <= i < |s| ==> !('a' <= Upper(s)[i] <= 'z') && LowerChar(Upper(s)[i]) == LowerChar(s[i])
  {
    if s != "" {
      UpperHolds(s[1..]);
      assert forall i :: 1 <= i < |s| ==> Upper(s)[i] == Upper(s[1..])[i - 1] && s[i] == s[1..][i - 1];
    }
  }

  /** What is left begins at the first character that is not blank. */
  lemma {:induction false} SkipBlanksExactly(s: string) returns (n: nat)
    ensures n <= |s| && SkipBlanks(s) == s[n..] && (forall i :: 0 <= i < n ==> IsBlank(s[i])) && (n < |s| ==> !IsBlank(s[n]))
  {
    n := 0;
    if s != "" && IsBlank(s[0]) {
      n := SkipBlanksExactly(s[1..]);
      assert forall i :: 1 <= i < n + 1 ==> s[i] == s[1..][i - 1];
      n := n + 1;
    }
  }

  lemma {:induction false} LowerHolds(s: string)
    ensures Lower(Lower(s)) == Lower(s)
    ensures forall i :: 0 <= i < |s| ==> Lower(s)[i] == LowerChar(s[i])
  {
    if s != "" {
      LowerHolds(s[1..]);
      assert Lower(s)[1..] == Lower(s[1..]);
    }
  }
}
