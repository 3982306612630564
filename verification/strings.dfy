/** The few Python `str` operations the crawler relies on. */
module Strings {

  /** `s.startswith(prefix)`. */
  predicate StartsWith(s: string, prefix: string)
  {
    |prefix| <= |s| && s[..|prefix|] == prefix
  }

  /** `sub in s`: some window of `s` equals `sub`. */
  predicate Contains(s: string, sub: string)
    decreases |s|
  {
    |sub| <= |s| && (s[..|sub|] == sub || (0 < |s| && Contains(s[1..], sub)))
  }

  predicate IsAsciiDigit(c: char)
  {
    '0' <= c <= '9'
  }

  /** Lower-casing of one character, for the ASCII letters. */
  function LowerChar(c: char): char
  {
    if 'A' <= c <= 'Z' then (c as int + 32) as char else c
  }

  /** `s.lower()` restricted to ASCII letters; every other character is kept. */
  function Lower(s: string): (r: string)
    ensures |r| == |s|
    ensures forall i :: 0 <= i < |s| ==> r[i] == LowerChar(s[i])
  {
    if |s| == 0 then "" else [LowerChar(s[0])] + Lower(s[1..])
  }

  /** Lower-casing never creates or destroys a digit. */
  lemma LowerCharKeepsDigits(c: char, d: char)
    requires IsAsciiDigit(d)
    ensures LowerChar(c) == d <==> c == d
  {
  }

  /**
   Searching the lower-cased text for a string of digits (the `"404"` in a
   page title) finds exactly what searching the original text finds.
   */
  lemma {:induction false} LowerPreservesDigitSearch(t: string, sub: string)
    requires forall i :: 0 <= i < |sub| ==> IsAsciiDigit(sub[i])
    ensures Contains(Lower(t), sub) <==> Contains(t, sub)
    decreases |t|
  {
    var lt := Lower(t);
    if |sub| <= |t| {
      assert lt[..|sub|] == sub <==> t[..|sub|] == sub by {
        forall i | 0 <= i < |sub|
          ensures lt[i] == sub[i] <==> t[i] == sub[i]
        {
          LowerCharKeepsDigits(t[i], sub[i]);
        }
        if t[..|sub|] == sub {
          assert forall i :: 0 <= i < |sub| ==> lt[..|sub|][i] == sub[i];
        }
        if lt[..|sub|] == sub {
          assert forall i :: 0 <= i < |sub| ==> t[..|sub|][i] == sub[i];
        }
      }
      if 0 < |t| {
        assert lt[1..] == Lower(t[1..]);
        LowerPreservesDigitSearch(t[1..], sub);
      }
    }
  }
}
