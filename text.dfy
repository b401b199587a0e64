/** The two string operations the roster check relies on: `str.lower()` and the `in` operator. */
module Text {

  predicate IsUpper(c: char) { 'A' <= c <= 'Z' }

  /** Lower-cases one ASCII letter; every other character is kept. */
  function LowerChar(c: char): (r: char)
    ensures !IsUpper(r)
    ensures !IsUpper(c) ==> r == c
    ensures IsUpper(c) ==> r as int == c as int + 32
  {
    if IsUpper(c) then (c as int - 'A' as int + 'a' as int) as char else c
  }

  /** The two characters are equal or are the same ASCII letter in upper and lower case. */
  predicate SameIgnoringCase(a: char, b: char) {
    || a == b
    || (IsUpper(a) && b as int == a as int + 32)
    || (IsUpper(b) && a as int == b as int + 32)
  }

  /** `s.lower()` for ASCII text. */
  function Lower(s: string): (r: string)
    ensures |r| == |s|
    ensures forall i :: 0 <= i < |s| ==> r[i] == LowerChar(s[i])
  {
    seq(|s|, i requires 0 <= i < |s| => LowerChar(s[i]))
  }

  predicate IsPrefix(p: string, s: string) { |p| <= |s| && s[..|p|] == p }

  /** `p` occurs somewhere in `s` (the empty string occurs in every string). */
  ghost predicate IsSubstring(p: string, s: string) {
    exists i :: 0 <= i <= |s| && IsPrefix(p, s[i..])
  }

  /** Python's `p in s` on strings, scanning `s` from the left. */
  function Contains(s: string, p: string): (b: bool)
    ensures p == [] ==> b
    ensures b ==> |p| <= |s|
    decreases |s|
  {
    IsPrefix(p, s) || (|s| > 0 && Contains(s[1..], p))
  }

  /** The scan finds `p` exactly when `p` occurs in `s`. */
  lemma {:induction false} ContainsIsSubstring(s: string, p: string)
    ensures Contains(s, p) <==> IsSubstring(p, s)
    decreases |s|
  {
    assert s[0..] == s;
    if IsPrefix(p, s) {
    } else if |s| == 0 {
    } else {
      ContainsIsSubstring(s[1..], p);
      if IsSubstring(p, s[1..]) {
        var i :| 0 <= i <= |s| - 1 && IsPrefix(p, s[1..][i..]);
        assert s[1..][i..] == s[i + 1..];
      }
      if IsSubstring(p, s) {
        var i :| 0 <= i <= |s| && IsPrefix(p, s[i..]);
        assert i != 0;
        assert s[i..] == s[1..][i - 1..];
      }
    }
  }

  /** Lower-cased text has no upper-case letter, so a pattern holding one never occurs in it. */
  lemma UpperEntryNeverMatches(p: string, name: string)
    requires exists k :: 0 <= k < |p| && IsUpper(p[k])
    ensures !IsSubstring(p, Lower(name))
  {
    var s := Lower(name);
    var k :| 0 <= k < |p| && IsUpper(p[k]);
    forall i | 0 <= i <= |s|
      ensures !IsPrefix(p, s[i..])
    {
      if |p| <= |s| - i {
        assert s[i..][..|p|][k] == s[i + k];
      }
    }
  }

  /** A lower-case pattern matches a mixed-case name: `"bob" in "Bob_The_Builder".lower()`. */
  lemma LowerPatternMatchesMixedCase()
    ensures IsSubstring("bob", Lower("Bob_The_Builder"))
  {
    var s := Lower("Bob_The_Builder");
    assert s[0..] == s;
    assert s[..3] == "bob";
  }
}
