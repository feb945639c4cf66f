/**
  ASCII character classes, lower-casing and substring search, shared by the
  evaluator, the history matcher and the modifier. Python's `str.islower`,
  `str.isupper`, `str.isdigit` and `str.lower` are Unicode-aware; this model
  narrows them to ASCII.
 */
module Chars {

  predicate IsLower(c: char) { 'a' <= c <= 'z' }

  predicate IsUpper(c: char) { 'A' <= c <= 'Z' }

  predicate IsDigit(c: char) { '0' <= c <= '9' }

  /** Python's `string.punctuation`: the 32 ASCII punctuation characters. */
  const Punctuation: string := "!\"#$%&'()*+,-./:;<=>?@[\\]^_`{|}~"

  predicate IsPunctuation(c: char) { c in Punctuation }

  predicate HasLower(s: string) { exists i :: 0 <= i < |s| && IsLower(s[i]) }

  predicate HasUpper(s: string) { exists i :: 0 <= i < |s| && IsUpper(s[i]) }

  predicate HasDigit(s: string) { exists i :: 0 <= i < |s| && IsDigit(s[i]) }

  predicate HasPunctuation(s: string) { exists i :: 0 <= i < |s| && IsPunctuation(s[i]) }

  /** ASCII `lower()` of one character. */
  function ToLower(c: char): (r: char)
    ensures !IsUpper(r)
    ensures !IsUpper(c) ==> r == c
    ensures IsUpper(c) ==> IsLower(r)
  {
    if IsUpper(c) then (c as int + 32) as char else c
  }

  /** ASCII `str.lower()`. */
  function Lower(s: string): (r: string)
    ensures |r| == |s|
  {
    seq(|s|, i requires 0 <= i < |s| => ToLower(s[i]))
  }

  lemma LowerAppend(s: string, t: string)
    ensures Lower(s + t) == Lower(s) + Lower(t)
  {
    assert forall i :: 0 <= i < |s + t| ==> Lower(s + t)[i] == (Lower(s) + Lower(t))[i];
  }

  /** Python's `p in s` for strings: `p` occurs as a contiguous substring of `s`. */
  predicate Contains(s: string, p: string)
  {
    exists i :: 0 <= i <= |s| - |p| && OccursAt(s, p, i)
  }

  predicate OccursAt(s: string, p: string, i: int)
  {
    0 <= i <= |s| - |p| && s[i..i + |p|] == p
  }

  lemma ContainsInExtension(s: string, p: string, x: string, y: string)
    requires Contains(s, p)
    ensures Contains(x + s + y, p)
  {
    var i :| 0 <= i <= |s| - |p| && OccursAt(s, p, i);
    var t := x + s + y;
    assert t[|x| + i..|x| + i + |p|] == s[i..i + |p|];
    assert OccursAt(t, p, |x| + i);
  }

  /** Python's `set(s)`: the distinct characters of `s`. */
  function Distinct(s: string): set<char>
  {
    set c | c in s
  }

  lemma {:induction false} DistinctAtMostLength(s: string)
    ensures |Distinct(s)| <= |s|
  {
    if s != [] {
      var t := s[..|s| - 1];
      DistinctAtMostLength(t);
      assert s == t + [s[|s| - 1]];
      assert Distinct(s) == Distinct(t) + {s[|s| - 1]};
    }
  }
}
