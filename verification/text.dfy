/**
 The string tests the rules use, restricted to ASCII: Python's `islower`,
 `isupper`, `lower` and `startswith`.
 */
module Text {

  predicate IsLowerChar(c: char) { 'a' <= c <= 'z' }

  predicate IsUpperChar(c: char) { 'A' <= c <= 'Z' }

  /** Python's `s.islower()`: at least one cased character, and none upper-case. */
  predicate IsLower(s: string) {
    (exists i :: 0 <= i < |s| && IsLowerChar(s[i]))
    && forall i :: 0 <= i < |s| ==> !IsUpperChar(s[i])
  }

  /** Python's `s.isupper()`: at least one cased character, and none lower-case. */
  predicate IsUpper(s: string) {
    (exists i :: 0 <= i < |s| && IsUpperChar(s[i]))
    && forall i :: 0 <= i < |s| ==> !IsLowerChar(s[i])
  }

  function ToLowerChar(c: char): (r: char)
    ensures IsUpperChar(c) ==> IsLowerChar(r) && r as int == c as int + 32
    ensures !IsUpperChar(c) ==> r == c
  {
    if IsUpperChar(c) then (c as int + 32) as char else c
  }

  /** Python's `s.lower()`, one character at a time. */
  function Lower(s: string): (r: string)
    ensures |r| == |s|
    ensures forall i :: 0 <= i < |s| ==> r[i] == ToLowerChar(s[i])
  {
    if s == [] then [] else [ToLowerChar(s[0])] + Lower(s[1..])
  }

  /** `s.lower()` leaves `s` unchanged exactly when `s` has no upper-case letter. */
  lemma LowerFixesIffNoUpper(s: string)
    ensures Lower(s) == s <==> forall i :: 0 <= i < |s| ==> !IsUpperChar(s[i])
  {
    if Lower(s) == s {
      forall i | 0 <= i < |s| ensures !IsUpperChar(s[i]) {
        assert Lower(s)[i] == ToLowerChar(s[i]);
      }
    }
  }

  /**
   The two lower-case tests of the two checker variants differ exactly on
   names that hold no lower-case letter: `islower()` rejects such a name
   (say `_1`), while comparing with `lower()` accepts it unless it holds an
   upper-case letter.
   */
  lemma IsLowerVersusLowerFixed(s: string)
    ensures IsLower(s) <==> Lower(s) == s && exists i :: 0 <= i < |s| && IsLowerChar(s[i])
    ensures !IsLower("_1") && Lower("_1") == "_1"
  {
    LowerFixesIffNoUpper(s);
    LowerFixesIffNoUpper("_1");
  }

  /** Python's `s.startswith(p)`. */
  predicate StartsWith(s: string, p: string) {
    |p| <= |s| && s[..|p|] == p
  }
}
