/** The JavaScript string operations that the two scripts rely on. */
module Strings {

  /** String.prototype.startsWith: `prefix` is an initial segment of `s`. */
  predicate StartsWith(s: string, prefix: string) {
    |prefix| <= |s| && s[..|prefix|] == prefix
  }

  /** A string that starts with a string that starts with `prefix` starts with `prefix`. */
  lemma StartsWithTransitive(s: string, middle: string, prefix: string)
    requires StartsWith(s, middle) && StartsWith(middle, prefix)
    ensures StartsWith(s, prefix)
  {
    assert s[..|prefix|] == middle[..|prefix|];
  }

  /** String.prototype.includes: `part` occurs somewhere in `s` (the empty string occurs everywhere). */
  predicate Includes(s: string, part: string)
    decreases |s|
  {
    StartsWith(s, part) || (|s| > 0 && Includes(s[1..], part))
  }

  /** Lower-casing of one character, for the ASCII letters. */
  function LowerChar(c: char): char {
    if 'A' <= c <= 'Z' then (c as int + 32) as char else c
  }

  /** String.prototype.toLowerCase, restricted to ASCII letters. */
  function ToLower(s: string): (r: string)
    ensures |r| == |s|
    ensures forall i :: 0 <= i < |s| ==> r[i] == LowerChar(s[i])
  {
    if s == [] then [] else [LowerChar(s[0])] + ToLower(s[1..])
  }

  /** Lower-casing keeps every occurrence: if `part` occurs in `s`, its lower-cased form occurs in the
      lower-cased `s`. */
  lemma {:induction false} IncludesLowered(s: string, part: string)
    requires Includes(s, part)
    ensures Includes(ToLower(s), ToLower(part))
  {
    var ls, lp := ToLower(s), ToLower(part);
    if StartsWith(s, part) {
      assert ls[..|lp|] == lp by {
        forall i | 0 <= i < |lp| ensures ls[..|lp|][i] == lp[i] {
          assert s[..|part|][i] == part[i];
        }
      }
    } else {
      IncludesLowered(s[1..], part);
      assert ToLower(s[1..]) == ls[1..] by {
        forall i | 0 <= i < |s| - 1 ensures ToLower(s[1..])[i] == ls[1..][i] {
          assert s[1..][i] == s[i + 1];
        }
      }
    }
  }
}
