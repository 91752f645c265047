/** The string operations the column classification uses. */
module Text {

  predicate IsUpper(c: char) {
    'A' <= c <= 'Z'
  }

  /** `toLowerCase` on one character (ASCII letters only). */
  function LowerChar(c: char): char {
    if IsUpper(c) then (c as int + 32) as char else c
  }

  /** The capital of a lower-case ASCII letter; any other character is its own capital. */
  function UpperChar(c: char): char {
    if 'a' <= c <= 'z' then (c as int - 32) as char else c
  }

  /**
   * `toLowerCase` (ASCII letters only): no capital letter is left, every
   * other character is kept, and each capital becomes the letter it is the
   * capital of.
   */
  function ToLower(s: string): (r: string)
    ensures |r| == |s|
    ensures forall i :: 0 <= i < |r| ==> !IsUpper(r[i])
    ensures forall i :: 0 <= i < |s| && !IsUpper(s[i]) ==> r[i] == s[i]
    ensures forall i :: 0 <= i < |s| ==> s[i] == UpperChar(r[i]) || s[i] == r[i]
  {
    seq(|s|, i requires 0 <= i < |s| => LowerChar(s[i]))
  }

  /** Lower-casing twice is lower-casing once. */
  lemma ToLowerIdempotent(s: string)
    ensures ToLower(ToLower(s)) == ToLower(s)
  {
    var r := ToLower(s);
    assert forall i :: 0 <= i < |r| ==> ToLower(r)[i] == r[i];
  }

  /** `sub` occurs in `s` starting at position `i`. */
  predicate OccursAt(s: string, sub: string, i: int) {
    0 <= i && i + |sub| <= |s| && s[i..i + |sub|] == sub
  }

  /** `s.includes(sub)`. */
  predicate Contains(s: string, sub: string) {
    exists i :: 0 <= i <= |s| && OccursAt(s, sub, i)
  }

  /** `c` is the letter `d` in either case. */
  predicate SameLetter(c: char, d: char) {
    c == d || c == UpperChar(d)
  }

  /** At position `i`, `s` spells `sub` with any of its letters in either case. */
  predicate MatchesAt(s: string, sub: string, i: int) {
    0 <= i && i + |sub| <= |s| &&
    forall k :: 0 <= k < |sub| ==> SameLetter(s[i + k], sub[k])
  }

  /** `MatchesAt` for a three-letter `sub`, written out letter by letter. */
  lemma MatchesAtThree(s: string, sub: string, i: int)
    requires |sub| == 3
    ensures MatchesAt(s, sub, i) <==>
      0 <= i && i + 3 <= |s| &&
      SameLetter(s[i], sub[0]) && SameLetter(s[i + 1], sub[1]) && SameLetter(s[i + 2], sub[2])
  {
    if 0 <= i && i + 3 <= |s| {
      assert s[i] == s[i + 0];
      if SameLetter(s[i], sub[0]) && SameLetter(s[i + 1], sub[1]) && SameLetter(s[i + 2], sub[2]) {
        forall k | 0 <= k < 3 ensures SameLetter(s[i + k], sub[k]) {
          if k == 0 {
          } else if k == 1 {
          } else {
          }
        }
      }
    }
  }

  /** A character lower-cases to a non-capital `d` exactly when it is `d` or the capital of `d`. */
  lemma LowerCharIs(c: char, d: char)
    requires !IsUpper(d)
    ensures LowerChar(c) == d <==> c == d || c == UpperChar(d)
  {
  }

  /** Where a lower-cased string holds `sub`, the original spells `sub` ignoring case. */
  lemma OccursAtLowered(s: string, sub: string, i: int)
    requires forall k :: 0 <= k < |sub| ==> !IsUpper(sub[k])
    ensures OccursAt(ToLower(s), sub, i) <==> MatchesAt(s, sub, i)
  {
    var r := ToLower(s);
    if 0 <= i && i + |sub| <= |s| {
      forall k | 0 <= k < |sub|
        ensures r[i + k] == sub[k] <==> SameLetter(s[i + k], sub[k])
      {
        assert r[i + k] == LowerChar(s[i + k]);
        LowerCharIs(s[i + k], sub[k]);
      }
      assert OccursAt(r, sub, i) <==> forall k :: 0 <= k < |sub| ==> r[i + k] == sub[k] by {
        if forall k :: 0 <= k < |sub| ==> r[i + k] == sub[k] {
          assert r[i..i + |sub|] == sub;
        }
        if OccursAt(r, sub, i) {
          forall k | 0 <= k < |sub| ensures r[i + k] == sub[k] {
            assert r[i..i + |sub|][k] == r[i + k];
          }
        }
      }
    }
  }

  /**
   * `s.toLowerCase().includes(sub)`, for a `sub` without capitals, holds
   * exactly when `s` spells `sub` somewhere with letters in either case.
   */
  lemma ContainsIgnoringCase(s: string, sub: string)
    requires forall k :: 0 <= k < |sub| ==> !IsUpper(sub[k])
    ensures Contains(ToLower(s), sub) <==> exists i :: MatchesAt(s, sub, i)
  {
    if Contains(ToLower(s), sub) {
      var i :| 0 <= i <= |ToLower(s)| && OccursAt(ToLower(s), sub, i);
      OccursAtLowered(s, sub, i);
    }
    if exists i :: MatchesAt(s, sub, i) {
      var i :| MatchesAt(s, sub, i);
      OccursAtLowered(s, sub, i);
      assert 0 <= i <= |ToLower(s)| && OccursAt(ToLower(s), sub, i);
    }
  }

  /** A string that starts with `sub` contains it. */
  lemma StartsWithContains(s: string, sub: string)
    requires |sub| <= |s| && s[..|sub|] == sub
    ensures Contains(s, sub)
  {
    assert OccursAt(s, sub, 0);
  }
}
