/**
 * The few Python string builtins the moderation engine relies on:
 * `str.strip(c)`, `str.isupper()`, `str.startswith(p)` and `ord(c) > 127`.
 * Strings are sequences of Unicode scalar values, as Python's `str` is.
 */
module Text {

  // ---------------------------------------------------------------------
  // str.strip(c)
  // ---------------------------------------------------------------------

  /** `s` with every leading occurrence of `c` removed. */
  function StripLeft(s: string, c: char): (r: string)
    ensures |r| <= |s|
    ensures r == [] || r[0] != c
  {
    if s != [] && s[0] == c then StripLeft(s[1..], c) else s
  }

  /** `s` with every trailing occurrence of `c` removed. */
  function StripRight(s: string, c: char): (r: string)
    ensures |r| <= |s|
    ensures r == [] || r[|r| - 1] != c
    ensures r != [] ==> r[0] == s[0]
  {
    if s != [] && s[|s| - 1] == c then StripRight(s[..|s| - 1], c) else s
  }

  /** `StripLeft` keeps a suffix of its input and drops only `c` in front of it. */
  lemma {:induction false} StripLeftSuffix(s: string, c: char)
    ensures var r := StripLeft(s, c);
      r == s[|s| - |r|..] && forall i :: 0 <= i < |s| - |r| ==> s[i] == c
  {
    if s != [] && s[0] == c {
      StripLeftSuffix(s[1..], c);
      var r := StripLeft(s, c);
      forall i | 1 <= i < |s| - |r| ensures s[i] == c {
        assert s[1..][i - 1] == s[i];
      }
      assert s[1..][|s| - 1 - |r|..] == s[|s| - |r|..];
    }
  }

  /** `StripRight` keeps a prefix of its input and drops only `c` after it. */
  lemma {:induction false} StripRightPrefix(s: string, c: char)
    ensures var r := StripRight(s, c);
      r == s[..|r|] && forall i :: |r| <= i < |s| ==> s[i] == c
  {
    if s != [] && s[|s| - 1] == c {
      StripRightPrefix(s[..|s| - 1], c);
      var r := StripRight(s, c);
      forall i | |r| <= i < |s| - 1 ensures s[i] == c {
        assert s[..|s| - 1][i] == s[i];
      }
      assert s[..|s| - 1][..|r|] == s[..|r|];
    }
  }

  /**
   * `s[lo..hi]` is `s` stripped of `c`: everything outside the slice is `c`,
   * and the slice neither starts nor ends with `c`.
   */
  ghost predicate StrippedAt(s: string, c: char, lo: int, hi: int)
  {
    && 0 <= lo <= hi <= |s|
    && (forall i :: 0 <= i < lo ==> s[i] == c)
    && (forall i :: hi <= i < |s| ==> s[i] == c)
    && (lo == hi || (s[lo] != c && s[hi - 1] != c))
  }

  /** Python's `s.strip(c)`: removes every leading and every trailing `c`. */
  function Strip(s: string, c: char): (r: string)
    ensures |r| <= |s|
    ensures r == [] || (r[0] != c && r[|r| - 1] != c)
  {
    StripRight(StripLeft(s, c), c)
  }

  /** The start of what `Strip` keeps: the number of leading `c` it drops. */
  function StripStart(s: string, c: char): (lo: nat)
    ensures lo + |Strip(s, c)| <= |s|
  {
    |s| - |StripLeft(s, c)|
  }

  /** `Strip` keeps a contiguous slice of its input. */
  lemma {:induction false} StripIsSlice(s: string, c: char)
    ensures Strip(s, c) == s[StripStart(s, c)..StripStart(s, c) + |Strip(s, c)|]
  {
    var t := StripLeft(s, c);
    var lo := |s| - |t|;
    var r := StripRight(t, c);
    assert Strip(s, c) == r && StripStart(s, c) == lo;
    StripLeftSuffix(s, c);
    StripRightPrefix(t, c);
    forall k | 0 <= k < |r| ensures r[k] == s[lo + k] {
      assert r[k] == t[k] && t[k] == s[lo..][k];
    }
    assert r == s[lo..lo + |r|];
  }

  /** What `Strip` drops around that slice is `c` and nothing else. */
  lemma {:induction false} StripDropsOnlyBorder(s: string, c: char)
    ensures StrippedAt(s, c, StripStart(s, c), StripStart(s, c) + |Strip(s, c)|)
  {
    var t := StripLeft(s, c);
    var r := StripRight(t, c);
    var lo := |s| - |t|;
    StripLeftSuffix(s, c);
    StripRightPrefix(t, c);
    assert Strip(s, c) == r && StripStart(s, c) == lo;
    forall i | lo + |r| <= i < |s| ensures s[i] == c {
      assert s[lo..][i - lo] == s[i];
    }
    if r != [] {
      assert s[lo..][0] == s[lo];
      assert t[..|r|][|r| - 1] == t[|r| - 1];
      assert s[lo..][|r| - 1] == s[lo + |r| - 1];
    }
  }

  /** There is only one way to strip a string: `Strip` is the slice any `StrippedAt` describes. */
  lemma {:induction false} StripUnique(s: string, c: char, lo: int, hi: int)
    requires StrippedAt(s, c, lo, hi)
    ensures Strip(s, c) == s[lo..hi]
  {
    var r := Strip(s, c);
    var lo' := StripStart(s, c);
    var hi' := lo' + |r|;
    StripIsSlice(s, c);
    StripDropsOnlyBorder(s, c);
    if lo != hi {
      assert s[lo] != c && s[hi - 1] != c;
      assert lo' <= lo < hi' && lo' <= hi - 1 < hi';
      assert s[lo'] != c && s[hi' - 1] != c;
      assert lo <= lo' < hi && lo <= hi' - 1 < hi;
    }
  }

  /** Stripping twice removes nothing more than stripping once. */
  lemma StripIdempotent(s: string, c: char)
    ensures Strip(Strip(s, c), c) == Strip(s, c)
  {
    var r := Strip(s, c);
    assert StrippedAt(r, c, 0, |r|);
    StripUnique(r, c, 0, |r|);
  }

  /** A string that neither starts nor ends with `c` is left as it is. */
  lemma StripUnbordered(s: string, c: char)
    requires s == [] || (s[0] != c && s[|s| - 1] != c)
    ensures Strip(s, c) == s
  {
    assert StrippedAt(s, c, 0, |s|);
    StripUnique(s, c, 0, |s|);
  }

  // ---------------------------------------------------------------------
  // str.isupper()
  // ---------------------------------------------------------------------

  predicate IsUpperChar(c: char) { 'A' <= c <= 'Z' }
  predicate IsLowerChar(c: char) { 'a' <= c <= 'z' }
  /** A character that has an upper- and a lower-case form. */
  predicate IsCasedChar(c: char) { IsUpperChar(c) || IsLowerChar(c) }

  function HasCased(s: string): (b: bool)
    ensures b <==> exists i :: 0 <= i < |s| && IsCasedChar(s[i])
  {
    if s == [] then false
    else if IsCasedChar(s[0]) then true
    else
      assert forall i :: 1 <= i < |s| ==> s[1..][i - 1] == s[i];
      HasCased(s[1..])
  }

  function HasLower(s: string): (b: bool)
    ensures b <==> exists i :: 0 <= i < |s| && IsLowerChar(s[i])
  {
    if s == [] then false
    else if IsLowerChar(s[0]) then true
    else
      assert forall i :: 1 <= i < |s| ==> s[1..][i - 1] == s[i];
      HasLower(s[1..])
  }

  /**
   * Python's `s.isupper()`: at least one cased character and no lower-case
   * one. A string without letters (a number, a lone `#`) is not upper-case.
   */
  function IsUpper(s: string): (b: bool)
    ensures b <==> (exists i :: 0 <= i < |s| && IsCasedChar(s[i]))
                   && (forall i :: 0 <= i < |s| ==> !IsLowerChar(s[i]))
    ensures b ==> exists i :: 0 <= i < |s| && IsUpperChar(s[i])
  {
    HasCased(s) && !HasLower(s)
  }

  // ---------------------------------------------------------------------
  // str.startswith(p) and ord(c) > 127
  // ---------------------------------------------------------------------

  predicate StartsWith(s: string, prefix: string)
    ensures StartsWith(s, prefix) <==> |prefix| <= |s| && forall i :: 0 <= i < |prefix| ==> s[i] == prefix[i]
  {
    |prefix| <= |s| && s[..|prefix|] == prefix
  }

  /** A code point outside 7-bit ASCII. */
  predicate IsNonAscii(c: char) { c as int > 127 }

  /** The number of code points above 127 in `s`. */
  function NonAsciiChars(s: string): (n: nat)
    ensures n <= |s|
    ensures n == 0 <==> forall i :: 0 <= i < |s| ==> !IsNonAscii(s[i])
  {
    if s == [] then 0
    else
      var init := s[..|s| - 1];
      assert forall i :: 0 <= i < |init| ==> init[i] == s[i];
      NonAsciiChars(init) + (if IsNonAscii(s[|s| - 1]) then 1 else 0)
  }

  /** Extending a string by one character counts that character if it is non-ASCII. */
  lemma NonAsciiCharsStep(s: string, j: nat)
    requires j < |s|
    ensures NonAsciiChars(s[..j + 1]) == NonAsciiChars(s[..j]) + (if IsNonAscii(s[j]) then 1 else 0)
  {
    assert s[..j + 1][..j] == s[..j];
  }
}
