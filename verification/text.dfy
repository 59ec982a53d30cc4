/** Python's `str.isspace` and `str.strip()` (no arguments), on which the blank checks of
    the form helper and of the search rewrite rest. */
module Text {

  /** The characters Python's `str.isspace` accepts. */
  predicate IsSpace(c: char) {
    || ('\t' <= c <= '\r')
    || ('\U{001C}' <= c <= ' ')
    || c == '\U{0085}' || c == '\U{00A0}' || c == '\U{1680}'
    || ('\U{2000}' <= c <= '\U{200A}')
    || ('\U{2028}' <= c <= '\U{2029}')
    || c == '\U{202F}' || c == '\U{205F}' || c == '\U{3000}'
  }

  /** True when every character is whitespace (the empty string included). */
  predicate AllSpace(s: string) {
    forall i :: 0 <= i < |s| ==> IsSpace(s[i])
  }

  /** `s.strip()`: whitespace is dropped from the front, then from the back, until neither
      end is whitespace. */
  function Strip(s: string): string
    decreases |s|
  {
    if s != [] && IsSpace(s[0]) then Strip(s[1..])
    else if s != [] && IsSpace(s[|s| - 1]) then Strip(s[..|s| - 1])
    else s
  }

  /** What `strip` leaves has no whitespace at either end. */
  lemma {:induction false} StripTrimmed(s: string)
    ensures Strip(s) == [] || (!IsSpace(Strip(s)[0]) && !IsSpace(Strip(s)[|Strip(s)| - 1]))
    decreases |s|
  {
    if s != [] && IsSpace(s[0]) {
      StripTrimmed(s[1..]);
    } else if s != [] && IsSpace(s[|s| - 1]) {
      StripTrimmed(s[..|s| - 1]);
    }
  }

  /** `r` is the piece of `s` at `i`, with only whitespace before and after it. */
  predicate CutAt(s: string, r: string, i: int) {
    && 0 <= i <= |s| - |r|
    && s[i..i + |r|] == r
    && AllSpace(s[..i])
    && AllSpace(s[i + |r|..])
  }

  /** A cut of `s[1..]` is a cut of `s` one further on, when `s[0]` is whitespace. */
  lemma CutFront(s: string, r: string, j: int)
    requires s != [] && IsSpace(s[0]) && CutAt(s[1..], r, j)
    ensures CutAt(s, r, j + 1)
  {
    var t := s[1..];
    assert s[j + 1..j + 1 + |r|] == t[j..j + |r|];
    assert s[j + 1 + |r|..] == t[j + |r|..];
    var front := s[..j + 1];
    forall k | 0 <= k < |front| ensures IsSpace(front[k]) {
      if k > 0 {
        assert front[k] == t[..j][k - 1];
      }
    }
  }

  /** A cut of `s` without its last character is a cut of `s`, when that character is
      whitespace. */
  lemma CutBack(s: string, r: string, i: int)
    requires s != [] && IsSpace(s[|s| - 1]) && CutAt(s[..|s| - 1], r, i)
    ensures CutAt(s, r, i)
  {
    var t := s[..|s| - 1];
    assert s[i..i + |r|] == t[i..i + |r|];
    assert s[..i] == t[..i];
    assert s[i + |r|..] == t[i + |r|..] + [s[|s| - 1]];
  }

  /** Where `strip` cuts `s`. */
  lemma {:induction false} StripCut(s: string) returns (i: int)
    ensures CutAt(s, Strip(s), i)
    decreases |s|
  {
    if s != [] && IsSpace(s[0]) {
      var j := StripCut(s[1..]);
      CutFront(s, Strip(s), j);
      i := j + 1;
    } else if s != [] && IsSpace(s[|s| - 1]) {
      i := StripCut(s[..|s| - 1]);
      CutBack(s, Strip(s), i);
    } else {
      i := 0;
      assert s[..0] == [] && s[|s|..] == [];
    }
  }

  /** What `strip` keeps is a contiguous piece of `s`, and everything cut off on either side
      was whitespace. */
  lemma StripIsTrimmedInfix(s: string)
    ensures var r := Strip(s);
      exists i :: 0 <= i <= |s| - |r| && s[i..i + |r|] == r
        && AllSpace(s[..i]) && AllSpace(s[i + |r|..])
  {
    var i := StripCut(s);
    assert CutAt(s, Strip(s), i);
  }

  /** A string strips to nothing exactly when it is all whitespace. */
  lemma {:induction false} StripEmptyIffAllSpace(s: string)
    ensures Strip(s) == [] <==> AllSpace(s)
  {
    var r := Strip(s);
    var i := StripCut(s);
    assert CutAt(s, r, i);
    if r == [] {
      forall k | 0 <= k < |s| ensures IsSpace(s[k]) {
        if k < i {
          assert s[k] == s[..i][k];
        } else {
          assert s[k] == s[i..][k - i];
        }
      }
    } else {
      StripTrimmed(s);
      assert s[i] == r[0];
    }
  }

  /** A string with no whitespace at either end strips to itself. */
  lemma StripKeepsTrimmed(s: string)
    requires s == [] || (!IsSpace(s[0]) && !IsSpace(s[|s| - 1]))
    ensures Strip(s) == s
  {
  }

  /** Stripping twice changes nothing more. */
  lemma StripIdempotent(s: string)
    ensures Strip(Strip(s)) == Strip(s)
  {
    StripTrimmed(s);
    StripKeepsTrimmed(Strip(s));
  }
}
