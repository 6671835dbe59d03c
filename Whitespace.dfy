/** Python's `str.strip()` with no argument, and why it never changes the numbers a
    message holds. */
module Whitespace {
  import opened Scanner

  /** Python's `str.isspace()`: the characters `str.strip()` removes. */
  predicate IsSpace(c: char) {
    || '\t' <= c <= '\r'
    || '\U{1C}' <= c <= ' '
    || c == '\U{85}' || c == '\U{A0}' || c == '\U{1680}'
    || '\U{2000}' <= c <= '\U{200A}'
    || c == '\U{2028}' || c == '\U{2029}' || c == '\U{202F}' || c == '\U{205F}' || c == '\U{3000}'
  }

  /** Removes the leading whitespace. */
  function StripLeading(s: string): (r: string)
    ensures |r| <= |s| && r == s[|s| - |r|..]
    ensures forall k :: 0 <= k < |s| - |r| ==> IsSpace(s[k])
    ensures r == [] || !IsSpace(r[0])
  {
    if s != [] && IsSpace(s[0]) then StripLeading(s[1..]) else s
  }

  /** Removes the trailing whitespace. */
  function StripTrailing(s: string): (r: string)
    ensures |r| <= |s| && r == s[..|r|]
    ensures forall k :: |r| <= k < |s| ==> IsSpace(s[k])
    ensures r == [] || !IsSpace(r[|r| - 1])
  {
    if s != [] && IsSpace(s[|s| - 1]) then StripTrailing(s[..|s| - 1]) else s
  }

  /** `str.strip()`. */
  function Strip(s: string): string {
    StripTrailing(StripLeading(s))
  }

  /** Stripping never changes the numbers found: whitespace holds no digit and no point. */
  lemma StripKeepsTokens(s: string)
    ensures Tokens(Strip(s)) == Tokens(s)
  {
    var w, v := StripSplit(s);
    SurroundedTokens(w, Strip(s), v);
  }

  /** The text is the stripped text between two runs of whitespace. */
  lemma StripSplit(s: string) returns (w: string, v: string)
    ensures s == w + (Strip(s) + v)
    ensures NoDigitIn(w, 0, |w|) && NoDigitIn(v, 0, |v|)
    ensures forall k :: 0 <= k < |v| ==> v[k] != '.'
  {
    w := LeadingSplit(s);
    v := TrailingSplit(StripLeading(s));
  }

  /** Whitespace is neither a digit nor a decimal point. */
  lemma SpaceIsNoNumeral(c: char)
    requires IsSpace(c)
    ensures !IsDigit(c) && c != '.'
  {
  }

  lemma LeadingSplit(s: string) returns (w: string)
    ensures s == w + StripLeading(s)
    ensures NoDigitIn(w, 0, |w|)
  {
    var a := StripLeading(s);
    w := s[..|s| - |a|];
    assert a == s[|w|..];
    assert s == s[..|w|] + s[|w|..];
    forall k | 0 <= k < |w| ensures !IsDigit(w[k]) {
      assert w[k] == s[k];
      SpaceIsNoNumeral(s[k]);
    }
  }

  lemma TrailingSplit(a: string) returns (v: string)
    ensures a == StripTrailing(a) + v
    ensures NoDigitIn(v, 0, |v|)
    ensures forall k :: 0 <= k < |v| ==> v[k] != '.'
  {
    var b := StripTrailing(a);
    v := a[|b|..];
    assert b == a[..|b|];
    assert a == a[..|b|] + a[|b|..];
    forall k | 0 <= k < |v| ensures !IsDigit(v[k]) && v[k] != '.' {
      assert v[k] == a[|b| + k];
      SpaceIsNoNumeral(a[|b| + k]);
    }
  }
}
