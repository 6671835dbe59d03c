/** The number extraction of the chatbot: `re.findall(r'\d+\.?\d*', text)`.
    The scan goes left to right; at each position it takes the longest match
    of the pattern there (the greedy `\d+`, the optional `.`, the greedy `\d*`),
    resumes after it, and skips positions where nothing matches. */
module Scanner {

  predicate IsDigit(c: char) { '0' <= c <= '9' }

  predicate AllDigits(t: string) { forall k :: 0 <= k < |t| ==> IsDigit(t[k]) }

  /** No digit in s[a..b]. */
  predicate NoDigitIn(s: string, a: nat, b: nat)
    requires a <= b <= |s|
  {
    forall k :: a <= k < b ==> !IsDigit(s[k])
  }

  /** t belongs to the language of the pattern `\d+\.?\d*`. */
  predicate IsNumeral(t: string) {
    && |t| > 0
    && IsDigit(t[0])
    && (|| AllDigits(t)
        || exists p :: 0 < p < |t| && t[p] == '.' && AllDigits(t[..p]) && AllDigits(t[p + 1..]))
  }

  /** Where the run of digits that begins at i ends. */
  function DigitRunEnd(s: string, i: nat): (j: nat)
    requires i <= |s|
    ensures i <= j <= |s|
    ensures j == |s| || !IsDigit(s[j])
    decreases |s| - i
  {
    if i < |s| && IsDigit(s[i]) then DigitRunEnd(s, i + 1) else i
  }

  /** Every character of the run is a digit. */
  lemma {:induction false} DigitRunIsDigits(s: string, i: nat)
    requires i <= |s|
    ensures forall k :: i <= k < DigitRunEnd(s, i) ==> IsDigit(s[k])
    decreases |s| - i
  {
    if i < |s| && IsDigit(s[i]) { DigitRunIsDigits(s, i + 1); }
  }

  /** Where the greedy match of the pattern at i ends; i itself when nothing matches at i. */
  function MatchEnd(s: string, i: nat): (j: nat)
    requires i <= |s|
    ensures i <= j <= |s|
    ensures j == i <==> i == |s| || !IsDigit(s[i])
  {
    var d := DigitRunEnd(s, i);
    if d == i then i
    else if d < |s| && s[d] == '.' then DigitRunEnd(s, d + 1)
    else d
  }

  /** s[b..e] is a match of the pattern that no longer match at b extends. */
  predicate IsLongestMatch(s: string, b: nat, e: nat) {
    && b < e <= |s|
    && IsNumeral(s[b..e])
    && forall e' :: e < e' <= |s| ==> !IsNumeral(s[b..e'])
  }

  /** Every nonempty prefix of a numeral is a numeral. */
  lemma NumeralPrefix(t: string, n: nat)
    requires IsNumeral(t) && 0 < n <= |t|
    ensures IsNumeral(t[..n])
  {
    var u := t[..n];
    if !AllDigits(t) {
      var p :| 0 < p < |t| && t[p] == '.' && AllDigits(t[..p]) && AllDigits(t[p + 1..]);
      if n <= p {
        assert AllDigits(u) by {
          forall k | 0 <= k < n ensures IsDigit(u[k]) { assert u[k] == t[..p][k]; }
        }
      } else {
        assert u[..p] == t[..p];
        var tail, utail := t[p + 1..], u[p + 1..];
        assert AllDigits(utail) by {
          forall k | 0 <= k < |utail| ensures IsDigit(utail[k]) { assert utail[k] == tail[k]; }
        }
        assert u[p] == '.';
      }
    } else {
      assert AllDigits(u) by {
        forall k | 0 <= k < n ensures IsDigit(u[k]) { assert u[k] == t[k]; }
      }
    }
  }

  /** The greedy match at a digit is a numeral. */
  lemma MatchIsNumeral(s: string, i: nat)
    requires i < |s| && IsDigit(s[i])
    ensures IsNumeral(s[i..MatchEnd(s, i)])
  {
    var d := DigitRunEnd(s, i);
    var j := MatchEnd(s, i);
    var t := s[i..j];
    DigitRunIsDigits(s, i);
    if d < |s| && s[d] == '.' {
      DigitRunIsDigits(s, d + 1);
      var p := d - i;
      assert t[p] == '.';
      var head, tail := t[..p], t[p + 1..];
      assert AllDigits(head) by {
        forall k | 0 <= k < p ensures IsDigit(head[k]) { assert head[k] == s[i + k]; }
      }
      assert AllDigits(tail) by {
        forall k | 0 <= k < |tail| ensures IsDigit(tail[k]) { assert tail[k] == s[d + 1 + k]; }
      }
    } else {
      assert AllDigits(t) by {
        forall k | 0 <= k < |t| ensures IsDigit(t[k]) { assert t[k] == s[i + k]; }
      }
    }
  }

  /** The greedy match at a digit is the longest match of the pattern there. */
  lemma MatchEndIsLongest(s: string, i: nat)
    requires i < |s| && IsDigit(s[i])
    ensures IsLongestMatch(s, i, MatchEnd(s, i))
  {
    var j := MatchEnd(s, i);
    MatchIsNumeral(s, i);
    if j < |s| {
      NextCharBreaksMatch(s, i);
      forall e' | j < e' <= |s| ensures !IsNumeral(s[i..e']) {
        var t := s[i..e'];
        PrefixOfSlice(s, i, j + 1, e');
        if IsNumeral(t) {
          NumeralPrefix(t, j + 1 - i);
          assert false;
        }
      }
    }
  }

  lemma PrefixOfSlice(s: string, a: nat, c: nat, b: nat)
    requires a <= c <= b <= |s|
    ensures s[a..b][..c - a] == s[a..c]
  {
  }

  /** Adding the character after the greedy match never gives a numeral. */
  lemma NextCharBreaksMatch(s: string, i: nat)
    requires i < |s| && IsDigit(s[i])
    requires MatchEnd(s, i) < |s|
    ensures !IsNumeral(s[i..MatchEnd(s, i) + 1])
  {
    var d := DigitRunEnd(s, i);
    var j := MatchEnd(s, i);
    var t := s[i..j + 1];
    var last := j - i;
    DigitRunIsDigits(s, i);
    if d < |s| && s[d] == '.' { DigitRunIsDigits(s, d + 1); }
    assert t[last] == s[j] && !IsDigit(t[last]);
    if d < |s| && s[d] == '.' {
      // the dot at d - i and the non-digit at the end rule out every split
      var q := d - i;
      assert t[q] == '.';
      forall p | 0 < p < |t| ensures !(AllDigits(t[..p]) && AllDigits(t[p + 1..])) {
        var head, tail := t[..p], t[p + 1..];
        if p < q {
          assert tail[q - p - 1] == t[q];
        } else if p == q {
          assert tail[last - p - 1] == t[last];
        } else {
          assert head[q] == t[q];
        }
      }
    } else {
      // the match stopped at a character that is neither a digit nor a dot
      assert j == d && t[last] != '.';
      forall p | 0 < p < |t| ensures t[p] != '.' {
        if p < last { assert t[p] == s[i + p]; }
      }
    }
  }

  /** Two longest matches at the same position end at the same place. */
  lemma LongestMatchUnique(s: string, b: nat, e1: nat, e2: nat)
    requires IsLongestMatch(s, b, e1) && IsLongestMatch(s, b, e2)
    ensures e1 == e2
  {
  }

  /** A match found by the scan: the text s[start..end]. */
  datatype Span = Span(start: nat, end: nat)

  /** The matches of the pattern in s, from position i on, in the order `re.findall` finds them. */
  function ScanFrom(s: string, i: nat): (r: seq<Span>)
    requires i <= |s|
    ensures forall k :: 0 <= k < |r| ==> i <= r[k].start < r[k].end <= |s|
    decreases |s| - i
  {
    if i == |s| then []
    else if !IsDigit(s[i]) then ScanFrom(s, i + 1)
    else [Span(i, MatchEnd(s, i))] + ScanFrom(s, MatchEnd(s, i))
  }

  /** Reference definition of the scan: r lists, in order, leftmost-longest matches
      separated by text that holds no digit (so no match can begin there). */
  ghost predicate LeftmostLongest(s: string, i: nat, r: seq<Span>)
    requires i <= |s|
    decreases |r|
  {
    if r == [] then NoDigitIn(s, i, |s|)
    else
      && i <= r[0].start
      && IsLongestMatch(s, r[0].start, r[0].end)
      && NoDigitIn(s, i, r[0].start)
      && LeftmostLongest(s, r[0].end, r[1..])
  }

  /** The scan meets the reference definition. */
  lemma {:induction false} ScanIsLeftmostLongest(s: string, i: nat)
    requires i <= |s|
    ensures LeftmostLongest(s, i, ScanFrom(s, i))
    decreases |s| - i
  {
    if i < |s| {
      var j := MatchEnd(s, i);
      if j == i {
        ScanIsLeftmostLongest(s, i + 1);
      } else {
        MatchEndIsLongest(s, i);
        ScanIsLeftmostLongest(s, j);
        assert ScanFrom(s, i)[1..] == ScanFrom(s, j);
      }
    }
  }

  /** Nothing else meets the reference definition: it determines the scan. */
  lemma {:induction false} LeftmostLongestIsScan(s: string, i: nat, r: seq<Span>)
    requires i <= |s|
    requires LeftmostLongest(s, i, r)
    ensures r == ScanFrom(s, i)
    decreases |s| - i
  {
    if i < |s| {
      var j := MatchEnd(s, i);
      if j == i {
        if r != [] {
          assert s[r[0].start..r[0].end][0] == s[r[0].start];
        }
        LeftmostLongestIsScan(s, i + 1, r);
      } else {
        assert r != [] && r[0].start == i;
        MatchEndIsLongest(s, i);
        LongestMatchUnique(s, i, j, r[0].end);
        LeftmostLongestIsScan(s, j, r[1..]);
      }
    }
  }

  /** The spans of the reference definition lie after i, in text order, without overlapping. */
  lemma {:induction false} LeftmostLongestOrdered(s: string, i: nat, r: seq<Span>)
    requires i <= |s|
    requires LeftmostLongest(s, i, r)
    ensures forall k :: 0 <= k < |r| ==> i <= r[k].start < r[k].end <= |s|
    ensures forall k, m :: 0 <= k < m < |r| ==> r[k].end <= r[m].start
    decreases |r|
  {
    if r != [] {
      LeftmostLongestOrdered(s, r[0].end, r[1..]);
      forall k | 0 < k < |r| ensures r[k] == r[1..][k - 1] { }
    }
  }

  /** The texts of the spans r, in order. */
  function Texts(s: string, r: seq<Span>): (ts: seq<string>)
    requires forall k :: 0 <= k < |r| ==> r[k].start <= r[k].end <= |s|
    ensures |ts| == |r|
  {
    if r == [] then [] else [s[r[0].start..r[0].end]] + Texts(s, r[1..])
  }

  lemma {:induction false} TextsAt(s: string, r: seq<Span>)
    requires forall k :: 0 <= k < |r| ==> r[k].start <= r[k].end <= |s|
    ensures forall k :: 0 <= k < |r| ==> Texts(s, r)[k] == s[r[k].start..r[k].end]
  {
    if r != [] {
      TextsAt(s, r[1..]);
    }
  }

  /** The result of `re.findall(r'\d+\.?\d*', s)`. */
  function Tokens(s: string): (ts: seq<string>)
    ensures forall k :: 0 <= k < |ts| ==> IsNumeral(ts[k])
  {
    var r := ScanFrom(s, 0);
    ScanIsLeftmostLongest(s, 0);
    LongestMatchesAreNumerals(s, 0, r);
    TextsAt(s, r);
    Texts(s, r)
  }

  /** Every match the reference definition lists is a numeral that begins with a digit. */
  lemma {:induction false} LongestMatchesAreNumerals(s: string, i: nat, r: seq<Span>)
    requires i <= |s|
    requires LeftmostLongest(s, i, r)
    ensures forall k :: 0 <= k < |r| ==> r[k].start < r[k].end <= |s| && IsNumeral(s[r[k].start..r[k].end])
    ensures forall k :: 0 <= k < |r| ==> r[k].start < |s| && IsDigit(s[r[k].start])
    decreases |r|
  {
    if r != [] {
      LongestMatchesAreNumerals(s, r[0].end, r[1..]);
      forall k | 0 < k < |r| ensures r[k] == r[1..][k - 1] { }
      assert s[r[0].start..r[0].end][0] == s[r[0].start];
    }
  }

  /** A text with no digit yields no tokens. */
  lemma {:induction false} NoDigitNoTokens(s: string)
    requires NoDigitIn(s, 0, |s|)
    ensures Tokens(s) == []
  {
    ScanIsLeftmostLongest(s, 0);
    LongestMatchesAreNumerals(s, 0, ScanFrom(s, 0));
  }

  /** A text with a digit yields at least one token. */
  lemma {:induction false} DigitGivesToken(s: string, k: nat)
    requires k < |s| && IsDigit(s[k])
    ensures Tokens(s) != []
  {
    ScanIsLeftmostLongest(s, 0);
  }

  /** The greedy match in w + s at |w| + i is the one in s at i, moved by |w|. */
  lemma {:induction false} ShiftedDigitRun(w: string, s: string, i: nat)
    requires i <= |s|
    ensures DigitRunEnd(w + s, |w| + i) == |w| + DigitRunEnd(s, i)
    decreases |s| - i
  {
    if i < |s| {
      assert (w + s)[|w| + i] == s[i];
      if IsDigit(s[i]) { ShiftedDigitRun(w, s, i + 1); }
    }
  }

  lemma ShiftedMatchEnd(w: string, s: string, i: nat)
    requires i <= |s|
    ensures MatchEnd(w + s, |w| + i) == |w| + MatchEnd(s, i)
  {
    ShiftedDigitRun(w, s, i);
    var d := DigitRunEnd(s, i);
    if d != i && d < |s| {
      assert (w + s)[|w| + d] == s[d];
      ShiftedDigitRun(w, s, d + 1);
    }
  }

  /** The scan of w + s from |w| + i finds the texts the scan of s finds from i. */
  lemma {:induction false} ShiftedScan(w: string, s: string, i: nat)
    requires i <= |s|
    ensures Texts(w + s, ScanFrom(w + s, |w| + i)) == Texts(s, ScanFrom(s, i))
    decreases |s| - i
  {
    if i < |s| {
      assert (w + s)[|w| + i] == s[i];
      if !IsDigit(s[i]) {
        ShiftedScan(w, s, i + 1);
      } else {
        ShiftedMatchEnd(w, s, i);
        ShiftedScan(w, s, MatchEnd(s, i));
        ShiftedScanStep(w, s, i);
      }
    }
  }

  /** One match of the induction in ShiftedScan. */
  lemma ShiftedScanStep(w: string, s: string, i: nat)
    requires i < |s| && MatchEnd(s, i) != i
    requires MatchEnd(w + s, |w| + i) == |w| + MatchEnd(s, i)
    requires Texts(w + s, ScanFrom(w + s, |w| + MatchEnd(s, i))) == Texts(s, ScanFrom(s, MatchEnd(s, i)))
    ensures Texts(w + s, ScanFrom(w + s, |w| + i)) == Texts(s, ScanFrom(s, i))
  {
    SliceOfConcat(w, s, i, MatchEnd(s, i));
    SameMatchSameTexts(w + s, s, |w| + i, i);
  }

  /** Two scans that start with equal matches and continue with equal texts find equal texts. */
  lemma SameMatchSameTexts(t: string, s: string, a: nat, i: nat)
    requires a < |t| && IsDigit(t[a]) && i < |s| && IsDigit(s[i])
    requires t[a..MatchEnd(t, a)] == s[i..MatchEnd(s, i)]
    requires Texts(t, ScanFrom(t, MatchEnd(t, a))) == Texts(s, ScanFrom(s, MatchEnd(s, i)))
    ensures Texts(t, ScanFrom(t, a)) == Texts(s, ScanFrom(s, i))
  {
    TextsOfMatch(t, a);
    TextsOfMatch(s, i);
  }

  /** A scan that starts on a digit yields the greedy match, then the rest of the scan. */
  lemma TextsOfMatch(s: string, i: nat)
    requires i < |s| && IsDigit(s[i])
    ensures Texts(s, ScanFrom(s, i)) == [s[i..MatchEnd(s, i)]] + Texts(s, ScanFrom(s, MatchEnd(s, i)))
  {
    var j := MatchEnd(s, i);
    var r := ScanFrom(s, j);
    assert ScanFrom(s, i) == [Span(i, j)] + r;
    TextsCons(s, Span(i, j), r);
  }

  lemma SliceOfConcat(w: string, s: string, a: nat, b: nat)
    requires a <= b <= |s|
    ensures (w + s)[|w| + a..|w| + b] == s[a..b]
    ensures a < |s| ==> (w + s)[|w| + a] == s[a]
  {
  }

  lemma TextsCons(s: string, x: Span, r: seq<Span>)
    requires x.start <= x.end <= |s|
    requires forall k :: 0 <= k < |r| ==> r[k].start <= r[k].end <= |s|
    ensures Texts(s, [x] + r) == [s[x.start..x.end]] + Texts(s, r)
  {
    assert ([x] + r)[1..] == r;
  }

  /** Leading text without digits does not change the tokens that follow it. */
  lemma {:induction false} LeadingNoDigit(w: string, s: string, i: nat)
    requires NoDigitIn(w, 0, |w|)
    requires i <= |w|
    ensures Texts(w + s, ScanFrom(w + s, i)) == Texts(s, ScanFrom(s, 0))
    decreases |w| - i
  {
    if i < |w| {
      assert (w + s)[i] == w[i];
      LeadingNoDigit(w, s, i + 1);
    } else {
      ShiftedScan(w, s, 0);
    }
  }

  /** Up to the end of s, the digit runs of s + v are those of s when v does not begin with a digit. */
  lemma {:induction false} PrefixDigitRun(s: string, v: string, i: nat)
    requires v == [] || !IsDigit(v[0])
    requires i <= |s|
    ensures DigitRunEnd(s + v, i) == DigitRunEnd(s, i)
    decreases |s| - i
  {
    if i < |s| {
      assert (s + v)[i] == s[i];
      if IsDigit(s[i]) { PrefixDigitRun(s, v, i + 1); }
    } else if v != [] {
      assert (s + v)[i] == v[0];
    }
  }

  lemma PrefixMatchEnd(s: string, v: string, i: nat)
    requires v == [] || (!IsDigit(v[0]) && v[0] != '.')
    requires i <= |s|
    ensures MatchEnd(s + v, i) == MatchEnd(s, i)
  {
    var sv := s + v;
    PrefixDigitRun(s, v, i);
    var d := DigitRunEnd(s, i);
    if d != i {
      if d < |s| {
        assert sv[d] == s[d];
        PrefixDigitRun(s, v, d + 1);
      } else if v != [] {
        assert sv[d] == v[0];
      }
    }
  }

  /** The scan finds nothing in text without digits. */
  lemma {:induction false} ScanNoDigit(s: string, i: nat)
    requires i <= |s|
    requires NoDigitIn(s, i, |s|)
    ensures ScanFrom(s, i) == []
    decreases |s| - i
  {
    if i < |s| { ScanNoDigit(s, i + 1); }
  }

  /** Trailing text with neither digits nor dots does not change the matches. */
  lemma {:induction false} TrailingNoDigit(s: string, v: string, i: nat)
    requires NoDigitIn(v, 0, |v|)
    requires forall k :: 0 <= k < |v| ==> v[k] != '.'
    requires i <= |s|
    ensures ScanFrom(s + v, i) == ScanFrom(s, i)
    decreases |s| - i
  {
    var sv := s + v;
    if i == |s| {
      assert NoDigitIn(sv, i, |sv|) by {
        forall k | i <= k < |sv| ensures !IsDigit(sv[k]) { assert sv[k] == v[k - i]; }
      }
      ScanNoDigit(sv, i);
    } else {
      PrefixMatchEnd(s, v, i);
      var j := MatchEnd(s, i);
      if j == i {
        TrailingNoDigit(s, v, i + 1);
      } else {
        TrailingNoDigit(s, v, j);
      }
    }
  }

  /** Surrounding a text by characters that are neither digits nor dots leaves its tokens as they are. */
  lemma {:induction false} SurroundedTokens(w: string, s: string, v: string)
    requires NoDigitIn(w, 0, |w|)
    requires NoDigitIn(v, 0, |v|)
    requires forall k :: 0 <= k < |v| ==> v[k] != '.'
    ensures Tokens(w + (s + v)) == Tokens(s)
  {
    var sv := s + v;
    LeadingNoDigit(w, sv, 0);
    TrailingNoDigit(s, v, 0);
    TextsOfPrefix(s, v, ScanFrom(s, 0));
  }

  /** Spans inside s have the same texts in s + v. */
  lemma {:induction false} TextsOfPrefix(s: string, v: string, r: seq<Span>)
    requires forall k :: 0 <= k < |r| ==> r[k].start <= r[k].end <= |s|
    ensures Texts(s + v, r) == Texts(s, r)
  {
    if r != [] {
      TextsOfPrefix(s, v, r[1..]);
      assert (s + v)[r[0].start..r[0].end] == s[r[0].start..r[0].end];
    }
  }
}
