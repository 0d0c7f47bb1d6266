/** The reply parser of the batch summariser. Python's
    `re.split(r"SUMMARY\s*\d+:", s, flags=re.IGNORECASE)` is written out as an
    explicit scanner (`ScanFrom`) and splitter (`PiecesFrom`), and both are
    tied to declarative accounts: `IsMarker` says what one match is, and
    `Leftmost` says which matches `re.split` uses. */
module Markers {
  import opened Wrappers
  import opened Text

  /** ASCII upper-casing; every other character is left alone. */
  function AsciiUpper(c: char): char {
    if 'a' <= c <= 'z' then (c as int - 32) as char else c
  }

  /** Character `c` matches the upper-case keyword letter `k` under
      `re.IGNORECASE`: either case of the letter, and for `S` also U+017F
      LATIN SMALL LETTER LONG S, which Python's matcher counts as a case
      variant of `s`. */
  predicate LetterMatches(c: char, k: char) {
    AsciiUpper(c) == k || (k == 'S' && c == '\U{17F}')
  }

  /** `SUMMARY`, in any letter case, starts at position `p` of `s`. */
  predicate KeywordAt(s: string, p: nat) {
    && p + 7 <= |s|
    && LetterMatches(s[p], 'S') && LetterMatches(s[p + 1], 'U')
    && LetterMatches(s[p + 2], 'M') && LetterMatches(s[p + 3], 'M')
    && LetterMatches(s[p + 4], 'A') && LetterMatches(s[p + 5], 'R')
    && LetterMatches(s[p + 6], 'Y')
  }

  /** `m` is, in its entirety, one match of `SUMMARY\s*\d+:`: the keyword,
      then whitespace up to some position `j`, then at least one digit, then
      a colon. */
  ghost predicate IsMarker(m: string) {
    && KeywordAt(m, 0)
    && m[|m| - 1] == ':'
    && exists j :: 7 <= j < |m| - 1 && SpacesIn(m, 7, j) && DigitsIn(m, j, |m| - 1)
  }

  /** A whitespace character can be neither a digit nor the first letter of
      the keyword. */
  lemma SpaceDisjointFromDigitAndKeyword(c: char)
    ensures IsDigit(c) ==> !IsSpace(c)
    ensures IsSpace(c) ==> !LetterMatches(c, 'S')
  {
  }

  /** Length of the match of `SUMMARY\s*\d+:` that starts at position `p`
      of `s`, if there is one: the keyword, the whitespace run after it, the
      digit run after that, and a colon right after the digits. */
  function MatchAt(s: string, p: nat): (r: Option<nat>)
    requires p <= |s|
    ensures r.Some? ==> 9 <= r.value && p + r.value <= |s| && s[p + r.value - 1] == ':'
  {
    if !KeywordAt(s, p) then None
    else
      var j := SpaceEnd(s, p + 7);
      var k := DigitEnd(s, j);
      if j < k < |s| && s[k] == ':' then Some(k + 1 - p) else None
  }

  /** The match starting at `p` is unique and is the one `MatchAt` measures:
      `s[p..p + n]` is a marker exactly when `MatchAt` reports length `n`. The
      greedy `\s*` and `\d+` never have to give characters back, because
      whitespace, digits and `:` are disjoint classes. */
  lemma MatchAtExact(s: string, p: nat, n: nat)
    requires p + n <= |s|
    ensures IsMarker(s[p..p + n]) <==> MatchAt(s, p) == Some(n)
  {
    if IsMarker(s[p..p + n]) {
      MarkerIsMatch(s, p, n);
    }
    if MatchAt(s, p) == Some(n) {
      MatchIsMarker(s, p, n);
    }
  }

  lemma MarkerIsMatch(s: string, p: nat, n: nat)
    requires p + n <= |s| && IsMarker(s[p..p + n])
    ensures MatchAt(s, p) == Some(n)
  {
    var m := s[p..p + n];
    var w :| 7 <= w < |m| - 1 && SpacesIn(m, 7, w) && DigitsIn(m, w, |m| - 1);
    assert KeywordAt(s, p) by {
      assert m[0] == s[p] && m[1] == s[p + 1] && m[2] == s[p + 2] && m[3] == s[p + 3];
      assert m[4] == s[p + 4] && m[5] == s[p + 5] && m[6] == s[p + 6];
    }
    assert SpacesIn(s, p + 7, p + w) by {
      forall q | p + 7 <= q < p + w ensures IsSpace(s[q]) { assert m[q - p] == s[q]; }
    }
    assert DigitsIn(s, p + w, p + n - 1) by {
      forall q | p + w <= q < p + n - 1 ensures IsDigit(s[q]) { assert m[q - p] == s[q]; }
    }
    assert m[w] == s[p + w] && m[n - 1] == s[p + n - 1];
    SpaceDisjointFromDigitAndKeyword(s[p + w]);
    SpaceEndExact(s, p + 7, p + w);
    DigitEndExact(s, p + w, p + n - 1);
  }

  lemma MatchIsMarker(s: string, p: nat, n: nat)
    requires p + n <= |s| && MatchAt(s, p) == Some(n)
    ensures IsMarker(s[p..p + n])
  {
    var m := s[p..p + n];
    var j := SpaceEnd(s, p + 7);
    SpaceEndRun(s, p + 7);
    DigitEndRun(s, j);
    assert KeywordAt(m, 0) by {
      assert m[0] == s[p] && m[1] == s[p + 1] && m[2] == s[p + 2] && m[3] == s[p + 3];
      assert m[4] == s[p + 4] && m[5] == s[p + 5] && m[6] == s[p + 6];
    }
    assert SpacesIn(m, 7, j - p);
    assert DigitsIn(m, j - p, n - 1);
  }

  /** A string position holding whitespace cannot start a marker. */
  lemma NoMatchAtSpace(s: string, p: nat)
    requires p < |s| && IsSpace(s[p])
    ensures MatchAt(s, p).None?
  {
    SpaceDisjointFromDigitAndKeyword(s[p]);
  }

  /** No marker match starts at any position of `s` in `[lo, hi)`. */
  predicate NoMatchIn(s: string, lo: nat, hi: nat)
    requires hi <= |s|
  {
    forall p :: lo <= p < hi ==> MatchAt(s, p).None?
  }

  /** One match of the marker pattern, as the half-open range `[start, end)`. */
  datatype Span = Span(start: nat, end: nat)

  /** The spans are in order, do not overlap, and lie within `s[from..]`. */
  predicate Ordered(s: string, from: nat, spans: seq<Span>)
    decreases |spans|
  {
    && from <= |s|
    && (spans != [] ==> from <= spans[0].start <= spans[0].end <= |s| && Ordered(s, spans[0].end, spans[1..]))
  }

  /** The scanner: from position `i`, try each position in turn; on a match,
      record it and resume right after it. */
  function ScanFrom(s: string, i: nat): (spans: seq<Span>)
    requires i <= |s|
    ensures Ordered(s, i, spans)
    decreases |s| - i
  {
    if i == |s| then []
    else
      match MatchAt(s, i)
      case Some(n) => [Span(i, i + n)] + ScanFrom(s, i + n)
      case None => ScanFrom(s, i + 1)
  }

  /** `spans` are exactly the leftmost, non-overlapping matches in `s[i..]`:
      the first span is a match, nothing matches between `i` and its start,
      the rest are the leftmost matches after its end, and with no spans left
      nothing matches at all. */
  ghost predicate Leftmost(s: string, i: nat, spans: seq<Span>)
    decreases |spans|
  {
    && i <= |s|
    && if spans == [] then NoMatchIn(s, i, |s|)
       else
         && i <= spans[0].start < |s|
         && NoMatchIn(s, i, spans[0].start)
         && MatchAt(s, spans[0].start).Some?
         && spans[0].end == spans[0].start + MatchAt(s, spans[0].start).value
         && Leftmost(s, spans[0].end, spans[1..])
  }

  /** Positions without a match can be skipped without changing the scan. */
  lemma {:induction false} ScanSkip(s: string, i: nat, j: nat)
    requires i <= j <= |s| && NoMatchIn(s, i, j)
    ensures ScanFrom(s, i) == ScanFrom(s, j)
    decreases j - i
  {
    if i < j {
      ScanSkip(s, i + 1, j);
    }
  }

  lemma {:induction false} LeftmostStepBack(s: string, i: nat, spans: seq<Span>)
    requires i < |s| && MatchAt(s, i).None?
    requires Leftmost(s, i + 1, spans)
    ensures Leftmost(s, i, spans)
  {
  }

  lemma ScanStepMatch(s: string, i: nat, n: nat)
    requires i < |s| && MatchAt(s, i) == Some(n)
    ensures ScanFrom(s, i) == [Span(i, i + n)] + ScanFrom(s, i + n)
  {
  }

  lemma ScanStepNoMatch(s: string, i: nat)
    requires i < |s| && MatchAt(s, i).None?
    ensures ScanFrom(s, i) == ScanFrom(s, i + 1)
  {
  }

  lemma {:induction false} ScanIsLeftmost(s: string, i: nat)
    requires i <= |s|
    ensures Leftmost(s, i, ScanFrom(s, i))
    decreases |s| - i
  {
    if i < |s| {
      match MatchAt(s, i)
      case Some(n) =>
        ScanIsLeftmost(s, i + n);
        ScanStepMatch(s, i, n);
        var rest := ScanFrom(s, i + n);
        var spans := [Span(i, i + n)] + rest;
        assert spans[0] == Span(i, i + n) && spans[1..] == rest;
        assert NoMatchIn(s, i, i);
      case None =>
        ScanIsLeftmost(s, i + 1);
        ScanStepNoMatch(s, i);
        LeftmostStepBack(s, i, ScanFrom(s, i + 1));
    }
  }

  lemma {:induction false} LeftmostIsScan(s: string, i: nat, spans: seq<Span>)
    requires Leftmost(s, i, spans)
    ensures spans == ScanFrom(s, i)
    decreases |spans|
  {
    if spans == [] {
      ScanSkip(s, i, |s|);
    } else {
      var q := spans[0].start;
      ScanSkip(s, i, q);
      LeftmostIsScan(s, spans[0].end, spans[1..]);
    }
  }

  /** The scanner finds exactly the leftmost, non-overlapping matches: a list
      of spans is the scan's output if and only if it is the leftmost one. */
  lemma ScanExactlyLeftmost(s: string, i: nat, spans: seq<Span>)
    requires i <= |s|
    ensures Leftmost(s, i, spans) <==> spans == ScanFrom(s, i)
  {
    ScanIsLeftmost(s, i);
    if Leftmost(s, i, spans) {
      LeftmostIsScan(s, i, spans);
    }
  }

  /** The texts around the spans: before the first, between consecutive ones,
      and after the last. */
  function PiecesFrom(s: string, from: nat, spans: seq<Span>): (pieces: seq<string>)
    requires Ordered(s, from, spans)
    ensures |pieces| == |spans| + 1
    decreases |spans|
  {
    if spans == [] then [s[from..]]
    else [s[from..spans[0].start]] + PiecesFrom(s, spans[0].end, spans[1..])
  }

  /** The texts the spans cover. */
  function SpanTexts(s: string, from: nat, spans: seq<Span>): (texts: seq<string>)
    requires Ordered(s, from, spans)
    ensures |texts| == |spans|
    decreases |spans|
  {
    if spans == [] then []
    else [s[spans[0].start..spans[0].end]] + SpanTexts(s, spans[0].end, spans[1..])
  }

  /** Reassemble a split: piece, separator, piece, ..., piece. */
  function Interleave(pieces: seq<string>, seps: seq<string>): string
    requires |pieces| == |seps| + 1
    decreases |seps|
  {
    if seps == [] then pieces[0]
    else pieces[0] + seps[0] + Interleave(pieces[1..], seps[1..])
  }

  /** Splitting loses nothing: the pieces with the matched texts between them
      give back the original text. */
  lemma {:induction false} PiecesLossless(s: string, from: nat, spans: seq<Span>)
    requires Ordered(s, from, spans)
    ensures Interleave(PiecesFrom(s, from, spans), SpanTexts(s, from, spans)) == s[from..]
    decreases |spans|
  {
    if spans != [] {
      var sp := spans[0];
      PiecesLossless(s, sp.end, spans[1..]);
      assert s[from..] == s[from..sp.start] + s[sp.start..sp.end] + s[sp.end..];
    }
  }

  /** Python's `re.split(r"SUMMARY\s*\d+:", s, flags=re.IGNORECASE)`: one more
      piece than there are leftmost matches, and the pieces interleaved with
      the matched markers give back `s`. */
  function Split(s: string): (pieces: seq<string>)
    ensures |pieces| == |ScanFrom(s, 0)| + 1
    ensures Interleave(pieces, SpanTexts(s, 0, ScanFrom(s, 0))) == s
    ensures forall k :: 0 <= k < |ScanFrom(s, 0)| ==> IsMarker(SpanTexts(s, 0, ScanFrom(s, 0))[k])
  {
    var spans := ScanFrom(s, 0);
    PiecesLossless(s, 0, spans);
    ScanIsLeftmost(s, 0);
    SpanTextsAreMarkers(s, 0, spans);
    PiecesFrom(s, 0, spans)
  }

  lemma {:induction false} SpanTextsAreMarkers(s: string, from: nat, spans: seq<Span>)
    requires Ordered(s, from, spans) && Leftmost(s, from, spans)
    ensures forall k :: 0 <= k < |spans| ==> IsMarker(SpanTexts(s, from, spans)[k])
    decreases |spans|
  {
    if spans != [] {
      var sp := spans[0];
      SpanTextsAreMarkers(s, sp.end, spans[1..]);
      MatchIsMarker(s, sp.start, sp.end - sp.start);
      forall k | 0 <= k < |spans|
        ensures IsMarker(SpanTexts(s, from, spans)[k])
      {
        if k > 0 {
          assert SpanTexts(s, from, spans)[k] == SpanTexts(s, sp.end, spans[1..])[k - 1];
        }
      }
    }
  }

  /** Where a span's text ends the next piece begins: piece `k + 1` runs from
      the end of span `k` to the start of span `k + 1`, or to the end of `s`. */
  function NextStart(s: string, spans: seq<Span>, k: nat): nat
    requires k < |spans|
  {
    if k + 1 < |spans| then spans[k + 1].start else |s|
  }

  lemma {:induction false} PieceAfterSpan(s: string, from: nat, spans: seq<Span>, k: nat)
    requires Ordered(s, from, spans) && k < |spans|
    ensures spans[k].end <= NextStart(s, spans, k) <= |s|
    ensures PiecesFrom(s, from, spans)[k + 1] == s[spans[k].end..NextStart(s, spans, k)]
    decreases |spans|
  {
    if k > 0 {
      PieceAfterSpan(s, spans[0].end, spans[1..], k - 1);
    } else if |spans| > 1 {
      assert Ordered(s, spans[0].end, spans[1..]);
    }
  }

  /** `strip()` applied to every string of a list. */
  function StripEach(xs: seq<string>): (r: seq<string>)
    ensures |r| == |xs|
    ensures forall k :: 0 <= k < |xs| ==> r[k] == Strip(xs[k])
  {
    if xs == [] then [] else [Strip(xs[0])] + StripEach(xs[1..])
  }

  /** Lines 151-152: strip the reply, split it on the markers, drop the text
      before the first marker, and strip each remaining piece: one segment per
      leftmost marker. */
  function ParseSegments(reply: string): (segments: seq<string>)
    ensures |segments| == |ScanFrom(Strip(reply), 0)|
  {
    StripEach(Split(Strip(reply))[1..])
  }

  /** Segment `k` is the stripped text that follows marker `k` up to the next
      marker or the end; the number inside a marker plays no part. */
  lemma SegmentsFollowMarkers(reply: string, k: nat)
    requires k < |ParseSegments(reply)|
    ensures var t := Strip(reply);
            var spans := ScanFrom(t, 0);
            && spans[k].end <= NextStart(t, spans, k) <= |t|
            && ParseSegments(reply)[k] == Strip(t[spans[k].end..NextStart(t, spans, k)])
  {
    PieceAfterSpan(Strip(reply), 0, ScanFrom(Strip(reply), 0), k);
  }

  /** Whether a marker starts at a position depends only on the text from
      there on. */
  lemma MatchAtSuffix(c: string, d: nat, p: nat)
    requires d + p <= |c|
    ensures MatchAt(c, d + p) == MatchAt(c[d..], p)
  {
    if MatchAt(c[d..], p).Some? {
      MatchAtSuffixSome(c, d, p, MatchAt(c[d..], p).value);
    }
    if MatchAt(c, d + p).Some? {
      MatchAtSuffixBack(c, d, p, MatchAt(c, d + p).value);
    }
  }

  lemma SliceOfSuffix(c: string, d: nat, p: nat, n: nat)
    requires d + p + n <= |c|
    ensures c[d..][p..p + n] == c[d + p..d + p + n]
  {
    var a, b := c[d..][p..p + n], c[d + p..d + p + n];
    forall q | 0 <= q < n ensures a[q] == b[q] {
      assert a[q] == c[d..][p + q];
    }
  }

  lemma MatchAtSuffixSome(c: string, d: nat, p: nat, n: nat)
    requires d + p <= |c| && MatchAt(c[d..], p) == Some(n)
    ensures MatchAt(c, d + p) == Some(n)
  {
    MatchIsMarker(c[d..], p, n);
    SliceOfSuffix(c, d, p, n);
    MarkerIsMatch(c, d + p, n);
  }

  lemma MatchAtSuffixBack(c: string, d: nat, p: nat, n: nat)
    requires d + p <= |c| && MatchAt(c, d + p) == Some(n)
    ensures MatchAt(c[d..], p) == Some(n)
  {
    MatchIsMarker(c, d + p, n);
    SliceOfSuffix(c, d, p, n);
    MarkerIsMatch(c[d..], p, n);
  }

  function ShiftSpans(spans: seq<Span>, d: nat): (r: seq<Span>)
    ensures |r| == |spans|
  {
    if spans == [] then []
    else [Span(spans[0].start + d, spans[0].end + d)] + ShiftSpans(spans[1..], d)
  }

  /** Scanning a suffix of `c` finds the matches of that suffix on its own,
      moved by the suffix's offset. */
  lemma ScanSuffix(c: string, d: nat, i: nat)
    requires d + i <= |c|
    ensures ScanFrom(c, d + i) == ShiftSpans(ScanFrom(c[d..], i), d)
  {
    ScanExactlyLeftmost(c, d + i, ShiftSpans(ScanFrom(c[d..], i), d));
    ShiftedScanIsLeftmost(c, d, i);
  }

  lemma ShiftedScanIsLeftmost(c: string, d: nat, i: nat)
    requires d + i <= |c|
    ensures Leftmost(c, d + i, ShiftSpans(ScanFrom(c[d..], i), d))
  {
    ScanIsLeftmost(c[d..], i);
    LeftmostSuffix(c, d, i, ScanFrom(c[d..], i));
  }

  lemma NoMatchInSuffix(c: string, d: nat, lo: nat, hi: nat)
    requires d + hi <= |c| && NoMatchIn(c[d..], lo, hi)
    ensures NoMatchIn(c, d + lo, d + hi)
  {
    forall p | d + lo <= p < d + hi
      ensures MatchAt(c, p).None?
    {
      var q := p - d;
      assert MatchAt(c[d..], q).None?;
      MatchAtSuffix(c, d, q);
      assert d + q == p;
    }
  }

  /** The leftmost matches of a suffix, moved by its offset, are the leftmost
      matches of the whole string from there on. */
  lemma {:induction false} LeftmostSuffix(c: string, d: nat, i: nat, spans: seq<Span>)
    requires d <= |c|
    ensures Leftmost(c[d..], i, spans) ==> Leftmost(c, d + i, ShiftSpans(spans, d))
    decreases |spans|
  {
    if Leftmost(c[d..], i, spans) {
      if spans == [] {
        NoMatchInSuffix(c, d, i, |c| - d);
      } else {
        var sp := spans[0];
        var sh := ShiftSpans(spans, d);
        assert sh[0] == Span(d + sp.start, d + sp.end);
        assert sh[1..] == ShiftSpans(spans[1..], d);
        NoMatchInSuffix(c, d, i, sp.start);
        MatchAtSuffix(c, d, sp.start);
        assert MatchAt(c, sh[0].start) == MatchAt(c[d..], sp.start);
        LeftmostSuffix(c, d, sp.end, spans[1..]);
        assert Leftmost(c, sh[0].end, sh[1..]);
      }
    }
  }

  /** The pieces of `c` around moved spans of a suffix are the pieces of
      that suffix. */
  lemma {:induction false} PiecesSuffix(c: string, d: nat, i: nat, spans: seq<Span>)
    requires d <= |c| && Ordered(c[d..], i, spans)
    ensures Ordered(c, d + i, ShiftSpans(spans, d))
    ensures PiecesFrom(c, d + i, ShiftSpans(spans, d)) == PiecesFrom(c[d..], i, spans)
    decreases |spans|
  {
    if spans == [] {
      assert c[d + i..] == c[d..][i..];
    } else {
      var sp := spans[0];
      var sh := ShiftSpans(spans, d);
      assert sh[0] == Span(d + sp.start, d + sp.end);
      assert sh[1..] == ShiftSpans(spans[1..], d);
      PiecesSuffix(c, d, sp.end, spans[1..]);
      assert c[d + i..d + sp.start] == c[d..][i..sp.start];
    }
  }
}
