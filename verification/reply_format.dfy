/** The reply layout the batch prompt asks the model for (ai_utils.py,
    lines 127-130): each summary on its own lines after a `SUMMARY <n>:`
    heading, blocks separated by a blank line. A reply laid out this way is
    parsed back into exactly the summaries it carries. */
module ReplyFormat {
  import opened Wrappers
  import opened Text
  import opened Markers

  /** The heading of block `k`: `SUMMARY <k>:`. */
  function Head(k: nat): string {
    "SUMMARY " + Decimal(k) + ":"
  }

  /** A summary that survives the round trip: non-empty, already stripped,
      and without a marker of its own. */
  predicate WellFormedSummary(s: string) {
    s != "" && IsStripped(s) && NoMatchIn(s, 0, |s|)
  }

  /** The reply for `sums`, numbering the blocks from `k` (the layout of
      lines 128-129): empty for no summaries, and otherwise opening with the
      heading of block `k` and, on the next line, the first summary. */
  function Render(k: nat, sums: seq<string>): (r: string)
    ensures r == "" <==> sums == []
    ensures sums != [] ==> Head(k) + "\n" + sums[0] <= r
    decreases |sums|
  {
    if |sums| == 0 then ""
    else if |sums| == 1 then Head(k) + "\n" + sums[0]
    else Head(k) + "\n" + sums[0] + "\n\n" + Render(k + 1, sums[1..])
  }

  lemma HeadIsMarker(k: nat)
    ensures IsMarker(Head(k))
  {
    var h := Head(k);
    var d := Decimal(k);
    assert h[0] == 'S' && h[1] == 'U' && h[2] == 'M' && h[3] == 'M';
    assert h[4] == 'A' && h[5] == 'R' && h[6] == 'Y' && h[7] == ' ';
    assert DigitsIn(h, 8, |h| - 1) by {
      forall q | 8 <= q < |h| - 1 ensures IsDigit(h[q]) { assert h[q] == d[q - 8]; }
    }
    assert SpacesIn(h, 7, 8);
  }

  /** A heading written at position `d` is matched there, in full. */
  lemma HeadMatchAt(c: string, d: nat, k: nat)
    requires d + |Head(k)| <= |c| && c[d..d + |Head(k)|] == Head(k)
    ensures MatchAt(c, d) == Some(|Head(k)|)
  {
    HeadIsMarker(k);
    MarkerIsMatch(c, d, |Head(k)|);
  }

  /** A match that lies inside a copy of `s` is a match of `s`. */
  lemma MatchInsideCopy(c: string, lo: nat, s: string, p: nat, n: nat)
    requires lo + |s| <= |c| && c[lo..lo + |s|] == s && lo <= p && p + n <= lo + |s|
    ensures MatchAt(c, p) == Some(n) ==> MatchAt(s, p - lo) == Some(n)
  {
    if MatchAt(c, p) == Some(n) {
      MatchIsMarker(c, p, n);
      var m, t := c[p..p + n], s[p - lo..p - lo + n];
      assert m == t by {
        forall q | 0 <= q < n ensures m[q] == t[q] {
          assert c[p + q] == c[lo..lo + |s|][p - lo + q];
        }
      }
      MarkerIsMatch(s, p - lo, n);
    }
  }

  /** A match cannot run across a line break that is followed by a blank line
      and a heading: the whitespace run would end at the `S` of the heading,
      where a digit is needed. */
  lemma MatchStopsAtBreak(c: string, p: nat, e: nat)
    requires p <= e && e + 2 < |c|
    requires c[e] == '\n' && c[e + 1] == '\n' && c[e + 2] == 'S'
    ensures MatchAt(c, p).None? || p + MatchAt(c, p).value <= e
  {
    if p + 7 <= |c| {
      var j := SpaceEnd(c, p + 7);
      SpaceEndRun(c, p + 7);
      DigitEndRun(c, j);
    }
  }

  /** No match starts inside a well-formed summary that ends the text or is
      followed by a blank line and a heading. */
  lemma NoMatchInCopy(c: string, lo: nat, s: string)
    requires lo + |s| <= |c| && c[lo..lo + |s|] == s && NoMatchIn(s, 0, |s|)
    requires lo + |s| == |c|
             || (lo + |s| + 2 < |c| && c[lo + |s|] == '\n' && c[lo + |s| + 1] == '\n'
                 && c[lo + |s| + 2] == 'S')
    ensures NoMatchIn(c, lo, lo + |s|)
  {
    forall p | lo <= p < lo + |s|
      ensures MatchAt(c, p).None?
    {
      var r := MatchAt(c, p);
      var n := if r.Some? then r.value else 0;
      if p + n <= lo + |s| {
        MatchInsideCopy(c, lo, s, p, n);
      } else {
        MatchStopsAtBreak(c, p, lo + |s|);
      }
    }
  }

  /** The pieces of a one-block reply: nothing before the heading, then the
      summary with its line break. */
  lemma OneBlockPieces(c: string, k: nat, s: string)
    requires c == Head(k) + "\n" + s && WellFormedSummary(s)
    ensures PiecesFrom(c, 0, ScanFrom(c, 0)) == ["", "\n" + s]
  {
    var h := Head(k);
    assert c[0..|h|] == h;
    HeadMatchAt(c, 0, k);
    ScanStepMatch(c, 0, |h|);
    NoMatchAtSpace(c, |h|);
    assert c[|h| + 1..|h| + 1 + |s|] == s;
    NoMatchInCopy(c, |h| + 1, s);
    assert NoMatchIn(c, |h|, |c|);
    ScanSkip(c, |h|, |c|);
    assert c[|h|..] == "\n" + s;
  }

  /** Between a heading and the next one there is no match: the line break,
      the summary and the blank line all come up empty. */
  lemma GapHasNoMatch(c: string, lo: nat, s: string)
    requires lo + |s| + 3 < |c| && NoMatchIn(s, 0, |s|)
    requires c[lo] == '\n' && c[lo + 1..lo + 1 + |s|] == s
    requires c[lo + 1 + |s|] == '\n' && c[lo + 2 + |s|] == '\n' && c[lo + 3 + |s|] == 'S'
    ensures NoMatchIn(c, lo, lo + 3 + |s|)
  {
    NoMatchInCopy(c, lo + 1, s);
    forall p | lo <= p < lo + 3 + |s|
      ensures MatchAt(c, p).None?
    {
      if p == lo || p >= lo + 1 + |s| {
        NoMatchAtSpace(c, p);
      }
    }
  }

  /** A text that opens with a match of length `h` and has no further match
      before position `d` scans as that match followed by the matches of its
      suffix from `d`. */
  lemma ScanAfterGap(c: string, h: nat, d: nat, r: string)
    requires h <= d <= |c| && c[d..] == r
    requires MatchAt(c, 0) == Some(h) && NoMatchIn(c, h, d)
    ensures ScanFrom(c, 0) == [Span(0, h)] + ShiftSpans(ScanFrom(r, 0), d)
  {
    var tail := ShiftSpans(ScanFrom(r, 0), d);
    ScanSuffix(c, d, 0);
    assert ScanFrom(c, d) == tail by { assert c[d..] == r && d + 0 == d; }
    ScanSkip(c, h, d);
    assert 9 <= h <= |c|;
    ScanStepMatch(c, 0, h);
    assert ScanFrom(c, 0) == [Span(0, h)] + ScanFrom(c, h);
  }

  /** Where the parts of a block followed by more blocks sit. */
  predicate BlockAt(c: string, h: string, s: string, r: string) {
    && |c| == |h| + |s| + 3 + |r|
    && c[..|h|] == h
    && c[|h|] == '\n'
    && c[|h| + 1..|h| + 1 + |s|] == s
    && c[|h| + 1 + |s|] == '\n' && c[|h| + 2 + |s|] == '\n'
    && c[|h| + 3 + |s|..] == r
  }

  lemma BlockLayout(h: string, s: string, r: string)
    ensures BlockAt(h + "\n" + s + "\n\n" + r, h, s, r)
  {
    var c := h + "\n" + s + "\n\n" + r;
    assert c[..|h|] == h;
    assert c[|h| + 1..|h| + 1 + |s|] == s;
    assert c[|h| + 3 + |s|..] == r;
  }

  lemma GapText(c: string, lo: nat, s: string)
    requires lo + |s| + 3 <= |c|
    requires c[lo] == '\n' && c[lo + 1..lo + 1 + |s|] == s
    requires c[lo + 1 + |s|] == '\n' && c[lo + 2 + |s|] == '\n'
    ensures c[lo..lo + |s| + 3] == "\n" + s + "\n\n"
  {
    var mid, want := c[lo..lo + |s| + 3], "\n" + s + "\n\n";
    forall q | 0 <= q < |s| + 3 ensures mid[q] == want[q] {
      if 1 <= q < 1 + |s| {
        assert mid[q] == c[lo + 1..lo + 1 + |s|][q - 1];
      }
    }
  }

  /** Scanning a reply with more than one block: the first heading, then the
      matches of the rest of the reply, moved past the first block. */
  lemma NextBlockScan(c: string, k: nat, s: string, r: string)
    requires BlockAt(c, Head(k), s, r)
    requires WellFormedSummary(s) && r != "" && r[0] == 'S'
    ensures ScanFrom(c, 0)
              == [Span(0, |Head(k)|)] + ShiftSpans(ScanFrom(r, 0), |Head(k)| + |s| + 3)
  {
    var h := Head(k);
    var d := |h| + |s| + 3;
    assert c[0..|h|] == h;
    HeadMatchAt(c, 0, k);
    assert c[d] == r[0];
    GapHasNoMatch(c, |h|, s);
    ScanAfterGap(c, |h|, d, r);
  }

  /** Pieces after the first depend only on the spans, not on where the
      text before the first span begins. */
  lemma PiecesTailFrom(c: string, i: nat, j: nat, spans: seq<Span>)
    requires Ordered(c, i, spans) && spans != [] && j <= spans[0].start
    ensures Ordered(c, j, spans)
    ensures PiecesFrom(c, i, spans)[1..] == PiecesFrom(c, j, spans)[1..]
  {
  }

  /** An empty first piece of a non-empty text means a match starts it. */
  lemma FirstPieceEmpty(r: string, sr: seq<Span>)
    requires Ordered(r, 0, sr) && r != "" && PiecesFrom(r, 0, sr)[0] == ""
    ensures sr != [] && sr[0].start == 0
  {
  }

  /** The pieces around such a scan: nothing before the opening match, the
      gap up to `d`, then the pieces the suffix has after its own first match. */
  lemma PiecesAfterGap(c: string, h: nat, d: nat, r: string, sr: seq<Span>)
    requires h <= d <= |c| && c[d..] == r
    requires Ordered(r, 0, sr) && sr != [] && sr[0].start == 0
    ensures Ordered(c, 0, [Span(0, h)] + ShiftSpans(sr, d))
    ensures PiecesFrom(c, 0, [Span(0, h)] + ShiftSpans(sr, d))
              == ["", c[h..d]] + PiecesFrom(r, 0, sr)[1..]
  {
    var sh := ShiftSpans(sr, d);
    assert sh[0] == Span(d, d + sr[0].end);
    PiecesSuffix(c, d, 0, sr);
    PiecesTailFrom(c, h, d, sh);
    var all := [Span(0, h)] + sh;
    assert all[0] == Span(0, h) && all[1..] == sh;
  }

  lemma PiecesOfGapScan(c: string, h: nat, d: nat, r: string, mid: string)
    requires h <= d <= |c| && c[d..] == r && c[h..d] == mid
    requires r != "" && PiecesFrom(r, 0, ScanFrom(r, 0))[0] == ""
    requires ScanFrom(c, 0) == [Span(0, h)] + ShiftSpans(ScanFrom(r, 0), d)
    ensures PiecesFrom(c, 0, ScanFrom(c, 0)) == ["", mid] + PiecesFrom(r, 0, ScanFrom(r, 0))[1..]
  {
    var sr := ScanFrom(r, 0);
    FirstPieceEmpty(r, sr);
    PiecesAfterGap(c, h, d, r, sr);
  }

  /** The pieces of a reply with more than one block: nothing before the first
      heading, then the first summary with its line breaks, then the pieces
      the rest of the reply has after its own first heading. */
  lemma NextBlockPieces(c: string, k: nat, s: string, r: string)
    requires BlockAt(c, Head(k), s, r)
    requires WellFormedSummary(s) && r != "" && r[0] == 'S'
    requires PiecesFrom(r, 0, ScanFrom(r, 0))[0] == ""
    ensures PiecesFrom(c, 0, ScanFrom(c, 0))
              == ["", "\n" + s + "\n\n"] + PiecesFrom(r, 0, ScanFrom(r, 0))[1..]
  {
    var h := Head(k);
    var d := |h| + |s| + 3;
    NextBlockScan(c, k, s, r);
    GapText(c, |h|, s);
    PiecesOfGapScan(c, |h|, d, r, "\n" + s + "\n\n");
  }

  /** What the induction over the blocks carries: the reply opens with a
      heading, ends in a non-space, has nothing before its first heading, and
      its pieces strip to `sums`. */
  predicate ReadsBack(c: string, sums: seq<string>) {
    && c != "" && c[0] == 'S' && !IsSpace(c[|c| - 1])
    && var pieces := PiecesFrom(c, 0, ScanFrom(c, 0));
       pieces[0] == "" && StripEach(pieces[1..]) == sums
  }

  lemma OneBlockReadsBack(c: string, k: nat, s: string)
    requires c == Head(k) + "\n" + s && WellFormedSummary(s)
    ensures ReadsBack(c, [s])
  {
    OneBlockPieces(c, k, s);
    assert AllSpace("\n") && "\n" + s == "\n" + s;
    PiecesStripTo(PiecesFrom(c, 0, ScanFrom(c, 0)), "\n" + s, s);
    assert c[0] == Head(k)[0] && c[|c| - 1] == s[|s| - 1];
  }

  lemma PiecesStripTo(pieces: seq<string>, mid: string, s: string)
    requires pieces == ["", mid] && IsStripped(s) && exists a :: AllSpace(a) && mid == a + s
    ensures pieces[0] == "" && StripEach(pieces[1..]) == [s]
  {
    var a :| AllSpace(a) && mid == a + s;
    StripPadded(a, s, "");
    assert a + s + "" == mid;
    assert pieces[1..] == [mid];
    assert StripEach([mid]) == [Strip(mid)] + StripEach([]);
  }

  lemma NextBlockReadsBack(c: string, k: nat, s: string, r: string, rest: seq<string>)
    requires c == Head(k) + "\n" + s + "\n\n" + r
    requires WellFormedSummary(s) && ReadsBack(r, rest)
    ensures ReadsBack(c, [s] + rest)
  {
    var h := Head(k);
    BlockLayout(h, s, r);
    HeadStart(k);
    BlockEnds(c, h, s, r);
    NextBlockPieces(c, k, s, r);
    StripPadded("\n", s, "\n\n");
    ReadsBackStep(c, r, "\n" + s + "\n\n", s, rest);
  }

  lemma HeadStart(k: nat)
    ensures Head(k) != "" && Head(k)[0] == 'S'
  {
  }

  lemma BlockEnds(c: string, h: string, s: string, r: string)
    requires BlockAt(c, h, s, r) && h != "" && r != ""
    ensures c[0] == h[0] && c[|c| - 1] == r[|r| - 1]
  {
    assert c[..|h|][0] == h[0];
    assert c[|h| + 3 + |s|..][|r| - 1] == r[|r| - 1];
  }

  lemma ReadsBackStep(c: string, r: string, mid: string, s: string, rest: seq<string>)
    requires ReadsBack(r, rest)
    requires c != "" && c[0] == 'S' && c[|c| - 1] == r[|r| - 1]
    requires PiecesFrom(c, 0, ScanFrom(c, 0)) == ["", mid] + PiecesFrom(r, 0, ScanFrom(r, 0))[1..]
    requires Strip(mid) == s
    ensures ReadsBack(c, [s] + rest)
  {
    PiecesStripStep(PiecesFrom(c, 0, ScanFrom(c, 0)), mid, PiecesFrom(r, 0, ScanFrom(r, 0)), s, rest);
  }

  lemma PiecesStripStep(pieces: seq<string>, mid: string, pr: seq<string>, s: string, rest: seq<string>)
    requires |pr| >= 1 && pieces == ["", mid] + pr[1..]
    requires Strip(mid) == s && StripEach(pr[1..]) == rest
    ensures pieces[0] == "" && StripEach(pieces[1..]) == [s] + rest
  {
    assert pieces[1..] == [mid] + pr[1..];
    assert StripEach([mid] + pr[1..]) == [Strip(mid)] + StripEach(pr[1..]);
  }

  /** Every block of a rendered reply yields its summary back. */
  lemma {:induction false} RenderedPieces(k: nat, sums: seq<string>)
    requires |sums| > 0 && forall i :: 0 <= i < |sums| ==> WellFormedSummary(sums[i])
    ensures ReadsBack(Render(k, sums), sums)
    decreases |sums|
  {
    var c := Render(k, sums);
    assert WellFormedSummary(sums[0]);
    if |sums| == 1 {
      OneBlockReadsBack(c, k, sums[0]);
    } else {
      RenderedPieces(k + 1, sums[1..]);
      NextBlockReadsBack(c, k, sums[0], Render(k + 1, sums[1..]), sums[1..]);
      assert sums == [sums[0]] + sums[1..];
    }
  }

  /** The reply layout the batch prompt asks for is read back exactly: parsing
      a rendered reply gives the summaries it was rendered from, in order,
      whatever number the first heading carries. */
  lemma ParseRendered(k: nat, sums: seq<string>)
    requires forall i :: 0 <= i < |sums| ==> WellFormedSummary(sums[i])
    ensures ParseSegments(Render(k, sums)) == sums
  {
    var c := Render(k, sums);
    if sums == [] {
      StripPadded("", "", "");
    } else {
      RenderedPieces(k, sums);
      StripPadded("", c, "");
      assert "" + c + "" == c;
    }
  }
}
