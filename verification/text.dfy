/** The handful of Python `str` operations the pipeline relies on, over
    `string`, a sequence of Unicode scalar values. Python's `str` is a
    sequence of code points and may also hold lone surrogates (from
    `surrogateescape` decoding, say), which a Dafny `char` cannot. */
module Text {
  import opened Wrappers

  /** Python's `str.isspace` for one character. `str.strip()` with no argument
      and the regular-expression class `\s` on a `str` pattern both use this
      set: the characters with bidirectional type WS, B or S, or category Zs. */
  predicate IsSpace(c: char) {
    || ('\t' <= c <= '\r')
    || ('\U{1C}' <= c <= '\U{1F}')
    || c == ' ' || c == '\U{85}' || c == '\U{A0}' || c == '\U{1680}'
    || ('\U{2000}' <= c <= '\U{200A}')
    || c == '\U{2028}' || c == '\U{2029}' || c == '\U{202F}' || c == '\U{205F}'
    || c == '\U{3000}'
  }

  /** The regular-expression class `\d`, restricted to the ASCII digits. */
  predicate IsDigit(c: char) {
    '0' <= c <= '9'
  }

  /** `s[lo..hi]` is all whitespace. */
  predicate SpacesIn(s: string, lo: nat, hi: nat)
    requires hi <= |s|
  {
    forall k :: lo <= k < hi ==> IsSpace(s[k])
  }

  /** `s[lo..hi]` is all ASCII digits. */
  predicate DigitsIn(s: string, lo: nat, hi: nat)
    requires hi <= |s|
  {
    forall k :: lo <= k < hi ==> IsDigit(s[k])
  }

  predicate AllSpace(s: string) {
    forall i :: 0 <= i < |s| ==> IsSpace(s[i])
  }

  predicate AllDigits(s: string) {
    forall i :: 0 <= i < |s| ==> IsDigit(s[i])
  }

  /** A string with no surrounding whitespace, the shape `strip()` produces. */
  predicate IsStripped(s: string) {
    s == [] || (!IsSpace(s[0]) && !IsSpace(s[|s| - 1]))
  }

  /** End of the run of whitespace that starts at position `i`. */
  function SpaceEnd(s: string, i: nat): (r: nat)
    requires i <= |s|
    ensures i <= r <= |s|
    ensures r < |s| ==> !IsSpace(s[r])
    decreases |s| - i
  {
    if i == |s| || !IsSpace(s[i]) then i else SpaceEnd(s, i + 1)
  }

  /** Start of the run of whitespace that ends at position `i`. */
  function SpaceStart(s: string, i: nat): (r: nat)
    requires i <= |s|
    ensures r <= i
    ensures forall k :: r <= k < i ==> IsSpace(s[k])
    ensures r > 0 ==> !IsSpace(s[r - 1])
  {
    if i == 0 || !IsSpace(s[i - 1]) then i else SpaceStart(s, i - 1)
  }

  /** End of the run of ASCII digits that starts at position `i`. */
  function DigitEnd(s: string, i: nat): (r: nat)
    requires i <= |s|
    ensures i <= r <= |s|
    ensures r < |s| ==> !IsDigit(s[r])
    decreases |s| - i
  {
    if i == |s| || !IsDigit(s[i]) then i else DigitEnd(s, i + 1)
  }

  /** Everything `SpaceEnd` skips is whitespace. */
  lemma {:induction false} SpaceEndRun(s: string, i: nat)
    requires i <= |s|
    ensures SpacesIn(s, i, SpaceEnd(s, i))
    decreases |s| - i
  {
    if i < |s| && IsSpace(s[i]) {
      SpaceEndRun(s, i + 1);
    }
  }

  /** `SpaceEnd` stops at the first non-whitespace character and no earlier. */
  lemma {:induction false} SpaceEndExact(s: string, i: nat, k: nat)
    requires i <= k <= |s|
    requires forall p :: i <= p < k ==> IsSpace(s[p])
    requires k < |s| ==> !IsSpace(s[k])
    ensures SpaceEnd(s, i) == k
    decreases k - i
  {
    if i < k {
      SpaceEndExact(s, i + 1, k);
    }
  }

  lemma SpaceStartExact(s: string, i: nat, k: nat)
    requires k <= i <= |s|
    requires forall p :: k <= p < i ==> IsSpace(s[p])
    requires k > 0 ==> !IsSpace(s[k - 1])
    ensures SpaceStart(s, i) == k
  {
  }

  /** Everything `DigitEnd` skips is a digit. */
  lemma {:induction false} DigitEndRun(s: string, i: nat)
    requires i <= |s|
    ensures DigitsIn(s, i, DigitEnd(s, i))
    decreases |s| - i
  {
    if i < |s| && IsDigit(s[i]) {
      DigitEndRun(s, i + 1);
    }
  }

  lemma {:induction false} DigitEndExact(s: string, i: nat, k: nat)
    requires i <= k <= |s|
    requires forall p :: i <= p < k ==> IsDigit(s[p])
    requires k < |s| ==> !IsDigit(s[k])
    ensures DigitEnd(s, i) == k
    decreases k - i
  {
    if i < k {
      DigitEndExact(s, i + 1, k);
    }
  }

  /** Python's `str.strip()`: the string without its leading and trailing
      whitespace. The result is a slice of `s` with only whitespace around it. */
  function Strip(s: string): (r: string)
    ensures IsStripped(r)
    ensures |r| <= |s|
    ensures exists i :: 0 <= i <= |s| - |r| && s[i..i + |r|] == r
                        && AllSpace(s[..i]) && AllSpace(s[i + |r|..])
  {
    var a := SpaceEnd(s, 0);
    var b := SpaceStart(s, |s|);
    SpaceEndRun(s, 0);
    SpacesPrefix(s, a);
    if a < b then
      SpacesSuffix(s, b);
      assert s[a..a + (b - a)] == s[a..b];
      s[a..b]
    else
      SpacesSuffix(s, a);
      assert s[0..0] == "" && s[..0] == "" && s[0..] == s;
      ""
  }

  lemma SpacesPrefix(s: string, a: nat)
    requires a <= |s| && SpacesIn(s, 0, a)
    ensures AllSpace(s[..a])
  {
    forall k | 0 <= k < a ensures IsSpace(s[..a][k]) {
      assert s[..a][k] == s[k];
    }
  }

  lemma SpacesSuffix(s: string, b: nat)
    requires b <= |s| && SpacesIn(s, b, |s|)
    ensures AllSpace(s[b..])
  {
    forall k | 0 <= k < |s| - b ensures IsSpace(s[b..][k]) {
      assert s[b..][k] == s[b + k];
    }
  }

  /** Stripping only removes characters: one absent before is absent after. */
  lemma StripOmits(s: string, c: char)
    requires c !in s
    ensures c !in Strip(s)
  {
    var r := Strip(s);
    var i :| 0 <= i <= |s| - |r| && s[i..i + |r|] == r && AllSpace(s[..i]) && AllSpace(s[i + |r|..]);
    forall k | 0 <= k < |r| ensures r[k] != c {
      assert r[k] == s[i + k];
    }
  }

  /** `strip()` removes exactly the whitespace padding around a stripped core:
      the core is the unique answer. */
  lemma {:induction false} StripPadded(a: string, m: string, b: string)
    requires AllSpace(a) && AllSpace(b) && IsStripped(m)
    ensures Strip(a + m + b) == m
  {
    var s := a + m + b;
    if m == [] {
      assert s == a + b;
      SpaceEndExact(s, 0, |s|);
    } else {
      SpaceEndExact(s, 0, |a|);
      SpaceStartExact(s, |s|, |a| + |m|);
      assert s[|a|..|a| + |m|] == m;
    }
  }

  /** A string without surrounding whitespace is its own `strip()`. */
  lemma StripOfStripped(s: string)
    requires IsStripped(s)
    ensures Strip(s) == s
  {
    StripPadded("", s, "");
    assert "" + s + "" == s;
  }

  function TotalLength(xs: seq<string>): nat {
    if xs == [] then 0 else |xs[0]| + TotalLength(xs[1..])
  }

  /** Python's `sep.join(xs)`. */
  function Join(sep: string, xs: seq<string>): (r: string)
    ensures |xs| == 0 ==> r == ""
    ensures |xs| > 0 ==> |r| == TotalLength(xs) + (|xs| - 1) * |sep|
  {
    if |xs| == 0 then ""
    else if |xs| == 1 then xs[0]
    else xs[0] + sep + Join(sep, xs[1..])
  }

  /** `x` occurs as a contiguous piece of `s` (Python's `x in s`). */
  ghost predicate IsInfix(x: string, s: string) {
    exists a, b :: s == a + x + b
  }

  /** Every joined element appears verbatim in the joined string. */
  lemma {:induction false} JoinContains(sep: string, xs: seq<string>, i: nat)
    requires i < |xs|
    ensures IsInfix(xs[i], Join(sep, xs))
    decreases i
  {
    if i == 0 {
      if |xs| == 1 {
        assert Join(sep, xs) == [] + xs[0] + [];
      } else {
        assert Join(sep, xs) == [] + xs[0] + (sep + Join(sep, xs[1..]));
      }
    } else {
      JoinContains(sep, xs[1..], i - 1);
      var a, b :| Join(sep, xs[1..]) == a + xs[1..][i - 1] + b;
      assert Join(sep, xs) == (xs[0] + sep + a) + xs[i] + b;
    }
  }

  /** A join opens with its first element. */
  lemma JoinStartsWithFirst(sep: string, xs: seq<string>)
    requires |xs| > 0
    ensures xs[0] <= Join(sep, xs)
  {
    if |xs| > 1 {
      assert Join(sep, xs) == xs[0] + (sep + Join(sep, xs[1..]));
    }
  }

  /** Joining two non-empty lists puts one separator between their joins. */
  lemma {:induction false} JoinAppend(sep: string, xs: seq<string>, ys: seq<string>)
    requires |xs| > 0 && |ys| > 0
    ensures Join(sep, xs + ys) == Join(sep, xs) + sep + Join(sep, ys)
    decreases |xs|
  {
    if |xs| == 1 {
      assert (xs + ys)[1..] == ys;
    } else {
      assert (xs + ys)[1..] == xs[1..] + ys;
      JoinAppend(sep, xs[1..], ys);
    }
  }

  /** Python's `s.endswith(suffix)`. */
  predicate EndsWith(s: string, suffix: string) {
    |suffix| <= |s| && s[|s| - |suffix|..] == suffix
  }

  predicate OccursAt(s: string, pat: string, i: nat) {
    i + |pat| <= |s| && s[i..i + |pat|] == pat
  }

  function LastIndexFrom(s: string, pat: string, i: nat): (r: Option<nat>)
    requires i + |pat| <= |s|
    ensures r.Some? ==> r.value <= i && OccursAt(s, pat, r.value)
    ensures r.Some? ==> forall j :: r.value < j <= i ==> !OccursAt(s, pat, j)
    ensures r.None? ==> forall j :: 0 <= j <= i ==> !OccursAt(s, pat, j)
    decreases i
  {
    if OccursAt(s, pat, i) then Some(i)
    else if i == 0 then None
    else LastIndexFrom(s, pat, i - 1)
  }

  /** Python's `s.rfind(pat)`: the highest index at which `pat` occurs. */
  function LastIndexOf(s: string, pat: string): (r: Option<nat>)
    ensures r.Some? ==> OccursAt(s, pat, r.value)
    ensures r.Some? ==> forall j :: r.value < j ==> !OccursAt(s, pat, j)
    ensures r.None? ==> forall j :: !OccursAt(s, pat, j)
  {
    if |pat| > |s| then None else LastIndexFrom(s, pat, |s| - |pat|)
  }

  /** Python's `s.rsplit(sep, 1)[0]`: everything before the last occurrence
      of `sep`, or all of `s` when `sep` does not occur. */
  function RSplitHead(s: string, sep: string): (r: string)
    requires sep != ""
    ensures r <= s
    ensures |r| < |s| ==> OccursAt(s, sep, |r|)
    ensures |r| < |s| ==> forall j :: |r| < j ==> !OccursAt(s, sep, j)
    ensures |r| == |s| ==> forall j :: !OccursAt(s, sep, j)
  {
    match LastIndexOf(s, sep)
    case Some(i) => s[..i]
    case None => s
  }

  /** Python's `s.split(c)[0]` for a one-character separator: the text before
      the first `c`, or all of `s`. */
  function BeforeFirst(s: string, c: char): (r: string)
    ensures r <= s
    ensures c !in r
    ensures |r| < |s| ==> s[|r|] == c
  {
    if s == [] || s[0] == c then []
    else [s[0]] + BeforeFirst(s[1..], c)
  }

  function DigitChar(d: nat): (c: char)
    requires d < 10
    ensures IsDigit(c)
  {
    ('0' as int + d) as char
  }

  /** The number a string of ASCII digits spells in base ten. */
  function DecimalValue(s: string): nat
    requires AllDigits(s)
  {
    if s == [] then 0
    else DecimalValue(s[..|s| - 1]) * 10 + (s[|s| - 1] as int - '0' as int)
  }

  /** Python's `str(n)` for a natural number: its base-ten digits, without
      leading zeros; reading them back gives `n`. */
  function Decimal(n: nat): (s: string)
    ensures |s| >= 1 && AllDigits(s)
    ensures |s| > 1 ==> s[0] != '0'
    ensures DecimalValue(s) == n
    decreases n
  {
    if n < 10 then [DigitChar(n)]
    else
      var s := Decimal(n / 10) + [DigitChar(n % 10)];
      assert s[..|s| - 1] == Decimal(n / 10);
      s
  }
}
