/** The pure part of the home page (app.py, `display_news` and
    `get_location_from_ip`): who is asking from where, tidying the headlines,
    summarising every entry that has a summary in one batch, and putting the
    summaries back next to the entries they belong to. */
module Home {
  import opened Wrappers
  import opened Text
  import opened RateLimit
  import opened Ai
  import opened News

  const Localhost: string := "127.0.0.1"

  /** Lines 97-100: the first address of the first `X-Forwarded-For` header,
      trimmed, when the request came through a proxy; the peer address
      otherwise. */
  function ClientIp(forwardedFor: seq<string>, remoteAddr: string): (r: string)
    ensures forwardedFor == [] ==> r == remoteAddr
    ensures forwardedFor != [] ==> ',' !in r && IsStripped(r)
    ensures forwardedFor != [] ==> r == Strip(BeforeFirst(forwardedFor[0], ','))
  {
    if forwardedFor == [] then remoteAddr
    else
      StripOmits(BeforeFirst(forwardedFor[0], ','), ',');
      Strip(BeforeFirst(forwardedFor[0], ','))
  }

  /** With a proxy chain `client, proxy1, proxy2` the client's address is the
      one used, without the padding around it. */
  lemma ClientIpIsFirstHop(client: string, rest: string, others: seq<string>, remoteAddr: string)
    requires ',' !in client && IsStripped(client)
    ensures ClientIp([client + "," + rest] + others, remoteAddr) == client
  {
    var header := client + "," + rest;
    BeforeFirstUpTo(client, rest);
    StripPadded("", client, "");
    assert "" + client + "" == client;
  }

  lemma {:induction false} BeforeFirstUpTo(a: string, b: string)
    requires ',' !in a
    ensures BeforeFirst(a + "," + b, ',') == a
    decreases |a|
  {
    if a != [] {
      assert (a + "," + b)[1..] == a[1..] + "," + b;
      BeforeFirstUpTo(a[1..], b);
      assert [a[0]] + a[1..] == a;
    }
  }

  /** What the home page knows about where a request comes from. */
  datatype Location = Location(countryCode: Option<string>, countryName: string)

  /** `get_location_from_ip` (lines 46-66). A local request is placed in the
      United States without asking anyone; any other address goes to the
      geolocation service, `lookup`, which also stands for its failure
      fallback `(None, 'Worldwide')`. */
  function LocationFromIp(ip: string, lookup: string -> Location): (r: Location)
    ensures ip == Localhost ==> r == Location(Some("US"), "the United States")
    ensures ip != Localhost ==> r == lookup(ip)
  {
    if ip == Localhost then Location(Some("US"), "the United States") else lookup(ip)
  }

  /** A local request never depends on the geolocation service. */
  lemma LocalhostNeedsNoLookup(lookup: string -> Location, other: string -> Location)
    ensures LocationFromIp(Localhost, lookup) == LocationFromIp(Localhost, other)
  {
  }

  const TitleSeparator: string := " - "

  /** Lines 122-128: a headline `"Title - Source"` loses its trailing
      `" - <source title>"`; failing that it loses everything after its
      last `" - "`; either way the rest is trimmed. A headline without
      `" - "` is kept as it is. */
  function CleanTitle(title: string, sourceTitle: string): (r: string)
    ensures var tail := TitleSeparator + sourceTitle;
            EndsWith(title, tail) ==> r == Strip(title[..|title| - |tail|])
    ensures !EndsWith(title, TitleSeparator + sourceTitle) && LastIndexOf(title, TitleSeparator).Some? ==>
              r == Strip(title[..LastIndexOf(title, TitleSeparator).value])
    ensures LastIndexOf(title, TitleSeparator).None? && !EndsWith(title, TitleSeparator + sourceTitle) ==> r == title
  {
    var tail := TitleSeparator + sourceTitle;
    if EndsWith(title, tail) then
      TrailingIsLast(title, tail);
      Strip(RSplitHead(title, tail))
    else if LastIndexOf(title, TitleSeparator).Some? then
      Strip(RSplitHead(title, TitleSeparator))
    else
      title
  }

  /** A separator a string ends with is its last occurrence. */
  lemma TrailingIsLast(s: string, sep: string)
    requires sep != "" && EndsWith(s, sep)
    ensures RSplitHead(s, sep) == s[..|s| - |sep|]
  {
    var r := RSplitHead(s, sep);
    var p := |s| - |sep|;
    assert OccursAt(s, sep, p);
    assert |r| < |s|;
    assert OccursAt(s, sep, |r|);
    assert !(p > |r|);
    assert |r| == p;
  }

  /** Cleaning undoes what the feed adds: a trimmed headline with its source
      appended comes back as the headline. */
  lemma CleanTitleRoundTrip(title: string, sourceTitle: string)
    requires IsStripped(title)
    ensures CleanTitle(title + TitleSeparator + sourceTitle, sourceTitle) == title
  {
    var tail := TitleSeparator + sourceTitle;
    var s := title + tail;
    assert title + TitleSeparator + sourceTitle == s;
    assert EndsWith(s, tail) && s[..|s| - |tail|] == title by {
      assert s[|s| - |tail|..] == tail;
    }
    StripOfStripped(title);
  }

  /** Line 122: cleanup applies to entries with a title and a source with a
      truthy title; it changes nothing but the title. */
  function CleanEntry(e: Entry): (r: Entry)
    ensures r.link == e.link && r.summary == e.summary && r.source == e.source
    ensures r.title.Some? <==> e.title.Some?
    ensures e.title.Some? && e.source.Some? && Truthy(e.source.value.title) ==>
              r.title == Some(CleanTitle(e.title.value, e.source.value.title.value))
    ensures !(e.title.Some? && e.source.Some? && Truthy(e.source.value.title)) ==> r == e
  {
    if e.title.Some? && e.source.Some? && Truthy(e.source.value.title) then
      e.(title := Some(CleanTitle(e.title.value, e.source.value.title.value)))
    else e
  }

  function CleanItems(items: seq<FeedItem>): (r: seq<FeedItem>)
    ensures |r| == |items|
    ensures forall i :: 0 <= i < |r| ==>
              r[i] == FeedItem(CleanEntry(items[i].entry), items[i].logoUrl)
  {
    seq(|items|, i requires 0 <= i < |items| => FeedItem(CleanEntry(items[i].entry), items[i].logoUrl))
  }

  /** The entries that have a summary, in feed order (lines 131, 137). */
  function Summarised(items: seq<FeedItem>): (r: seq<Entry>)
    ensures |r| <= |items|
    ensures forall k :: 0 <= k < |r| ==> r[k].summary.Some?
  {
    if items == [] then []
    else (if items[0].entry.summary.Some? then [items[0].entry] else []) + Summarised(items[1..])
  }

  /** Filtering distributes over concatenation, so it keeps feed order. */
  lemma {:induction false} SummarisedAppend(a: seq<FeedItem>, b: seq<FeedItem>)
    ensures Summarised(a + b) == Summarised(a) + Summarised(b)
    decreases |a|
  {
    if a == [] {
      assert a + b == b;
    } else {
      assert (a + b)[0] == a[0];
      assert (a + b)[1..] == a[1..] + b;
      SummarisedAppend(a[1..], b);
    }
  }

  /** Where entry `i` lands among the summarised entries. */
  function Pos(items: seq<FeedItem>, i: nat): nat
    requires i <= |items|
  {
    |Summarised(items[..i])|
  }

  /** An entry with a summary is found at its position among the summarised
      entries. */
  lemma SummarisedAt(items: seq<FeedItem>, i: nat)
    requires i < |items| && items[i].entry.summary.Some?
    ensures Pos(items, i) < |Summarised(items)|
    ensures Summarised(items)[Pos(items, i)] == items[i].entry
  {
    assert items == items[..i] + items[i..];
    SummarisedAppend(items[..i], items[i..]);
    assert items[i..][0] == items[i];
  }

  /** Positions past the first item count that item once. */
  lemma PosAfterFirst(items: seq<FeedItem>, j: nat)
    requires j < |items| - 1
    ensures Pos(items, j + 1) == (if items[0].entry.summary.Some? then 1 else 0) + Pos(items[1..], j)
  {
    var rest := items[1..];
    assert items[..j + 1] == [items[0]] + rest[..j];
    SummarisedAppend([items[0]], rest[..j]);
    assert [items[0]][1..] == [];
  }

  /** Every summarised entry comes from one position of the feed, and the
      positions of different summarised entries differ. */
  lemma {:induction false} SummarisedFrom(items: seq<FeedItem>, k: nat)
    requires k < |Summarised(items)|
    ensures exists j :: 0 <= j < |items| && items[j].entry.summary.Some?
                        && Summarised(items)[k] == items[j].entry && Pos(items, j) == k
    decreases |items|
  {
    var rest := items[1..];
    var head := if items[0].entry.summary.Some? then [items[0].entry] else [];
    assert Summarised(items) == head + Summarised(rest);
    if head != [] && k == 0 {
      assert items[..0] == [];
    } else {
      SummarisedFrom(rest, k - |head|);
      var j :| 0 <= j < |rest| && rest[j].entry.summary.Some?
               && Summarised(rest)[k - |head|] == rest[j].entry && Pos(rest, j) == k - |head|;
      PosAfterFirst(items, j);
      assert items[j + 1] == rest[j];
    }
  }

  /** `plain_text[:3000]`. */
  function Prefix(s: string, n: nat): (r: string)
    ensures |r| <= n && r <= s
    ensures |s| <= n ==> r == s
    ensures |s| > n ==> |r| == n
  {
    if |s| <= n then s else s[..n]
  }

  /** Lines 130-137: the summary text of every summarised entry, with its HTML
      removed (`plainText`, BeautifulSoup's `get_text`) and cut to 3000
      characters. */
  function CollectTexts(items: seq<FeedItem>, plainText: string -> string): (r: seq<string>)
    ensures |r| == |Summarised(items)|
    ensures forall k :: 0 <= k < |r| ==> r[k] == Prefix(plainText(Summarised(items)[k].summary.value), 3000)
  {
    var es := Summarised(items);
    seq(|es|, k requires 0 <= k < |es| => Prefix(plainText(es[k].summary.value), 3000))
  }

  /** Every collected text is the start of its entry's plain text, exactly
      3000 characters long when the plain text is longer. */
  lemma CollectedTextCut(items: seq<FeedItem>, plainText: string -> string, k: nat)
    requires k < |Summarised(items)|
    ensures var text := plainText(Summarised(items)[k].summary.value);
            var got := CollectTexts(items, plainText)[k];
            got <= text && |got| == Min(3000, |text|)
  {
  }

  /** Lines 168-169: link to summary, assigned in order. Its keys are
      exactly the links. */
  function LinkMap(es: seq<Entry>, bs: seq<string>): (m: map<string, string>)
    requires |es| == |bs|
    ensures forall i :: 0 <= i < |es| ==> es[i].link in m
    ensures forall k :: k in m ==> exists i :: 0 <= i < |es| && es[i].link == k
    decreases |es|
  {
    if es == [] then map[]
    else
      var n := |es| - 1;
      var m := LinkMap(es[..n], bs[..n]);
      assert forall i :: 0 <= i < n ==> es[..n][i] == es[i];
      m[es[n].link := bs[n]]
  }

  /** Of several entries sharing a link, the last one's summary is kept. */
  lemma {:induction false} LinkMapLastWins(es: seq<Entry>, bs: seq<string>, i: nat)
    requires |es| == |bs| && i < |es|
    requires forall j :: i < j < |es| ==> es[j].link != es[i].link
    ensures LinkMap(es, bs)[es[i].link] == bs[i]
    decreases |es|
  {
    var n := |es| - 1;
    if i < n {
      var m := LinkMap(es[..n], bs[..n]);
      assert LinkMap(es, bs) == m[es[n].link := bs[n]];
      assert es[..n][i] == es[i] && bs[..n][i] == bs[i];
      assert forall j :: i < j < n ==> es[..n][j] == es[j];
      LinkMapLastWins(es[..n], bs[..n], i);
      assert es[i].link != es[n].link;
    }
  }

  predicate DistinctLinks(items: seq<FeedItem>) {
    forall i, j :: 0 <= i < j < |items| ==> items[i].entry.link != items[j].entry.link
  }

  /** Lines 166-169: summaries are attached only when the batch produced
      some and exactly one per summarised entry. */
  function SummaryMap(withSummary: seq<Entry>, batch: seq<string>): (m: map<string, string>)
    ensures batch == [] || |batch| != |withSummary| ==> m == map[]
    ensures batch != [] && |batch| == |withSummary| ==>
              forall i :: 0 <= i < |withSummary| ==> withSummary[i].link in m
  {
    if batch != [] && |batch| == |withSummary| then LinkMap(withSummary, batch) else map[]
  }

  const NoSummary: string := "No summary available for this article."

  /** Line 172: one summary per fetched entry, in fetch order, the fixed
      apology where none was attached. */
  function FinalSummaries(items: seq<FeedItem>, m: map<string, string>): (r: seq<string>)
    ensures |r| == |items|
    ensures forall i :: 0 <= i < |r| ==>
              r[i] == if items[i].entry.link in m then m[items[i].entry.link] else NoSummary
  {
    seq(|items|, i requires 0 <= i < |items| =>
          if items[i].entry.link in m then m[items[i].entry.link] else NoSummary)
  }

  /** Distinct links stay distinct among the summarised entries. */
  lemma SummarisedDistinct(items: seq<FeedItem>, a: nat, b: nat)
    requires DistinctLinks(items)
    requires a < b < |Summarised(items)|
    ensures Summarised(items)[a].link != Summarised(items)[b].link
  {
    var es := Summarised(items);
    SummarisedFrom(items, a);
    SummarisedFrom(items, b);
    var ja :| 0 <= ja < |items| && items[ja].entry.summary.Some? && es[a] == items[ja].entry && Pos(items, ja) == a;
    var jb :| 0 <= jb < |items| && items[jb].entry.summary.Some? && es[b] == items[jb].entry && Pos(items, jb) == b;
    assert ja != jb;
    if ja < jb {
      assert items[ja].entry.link != items[jb].entry.link;
    } else {
      assert items[jb].entry.link != items[ja].entry.link;
    }
  }

  /** An entry without a summary shares its link with no summarised entry,
      when links are distinct. */
  lemma UnsummarisedLinkAbsent(items: seq<FeedItem>, i: nat, q: nat)
    requires DistinctLinks(items)
    requires i < |items| && items[i].entry.summary.None?
    requires q < |Summarised(items)|
    ensures Summarised(items)[q].link != items[i].entry.link
  {
    SummarisedFrom(items, q);
    var j :| 0 <= j < |items| && items[j].entry.summary.Some? && Summarised(items)[q] == items[j].entry && Pos(items, j) == q;
    if j < i {
      assert items[j].entry.link != items[i].entry.link;
    } else {
      assert items[i].entry.link != items[j].entry.link;
    }
  }

  /** When links are distinct and the batch gave one summary per summarised
      entry, every entry with a summary gets the batch item at its own
      position, and every other entry gets the apology. */
  lemma SummariesAlign(items: seq<FeedItem>, batch: seq<string>, i: nat)
    requires DistinctLinks(items)
    requires |batch| == |Summarised(items)| > 0
    requires i < |items|
    ensures items[i].entry.summary.Some? ==> Pos(items, i) < |batch|
    ensures var r := FinalSummaries(items, SummaryMap(Summarised(items), batch));
            r[i] == if items[i].entry.summary.Some? && Pos(items, i) < |batch| then batch[Pos(items, i)] else NoSummary
  {
    var es := Summarised(items);
    var m := LinkMap(es, batch);
    var link := items[i].entry.link;
    if items[i].entry.summary.Some? {
      SummarisedAt(items, i);
      var p := Pos(items, i);
      forall j | p < j < |es| ensures es[j].link != es[p].link {
        SummarisedDistinct(items, p, j);
      }
      LinkMapLastWins(es, batch, p);
    } else {
      forall q | 0 <= q < |es| ensures es[q].link != link {
        UnsummarisedLinkAbsent(items, i, q);
      }
      assert link !in m;
    }
  }

  /** An empty batch or a count mismatch attaches nothing: every entry gets
      the apology. */
  lemma MismatchAttachesNothing(items: seq<FeedItem>, batch: seq<string>)
    requires batch == [] || |batch| != |Summarised(items)|
    ensures forall i :: 0 <= i < |items| ==>
              FinalSummaries(items, SummaryMap(Summarised(items), batch))[i] == NoSummary
  {
  }

  /** Lines 176-180: the summaries joined by single spaces for the audio
      page, or nothing (the session key removed) when there are none. */
  function Combined(summaries: seq<string>): (r: Option<string>)
    ensures r.Some? <==> summaries != []
    ensures r.Some? ==> |r.value| == TotalLength(summaries) + |summaries| - 1
    ensures r.Some? ==> forall i :: 0 <= i < |summaries| ==> IsInfix(summaries[i], r.value)
    ensures r.Some? ==> r.value == Join(" ", summaries)
  {
    if summaries == [] then None
    else
      var joined := Join(" ", summaries);
      forall i | 0 <= i < |summaries| ensures IsInfix(summaries[i], joined) {
        JoinContains(" ", summaries, i);
      }
      Some(joined)
  }

  /** The joined value keeps the summaries in order: one summary alone is the
      value itself, and one more summary is added after a single space. */
  lemma CombinedAppend(xs: seq<string>, x: string)
    ensures Combined([x]) == Some(x)
    ensures xs != [] ==> Combined(xs + [x]) == Some(Combined(xs).value + " " + x)
  {
    if xs != [] {
      JoinAppend(" ", xs, [x]);
    }
  }

  /** What the home page shows: the rate-limit page with the time of the
      latest logged quota error (when there is one), or the entries with
      their summaries; or no page at all, when an error other than the quota
      error escapes `display_news`. Each time, the rate-limit log afterwards. */
  datatype Page =
    | RateLimited(lastErrorTime: Option<int>, log: Log)
    | Escaped(error: AiError, log: Log)
    | NewsPage(items: seq<FeedItem>, summaries: seq<string>, combined: Option<string>, log: Log)

  /** A batch summariser: what `summarize_texts_batch` returns for a list
      of texts, with the rate-limit log after the call. */
  type Summariser = seq<string> -> Outcome<(seq<string>, Option<Usage>)>

  /** The property of the batch summariser the page relies on: whenever it
      returns summaries, it returns one per text. */
  ghost predicate KeepsCount(summarise: Summariser) {
    forall texts :: summarise(texts).result.Ok? ==> |summarise(texts).result.value.0| == |texts|
  }

  /** The summariser of ai_utils.py keeps count. */
  lemma BatchKeepsCount(provider: string -> ApiOutcome, env: Env)
    ensures KeepsCount(texts => SummarizeTextsBatch(texts, provider, env))
  {
  }

  /** Line 141: the batch is only asked when there is something to
      summarise. */
  function SummariseAll(texts: seq<string>, summarise: Summariser, env: Env)
    : (r: Outcome<(seq<string>, Option<Usage>)>)
    ensures texts == [] ==> r == Outcome(Ok(([], None)), env.log)
    ensures texts != [] ==> r == summarise(texts)
  {
    if texts == [] then Outcome(Ok(([], None)), env.log) else summarise(texts)
  }

  /** Lines 117-180, from the fetched items on. A quota error while
      summarising gives the rate-limit page, and any other error escapes,
      since only `RateLimitException` is caught; otherwise every item is
      shown with a cleaned title and exactly one summary. */
  function ShowNews(items: seq<FeedItem>, plainText: string -> string, summarise: Summariser, env: Env): (p: Page)
    ensures var texts := CollectTexts(CleanItems(items), plainText);
            && (p.RateLimited? <==> texts != [] && summarise(texts).result == Err(RateLimitExceeded))
            && (p.Escaped? <==> texts != [] && summarise(texts).result.Err? && summarise(texts).result.error != RateLimitExceeded)
            && (p.Escaped? ==> p.error == summarise(texts).result.error)
            && (!p.NewsPage? ==> p.log == summarise(texts).log)
            && (p.NewsPage? ==> p.log == SummariseAll(texts, summarise, env).log)
    ensures p.RateLimited? ==> p.lastErrorTime == (if p.log == [] then None else Some(Latest(p.log)))
    ensures p.NewsPage? ==>
              && p.items == CleanItems(items) && |p.summaries| == |items|
              && p.combined == Combined(p.summaries)
  {
    var cleaned := CleanItems(items);
    var texts := CollectTexts(cleaned, plainText);
    var outcome := SummariseAll(texts, summarise, env);
    match outcome.result
    case Err(RateLimitExceeded) =>
      RateLimited(if outcome.log == [] then None else Some(Latest(outcome.log)), outcome.log)
    case Err(e) => Escaped(e, outcome.log)
    case Ok((batch, _)) =>
      var summaries := FinalSummaries(cleaned, SummaryMap(Summarised(cleaned), batch));
      NewsPage(cleaned, summaries, Combined(summaries), outcome.log)
  }

  /** With the summariser of ai_utils.py, the rate-limit page appears exactly
      when there was something to summarise and the model's quota ran out,
      and the quota error has by then been put through the rate limiter; no
      other error escapes. */
  lemma RateLimitPageOnQuota(items: seq<FeedItem>, plainText: string -> string,
                             provider: string -> ApiOutcome, env: Env)
    ensures var texts := CollectTexts(CleanItems(items), plainText);
            var p := ShowNews(items, plainText, texts => SummarizeTextsBatch(texts, provider, env), env);
            && (p.RateLimited? <==> texts != [] && provider(BatchPrompt(texts)).QuotaExceeded?)
            && (p.RateLimited? ==> p.log == Record(env.log, env.now, env.storeFails))
            && !p.Escaped?
  {
  }

  /** Cleaning titles keeps links and summaries, so a summariser that keeps
      count always matches the summarised entries one to one: with distinct
      links, every entry that had a summary shows the batch's item for it,
      and every other entry shows the apology. */
  lemma PageSummariesAlign(items: seq<FeedItem>, plainText: string -> string,
                           summarise: Summariser, env: Env, i: nat)
    requires KeepsCount(summarise)
    requires DistinctLinks(items) && i < |items|
    requires ShowNews(items, plainText, summarise, env).NewsPage?
    ensures var cleaned := CleanItems(items);
            var texts := CollectTexts(cleaned, plainText);
            var summaries := ShowNews(items, plainText, summarise, env).summaries;
            && (items[i].entry.summary.None? ==> summaries[i] == NoSummary)
            && (items[i].entry.summary.Some? ==>
                  && texts != []
                  && Pos(cleaned, i) < |summarise(texts).result.value.0|
                  && summaries[i] == summarise(texts).result.value.0[Pos(cleaned, i)])
  {
    var cleaned := CleanItems(items);
    var texts := CollectTexts(cleaned, plainText);
    assert DistinctLinks(cleaned) by {
      forall a, b | 0 <= a < b < |cleaned| ensures cleaned[a].entry.link != cleaned[b].entry.link {
        assert cleaned[a].entry.link == items[a].entry.link;
      }
    }
    assert cleaned[i].entry.summary == items[i].entry.summary;
    if texts == [] {
      MismatchAttachesNothing(cleaned, []);
      if items[i].entry.summary.Some? {
        SummarisedAt(cleaned, i);
      }
    } else {
      SummariesAlign(cleaned, summarise(texts).result.value.0, i);
    }
  }

  /** Lines 84-180: the whole home page. The client's address decides the
      country, which with the user's preferences, the search and the
      category decides the feeds; their entries are then summarised. */
  function DisplayNews(forwardedFor: seq<string>, remoteAddr: string, user: Option<User>,
                       searchQuery: Option<string>, category: Option<string>,
                       lookup: string -> Location, s: Services, plainText: string -> string,
                       provider: string -> ApiOutcome, env: Env): (p: Page)
    ensures p.NewsPage? ==> |p.items| <= 10 && |p.summaries| == |p.items|
  {
    var location := LocationFromIp(ClientIp(forwardedFor, remoteAddr), lookup);
    var items := GetPersonalizedNews(user, searchQuery, location.countryCode, category, s);
    ShowNews(items, plainText, texts => SummarizeTextsBatch(texts, provider, env), env)
  }
}
