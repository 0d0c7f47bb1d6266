/** The news service (news_service.py): which Google News feeds to read for a
    request, how many entries to take from each, and in what order to merge
    them. Feed parsing, URL quoting and host-name extraction are library
    calls; they come in as the functions of `Services`. */
module News {
  import opened Wrappers
  import opened Text
  import opened Urls

  /** An entry's `source` element: its `title` and `href`, either of which
      may be absent. */
  datatype Source = Source(title: Option<string>, href: Option<string>)

  /** A feed entry, as far as the service and the home page read it. */
  datatype Entry = Entry(title: Option<string>, link: string, summary: Option<string>, source: Option<Source>)

  /** An entry paired with its favicon URL, the `(entry, logo_url)` tuple. */
  datatype FeedItem = FeedItem(entry: Entry, logoUrl: Option<string>)

  /** The library calls the service makes:
      - `feeds(url)`: the entries `feedparser.parse(url)` finds, or `None`
        when parsing raises;
      - `hostname(url)`: `urlparse(url).hostname`, or `None` when there is
        none or parsing raises;
      - `quote(q)`: `urllib.parse.quote(q)`. */
  datatype Services = Services(
    feeds: string -> Option<seq<Entry>>,
    hostname: string -> Option<string>,
    quote: string -> string)

  /** The stored preferences of a user. `topics` is `None` when loading the
      topic rows fails with a database error. */
  datatype User = User(preferredCategory: Option<string>, preferredRegion: Option<string>,
                       topics: Option<seq<string>>)

  /** `NEWS_FEEDS` (constants.py, lines 13-24): the category feeds. */
  const NewsFeeds: map<string, string> := map[
    "Top Stories" := "https://news.google.com/rss",
    "World" := "https://news.google.com/rss/headlines/section/topic/WORLD",
    "Business" := "https://news.google.com/rss/headlines/section/topic/BUSINESS",
    "Technology" := "https://news.google.com/rss/headlines/section/topic/TECHNOLOGY",
    "Sports" := "https://news.google.com/rss/headlines/section/topic/SPORTS",
    "Fashion" := "https://news.google.com/rss/search?q=fashion",
    "AI" := "https://news.google.com/rss/search?q=AI",
    "Defence" := "https://news.google.com/rss/search?q=defence",
    "Information Technology" := "https://news.google.com/rss/search?q=information%20technology",
    "Weather" := "https://news.google.com/rss/search?q=weather"
  ]

  /** The default feed is one of the category feeds: the Google News front
      page. */
  lemma TopStoriesIsAFeed()
    ensures "Top Stories" in NewsFeeds && NewsFeeds["Top Stories"] == "https://news.google.com/rss"
  {
  }

  const FaviconPrefix: string := "https://www.google.com/s2/favicons?domain="
  const FaviconSuffix: string := "&sz=64"

  /** The URL a favicon is looked up for (lines 29-35): the source's `href`
      when the entry has a source with a truthy `href`, else the entry's
      link when that is truthy, else none. */
  function LogoTarget(e: Entry): (r: Option<string>)
    ensures r.None? || Truthy(r)
    ensures e.source.Some? && Truthy(e.source.value.href) ==> r == e.source.value.href
    ensures !(e.source.Some? && Truthy(e.source.value.href)) && e.link != "" ==> r == Some(e.link)
    ensures r.None? <==> !(e.source.Some? && Truthy(e.source.value.href)) && e.link == ""
  {
    if e.source.Some? && Truthy(e.source.value.href) then e.source.value.href
    else if e.link != "" then Some(e.link)
    else None
  }

  /** `_get_logo_url_from_entry` (lines 27-46): Google's favicon service for
      the host of the chosen URL, or none when there is no URL or no host. */
  function LogoUrl(e: Entry, hostname: string -> Option<string>): (r: Option<string>)
    ensures r.Some? <==> LogoTarget(e).Some? && Truthy(hostname(LogoTarget(e).value))
    ensures r.Some? ==> r.value == FaviconPrefix + hostname(LogoTarget(e).value).value + FaviconSuffix
  {
    match LogoTarget(e)
    case None => None
    case Some(url) =>
      var host := hostname(url);
      if Truthy(host) then Some(FaviconPrefix + host.value + FaviconSuffix) else None
  }

  /** When an entry names its source's site, its own link plays no part in
      the favicon. */
  lemma LogoPrefersSource(e: Entry, link: string, hostname: string -> Option<string>)
    requires e.source.Some? && Truthy(e.source.value.href)
    ensures LogoUrl(e.(link := link), hostname) == LogoUrl(e, hostname)
  {
  }

  /** The host can be read back from a favicon URL. */
  lemma LogoHostReadsBack(e: Entry, hostname: string -> Option<string>)
    requires LogoUrl(e, hostname).Some?
    ensures var u := LogoUrl(e, hostname).value;
            && FaviconPrefix <= u && EndsWith(u, FaviconSuffix)
            && u[|FaviconPrefix|..|u| - |FaviconSuffix|] == hostname(LogoTarget(e).value).value
  {
    var u := LogoUrl(e, hostname).value;
    var h := hostname(LogoTarget(e).value).value;
    assert u == FaviconPrefix + h + FaviconSuffix;
    assert u[|FaviconPrefix|..|u| - |FaviconSuffix|] == h;
    assert u[|u| - |FaviconSuffix|..] == FaviconSuffix;
  }

  function Min(a: nat, b: nat): nat {
    if a <= b then a else b
  }

  /** Every entry paired with its favicon. */
  function WithLogos(entries: seq<Entry>, hostname: string -> Option<string>): (r: seq<FeedItem>)
    ensures |r| == |entries|
    ensures forall i :: 0 <= i < |r| ==> r[i] == FeedItem(entries[i], LogoUrl(entries[i], hostname))
  {
    seq(|entries|, i requires 0 <= i < |entries| => FeedItem(entries[i], LogoUrl(entries[i], hostname)))
  }

  /** `_parse_feed_and_get_entries` (lines 49-64): the first `limit` entries
      of the feed, in feed order, each with its favicon; nothing when parsing
      the feed raises. */
  function ParseFeed(url: string, limit: nat, s: Services): (r: seq<FeedItem>)
    ensures |r| <= limit
    ensures s.feeds(url).None? ==> r == []
    ensures s.feeds(url).Some? ==> |r| == Min(limit, |s.feeds(url).value|)
    ensures forall i :: 0 <= i < |r| ==>
              r[i].entry == s.feeds(url).value[i] && r[i].logoUrl == LogoUrl(r[i].entry, s.hostname)
  {
    match s.feeds(url)
    case None => []
    case Some(entries) => WithLogos(entries[..Min(limit, |entries|)], s.hostname)
  }

  /** Lines 81-85: the user's preferred region when set, else the country of
      the request's IP address when known, else none. */
  function ResolveRegion(user: Option<User>, countryCode: Option<string>): (r: Option<string>)
    ensures r.None? || Truthy(r)
    ensures user.Some? && Truthy(user.value.preferredRegion) ==> r == user.value.preferredRegion
    ensures !(user.Some? && Truthy(user.value.preferredRegion)) ==>
              r == (if Truthy(countryCode) then countryCode else None)
  {
    if user.Some? && Truthy(user.value.preferredRegion) then user.value.preferredRegion
    else if Truthy(countryCode) then countryCode
    else None
  }

  const SearchPrefix: string := "https://news.google.com/rss/search?q="

  /** The Google News search feed for a query (lines 89 and 130): the quoted
      query after `?q=`. The URL always has a query string, so a region is
      appended to it with `&`. */
  function SearchUrl(query: string, quote: string -> string): (r: string)
    ensures SearchPrefix <= r && r[|SearchPrefix|..] == quote(query)
    ensures '?' in r
  {
    assert (SearchPrefix + quote(query))[34] == '?';
    SearchPrefix + quote(query)
  }

  /** Lines 112-120: how many entries to take from the category feed and
      from the topic search. Each is taken exactly when the user has it; the
      two together come to ten, split evenly when the user has both. */
  function BlendLimits(hasCategory: bool, hasTopics: bool): (r: (nat, nat))
    ensures r.0 > 0 <==> hasCategory
    ensures r.1 > 0 <==> hasTopics
    ensures r.0 + r.1 == if hasCategory || hasTopics then 10 else 0
    ensures hasCategory && hasTopics ==> r.0 == r.1
  {
    if hasCategory && hasTopics then (5, 5)
    else if hasCategory then (10, 0)
    else if hasTopics then (0, 10)
    else (0, 0)
  }

  /** A stored preferred category counts only when it is a known feed. */
  predicate HasCategory(u: User) {
    Truthy(u.preferredCategory) && u.preferredCategory.value in NewsFeeds
  }

  /** The category part of the blend (lines 122-126). */
  function CategoryPart(u: User, region: Option<string>, s: Services): (r: seq<FeedItem>)
    requires u.topics.Some?
    ensures var limit := BlendLimits(HasCategory(u), u.topics.value != []).0;
            && |r| <= limit
            && (limit == 0 ==> r == [])
            && (limit > 0 ==> HasCategory(u))
            && (limit > 0 ==> r == ParseFeed(BuildFullUrl(NewsFeeds[u.preferredCategory.value], region), limit, s))
  {
    var limits := BlendLimits(HasCategory(u), u.topics.value != []);
    if limits.0 > 0 then ParseFeed(BuildFullUrl(NewsFeeds[u.preferredCategory.value], region), limits.0, s)
    else []
  }

  /** The topic part of the blend (lines 128-133): one search for all the
      topics joined by ` OR `. */
  function TopicPart(u: User, region: Option<string>, s: Services): (r: seq<FeedItem>)
    requires u.topics.Some?
    ensures var limit := BlendLimits(HasCategory(u), u.topics.value != []).1;
            && |r| <= limit
            && (limit == 0 ==> r == [])
            && (limit > 0 ==> u.topics.value != [])
            && (limit > 0 ==> r == ParseFeed(BuildFullUrl(SearchUrl(Join(" OR ", u.topics.value), s.quote), region), limit, s))
  {
    var limits := BlendLimits(HasCategory(u), u.topics.value != []);
    if limits.1 > 0 then ParseFeed(BuildFullUrl(SearchUrl(Join(" OR ", u.topics.value), s.quote), region), limits.1, s)
    else []
  }

  /** Lines 101-135: the entries the user's preferences select, category
      entries first; nothing for an anonymous user or when the preferences
      cannot be loaded. */
  function Blend(user: Option<User>, region: Option<string>, s: Services): (r: seq<FeedItem>)
    ensures |r| <= 10
    ensures user.None? || user.value.topics.None? ==> r == []
    ensures user.Some? && user.value.topics.Some? ==>
              r == CategoryPart(user.value, region, s) + TopicPart(user.value, region, s)
  {
    if user.None? || user.value.topics.None? then []
    else CategoryPart(user.value, region, s) + TopicPart(user.value, region, s)
  }

  /** `get_personalized_news` (lines 68-149). A search query wins; then a
      known category; then the user's preferences; and when those give
      nothing, the Top Stories feed. Every path returns at most ten items. */
  function GetPersonalizedNews(user: Option<User>, searchQuery: Option<string>, countryCode: Option<string>,
                               category: Option<string>, s: Services): (r: seq<FeedItem>)
    ensures |r| <= 10
    ensures var region := ResolveRegion(user, countryCode);
            && (Truthy(searchQuery) ==>
                  r == ParseFeed(BuildFullUrl(SearchUrl(searchQuery.value, s.quote), region), 10, s))
            && (!Truthy(searchQuery) && Truthy(category) && category.value in NewsFeeds ==>
                  r == ParseFeed(BuildFullUrl(NewsFeeds[category.value], region), 10, s))
            && (!Truthy(searchQuery) && !(Truthy(category) && category.value in NewsFeeds) ==>
                  var blend := Blend(user, region, s);
                  r == if blend == [] then ParseFeed(BuildFullUrl(NewsFeeds["Top Stories"], region), 10, s) else blend)
  {
    var region := ResolveRegion(user, countryCode);
    if Truthy(searchQuery) then
      ParseFeed(BuildFullUrl(SearchUrl(searchQuery.value, s.quote), region), 10, s)
    else if Truthy(category) && category.value in NewsFeeds then
      ParseFeed(BuildFullUrl(NewsFeeds[category.value], region), 10, s)
    else
      var blend := Blend(user, region, s);
      if blend == [] then ParseFeed(BuildFullUrl(NewsFeeds["Top Stories"], region), 10, s)
      else blend
  }

  /** With a search query, the result depends only on the query and the
      resolved region: the category asked for and every preference other
      than the preferred region make no difference. */
  lemma SearchIgnoresPreferences(user: Option<User>, other: Option<User>, query: string,
                                 countryCode: Option<string>, category: Option<string>,
                                 otherCategory: Option<string>, s: Services)
    requires query != ""
    requires ResolveRegion(user, countryCode) == ResolveRegion(other, countryCode)
    ensures GetPersonalizedNews(user, Some(query), countryCode, category, s)
            == GetPersonalizedNews(other, Some(query), countryCode, otherCategory, s)
  {
  }

  /** An unknown category is ignored: the request is served as if none had
      been given. */
  lemma UnknownCategoryFallsThrough(user: Option<User>, searchQuery: Option<string>,
                                    countryCode: Option<string>, category: string, s: Services)
    requires category !in NewsFeeds
    ensures GetPersonalizedNews(user, searchQuery, countryCode, Some(category), s)
            == GetPersonalizedNews(user, searchQuery, countryCode, None, s)
  {
  }

  /** A user with both a known category and topics gets at most five
      entries from each, category entries first, each part in feed order. */
  lemma BlendOrder(u: User, region: Option<string>, s: Services)
    requires u.topics.Some? && u.topics.value != [] && HasCategory(u)
    ensures var r := Blend(Some(u), region, s);
            var categoryUrl := BuildFullUrl(NewsFeeds[u.preferredCategory.value], region);
            var topicUrl := BuildFullUrl(SearchUrl(Join(" OR ", u.topics.value), s.quote), region);
            r == ParseFeed(categoryUrl, 5, s) + ParseFeed(topicUrl, 5, s)
  {
  }

  /** A user with a known category and no topics gets up to ten entries
      from the category feed. */
  lemma CategoryOnlyBlend(u: User, region: Option<string>, s: Services)
    requires u.topics == Some([]) && HasCategory(u)
    ensures Blend(Some(u), region, s)
            == ParseFeed(BuildFullUrl(NewsFeeds[u.preferredCategory.value], region), 10, s)
  {
    assert ParseFeed(BuildFullUrl(NewsFeeds[u.preferredCategory.value], region), 10, s) + [] ==
           ParseFeed(BuildFullUrl(NewsFeeds[u.preferredCategory.value], region), 10, s);
  }

  /** A user with topics and no known category gets up to ten entries from
      one search for all the topics joined by ` OR `. */
  lemma TopicsOnlyBlend(u: User, region: Option<string>, s: Services)
    requires u.topics.Some? && u.topics.value != [] && !HasCategory(u)
    ensures Blend(Some(u), region, s)
            == ParseFeed(BuildFullUrl(SearchUrl(Join(" OR ", u.topics.value), s.quote), region), 10, s)
  {
    assert [] + ParseFeed(BuildFullUrl(SearchUrl(Join(" OR ", u.topics.value), s.quote), region), 10, s) ==
           ParseFeed(BuildFullUrl(SearchUrl(Join(" OR ", u.topics.value), s.quote), region), 10, s);
  }

  /** A stored category that is not a feed name counts as no category: the
      blend is the one the user would get without it. */
  lemma UnknownPreferenceIgnored(u: User, c: string, region: Option<string>, s: Services)
    requires u.topics.Some? && c !in NewsFeeds
    ensures Blend(Some(u.(preferredCategory := Some(c))), region, s)
            == Blend(Some(u.(preferredCategory := None)), region, s)
  {
  }

  /** Without a search, a known category or any preference that yields
      entries, the home page shows Top Stories; an empty Top Stories feed
      gives an empty page, not an error. */
  lemma DefaultWhenNothingElse(countryCode: Option<string>, s: Services)
    requires s.feeds(BuildFullUrl(NewsFeeds["Top Stories"], ResolveRegion(None, countryCode))) == Some([])
    ensures GetPersonalizedNews(None, None, countryCode, None, s) == []
  {
  }
}
