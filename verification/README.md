# NewsAudiocast core, modelled in Dafny

NewsAudiocast is a Flask site. It reads Google News RSS feeds picked from a
user's preferences, has Google Gemini summarise the articles in one batch
call, and shows each headline next to its summary. This project models the
decision logic of that pipeline as pure Dafny functions, and proves what the
code promises about it. The modelled parts are:

- **Batch summarisation** (`ai_utils.py`). The model builds the prompt that
  numbers every article, and the single model call with its three outcomes.
  It covers the reply parser, which splits the stripped reply on the
  case-insensitive marker `SUMMARY\s*\d+:`, drops the preamble and strips
  each piece. It also covers the count check and the per-article truncation
  fallback (150 characters plus `...`). The single-text helpers
  `summarize_text` and `rephrase_as_anchor` are modelled too.
- **Rate-limit logging** (`ai_utils.py`). The error log is a sequence of
  timestamped records. It is stepped by a pure transition that appends only
  when the latest record is more than 23 hours old.
- **Feed planning** (`news_service.py`). This covers:
  - region resolution;
  - the order search, category, preference blend, then Top Stories;
  - the 5/5 or 10 limits and category-before-topic merging;
  - the favicon choice.
- **URL qualification** (`utils.py`, `build_full_url`).
- **The home page** (`app.py`, `display_news`). This covers:
  - the client address from `X-Forwarded-For`;
  - the localhost shortcut of `get_location_from_ip`;
  - headline cleanup;
  - collecting the texts to summarise;
  - putting summaries back by link, only on an exact count match;
  - the joined summaries kept for the audio page.

Library and service calls become parameters. These are the Gemini SDK, the
geolocation service, `feedparser`, `urlparse`, `quote` and BeautifulSoup's
`get_text`. The database becomes a value: the rate-limit log. The clock
is an integer count of microseconds.

Modules, one per file:

| file | module | models |
|---|---|---|
| wrappers.dfy | Wrappers | `Option`, `Result`, Python truthiness of an optional string |
| text.dfy | Text | `str.strip`, `str.join`, `endswith`, `rsplit(sep, 1)[0]`, `split(',')[0]`, `str(n)` |
| markers.dfy | Markers | the marker matcher, the leftmost non-overlapping scan, `re.split`, the segment parser |
| reply_format.dfy | ReplyFormat | the reply layout the batch prompt asks for, and its parse round trip |
| rate_limit.dfy | RateLimit | `_log_rate_limit_error_if_needed` |
| ai.dfy | Ai | `_call_google_api`, `summarize_text`, `rephrase_as_anchor`, `summarize_texts_batch` |
| urls.dfy | Urls | `build_full_url` |
| news.dfy | News | `NEWS_FEEDS`, `_get_logo_url_from_entry`, `_parse_feed_and_get_entries`, `get_personalized_news` |
| home.dfy | Home | `get_location_from_ip` (local branch), `display_news` |

Where the code and its own description differ, the model follows the code.
Two cases:

- The docstring of `_call_google_api` says it returns `None` on failure.
  Its callers test the response's truthiness, but a response object is
  always truthy. So a response whose `.text` or `.usage_metadata` raises is
  not caught by the single-text helpers: it escapes them as an error. In the
  batch it is caught by the surrounding `try` and becomes the fallback.
- `\s` in Python's `re` and `str.strip()` use Python's full whitespace set
  (including U+001C-U+001F, U+0085, U+00A0 and the U+2000 block), not only
  ASCII whitespace. With IGNORECASE, the letter `S` of `SUMMARY` is also
  matched by U+017F (long s). The model includes both.

## Model

| member | source | states |
|---|---|---|
| Text.Strip | ai_utils.py:151-152 | `strip()` gives a string with no Python whitespace at either end, and the result is a contiguous part of the input |
| Text.StripPadded | app.py:125 | stripping removes exactly the whitespace padding around an unpadded core: `strip(a + m + b) == m` when `a`, `b` are all whitespace and `m` is stripped |
| Text.StripOfStripped | app.py:125 | stripping an already stripped string changes nothing |
| Text.StripOmits | app.py:98 | stripping never introduces a character the input lacked |
| Text.Join | ai_utils.py:135 | `sep.join(xs)` is as long as the parts plus one separator between each pair |
| Text.JoinContains | ai_utils.py:135 | every joined part appears verbatim in the joined string |
| Text.JoinStartsWithFirst | ai_utils.py:135 | the joined string begins with its first part |
| Text.LastIndexOf | app.py:127-128 | `rfind`: the result is an occurrence and no occurrence lies after it; none means the pattern does not occur |
| Text.RSplitHead | app.py:125 | `s.rsplit(sep, 1)[0]` is the prefix before the last occurrence of `sep`, or all of `s` when `sep` does not occur |
| Text.BeforeFirst | app.py:98 | `s.split(',')[0]` is the prefix of `s` up to the first comma, and contains no comma |
| Text.Decimal | ai_utils.py:132-133 | `str(n)` for a natural number is a non-empty digit string without leading zeros whose value is `n` |
| Markers.MatchAtExact | ai_utils.py:151 | a marker `SUMMARY\s*\d+:` (keyword in any case, optional whitespace, one or more ASCII digits, a colon) spans `s[p..p+n]` exactly when the matcher reports length `n` at `p`: the match at a position is unique |
| Markers.MatchAt | ai_utils.py:151 | the matcher reports a length only for a match of at least 9 characters (`SUMMARY`, a digit and `:`) that fits in the text and ends in `:` |
| Markers.NoMatchAtSpace | ai_utils.py:151 | no marker starts at a whitespace character |
| Markers.ScanFrom | ai_utils.py:151 | the scan's spans are in order, do not overlap, and lie in the scanned part of the text |
| Markers.ScanExactlyLeftmost | ai_utils.py:151 | the scanner's spans are exactly the leftmost, non-overlapping marker matches, as `re.split` finds them |
| Markers.PiecesLossless | ai_utils.py:151 | the pieces between matches, interleaved with the matched texts, rebuild the input |
| Markers.PiecesFrom | ai_utils.py:151 | the text is cut into exactly one more piece than there are spans |
| Markers.Split | ai_utils.py:151 | `re.split` gives one more piece than there are matches, the pieces and markers rebuild the input, and every separator is a marker |
| Markers.StripEach | ai_utils.py:152 | `[s.strip() for s in summaries]` strips every piece and keeps the count |
| Markers.ParseSegments | ai_utils.py:151-152 | the parsed reply has one segment per marker in the stripped reply, so the text before the first marker is dropped |
| Markers.SegmentsFollowMarkers | ai_utils.py:151-152 | segment `k` is the stripped text between marker `k` and the next marker (or the end), whatever number the marker carries |
| ReplyFormat.HeadIsMarker | ai_utils.py:128-129 | the heading `SUMMARY <k>:` the prompt asks for is itself a marker |
| ReplyFormat.Render | ai_utils.py:128-129 | the requested layout is empty exactly when there are no summaries, and otherwise opens with `SUMMARY <k>:` and, on the next line, the first summary |
| ReplyFormat.ParseRendered | ai_utils.py:128-129 | a reply laid out as the prompt asks, with headings numbered from any `k` and blank lines between summaries, parses back to exactly its summaries, in order |
| RateLimit.Latest | ai_utils.py:43 | the newest record's timestamp is at least every record's timestamp and belongs to some record |
| RateLimit.Record | ai_utils.py:35-56 | existing records are kept. One record `("Google Gemini API rate limit exceeded.", now)` is appended exactly when the store works and the log is empty or every record is more than 23 hours older than `now` (strictly) |
| RateLimit.RecordKeepsSpaced | ai_utils.py:43-51 | if every two records are more than 23 hours apart, that still holds after a step |
| RateLimit.RecordAll | ai_utils.py:35-56 | repeated steps only append to the log, at most one record per step |
| RateLimit.NothingWithinCooldown | ai_utils.py:47 | steps within 23 hours of a logged record add nothing |
| RateLimit.AtMostOnePerWindow | ai_utils.py:47 | any number of quota errors inside one 23-hour window add at most one record |
| RateLimit.TwoErrors | ai_utils.py:47 | two errors leave two records if more than 23 hours apart, and exactly one otherwise |
| Ai.CallGoogleApi | ai_utils.py:58-77 | a quota error is logged through the rate limiter and raised; any other error gives `None` and leaves the log alone; a response is passed through |
| Ai.CallKeepsSpaced | ai_utils.py:71-74 | a model call keeps the log's records more than 23 hours apart |
| Ai.Truncated | ai_utils.py:95 | the fallback is at most 153 characters. A text of 150 or fewer is unchanged. A longer one becomes its first 150 characters and `...` |
| Ai.TruncatedIdempotent | ai_utils.py:140 | truncating a fallback again changes nothing |
| Ai.Fallback | ai_utils.py:140 | the batch fallback has one truncated text per input, in order |
| Ai.SummarizeText | ai_utils.py:79-96 | a readable reply gives its text and token counts. A swallowed failure gives the truncated text and no counts. A quota error (logged) escapes as the rate-limit error, and an unreadable response escapes as a different error, one that quota handlers do not catch |
| Ai.RephraseAsAnchor | ai_utils.py:98-114 | same as `SummarizeText`, with the fixed apology as the fallback; the quota error and the unreadable-response error are kept apart in the same way |
| Ai.ArticleSections | ai_utils.py:132-133 | article `i` is written as `ARTICLE i:` on its own line, numbered from 1, followed by its text and a newline |
| Ai.BatchPromptHasArticle | ai_utils.py:126-135 | every article appears verbatim under its number in the prompt, after all four instruction paragraphs, which open the prompt |
| Ai.BatchPromptLayout | ai_utils.py:126-135 | the prompt opens with the four instruction paragraphs joined by line breaks, and the first article follows them on the next line |
| Ai.InstructionsOpen | ai_utils.py:132-135 | whatever the instructions, their join opens the joined prompt, and the first article follows after one line break |
| Ai.SummarizeTextsBatch | ai_utils.py:116-160 | an empty batch gives `([], None)` and calls nothing. A quota error (logged) is the only error. Every other path returns one summary per text. With no counts, the summaries are the fallback. Counts are returned exactly when the reply is readable and parses into one segment per text, and then the summaries are those segments |
| Ai.ReadBatchReply | ai_utils.py:138-160 | `None`, an unreadable response and a miscounted reply all give the fallback without counts; an accepted reply gives its segments with counts; the log is not touched |
| Ai.RenderedReplyAccepted | ai_utils.py:127-130 | a reply that follows the requested layout, one well-formed summary per article, is accepted and returns those summaries with the counts |
| Ai.MiscountFallsBack | ai_utils.py:154-160 | a readable reply whose marker count differs from the number of texts gives the fallback and drops the counts |
| Ai.BatchKeepsSpaced | ai_utils.py:116-160 | a batch call keeps the log's records more than 23 hours apart |
| Urls.BuildFullUrl | utils.py:24-29 | a falsy region leaves the URL as it is. Otherwise the URL is a prefix of the result, and the result is `len(region) + 10` longer. The separator is `&` when the URL has a `?` and `?` when it does not, and `gl=<region>&hl=en` follows it |
| Urls.RegionReadsBack | utils.py:28 | a qualified URL ends in `&hl=en` and the region can be read back between `gl=` and that ending |
| Urls.QualifiedUrlHasQuery | utils.py:27-28 | a qualified URL always has a query string, opened by `?` when the base had none |
| News.TopStoriesIsAFeed | constants.py:13-24 | `NEWS_FEEDS` has a `Top Stories` entry, `https://news.google.com/rss` |
| News.LogoTarget | news_service.py:29-35 | the source's truthy `href` is preferred, then the entry's truthy link, else no URL |
| News.LogoUrl | news_service.py:27-46 | a favicon URL exists exactly when a URL was chosen and has a host name, and is the Google favicon URL for that host at size 64 |
| News.LogoPrefersSource | news_service.py:31-35 | when the source has an `href`, the entry's own link does not affect the favicon |
| News.LogoHostReadsBack | news_service.py:43 | the host name can be read back from the favicon URL |
| News.WithLogos | news_service.py:58-60 | every entry is paired with its own favicon, in order |
| News.ParseFeed | news_service.py:49-64 | the result is the first `min(limit, len(feed))` entries, in feed order, each with its favicon. It is empty when parsing raises |
| News.ResolveRegion | news_service.py:81-85 | the region is the user's truthy preferred region, else a truthy IP country, else none |
| News.SearchUrl | news_service.py:89 | the search feed URL is the Google News search prefix followed by the quoted query, and always has a `?`, so a region is appended with `&` |
| News.BlendLimits | news_service.py:109-120 | the category feed is read exactly when the user has a known category, and the topic search exactly when the user has topics. The limits add up to 10 when either is read, split 5/5 when both are |
| News.CategoryPart | news_service.py:122-126 | the category part is nothing when its limit is 0. Otherwise the user has a known category and the part is the first `limit` entries of that category's feed, region applied |
| News.TopicPart | news_service.py:128-133 | the topic part is nothing when its limit is 0. Otherwise the user has topics and the part is the first `limit` entries of one search for the topics joined by ` OR `, region applied |
| News.Blend | news_service.py:101-135 | the blend is category entries then topic entries, at most 10 in all, and empty without a user or when the preferences cannot be loaded |
| News.GetPersonalizedNews | news_service.py:68-149 | a search gives the search feed (10). Otherwise a known category gives its feed (10). Otherwise the blend is used, and Top Stories (10) only when the blend is empty. Every path returns at most 10 items |
| News.SearchIgnoresPreferences | news_service.py:87-92 | with a search query, the result depends only on the query and the resolved region: the category asked for and every preference other than the preferred region make no difference |
| News.UnknownCategoryFallsThrough | news_service.py:94 | a category that is not a feed name is treated as no category |
| News.BlendOrder | news_service.py:114-133 | with a known category and topics, the result is five category entries, then five entries from the topics joined by ` OR ` |
| News.CategoryOnlyBlend | news_service.py:117-126 | with a known category and no topics, the blend is up to ten entries of the category feed |
| News.TopicsOnlyBlend | news_service.py:119-133 | with topics and no known category, the blend is up to ten entries of the ` OR ` topic search |
| News.UnknownPreferenceIgnored | news_service.py:109 | a stored category that is not a `NEWS_FEEDS` key counts as no category: the blend is the same as without it |
| News.DefaultWhenNothingElse | news_service.py:137-145 | for an anonymous request with an empty Top Stories feed, the result is empty, not an error |
| Home.ClientIp | app.py:97-100 | behind a proxy, the address is the trimmed first element of the first `X-Forwarded-For` header and contains no comma; otherwise it is the peer address |
| Home.ClientIpIsFirstHop | app.py:98 | for a chain `client, proxies...` the address is the client's |
| Home.LocationFromIp | app.py:46-66 | `127.0.0.1` is placed in the United States (`US`); any other address is looked up |
| Home.LocalhostNeedsNoLookup | app.py:50-51 | a local request does not depend on the geolocation service |
| Home.CleanTitle | app.py:122-128 | a trailing `" - <source title>"` is removed; failing that, everything after the last `" - "` is removed; the rest is trimmed; a title without `" - "` stays as it is |
| Home.TrailingIsLast | app.py:124-125 | a separator the title ends with is its last occurrence, so `rsplit` cuts exactly that suffix |
| Home.CleanTitleRoundTrip | app.py:124-125 | cleaning `title + " - " + source` gives back a trimmed `title` |
| Home.CleanEntry | app.py:122 | only entries with a title and a source with a truthy title are cleaned, and only their title changes |
| Home.CleanItems | app.py:120-128 | every item is cleaned in place, in order, with its favicon |
| Home.Summarised | app.py:131-137 | only entries with a summary are picked, and there are no more of them than items |
| Home.SummarisedAppend | app.py:120-137 | picking entries keeps feed order |
| Home.SummarisedAt | app.py:131-137 | an entry with a summary sits among the picked entries at its own position |
| Home.SummarisedFrom | app.py:131-137 | every picked entry comes from one feed position with a summary, and picked entries at different positions come from different feed positions |
| Home.Prefix | app.py:136 | `plain_text[:3000]` is a prefix: the whole text when it has at most 3000 characters, exactly 3000 characters otherwise |
| Home.CollectTexts | app.py:130-137 | one text per picked entry, in order: its plain-text summary cut to 3000 characters |
| Home.CollectedTextCut | app.py:134-136 | each collected text starts its entry's plain text and is `min(3000, len)` characters long |
| Home.LinkMap | app.py:168-169 | every summarised link is a key, and every key is a summarised link |
| Home.LinkMapLastWins | app.py:168-169 | for a shared link, the summary of the last entry with that link is kept |
| Home.SummaryMap | app.py:166-169 | summaries are attached only when the batch is non-empty and its count equals the number of summarised entries; otherwise nothing is attached |
| Home.FinalSummaries | app.py:172 | one summary per fetched entry, in fetch order, the attached one or `No summary available for this article.` |
| Home.SummarisedDistinct | app.py:168-169 | distinct links remain distinct among the summarised entries |
| Home.UnsummarisedLinkAbsent | app.py:131-172 | with distinct links, an entry without a summary shares its link with no summarised entry |
| Home.SummariesAlign | app.py:166-172 | with distinct links and a matching count, every entry with a summary shows the batch item at its own position, and every other entry shows the apology |
| Home.MismatchAttachesNothing | app.py:167 | an empty batch or a count mismatch gives every entry the apology |
| Home.Combined | app.py:176-180 | the session value exists exactly when there are summaries. Then it is their single-space join, in order: every summary appears in it, and its length is theirs plus the spaces |
| Home.CombinedAppend | app.py:177 | one summary alone is the value itself, and one more summary is added at the end after a single space, so the order of the list is kept |
| Home.BatchKeepsCount | ai_utils.py:138-160 | the batch summariser returns one summary per text whenever it returns summaries |
| Home.SummariseAll | app.py:141 | with no texts the summariser is not asked and the result is `([], None)` |
| Home.ShowNews | app.py:117-180 | the rate-limit page appears exactly when there were texts and the summariser raised the quota error. It carries the latest logged error time, if any. Any other summariser error escapes the page, because only `RateLimitException` is caught. Otherwise every item is shown cleaned, with exactly one summary and the joined session value, and the log is the one the summariser left |
| Home.RateLimitPageOnQuota | app.py:139-151 | with the real summariser, the rate-limit page appears exactly when there was text to summarise and the quota ran out, and the error has been through the rate limiter; no other error escapes |
| Home.PageSummariesAlign | app.py:117-172 | with distinct links, on the news page every entry that had a summary shows the summariser's item for its position, and every other entry shows the apology |
| Home.DisplayNews | app.py:84-180 | the whole home page shows at most 10 items, with exactly one summary each |

## Left out

- The Gemini SDK call and its temperatures (`ai_utils.py:30-33, 65-69`) are a parameter, `provider`, from prompt to outcome. The float temperatures play no part.
- `\d` is modelled as the ASCII digits only. Python's `re` also accepts other Unicode decimal digits (Nd) for `\d` in a `str` pattern; a reply with such digits in a marker is not modelled.
- Logging calls (`logger.*`) are left out: they do not affect results.
- The ORM is left out. `ai_utils.py:20` imports `SessionLocal` from `models.py`, which does not define it (it lives in `database.py`). The model assumes the session works, apart from a store failure (`storeFails`), which rolls back and appends nothing.
- Concurrency is left out. `_log_rate_limit_error_if_needed` (`ai_utils.py:43-51`) reads the latest record and then inserts, with no lock, from overlapping Flask requests. Two overlapping quota errors can both see the same latest record and both insert, leaving two records less than 23 hours apart. `RateLimit.RecordKeepsSpaced`, `RateLimit.AtMostOnePerWindow`, `Ai.CallKeepsSpaced` and `Ai.BatchKeepsSpaced` hold only when the steps run one after another.
- Strings are sequences of Unicode scalar values. A Python `str` may also hold lone surrogates (from `surrogateescape` decoding, say), which a Dafny `char` cannot, so such strings are not modelled.
- The rate-limit log uses one clock. The source compares the app's `datetime.now()` with a timestamp the database filled in (`server_default=func.now()`), which may be in another time zone.
- The `strftime` formatting of the last error time (`app.py:148`) is left out. The page carries the timestamp itself.
- Token-usage logging (`app.py:154-163`) is left out: the model treats `log_token_usage` as returning normally. In the source that call passes `db=` to `log_token_usage`, which takes no such parameter (`token_db_logger.py:11-18`). Every accepted batch carries usage counts, so every accepted batch ends the request in a `TypeError` and the page with the model's summaries is never rendered. `ShowNews` and `PageSummariesAlign` describe the page the code evidently means to show, not what it does.
- `feedparser.parse`, `urlparse(...).hostname`, `quote` and BeautifulSoup's `get_text` are parameters (`Services`, `plainText`). The feed's `bozo` flag only logs, and is left out.
- The memoize cache on `get_personalized_news` (`news_service.py:67`) is left out. It returns earlier results unchanged.
- The database lookup of the user and their topics is left out. The user comes in as a value, and `topics = None` stands for the `SQLAlchemyError` caught at `news_service.py:134`.
- The geolocation HTTP request (`app.py:53-66`) is a parameter, `lookup`, which also stands for its `(None, 'Worldwide')` fallback.
- An entry without a `link` attribute, or with a `source` that lacks a `title`, raises `AttributeError` in the source. The model gives every entry a link and treats a missing source title as absent.
- ReplyFormat.ParseRendered: only covers summaries that are non-empty, already stripped and free of markers. A summary that itself contains `SUMMARY <n>:` splits into more segments, which `MiscountFallsBack` covers.
- Home.DisplayNews: states only the size bounds of the composed page. The detailed promises are stated for its parts (`GetPersonalizedNews`, `ShowNews`, `PageSummariesAlign`).
- Flask routing, sessions beyond the combined summaries, login, registration, password reset and templates (`app.py:183-465`) are web plumbing, and are left out.
- Audio generation (`app.py:194-263`) and `newscast_generator.py` are media and scheduling I/O. The latter's call `get_personalized_news(user_id)` does not match the signature at `news_service.py:68`, and is left out.
- `send_email` (`utils.py:31-81`) is SMTP I/O, and is left out.
