# katamari feed aggregator, modelled in Dafny

katamari is a small web server. It takes a list of RSS/Atom feed URLs in the
query string, fetches them, and returns one HTML page. The page lists every
entry of every feed, newest first, grouped by local calendar day. Within a
day, links to the same page (ignoring the `#fragment`) are merged into one
entry with a repeat count. Entries from domains that are rare that day are
highlighted.

This project models the sequential core of that server and proves its
properties:

- **RoutesSort**, **RoutesDays**, **RoutesHighlight**, **RoutesRender**,
  **RoutesIndex** (`src/server/routes.rs`): the request handler `index`.
  - It flattens the fetched `(feed, items)` list and sorts it newest first
    with a stable sort.
  - It cuts the list into days and deduplicates each day through a
    `HashMap` from fragment-less link to entry position.
  - It highlights rare domains and writes the page with `push_str`.
  - Each loop of the handler is a Dafny `method` with loop invariants. It is
    proved equal to a functional specification (`Flattened`, `Buckets`,
    `HighlightedDays`, `Page`), and lemmas prove what those specifications
    mean.
  - `RoutesUrl` holds the handler's private `url_prefix` and `domain`.
- **UrlTools** (`src/url.rs`): the shared `domain` and `prefix` helpers.
  They differ from the handler's copies.
- **DateParse** (`src/fetch/date.rs`): `parse_date`. It applies a fixed chain
  of textual rewrites, then tries four parsers in order.
- **Fetch** and **FeedModel** (`src/fetch.rs`): the conversion of a parsed
  feed into a `Feed` and its entries, with tagged validation errors.
- **Extract** (`src/fetch/extract.rs`): the summary heuristics over a stream
  of XML reader events. `summary_from_html_summary` and
  `summary_from_html_body` are methods with loops and early returns.
- **Strings** and **Wrappers**: `find`, `split_once`, `strip_prefix`,
  `replace`, `Option` and `Result` as the Rust code uses them.

Things the code leaves to libraries become parameters:

- `dateOf: int -> int` is the local calendar date of a UTC timestamp
  (chrono's `Local` conversion). Some properties assume it is monotone.
- `dateText: int -> string` is the `Display` text of a date.
- `Parsers` holds the four chrono parsers, each a partial function.
- `Codec` holds quick_xml tokenising, text unescaping and attribute
  decoding, and UTF-8 validation.
- The joined fetch results are the input of `RoutesIndex.Index`, in the
  order the requests finish.

A timestamp is an integer that counts an instant at the source's own resolution (chrono's `DateTime<Utc>` has nanoseconds), so instants less than a second apart stay distinct and are ordered as the source orders them. Counts are unbounded naturals.

Where the code and the design description of the system disagree, this model
follows the code:

- `rss` in `src/fetch.rs` stores the entry's raw summary text. It does not
  call `extract::summary`.
- Timestamps come from the feed parser. `rss` does not call
  `date::parse_date`.
- Links and thumbnails are not resolved against the feed's URL.
- `Feed` has only a title and a logo.
- The page header carries no Content-Security-Policy nonce.
- Thumbnails carry no `title` attribute.
- The spacer span is closed with `</spacer>`, exactly as written.
- `summary_from_html_body` matches a document's root-relative link against
  an absolute item link. It does not do the reverse.

## Model

| member | source | states |
|---|---|---|
| Strings.SplitOnce | src/url.rs:2 | `split_once`: no result exactly when the pattern does not occur; otherwise the input is before + pattern + after, cut at the first occurrence: no occurrence starts inside before |
| Strings.Find | src/fetch/extract.rs:143 | `str::find`: the index of the first occurrence; none exactly when the pattern never occurs |
| Strings.ReplaceAbsent | src/fetch/date.rs:15-24 | `str::replace` returns a text in which the pattern does not occur unchanged |
| Strings.StripPrefix | src/fetch/extract.rs:140-142 | a result exactly when the prefix is a prefix of the input, and then input == prefix + result |
| UrlTools.Domain | src/url.rs:1-9 | without "://" the URL itself; with it, a text with no '/'; always a substring of the URL |
| UrlTools.Prefix | src/url.rs:11-13 | a prefix of the URL with no '#'; the URL itself when it has no '#'; otherwise the URL is cut exactly at a '#' |
| UrlTools.PrefixIdempotent | src/url.rs:11-13 | prefix(prefix(u)) == prefix(u) |
| UrlTools.PrefixOfParts | src/url.rs:11-13 | for every `before` without '#', the prefix of before + "#" + fragment is `before`, however many '#' the fragment holds |
| UrlTools.DomainOfParts | src/url.rs:1-9 | for every scheme without "://", host without '/' and path that is empty or starts with '/', the domain of scheme://host+path is host |
| UrlTools.DomainExamples | src/url.rs:19-25 | the four `test_domain` cases |
| UrlTools.PrefixExamples | src/url.rs:27-44 | the six `test_prefix` cases |
| RoutesUrl.UrlPrefix | src/server/routes.rs:200-202 | a prefix of the URL with no '#', cut exactly at the first '#' when there is one |
| RoutesUrl.UrlPrefixIsPrefix | src/server/routes.rs:200-202 | the handler's `url_prefix` equals the shared `prefix` on every input |
| RoutesUrl.Domain | src/server/routes.rs:204-209 | either the URL itself or a text with no '/'; always a substring of the URL |
| RoutesUrl.DomainAgainstUrlTools | src/server/routes.rs:204-209 | agrees with the shared `domain` except on a URL with "://" and no '/' after it, where it returns the whole URL and the shared one the text after "://" |
| RoutesUrl.DomainOfParts | src/server/routes.rs:204-209 | scheme://host + path with a path starting with '/' has domain host |
| RoutesUrl.DomainWithoutPath | src/server/routes.rs:204-209 | scheme://host with no path has domain scheme://host, the whole URL |
| RoutesUrl.DomainExamples | src/server/routes.rs:204-209 | "https://example.com/foo" gives "example.com", and "https://example.com" gives itself |
| DateParse.FirstSuccess | src/fetch/date.rs:26-29 | the `or_else` chain: no result exactly when every attempt fails; otherwise the first successful attempt |
| DateParse.ParseDate | src/fetch/date.rs:14-38 | None exactly when all four parsers fail on the rewritten input; otherwise the UTC value of the first parser, in the order RFC 3339, RFC 2822, RFC1123-like, GitHub, that succeeds |
| DateParse.RemoveEach | src/fetch/date.rs:18-24 | removing patterns one after another, one pass each, leaves a text that holds none of them unchanged |
| DateParse.Preprocess | src/fetch/date.rs:15-24 | the rewrite chain, its weekday removals taken from the one list `Weekdays`, leaves an input with none of the nine patterns unchanged |
| DateParse.PreprocessFridayGmt | src/fetch/date.rs:3-5 | "Fri, " + x + "GMT" rewrites to x + "+0000" for every x holding none of the nine patterns (the doc comment's example); no pattern straddles the seams |
| DateParse.PreprocessTrailingUtc | src/fetch/date.rs:8-10 | x + "UTC" rewrites to x + "+0000" for every x holding none of the nine patterns (the doc comment's example); no pattern straddles the seams |
| DateParse.SinglePassRemoval | src/fetch/date.rs:18 | the weekday removal is one left-to-right pass: "MoMon, n, 1" becomes "Mon, 1", not "1" |
| FeedModel.MediaType.Essence | src/fetch/extract.rs:24 | the essence keeps type, subtype and suffix and drops the parameters |
| Fetch.FirstThumbnail | src/fetch.rs:78-83 | present exactly when the first media object has a thumbnail, and then it is that thumbnail's URI |
| Fetch.ConvertEntry | src/fetch.rs:65-86 | each error exactly under its condition, checked in the order timestamp, link, title; on success the published (else updated) time, the first link, the title text, the first thumbnail and the raw summary text |
| Fetch.ConvertEntries | src/fetch.rs:62-87 | succeeds exactly when every entry converts; then one output per input entry, in order; otherwise the error of the first entry that fails |
| Fetch.ConvertFeed | src/fetch.rs:57-87 | a missing feed title fails with `MissingFeedTitle` before any entry is looked at; otherwise it succeeds exactly when the entries do, with the title text and the logo URI |
| Fetch.LaterMediaIgnored | src/fetch.rs:78-83 | replacing every media object after the first changes nothing |
| Fetch.FeedFailsOnFirstBadEntry | src/fetch.rs:62-87 | when entry k is the first invalid one, the feed fails with entry k's error |
| Extract.SummaryVerdict | src/fetch/extract.rs:56-67 | the loop stops exactly at a text, the end of input or a read error; the end of input gives `Ok(None)`, a read error `ReadFailed`, a text its unescaped value or `UnescapeFailed` |
| Extract.SummaryFromHtmlSummary | src/fetch/extract.rs:49-70 | the reader loop returns what the event-stream specification `HtmlSummary` gives |
| Extract.HtmlSummaryFirstText | src/fetch/extract.rs:56-67 | when only tags come before the first text, the result is that text unescaped, or `UnescapeFailed` |
| Extract.HtmlSummaryNoText | src/fetch/extract.rs:56-69 | when only tags come before the end of input, the result is `Ok(None)` |
| Extract.HtmlSummaryReadError | src/fetch/extract.rs:57 | when only tags come before a failed read, the result is `Err(ReadFailed)` |
| Extract.AttrValue | src/fetch/extract.rs:126-137 | the decoded value when decoding succeeds, else the raw bytes as UTF-8; fails, with `Utf8Failed`, exactly when both fail |
| Extract.UrlPath | src/fetch/extract.rs:139-144 | present exactly when the link starts with "http://" or "https://" and a '/' follows the scheme; then it is the rest from the first such '/' |
| Extract.UrlPathOfParts | src/fetch/extract.rs:139-144 | scheme + host + path gives path, for every host without '/' and path starting with '/' |
| Extract.UrlPathWithoutPath | src/fetch/extract.rs:139-144 | scheme + host with no '/' gives none, e.g. "https://example.com" |
| Extract.BodyVerdict | src/fetch/extract.rs:79-121 | the end of input stops with nothing; a read error stops with `ReadFailed`; texts, other events and non-anchor tags never stop the loop; an anchor stops it only with a title or an error |
| Extract.SummaryFromHtmlBody | src/fetch/extract.rs:72-124 | the reader loop and the attribute loop return what the event-stream specification `HtmlBody` gives |
| Extract.LastTitle | src/fetch/extract.rs:104-106 | the value of a `title` attribute after which no other `title` attribute follows, or none when there is none |
| Extract.ScanAttrsClean | src/fetch/extract.rs:86-109 | over well-formed attributes, the loop's final state is: found when some `href` matches the item link or its path; title is the last `title` attribute |
| Extract.AnchorTitleClean | src/fetch/extract.rs:110-116 | an anchor whose attributes are well-formed and whose `href` values decode gives, when it matches and has a title, its last title decoded or the decoding error; otherwise nothing, whatever its titles hold |
| Extract.AnchorMalformedAborts | src/fetch/extract.rs:89-90 | a malformed attribute after well-formed ones fails the anchor with `AttributeFailed` |
| Extract.HtmlBodyFirstMatch | src/fetch/extract.rs:84-116 | the first qualifying anchor gives the result, its last title decoded or the decoding error, after events that do not stop the scan; a non-matching anchor before it does not stop the scan even when its title would not decode |
| Extract.HtmlBodyNoMatch | src/fetch/extract.rs:79-123 | with no qualifying anchor before the end of input, and every `href` decoding, the result is `Ok(None)`, whatever the titles of the anchors hold |
| Extract.HtmlBodyAborts | src/fetch/extract.rs:79-116 | a read error, or an anchor whose attributes cannot be read or decoded, fails the whole heuristic, after earlier events that do not stop the scan (titles of non-matching anchors included, decodable or not) |
| Extract.SummaryShadowsContent | src/fetch/extract.rs:23-31 | a present summary decides alone: neither content nor link matters, and a non-HTML summary is returned verbatim |
| Extract.EmptyContentIsNoContent | src/fetch/extract.rs:34-46 | content without a body gives the same result as no content: `Ok(None)` |
| Extract.PlainTextVerbatim | src/fetch/extract.rs:23-44 | a non-HTML summary, or a non-HTML content body, is returned unchanged |
| Extract.HtmlCaseInsensitive | src/fetch/extract.rs:14-24 | "TEXT/Html; charset=utf-8" counts as HTML |
| Extract.IsHtmlIgnoresParams | src/fetch/extract.rs:24 | `essence() == TEXT_HTML`: parameters never change the verdict; an HTML type has no suffix; text/html with any parameters is HTML |
| Extract.SummaryHtmlBranches | src/fetch/extract.rs:23-38 | an HTML summary goes to the summary heuristic on its markup, whatever the content; without a summary, an HTML content body goes to the body heuristic with the item link |
| Extract.SummaryFromHtmlText | src/fetch/extract.rs:23-26 | an HTML summary whose markup has only tags before its first text gives that text unescaped |
| Extract.FirstTextExample | src/fetch/extract/tests.rs:3-15 | the first paragraph's text is returned, not the second |
| Extract.NoTextExample | src/fetch/extract/tests.rs:17-28 | an image with a title but no text gives nothing |
| Extract.MatchingLinkExample | src/fetch/extract/tests.rs:43-69 | an anchor whose href equals the item link gives its title |
| Extract.PathOnlyExample | src/fetch/extract/tests.rs:71-83 | an anchor whose href is the item link's path gives its title |
| Extract.WrongUrlExample | src/fetch/extract/tests.rs:85-97 | an anchor to a different URL gives nothing |
| Extract.ImproperlyEscapedExample | src/fetch/extract/tests.rs:99-111 | an href that fails to decode is compared as raw UTF-8 and still matches |
| RoutesSort.Tag | src/server/routes.rs:49-50 | every item of a feed paired with that feed, in order |
| RoutesSort.Flatten | src/server/routes.rs:46-51 | the loop yields `Flattened`: all feeds' items, feed by feed |
| RoutesSort.FlattenedIndex | src/server/routes.rs:46-51 | item j of feed i is at position Total(feeds[..i]) + j of the flattened list, paired with feed i; the length is the total item count |
| RoutesSort.SortDesc | src/server/routes.rs:52 | the newest-first order keeps the number of items; the two lemmas below state the order and stability |
| RoutesSort.SortDescSortedPermutation | src/server/routes.rs:52 | the sort result has non-increasing timestamps and is a permutation of its input |
| RoutesSort.SortDescStable | src/server/routes.rs:52 | for every timestamp, the items with that timestamp keep their input order |
| RoutesDays.LastOf | src/server/routes.rs:89-93 | the position of a pair with key k after which no pair has k, the one whose item the entry keeps since each repeat overwrites it; none exactly when no pair has k |
| RoutesDays.FindKey | src/server/routes.rs:86 | the position of the first entry whose key is k, or none exactly when no entry has key k |
| RoutesDays.Buckets | src/server/routes.rs:68-107 | never more days than items; the last day has the last item's date |
| RoutesDays.IndexRepeat | src/server/routes.rs:89-93 | for a key in an agreeing index, merging overwrites the indexed entry's item, adds one to its count, and keeps the index agreeing |
| RoutesDays.IndexNew | src/server/routes.rs:95-104 | for a key not in the index, merging appends an entry with count 1, and the index extended with its position agrees again |
| RoutesDays.BuildDays | src/server/routes.rs:68-107 | the loop with its index map yields `Buckets` |
| RoutesDays.AddItem | src/server/routes.rs:73-105 | one iteration yields `AddPair`, and the index agrees with the last day afterwards |
| RoutesDays.MergeItem | src/server/routes.rs:82-105 | the `entry` match yields `AddToDay` and keeps the index agreeing |
| RoutesDays.BumpEntry | src/server/routes.rs:89-93 | the occupied arm yields `AddToDay` and keeps the index agreeing |
| RoutesDays.AppendEntry | src/server/routes.rs:95-104 | the vacant arm yields `AddToDay` and keeps the index agreeing |
| RoutesDays.BucketsShape | src/server/routes.rs:73-81 | adjacent days have distinct dates, and no day is empty |
| RoutesDays.BucketsDatesDecrease | src/server/routes.rs:73-81 | for newest-first input and a monotone local date, later days have strictly smaller dates |
| RoutesDays.RunsPartition | src/server/routes.rs:73-81 | the runs of equal dates concatenate to the input; each has one date, and neighbouring runs have different dates |
| RoutesDays.BucketsAreDedupedRuns | src/server/routes.rs:72-106 | day i is run i, deduplicated, with that run's date |
| RoutesDays.DedupCorrect | src/server/routes.rs:84-104 | deduplicating a run gives entries with pairwise distinct keys; each has the feed of its key's first item, the item of its key's last item, as count the number of items with its key, and no highlight; every key of the run has an entry; entries are in first-occurrence order; the counts add up to the run's length |
| RoutesDays.BucketsCountAll | src/server/routes.rs:89-104 | the counts of all entries of all days add up to the number of items |
| RoutesDays.DaysDeduplicated | src/server/routes.rs:68-107 | every day is a maximal run of one date, deduplicated as `DedupCorrect` states |
| RoutesHighlight.Highlighted | src/server/routes.rs:123-129 | only the highlighted flags change; each is set by the rule "count < 3 and count < the day's maximum" |
| RoutesHighlight.HighlightedDays | src/server/routes.rs:110-131 | every day highlighted on its own counts |
| RoutesHighlight.MaxDomainCountSpec | src/server/routes.rs:121 | the maximum is at least every entry's domain count and is some entry's count; it is 0 exactly for an empty day |
| RoutesHighlight.HighlightMeaning | src/server/routes.rs:127-128 | highlighted exactly when the domain has fewer than 3 entries and some other domain has more; a highlighted domain has 1 or 2 entries |
| RoutesHighlight.SingleDomainNoHighlight | src/server/routes.rs:127-128 | a day whose entries share one domain (for example a one-entry day) highlights nothing |
| RoutesHighlight.CountStep | src/server/routes.rs:116-119 | the `or_default() += 1` update keeps the map equal to the domain counts of the entries seen so far |
| RoutesHighlight.MaxOfCounts | src/server/routes.rs:121 | the largest value of the counts map, or 0, is the day's largest domain count |
| RoutesHighlight.HighlightDay | src/server/routes.rs:112-130 | the three loops over one day yield `Highlighted` |
| RoutesHighlight.HighlightDays | src/server/routes.rs:110-131 | the loop over all days yields `HighlightedDays` |
| RoutesRender.NatToDecimal | src/server/routes.rs:176 | at least one digit, all digits, and no leading zero |
| RoutesRender.DecimalRoundTrip | src/server/routes.rs:176 | reading the written count back gives the count |
| RoutesRender.ItemEntry | src/server/routes.rs:165-193 | one entry's text is `ItemHtml`: image, link with class, count suffix, summary line |
| RoutesRender.PushItems | src/server/routes.rs:164-194 | pushing a day's entries appends `ItemsHtml` of them |
| RoutesRender.PushDays | src/server/routes.rs:161-195 | pushing the days appends each day's heading followed by its entries, day after day |
| RoutesRender.Render | src/server/routes.rs:133-197 | the response body is the fixed header followed by every day's text |
| RoutesRender.DaysHtmlAppend | src/server/routes.rs:161-195 | the text of two lists of days is the text of the first followed by the text of the second |
| RoutesRender.CountSuffixReadsBack | src/server/routes.rs:175-179 | the " (Nx)" suffix is present exactly when count > 1, and its digits read back as the count |
| RoutesRender.ImagePreference | src/server/routes.rs:165-174 | the image is the entry's thumbnail, else its feed's logo; there is no `<img>` exactly when both are missing |
| RoutesRender.SummaryLayout | src/server/routes.rs:180-184 | the summary line is present exactly when there is a summary; it carries the spacer only when there is an image |
| RoutesRender.HighlightClass | src/server/routes.rs:188 | the link's class is "highlight" exactly for highlighted entries, and empty otherwise |
| RoutesIndex.CollectedSpec | src/server/routes.rs:39-44 | all feeds in finishing order when every fetch succeeded; otherwise the first failure in that order |
| RoutesIndex.CollectFeeds | src/server/routes.rs:39-44 | the `join_next` loop with `result??` yields `Collected` |
| RoutesIndex.Index | src/server/routes.rs:22-198 | no query string gives `NoUrls`; a failed fetch gives its error; otherwise the page of the highlighted, deduplicated days of the sorted items |
| RoutesIndex.HighlightKeepsTotal | src/server/routes.rs:110-131 | highlighting leaves the sum of all counts unchanged |
| RoutesIndex.DaysOfFacts | src/server/routes.rs:46-131 | on the page, the counts add up to the number of fetched items; no day is empty; with a monotone local date, days run strictly newest first |

## Left out

- Issuing the requests concurrently and parsing each query-string part into a URL (src/server/routes.rs:31-37): concurrency and URL parsing are outside the modelled logic. The missing query (lines 27-29) is modelled by `Index`, and the join loop by `CollectFeeds`, which takes the fetch outcomes in finishing order. Because that order is not deterministic, which failure is reported when several feeds fail is not pinned down either.
- HTTP transport, buffering the body, and feed_rs parsing (src/fetch.rs:41-55): I/O and a foreign parser. `ConvertFeed` starts from the parsed record.
- quick_xml tokenising, whitespace trimming, unchecked end names, entity unescaping and attribute decoding: foreign library code, given as the `Codec` functions and the event sequence.
- chrono: the four parsers' formats, and the offset-to-UTC conversion as an arithmetic rule (`ToUtc`). The `Local` timezone conversion and the date's `Display` text are the parameters `dateOf` and `dateText`.
- `tracing` logging (src/fetch/date.rs:34, src/fetch.rs:89-90): it has no effect on results.
- src/server/index.rs, src/server.rs, src/main.rs, src/opt.rs, src/err.rs: an older handler and the server, CLI and error wiring. None of them holds modelled logic.
- RoutesSort.SortDesc: `sort_by_key` is a library call. Its outcome is defined as a stable insertion sort and proved sorted, a permutation and stable. The library's own algorithm is not modelled.
- RoutesDays.BuildDays: `days` and each day's entries are sequence values that the methods reassign. The `&mut` borrows of the last day and of entries are not modelled as references.
- RoutesSort.Flatten: `drain(..)` empties each feed's item vector. That emptying is not modelled, since the vectors are not read again.
- RoutesUrl.Domain and UrlTools.Domain: strings are Unicode code-point sequences. Rust's UTF-8 byte slicing gives the same text here, because every pattern ("://", '/', '#') is ASCII.
- Extract.IsHtml: the media-type essence is compared ASCII-case-insensitively, which is how the mediatype crate compares names.
