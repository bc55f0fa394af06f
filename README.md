# SitemapTest: the crawler, the link sinks and the sitemap walk, in Dafny

SitemapTest collects the page URLs of a web site. It has three parts, and this project models the core of each:

- **SimpleCrawler**
  - `CrawlSettings`: the crawler's settings object.
  - `BloomFilter<T>`: a Bloom filter.
    - A fixed bit array of `m` bits.
    - Each element probes `k` bits by double hashing, `|(h1 + i*h2) % m|`, in 32-bit `int` arithmetic.
    - The secondary hash is built in for strings (Jenkins' one-at-a-time hash) and for ints.
  - `CrawlMaster`:
    - seeds the URL queue with the seed addresses that look like web URLs;
    - picks the encoding of a fetched page;
    - sends every distinct `href` of the page through a filter chain. The chain is: escape suffixes, keywords, a literal decoding, excluded schemes, URI resolution, host locking, the allow-list of patterns, and the `AddUrlEvent` veto.
    - Each admitted link is enqueued one level deeper.
- **SitemapLib**
  - Two link sinks, `FileLinkStorage` and `ConsoleLinkStorage`.
    - Each accepts a URL that its membership filter has not seen, up to a cap.
    - The filter is a `static` field shared by all sinks of the class.
  - `LoewTest`, the sitemap walk:
    - loads the sitemaps robots.txt names, once per location;
    - goes through the growing list of loaded sitemaps;
    - offers every page entry to the sink;
    - loads the children of every index sitemap;
    - throws on a null sitemap, on a listed sitemap without a location, and on a load that throws.
- **Louw.SitemapParser**
  - The immutable `Sitemap` and its three constructors.
  - `SitemapParser`:
    - turns sitemap XML into a `Sitemap`, ignoring namespaces;
    - skips entries without a usable location;
    - clamps priorities into [0, 1], where a NaN priority stays NaN;
    - takes the latest modification date over the entries.

The model uses the source's own form:
- Mutable objects are classes whose methods change their fields, with `modifies` clauses. These are the Bloom filter over an `array<bool>`, the settings, the crawl master's queue and events, the two sinks, and the walk's lists.
- Loops are methods with invariants. Each is proved against a specification function on sequences.
- Pure logic is functions and lemmas: the parser, the sitemap constructors and the link filter chain.

Some collaborators are not part of this model and enter as function-valued parameters or fields:
- the regex engine, `System.Uri`, `XElement.Parse`, and the date, number and enumeration parsers;
- `GetHashCode`, the text encodings, the sitemap loader, and the `AddUrlEvent` subscriber.

A regex test on an invalid pattern, a `Uri` constructor and the subscriber can each throw; the model gives each an `Option` result whose `None` is the throw.

Fixed-width integer behaviour is written out. This covers unchecked 32-bit wrap-around, C#'s truncating `%`, and the signed `>>`.

## Model

| member | source | states |
|---|---|---|
| Machine.Wrap | SimpleCrawler/BloomFilter.cs:359 | unchecked `int` arithmetic keeps a value congruent to the true result modulo 2^32, and the true result itself whenever it fits in 32 bits |
| Machine.TruncRem | SimpleCrawler/BloomFilter.cs:359 | C#'s `%` on `int`: the remainder has the sign of the dividend and magnitude \|a\| mod m |
| Machine.ShiftRightArithmetic | SimpleCrawler/BloomFilter.cs:330-337 | the signed `>>`: bits `n..31` of the operand become the low `32 - n` bits of the result |
| Machine.ShiftRightArithmeticSignFill | SimpleCrawler/BloomFilter.cs:330-337 | the top `n + 1` bits of the signed `>>` all copy the operand's sign bit: zeros for a non-negative operand, ones for a negative one |
| Text.ContainsIffOccurs | SimpleCrawler/CrawlMaster.cs:441 | `href.Contains(keyword)` holds exactly when the keyword occurs at some position of the href |
| Text.ReplaceAbsent | SimpleCrawler/CrawlMaster.cs:448-451 | `Replace` leaves a string in which the pattern does not occur unchanged |
| Text.ReplaceKeepsPrefix | SimpleCrawler/CrawlMaster.cs:448-451 | a prefix that does not contain the pattern's first character passes through `Replace` unchanged |
| Settings.CrawlSettings.constructor | SimpleCrawler/CrawlSettings.cs:26-65 | a new settings object has depth 3, one thread, a 15000 ms timeout, host locking and cookies on, speed limiting off, the stock user agent and four empty lists |
| Settings.CrawlSettings.SetAutoSpeedLimit | SimpleCrawler/CrawlSettings.cs:74 | the property takes the value and no other setting changes |
| Settings.CrawlSettings.SetDepth | SimpleCrawler/CrawlSettings.cs:79-84 | the depth takes the value and no other setting changes |
| Settings.CrawlSettings.SetKeepCookie | SimpleCrawler/CrawlSettings.cs:94 | the property takes the value and no other setting changes |
| Settings.CrawlSettings.SetLockHost | SimpleCrawler/CrawlSettings.cs:104-109 | the property takes the value and no other setting changes |
| Settings.CrawlSettings.SetThreadCount | SimpleCrawler/CrawlSettings.cs:124-129 | the thread count takes the value and no other setting changes |
| Settings.CrawlSettings.SetTimeout | SimpleCrawler/CrawlSettings.cs:134-139 | the timeout takes the value and no other setting changes |
| Settings.CrawlSettings.SetUserAgent | SimpleCrawler/CrawlSettings.cs:144-149 | the user agent takes the value and no other setting changes |
| Settings.CrawlSettings.Append | SimpleCrawler/CrawlSettings.cs:89-119 | `Add` on one of the list properties: the named list grows by the item at its end, nothing else changes |
| Bloom.CheckArguments | SimpleCrawler/BloomFilter.cs:134-175 | the constructor succeeds exactly when capacity ≥ 1, 0 < errorRate < 1, m ≥ 1 and a secondary hash exists; the first failing check decides the exception; the supplied hash function wins over the built-in ones |
| Bloom.IntegerErrorRateNeverConstructs | SimpleCrawler/BloomFilter.cs:80-83 | the `(int capacity, int errorRate)` overload always throws, and with a valid capacity it is the error-rate exception |
| Bloom.ComputeHash | SimpleCrawler/BloomFilter.cs:357-361 | every probe index lies in [0, m) |
| Bloom.ProbeIndex | SimpleCrawler/BloomFilter.cs:357-361 | the probe index is the magnitude of the wrapped `h1 + i*h2`, taken modulo m; the remainder is never `int.MinValue`, so `Math.Abs` cannot throw |
| Bloom.HashString | SimpleCrawler/BloomFilter.cs:322-340 | the loop over the code units computes the one-at-a-time hash `StringHash`, and 0 for null |
| Bloom.StringHashKnownAnswers | SimpleCrawler/BloomFilter.cs:322-340 | null and "" hash to 0, and "a" hashes to -902917054 |
| Bloom.Int32MixKnownAnswers | SimpleCrawler/BloomFilter.cs:297-311 | known answers of the unsigned bit mix for 0 and 1 |
| Bloom.CountTrueMonotone | SimpleCrawler/BloomFilter.cs:369-382 | setting more bits never lowers the number of set bits |
| Bloom.BloomFilter.constructor | SimpleCrawler/BloomFilter.cs:177-178 | a fresh array of m clear bits, and k hash functions |
| Bloom.BloomFilter.Probe | SimpleCrawler/BloomFilter.cs:196-200 | every probe position is inside the bit array |
| Bloom.BloomFilter.Add | SimpleCrawler/BloomFilter.cs:191-201 | the new bits are the old bits with every probe of the item set |
| Bloom.BloomFilter.Contains | SimpleCrawler/BloomFilter.cs:212-227 | the answer is true exactly when every probe bit of the item is set |
| Bloom.BloomFilter.TrueBits | SimpleCrawler/BloomFilter.cs:369-382 | the number of set bits, between 0 and m |
| Bloom.BloomFilter.SetProbesEffect | SimpleCrawler/BloomFilter.cs:196-200 | the probe loop only sets bits; it sets each probe bit; every bit it changes is a probe bit |
| Bloom.BloomFilter.NoFalseNegative | SimpleCrawler/BloomFilter.cs:191-227 | right after `Add(x)`, `Contains(x)` is true |
| Bloom.BloomFilter.AddOnlySetsProbes | SimpleCrawler/BloomFilter.cs:191-201 | `Add` never clears a bit and changes only the item's probe bits |
| Bloom.BloomFilter.SetProbesWhenSet | SimpleCrawler/BloomFilter.cs:196-200 | setting probe bits that are already set changes nothing |
| Bloom.BloomFilter.AddIdempotent | SimpleCrawler/BloomFilter.cs:191-201 | adding an element twice leaves the same bits as adding it once |
| Bloom.BloomFilter.AddKeepsMembers | SimpleCrawler/BloomFilter.cs:191-227 | an element reported present stays present whatever is added later |
| Bloom.BloomFilter.AddKeepsCount | SimpleCrawler/BloomFilter.cs:369-382 | `TrueBits` never decreases under `Add` |
| Bloom.BloomFilter.NoFalseNegatives | SimpleCrawler/BloomFilter.cs:191-227 | after any sequence of adds, every element added is reported present |
| Bloom.AddThenContains | SimpleCrawler/BloomFilter.cs:191-227 | a client adding an element twice then asking for it: the answer is true, and the bits are those of one add |
| Bloom.NewStringFilter | SimpleCrawler/BloomFilter.cs:134-179 | construction of a string filter fails exactly as the checks say; on success it has m clear bits and k hash functions, and its secondary hash is the supplied function or `HashString` |
| LinkStorage.UrlFilter.constructor | SitemapLib/FileLinkStorage.cs:20 | a new filter has nothing added |
| LinkStorage.UrlFilter.Add | SitemapLib/FileLinkStorage.cs:42 | the URL joins the added set and is reported present from then on |
| LinkStorage.FilterSlot.constructor | SitemapLib/FileLinkStorage.cs:10 | the shared `static` field holds the given filter |
| LinkStorage.FileLinkStorage.constructor | SitemapLib/FileLinkStorage.cs:16-22 | the sink starts with no links, no lines and no reports, and installs a fresh empty filter in the shared field |
| LinkStorage.FileLinkStorage.SetLinkCount | SitemapLib/FileLinkStorage.cs:24-35 | the count takes the value; progress is reported exactly at the non-zero multiples of 100 |
| LinkStorage.FileLinkStorage.TryAdd | SitemapLib/FileLinkStorage.cs:37-46 | accepted exactly when the filter did not report the URL and the count was below the cap; acceptance counts the URL, records it in the filter and appends one line to the file; a refusal changes nothing; the count never passes the cap |
| LinkStorage.ConsoleLinkStorage.constructor | SitemapLib/ConsoleLinkStorage.cs:12-16 | the sink starts with no links and no output, and installs a fresh empty filter in the shared field |
| LinkStorage.ConsoleLinkStorage.TryAdd | SitemapLib/ConsoleLinkStorage.cs:20-28 | accepted exactly when the filter did not report the URL and the count was below the cap, and then printed; a new URL at the cap ends the process instead |
| LinkStorage.FileRepeatRefused | SitemapLib/FileLinkStorage.cs:37-46 | a URL the file sink has just accepted is refused at once if offered again, and is written once |
| LinkStorage.NewSinkForgetsEarlierLinks | SitemapLib/FileLinkStorage.cs:10-22 | because the filter is `static`, constructing a second file sink makes the first accept and write again a URL it already wrote |
| Sitemaps.NewLocation | Louw.SiteMapParser/Sitemap.cs:9-19 | fails exactly on a null location; otherwise the sitemap is not loaded and has no children and no items |
| Sitemaps.NewSitemapList | Louw.SiteMapParser/Sitemap.cs:21-36 | fails exactly on a null list; otherwise it is loaded, and it is a robots.txt sitemap exactly when its location path starts with `/robots.txt` in any letter case, an index otherwise |
| Sitemaps.NewItemList | Louw.SiteMapParser/Sitemap.cs:38-48 | fails exactly on a null list; otherwise it is a loaded item sitemap with those items and no children |
| Sitemaps.RobotsLocationExamples | Louw.SiteMapParser/Sitemap.cs:31-33 | the robots.txt test ignores letter case and needs a location |
| SitemapParsing.WithLocalName | Louw.SiteMapParser/SitemapParser.cs:221-224 | the matches are exactly the elements with that local name |
| SitemapParsing.ElementsAnyNs | Louw.SiteMapParser/SitemapParser.cs:226-229 | the children whose local name is the name's, in any namespace |
| SitemapParsing.WithLocalNameHead | Louw.SiteMapParser/SitemapParser.cs:221-224 | the first match is the first element with the name |
| SitemapParsing.ElementAnyNs | Louw.SiteMapParser/SitemapParser.cs:231-239 | null exactly when no child has the local name; otherwise a child with that name |
| SitemapParsing.ElementAnyNsFindsFirst | Louw.SiteMapParser/SitemapParser.cs:231-239 | `FirstOrDefault`: the lookup returns the first child with the name |
| SitemapParsing.Clamp01 | Louw.SiteMapParser/SitemapParser.cs:75-80 | `Math.Min(1.0, Math.Max(0.0, p))`: NaN stays NaN; anything else lands in [0, 1], is kept when already there, and an infinity or out-of-range value goes to the nearer bound |
| Sitemaps.Max | Louw.SiteMapParser/SitemapParser.cs:77 | `Math.Max`: NaN exactly when an argument is NaN, otherwise the larger argument |
| Sitemaps.Min | Louw.SiteMapParser/SitemapParser.cs:78 | `Math.Min`: NaN exactly when an argument is NaN, otherwise the smaller argument |
| SitemapParsing.ParseSitemapFields | Louw.SiteMapParser/SitemapParser.cs:42-54 | null exactly when the location is empty or does not resolve; otherwise a not-loaded sitemap at the resolved location with the parsed date |
| SitemapParsing.ParseSitemapItemFields | Louw.SiteMapParser/SitemapParser.cs:56-83 | null exactly when the location is empty or does not resolve; otherwise an item at the resolved location with the parsed date, the parsed change frequency, and the parsed priority clamped by `Clamp01`; a priority that is not NaN lies in [0, 1], and it is NaN exactly when the text parses to NaN; priority and change frequency are missing exactly when absent or unparseable |
| SitemapParsing.PresentDates | Louw.SiteMapParser/SitemapParser.cs:196-199 | exactly the dates that have a value |
| SitemapParsing.MaxOf | Louw.SiteMapParser/SitemapParser.cs:204-211 | an element of the list that no element exceeds |
| SitemapParsing.MaxDate | Louw.SiteMapParser/SitemapParser.cs:194-212 | null exactly when no date is present; otherwise a present date no present date exceeds |
| SitemapParsing.SafeMaxDate | Louw.SiteMapParser/SitemapParser.cs:194-212 | the scan returns the latest present date |
| SitemapParsing.IndexEntry | Louw.SiteMapParser/SitemapParser.cs:107-117 | an entry with a missing or blank `loc` is skipped; otherwise it is what `ParseSitemapFields` makes of its `loc` and `lastmod` values; it is kept exactly when the `loc` is not blank and resolves; a kept one has a location and is not loaded |
| SitemapParsing.IndexSitemaps | Louw.SiteMapParser/SitemapParser.cs:104-118 | at most one sitemap per element, each with a location and not loaded |
| SitemapParsing.IndexSitemapsFrom | Louw.SiteMapParser/SitemapParser.cs:105-118 | every sitemap of the index list is the entry of one of the `<sitemap>` elements |
| SitemapParsing.IndexSitemapsHas | Louw.SiteMapParser/SitemapParser.cs:105-118 | every `<sitemap>` element that yields an entry has that entry in the list |
| SitemapParsing.IndexStep | Louw.SiteMapParser/SitemapParser.cs:107-117 | one more element appends its entry, if any |
| SitemapParsing.IndexSitemap | Louw.SiteMapParser/SitemapParser.cs:104-123 | the parsed index has the entries' sitemaps and the latest of their dates; it is a robots.txt sitemap when at a robots.txt location, an index otherwise |
| SitemapParsing.ParseIndexSitemap | Louw.SiteMapParser/SitemapParser.cs:104-123 | the loop and the date scan build `IndexSitemap` |
| SitemapParsing.ItemEntry | Louw.SiteMapParser/SitemapParser.cs:128-139 | an element is skipped exactly when its `loc` is missing or blank; otherwise its entry is what `ParseSitemapItemFields` makes of its `loc`, `lastmod`, `changefreq` and `priority` values, and that entry is null exactly when the `loc` does not resolve |
| SitemapParsing.ItemListAsWritten | Louw.SiteMapParser/SitemapParser.cs:125-140 | at most one entry per element, nulls included |
| SitemapParsing.NonNull | Louw.SiteMapParser/SitemapParser.cs:137-142 | exactly the entries that are not null |
| SitemapParsing.ItemsSitemapAsWritten | Louw.SiteMapParser/SitemapParser.cs:125-145 | as written, the item parse throws a null reference exactly when some entry is null |
| SitemapParsing.ParseSitemapItemsAsWritten | Louw.SiteMapParser/SitemapParser.cs:125-145 | the loop and the date scan as written compute `ItemsSitemapAsWritten` |
| SitemapParsing.NoNullWhenResolvable | Louw.SiteMapParser/SitemapParser.cs:137-142 | when every non-blank location resolves, the list holds no null |
| SitemapParsing.NullWhenUnresolvable | Louw.SiteMapParser/SitemapParser.cs:137-142 | one non-blank location that does not resolve puts a null into the list |
| SitemapParsing.ItemsSitemap | Louw.SiteMapParser/SitemapParser.cs:125-145 | an item sitemap with the non-null entries, at most one per element, and the latest of their dates |
| SitemapParsing.CorrectedAgreesWithoutNulls | Louw.SiteMapParser/SitemapParser.cs:125-145 | where every location resolves, the original parse succeeds with the same sitemap as the corrected one |
| SitemapParsing.ParseSitemapItems | Louw.SiteMapParser/SitemapParser.cs:125-145 | the loop, skipping null entries, and the date scan build `ItemsSitemap` |
| SitemapParsing.ItemStep | Louw.SiteMapParser/SitemapParser.cs:128-140 | one more element adds its item exactly when its location is non-blank and resolves |
| SitemapParsing.ListStep | Louw.SiteMapParser/SitemapParser.cs:128-140 | one more element adds its entry exactly when its `loc` is non-blank |
| SitemapParsing.ParseSitemap | Louw.SiteMapParser/SitemapParser.cs:11-40 | corrected; see ## Findings. Blank content gives null; malformed XML throws; the root's local name, in any letter case, selects the index parse, else the item parse with unresolvable entries skipped, else null; a result is loaded and keeps the location |
| SitemapParsing.ParseSitemapAsWritten | Louw.SiteMapParser/SitemapParser.cs:11-40 | as written; see ## Findings. It agrees with `ParseSitemap` except that it throws a null reference, exactly when the root is a `urlset` one of whose `<url>` entries has a non-blank `loc` that does not resolve |
| SitemapParsing.Parse | Louw.SiteMapParser/SitemapParser.cs:11-40 | corrected; see ## Findings. The method computes `ParseSitemap` |
| SitemapParsing.UnresolvableLocationThrows | Louw.SiteMapParser/SitemapParser.cs:137-142 | as written, a `<urlset>` whose one `<loc>` is not a URI makes `Parse` throw; with nulls skipped it gives an empty item list |
| Crawler.LabelRun | SimpleCrawler/CrawlMaster.cs:32 | the longest run of `[\w-]` characters that starts the string |
| Crawler.HostPrefixMatchesIffRegex | SimpleCrawler/CrawlMaster.cs:32 | the scan matches exactly when some prefix of the rest is in the language of `([\w-]+\.)+[\w-]+` |
| Crawler.DottedPrefixStartsLabelDot | SimpleCrawler/CrawlMaster.cs:32 | a prefix in that language makes the scan match |
| Crawler.SeedExampleHttps | SimpleCrawler/CrawlMaster.cs:32 | `https://www.example.com` is a web URL |
| Crawler.SeedExampleUpperCase | SimpleCrawler/CrawlMaster.cs:32 | the scheme is matched ignoring case |
| Crawler.SeedExampleSingleLabel | SimpleCrawler/CrawlMaster.cs:32 | a host without a dot is not a web URL |
| Crawler.SeedExampleFtp | SimpleCrawler/CrawlMaster.cs:32 | an ftp URL is not a web URL |
| Crawler.SeedItems | SimpleCrawler/CrawlMaster.cs:280-289 | exactly the seeds that match the web-URL pattern are enqueued, at depth 1 |
| Crawler.SeedItemsAppend | SimpleCrawler/CrawlMaster.cs:280-289 | seeding keeps list order |
| Crawler.DecodeKeepsPrefix | SimpleCrawler/CrawlMaster.cs:448-451 | the decoding leaves a prefix without `%` or `&` alone |
| Crawler.DecodePlain | SimpleCrawler/CrawlMaster.cs:448-451 | an href without `%` or `&` is its own decoding |
| Crawler.DecodeExamples | SimpleCrawler/CrawlMaster.cs:448-451 | only the lower-case escapes and `&amp;` are decoded |
| Crawler.AnyPatternMatches | SimpleCrawler/CrawlMaster.cs:316-318 | `Any` over the patterns in order: "no" exactly when every pattern answers no; otherwise the answer of the first pattern that matches or throws |
| Crawler.IsMatchRegular | SimpleCrawler/CrawlMaster.cs:310-329 | no patterns lets every URL through; a pass needs a matching pattern; a throw needs an invalid pattern; when no pattern throws, a pass is exactly some pattern matching |
| Crawler.Aggregate | SimpleCrawler/CrawlMaster.cs:472-473 | the fold has a result exactly when there are parts; `Aggregate` throws on none |
| Crawler.AggregateSplit | SimpleCrawler/CrawlMaster.cs:472-473 | joining the pieces of a split with the separator gives back the string |
| Crawler.HostTailDropsFirstLabel | SimpleCrawler/CrawlMaster.cs:468-477 | the host lock compares hosts without their first label; a host without a dot makes it throw |
| Crawler.HostTailOfWww | SimpleCrawler/CrawlMaster.cs:470-473 | `www.example.com` compares as `example.com` |
| Crawler.HostTailOfShop | SimpleCrawler/CrawlMaster.cs:470-473 | `shop.example.com` compares as `example.com` |
| Crawler.HostLockSameSite | SimpleCrawler/CrawlMaster.cs:470-473 | two sub-domains of one domain count as the same site |
| Crawler.HostLockOtherSite | SimpleCrawler/CrawlMaster.cs:470-473 | a different domain compares differently; a host without a dot throws |
| Crawler.ConsiderLink | SimpleCrawler/CrawlMaster.cs:425-490 | an admitted link has a non-empty href that passed the suffix and keyword filters and is not excluded after decoding; both `Uri`s could be built, and the item is the absolute form of the resolved URI one level deeper; with the host lock on, page and link hosts have the same tail; the allow-list passed it and the subscriber accepted it |
| Crawler.ConsiderLinkAdmits | SimpleCrawler/CrawlMaster.cs:425-490 | conversely, a link that passes every step of the chain is enqueued, as the absolute form of its resolved URI one level deeper |
| Crawler.ConsiderLinkThrows | SimpleCrawler/CrawlMaster.cs:425-487 | a link the href filters stop is dropped; otherwise the link throws exactly when a `Uri` constructor fails, the host lock's `Aggregate` has no parts, an allow-list pattern throws before one matches, or the subscriber throws |
| Crawler.HostLockDotlessThrows | SimpleCrawler/CrawlMaster.cs:468-477 | with the host lock on, a page or link host without a dot makes `Aggregate` throw, which ends the page |
| Crawler.HostLockOtherSiteDropped | SimpleCrawler/CrawlMaster.cs:468-477 | with the host lock on, a link whose host tail differs from the page's is skipped |
| Crawler.EscapedNeverAdmitted | SimpleCrawler/CrawlMaster.cs:431-437 | an href that ends in an escape suffix is dropped |
| Crawler.ExcludedAfterDecoding | SimpleCrawler/CrawlMaster.cs:448-459 | decoding keeps a fragment mark or an excluded scheme at the front |
| Crawler.ExcludedSchemesNeverAdmitted | SimpleCrawler/CrawlMaster.cs:453-459 | mail, phone and script links and fragments are never enqueued, in any letter case |
| Crawler.HasHrefSnoc | SimpleCrawler/CrawlMaster.cs:408-421 | one more anchor adds its href to those present |
| Crawler.DistinctHrefs | SimpleCrawler/CrawlMaster.cs:408-423 | the dictionary's keys: no repeats, and exactly the hrefs of the anchors |
| Crawler.AnchorTexts | SimpleCrawler/CrawlMaster.cs:408-421 | the dictionary has exactly the anchors' hrefs as keys |
| Crawler.AnchorTextsLastWins | SimpleCrawler/CrawlMaster.cs:419 | an href's text is the stripped text of its last anchor |
| Crawler.CollectAnchors | SimpleCrawler/CrawlMaster.cs:408-421 | the match loop builds those keys, in first-appearance order, and those texts |
| Crawler.RunLinks | SimpleCrawler/CrawlMaster.cs:423-491 | at most one item per href, each one level deeper |
| Crawler.RunLinksAdmitted | SimpleCrawler/CrawlMaster.cs:423-491 | every enqueued item was admitted by the filter chain for one of the hrefs, and passed the allow-list |
| Crawler.RunLinksSnoc | SimpleCrawler/CrawlMaster.cs:423-491 | one more href appends its item when admitted, changes nothing when dropped, and ends the run when it throws |
| Crawler.RunStaysThrown | SimpleCrawler/CrawlMaster.cs:423-491 | an exception ends the page: later hrefs add nothing |
| Crawler.PageLinks | SimpleCrawler/CrawlMaster.cs:401-492 | a page at or beyond a non-zero depth limit yields no links; every link is one level deeper than its page and, with a limit, within it |
| Crawler.CleanCharset | SimpleCrawler/CrawlMaster.cs:360-374 | the cleaned charset has no space and no quote, and is no longer than the capture |
| Crawler.CleanCharsetKeeps | SimpleCrawler/CrawlMaster.cs:360-374 | cleaning yields exactly the part before the first space with its quotes removed |
| Crawler.CleanCharsetSkipsQuote | SimpleCrawler/CrawlMaster.cs:368-371 | a quote before the first space is skipped as if it were not there |
| Crawler.Unquoted | SimpleCrawler/CrawlMaster.cs:368-371 | the text without double quotes; text without one is unchanged |
| Crawler.UnquotedKeepsOthers | SimpleCrawler/CrawlMaster.cs:368-371 | removing quotes keeps every other character as often as it occurs |
| Crawler.UnquotedConcat | SimpleCrawler/CrawlMaster.cs:368-371 | quote removal works piecewise over a concatenation |
| Crawler.CleanMetaCharset | SimpleCrawler/CrawlMaster.cs:360-374 | the loop with its `break` computes `CleanCharset` |
| Crawler.ChooseEncoding | SimpleCrawler/CrawlMaster.cs:353-385 | the cleaned meta charset wins when non-empty; otherwise the header charset; otherwise ASCII stands |
| Crawler.CrawlMaster.constructor | SimpleCrawler/CrawlMaster.cs:44-52 | a crawl master with the settings, an empty queue and no events |
| Crawler.CrawlMaster.Initialize | SimpleCrawler/CrawlMaster.cs:278-289 | the queue grows by exactly the seeds that match the web-URL pattern, at depth 1, in order; a depth limit stays respected |
| Crawler.CrawlMaster.ParseLinks | SimpleCrawler/CrawlMaster.cs:401-492 | the queue grows by exactly the page's links, and the method reports whether an exception cut the page short; a depth limit stays respected |
| Crawler.CrawlMaster.EnqueueLinks | SimpleCrawler/CrawlMaster.cs:423-491 | the loop over the dictionary enqueues exactly the run's items, and stops at the first exception |
| Crawler.CrawlMaster.EnqueueLink | SimpleCrawler/CrawlMaster.cs:425-490 | one turn of the loop extends the queue as the run over one more href does |
| Crawler.CrawlMaster.ProcessPage | SimpleCrawler/CrawlMaster.cs:240-266 | after decoding a page, its links are enqueued; then the page is reported as received, or as an error if parsing threw |
| SitemapWalk.Enqueue | SitemapLib/LoewTest.cs:34-41 | the visited list is extended, stays duplicate-free, and afterwards holds exactly the old locations plus those listed |
| SitemapWalk.LocationsPrefix | SitemapLib/LoewTest.cs:34-41 | the locations listed by a prefix of the sitemaps are among those of the whole list |
| SitemapWalk.EnqueueStep | SitemapLib/LoewTest.cs:36-40 | one more listed sitemap appends its location unless it is missing or already visited |
| SitemapWalk.LoadsAt | SitemapLib/LoewTest.cs:38-40 | each loaded entry is what the loader returned, without a throw, for the location at the same index |
| SitemapWalk.LoadsMember | SitemapLib/LoewTest.cs:36-40 | a visited location was loaded without a throw, so skipping it cannot throw |
| SitemapWalk.TracksSnoc | SitemapLib/LoewTest.cs:37-40 | recording a new location whose load does not throw, with what it loaded, keeps the two lists in step and duplicate-free |
| SitemapWalk.ItemUris | SitemapLib/LoewTest.cs:49-55 | the absolute URI of every entry, in order |
| SitemapWalk.PrefixStep | SitemapLib/LoewTest.cs:45-69 | going through one more loaded sitemap adds its entries to the offers and its children to the index locations |
| SitemapWalk.IndexLocationsGrow | SitemapLib/LoewTest.cs:58-68 | the locations named by a prefix of the loaded list are among those of the whole list |
| SitemapWalk.WalkedStep | SitemapLib/LoewTest.cs:45-69 | visiting one more loaded sitemap, only adding locations, keeps the prefix walked |
| SitemapWalk.ResolvedGrows | SitemapLib/LoewTest.cs:60-66 | visiting more locations keeps a resolved list resolved |
| SitemapWalk.WithinIff | SitemapLib/LoewTest.cs:42-70 | the recursive "all within the universe" agrees with membership of every element |
| SitemapWalk.WithinAt | SitemapLib/LoewTest.cs:42-70 | each element of a list within the universe is in it |
| SitemapWalk.DistinctBound | SitemapLib/LoewTest.cs:42-70 | a duplicate-free list drawn from a finite set is no longer than the set; this bounds the walk |
| SitemapWalk.WalkStateStep | SitemapLib/LoewTest.cs:45-69 | a turn that does not throw moves the walk invariant on by one sitemap |
| SitemapWalk.WalkStateStart | SitemapLib/LoewTest.cs:34-42 | the invariant holds once the robots.txt sitemaps are enqueued |
| SitemapWalk.WalkStateSources | SitemapLib/LoewTest.cs:42-70 | wherever the walk stands, every visited location predates the walk or is named by robots.txt or by a loaded index |
| SitemapWalk.WalkStateDone | SitemapLib/LoewTest.cs:42-70 | a finished walk has visited everything robots.txt and every index names, and has offered every entry of every item sitemap |
| SitemapWalk.SourcedStep | SitemapLib/LoewTest.cs:58-68 | a turn that throws still only adds locations named by the index it went through |
| SitemapWalk.VisitedStep | SitemapLib/LoewTest.cs:45-69 | after going through a non-null sitemap the visited list stays sourced and inside the universe; a turn that does not throw moves the walk invariant on by one with the list bounded by the universe; the turn throws exactly when the sitemap is an index listing a sitemap that has no location or whose load throws |
| SitemapWalk.LoewTest.constructor | SitemapLib/LoewTest.cs:17-22 | no locations, no loaded sitemaps and nothing offered |
| SitemapWalk.LoewTest.EnqueueSitemaps | SitemapLib/LoewTest.cs:34-41 | the lists only grow and stay in step and duplicate-free; it succeeds exactly when every listed sitemap has a location whose load does not throw, and then the visited list is `Enqueue` of the listed sitemaps; nothing else is added |
| SitemapWalk.LoewTest.EnqueuePrefix | SitemapLib/LoewTest.cs:34-41 | the `foreach` stops at the first listed sitemap that has no location or whose load throws, or after the last; the visited list is then `Enqueue` of the sitemaps before it, in step with the loaded list, which only grows |
| SitemapWalk.LoewTest.Record | SitemapLib/LoewTest.cs:37-40 | it throws exactly when loading the location throws; a location already visited is skipped; a new one whose load does not throw is appended to the visited list and its loaded sitemap to the loaded list, keeping both in step and duplicate-free |
| SitemapWalk.LoewTest.OfferItems | SitemapLib/LoewTest.cs:49-55 | every entry's URI is offered to the sink, in order |
| SitemapWalk.LoewTest.Visit | SitemapLib/LoewTest.cs:47-68 | an item sitemap offers its entries; an index visits all its children and throws exactly on one that has no location or whose load throws; other kinds change nothing |
| SitemapWalk.WithinGrows | SitemapLib/LoewTest.cs:58-68 | adding only locations from inside the universe keeps the visited list inside it |
| SitemapWalk.WalkedNoThrow | SitemapLib/LoewTest.cs:45-69 | a list that has been gone through, whose locations all loaded without a throw, has no entry that throws |
| SitemapWalk.LoewTest.Step | SitemapLib/LoewTest.cs:45-69 | one turn throws exactly when the sitemap is null or an index listing a sitemap that has no location or whose load throws; otherwise it keeps the walk invariant with the visited list bounded by the universe; every location stays in the universe and has a source |
| SitemapWalk.LoewTest.Walk | SitemapLib/LoewTest.cs:42-70 | the loop, which re-reads the growing count, terminates; it throws exactly when some loaded entry is null or an index listing a sitemap that has no location or whose load throws; on completion every loaded sitemap has been gone through |
| SitemapWalk.LoewTest.LoadRobots | SitemapLib/LoewTest.cs:29-71 | only a robots.txt sitemap starts the walk; it throws exactly when robots.txt lists a sitemap that has no location or whose load throws, or some loaded entry is null or an index listing such a sitemap; so it never throws when every robots.txt sitemap has a location that loads and the loader returns no such entry for any location it loads; a completed walk has loaded every sitemap named, each once, and offered every entry of the item sitemaps; every location visited has a source |

## Left out

- The worker threads, the queue's locking and the sleeping scheduler are not modelled (`Crawl`, `Stop` and the loop of `CrawlProcess` at SimpleCrawler/CrawlMaster.cs:113-273). Neither are HTTP, gzip, `ConfigRequest` and `PersistenceCookie`. `ProcessPage` covers the part of a worker's turn after a page is decoded.
- The random delay of the automatic speed limit is randomness and is left out. The setting itself is modelled.
- Bytes are not decoded into text. `ChooseEncoding` models only which encoding is chosen.
- `BestM`, `BestK`, `BestErrorRate` and `Truthiness` are floating-point sizing. m and k are parameters of the constructor.
- Bloom.CheckArguments: the float `errorRate` is modelled as a real, so NaN is not modelled. A NaN error rate passes the source's check `errorRate >= 1 || errorRate <= 0` at SimpleCrawler/BloomFilter.cs:141, and the filter is then built; in the model every error rate is a number and is checked.
- Crawler.DistinctHrefs: the model assumes that `Dictionary<string, string>` enumerates its keys in insertion order. .NET does so for a dictionary that is only added to, but does not document it. This order decides which links come before a throw at SimpleCrawler/CrawlMaster.cs:423.
- `GetHashCode` is a function-valued field of the filter.
- Bloom.Int32Mix: `HashInt32` as written casts the boxed element with `input as uint?`. For an `int` element that gives null, so `(int) x` throws. The model states the unsigned bit mix the code evidently means, with known answers only. It models no int filter.
- `BloomFilter<T>` for `T` other than string enters only through `CheckArguments`, because the runtime type test `typeof(T)` has no counterpart. `NewStringFilter` is the string case.
- Strings are sequences of Unicode scalar values. Text outside the Basic Multilingual Plane, which .NET stores as surrogate pairs, is not modelled.
- Case-insensitive comparison and `\w` are modelled on ASCII letters only.
- `url.StartsWith("#")` is culture-sensitive in .NET. It is modelled as ordinal.
- The regex engine, `System.Uri`, XML parsing, and date, number and enumeration parsing are function-valued parameters. A `Uri` is its absolute form, host and local path, and two `Uri`s of the model are equal when these are.
- The anchor and meta-charset regexes are not modelled as regexes. `ParseLinks` takes the list of anchor matches, and `ChooseEncoding` takes the captured charset.
- The seed regex is modelled by a scan proved equivalent to its host part.
- SitemapWalk.Enqueue: `Uri.Equals` in .NET ignores the fragment and the user info. The model compares whole absolute URIs, so two locations that differ only there count as two locations here but as one in the `Contains` check at SitemapLib/LoewTest.cs:37.
- Settings.CrawlSettings.Append: the list properties hand out mutable `List<string>` objects. Only `Add` is modelled. `Remove`, `Clear`, `Insert` and index assignment on those lists are not.
- Crawler.ChooseEncoding: `Encoding.GetEncoding` throws on a name it does not know, and that ends the page at SimpleCrawler/CrawlMaster.cs:384. The model returns the chosen name and does not model the throw.
- Sitemaps.Double: a priority is a finite real, an infinity or NaN. Rounding to binary64 and the sign of zero are not modelled.
- Crawler.ConsiderLink: calls to the `AddUrlEvent` subscriber are a pure function of their arguments. Any state the subscriber keeps between calls is not modelled.
- Page depths are unbounded integers; `Depth + 1` overflowing `int` is not modelled.
- The link sinks' filter is a set of added URLs plus a false-positive predicate that may depend on that set. It is the filter of the Abot library, and that library's code is not part of this model.
- Console output, file appends and the background worker's progress reports are recorded as sequences. `Environment.Exit` is a `halted` flag.
- LinkStorage.FileLinkStorage.constructor: the class's `static` filter is a `FilterSlot` object that the caller passes in, as is `ConsoleLinkStorage`'s. The model does not force all sinks of one class to share a single slot. The caller keeps one slot per class, as `NewSinkForgetsEarlierLinks` does.
- LinkStorage.ConsoleLinkStorage.TryAdd: requires that the process has not exited, because nothing runs after `Environment.Exit`.
- `SitemapLoader` is not part of this model. Loading a location is a function-valued field of `LoewTest`. An outer `None` is a load that throws: the fetch fails (Louw.SiteMapParser/SitemapLoader.cs:82), the content is not XML (Louw.SiteMapParser/SitemapParser.cs:18, 32-37), or the parser meets a null item (Louw.SiteMapParser/SitemapParser.cs:137-142). An inner `None` is the null the parser returns. The robots.txt sitemap is a parameter of `LoadRobots`.
- `Execute` only calls `LoadRobots` and is not modelled separately.
- The link sink of `LoewTest` is the sequence of URLs offered to `TryAdd`.
- SitemapWalk.LoewTest.LoadRobots: requires a finite set of locations containing every location visited or named by robots.txt, and closed under the children of the indexes the loader returns. Without it the loop need not end. The source's loop runs for as long as loaded indexes keep naming new locations.
- SitemapWalk.LoewTest.Walk: the same finiteness precondition as `LoadRobots`.
- SitemapWalk.LoewTest.Step: the same finiteness precondition as `LoadRobots`.
- SitemapWalk.LoewTest.Record: when the load throws, the model leaves the visited list unchanged. The source has already added the location at SitemapLib/LoewTest.cs:38 and :64, so after the exception its `_sitemapUris` is one longer than `_loadedSitemaps`. The model keeps the two lists in step instead.
- SitemapWalk.LoewTest.LoadRobots: when a turn throws, the contract states why it threw, that every location visited so far has a source, and that the lists stay in step. It does not state the exact partial state.
- `SitemapItem.cs` and `SitemapType.cs` are not part of this model. Their types are the datatypes `SitemapItem` and `SitemapType`.
- The user interface, the command-line programs and the Abot-based crawler are outside the core.

## Findings

| source | as written | input that shows it | evidently intended | confidence | as-written member | corrected member |
|---|---|---|---|---|---|---|
| Louw.SiteMapParser/SitemapParser.cs:137-142 | a `<url>` whose non-blank `<loc>` does not resolve yields a null item, which is added to the list; `x.LastModified` on that null then throws | `<urlset><url><loc>not a uri</loc></url></urlset>` with no base location | skip the entry, as `ParseIndexSitemap` does at lines 115-117 | not executed | SitemapParsing.ItemsSitemapAsWritten | SitemapParsing.ItemsSitemap |
