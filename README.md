# Chicago events pipeline — a verified model

This project models, in Dafny, the core of a Node pipeline. The pipeline
scrapes Chicago event listings from many web sites, normalises and filters
them into one JSON array of event records, and then enriches, validates and
measures that array. The modelled scripts are:

- `scripts/general-scraper.js`: a pattern-based scraper. It reads HTML
  cards, table rows, list items and event links on each seed page, visits
  up to 50 detail pages and follows up to 10 pagination pages per seed,
  normalises every record, and writes the likely events. Each written event
  has a derived `_ts`, and no two share a title|date key.
- `scripts/universal-extract.js`: a breadth-first crawler bounded by a page
  budget. It reads JSON-LD, microdata and iCalendar feeds, keeps records that
  look like Chicago events, stamps them (`_ts`, `source_url`, `id`),
  deduplicates them and can restrict them to a date window.
- `scripts/run-consolidate.js` and `scripts/quick-generate.js`: turn a
  consolidated dataset into the site's `events.json`. They alias the link
  field, add a fallback location for trusted Chicago hosts, drop
  announcements and records without a link or place or plausible date, stamp
  `_ts`, deduplicate by title and date, and sort soonest first with undated
  records last.
- `scripts/merge-datasets.js` and `scripts/build-universal.js`: concatenate
  dataset files and keep the first record of each title|date|location key.
- `scripts/validate-dataset.js`: counts valid records and fails the build
  below 60 %.
- `scripts/quality-metrics.js`: counts totals and validity per link domain.
- `scripts/expand-seeds.js`: adds per-site pagination URLs to the seed list.
- `scripts/enrich-geocode.js`: fills in coordinates from a venue table, or
  from a cached, rate-limited geocoder with at most 80 lookups.

Modules follow the scripts: `GeneralScraper`, `GeneralExtractors` and
`GeneralMain` (general-scraper.js); `UniversalText`, `UniversalPage` and
`UniversalMain` (universal-extract.js); `RunConsolidate`, `QuickGenerate`,
`MergeDatasets`, `BuildUniversal`, `ValidateDataset`, `QualityMetrics`,
`ExpandSeeds` and `EnrichGeocode`. Several modules are shared:
- `Temporal`: the `deriveTimestamp` shared by universal-extract.js and
  run-consolidate.js.
- `Events`: the record, the collaborators and the deduplication keys.
- `Dedupe`: the `filter((e, idx, arr) => arr.findIndex(...) === idx)` idiom.
- `Strings`, `Calendar`, `Lists`, `OrderedSets` (JavaScript `Set` insertion
  order), `Sorting`, `RawRecords` and `Wrappers`.

Modelling conventions:
- A JSON field that may be missing is an `Option<string>`. `x || y` is
  `Or`, `String(x || '')` is `OrEmpty`, and truthiness is `Truthy` (present
  and non-empty).
- Date instants are integer milliseconds. `new Date(y, m - 1, d)` is
  computed exactly, month and day overflow included, by `Calendar`.
  Comparing ISO timestamp strings becomes comparing integers.
- `localeCompare` is lexicographic character order.
- The collaborators the scripts call are parameters:
  - the clock, and the natural-language date parser (chrono);
  - the regular-expression scans;
  - `new URL`, md5, the network (`fetch` and the geocoder);
  - the DOM queries (cheerio) and the iCalendar parser;
  - the file system.
  A JavaScript `try`/`catch` around them becomes an `Option` or a `Throw`
  outcome.
- Loops over arrays and the crawler queue are methods with loop invariants.
  Each is proved equal to a recursive specification function, and the
  properties are lemmas about that function.
  `EnrichGeocode.EnrichEvents` updates the event array in place, as the
  script mutates the parsed objects.

Two facts about the code that the model keeps:
- The 365-day staleness cutoff is applied only by the `deriveTimestamp` of
  scripts/general-scraper.js (line 44). The `deriveTimestamp` of
  scripts/run-consolidate.js (lines 40-64) has no cutoff.
- scripts/run-consolidate.js keeps records whose `_ts` is null and sorts
  them after the dated ones (lines 106-119).

## Model

| member | source | states |
|---|---|---|
| GeneralScraper.NormalizeEvent | scripts/general-scraper.js:8-18 | the title is the trimmed `title`, else the trimmed `name`, else empty. The link is the first truthy of `event_url`, `url`, `link`, else empty. Every other written field is present, and no metadata is set |
| GeneralScraper.NormalizeIdempotent | scripts/general-scraper.js:8-18 | normalising an already normalised record changes nothing |
| GeneralScraper.NormalFixed | scripts/general-scraper.js:8-18 | a record in normal form is its own normalisation |
| GeneralScraper.TrimIdempotent | scripts/general-scraper.js:9 | trimming twice is trimming once |
| GeneralScraper.DeriveTimestamp | scripts/general-scraper.js:20-48 | the result agrees with the shared derivation whenever present, and is never more than 365 days in the past. It is absent exactly when the shared derivation is absent or lies before that cutoff |
| GeneralScraper.RescueSurvivesCutoff | scripts/general-scraper.js:25-47 | when the parser fails and the fallback scan finds a month and day, the rescued date always survives the one-year cutoff |
| GeneralScraper.FirstMatch | scripts/general-scraper.js:122-128 | finds a match iff some pattern matched, and returns the match of the first such pattern |
| GeneralScraper.StripAt | scripts/general-scraper.js:125 | a leading `@` or `at` (any case) and the blanks after it are dropped; any other text is unchanged |
| GeneralScraper.ExtractTime | scripts/general-scraper.js:113-130 | at most 20 characters with no leading blank; empty for empty text or when no pattern matches; otherwise the first match with `at`/`@` stripped, trimmed and cut to 20 |
| GeneralScraper.FirstLocation | scripts/general-scraper.js:145-154 | empty, or 4 to 199 characters with no blank at either end |
| GeneralScraper.FirstLocationChoice | scripts/general-scraper.js:145-154 | a found location is the trim of some pattern's group. It is empty iff no matched group trims to a length strictly between 3 and 200 |
| GeneralScraper.ExtractLocation | scripts/general-scraper.js:133-155 | empty text gives empty; otherwise the first matched group whose trimmed length is strictly between 3 and 200 |
| GeneralScraper.FinalEventsProperties | scripts/general-scraper.js:581-593 | every written record is a likely event with `_ts` derived from its own date and time, never older than a year. Keys are unique, records keep result order, and every key of a likely result is written |
| GeneralExtractors.KeptSnoc | scripts/general-scraper.js:220-233 | one more element adds an emitted record exactly when its key was not seen, and adds its key to the seen set |
| GeneralExtractors.Collect | scripts/general-scraper.js:158-238 | the per-element loop with its `seen` set computes `Harvest`: the records of first-seen keys, or a throw |
| GeneralExtractors.HarvestProperties | scripts/general-scraper.js:158-238 | the extractor throws iff some element throws. Otherwise every record comes from an emitting element, there are no more records than elements, keys are unique, and every emitted key is represented |
| GeneralExtractors.HarvestKeyed | scripts/general-scraper.js:220-222 | when every emitted key is the record's title\|date key, the records have unique such keys |
| GeneralExtractors.HarvestMapped | scripts/general-scraper.js:158-238 | every harvested record was emitted by some input element |
| GeneralExtractors.KeptFrom | scripts/general-scraper.js:224-233 | a kept element is an emitting element of the input |
| GeneralExtractors.FirstLineTitle | scripts/general-scraper.js:190-192 | the fallback title has at most 150 characters and no line break |
| GeneralExtractors.ContainerVisit | scripts/general-scraper.js:167-234 | a card of fewer than 15 or more than 3000 characters, or one without a date, is skipped. It throws exactly when a 3..200-character title has a link that does not resolve. An emitted card carries that title and date, the resolved link or the page URL, and the title\|date key |
| GeneralExtractors.HtmlPatternsProperties | scripts/general-scraper.js:158-238 | every card record has the card shape and the date of some 15..3000-character element, and the records' keys are unique |
| GeneralExtractors.HtmlPatternsKeyed | scripts/general-scraper.js:220-222 | card records have unique title\|date keys |
| GeneralExtractors.CellStep | scripts/general-scraper.js:266-287 | once a cell throws, the scan stays thrown. The first titled cell sets the title and may set the link, the first cell with a location sets the location, and nothing else changes |
| GeneralExtractors.ScanCellsSnoc | scripts/general-scraper.js:266-287 | the scan of one more cell is one more step of the cell loop |
| GeneralExtractors.ScanRowCells | scripts/general-scraper.js:266-287 | the cell loop computes `ScanCells` |
| GeneralExtractors.ThrownStays | scripts/general-scraper.js:266-287 | after a cell throws, later cells do not change the scan |
| GeneralExtractors.ScanCellsLocation | scripts/general-scraper.js:276-285 | the location is empty or 4..199 characters long. Without a throw it is empty iff no cell yields a location |
| GeneralExtractors.ScanCellsTitle | scripts/general-scraper.js:268-275 | without a throw, a non-empty title is that of some titled cell, and an empty title means no cell is titled |
| GeneralExtractors.RowVisit | scripts/general-scraper.js:249-303 | a row with fewer than 2 cells or no date is skipped. It throws exactly when its cell scan throws. An emitted row has a title of at least 3 characters (cut to 200), the row's date, its text cut to 500, the scanned link and an empty price |
| GeneralExtractors.TableRowsFrom | scripts/general-scraper.js:245-250 | the rows considered are exactly the rows of tables with at least two rows |
| GeneralExtractors.TablesProperties | scripts/general-scraper.js:241-309 | every table record has the card shape and the date of some row with at least two cells |
| GeneralExtractors.ItemVisit | scripts/general-scraper.js:312-347 | an item of fewer than 20 or more than 1000 characters, or with no date or a title under 3 characters, is skipped. It throws exactly when its link does not resolve. An emitted item carries its title cut to 200, its date, its text cut to 500 and its resolved link or the page URL |
| GeneralExtractors.ListItemsProperties | scripts/general-scraper.js:312-351 | every list record has the card shape, the date of some 20..1000-character item, and that item's text cut to 500 as its description |
| GeneralExtractors.LastSegment | scripts/general-scraper.js:385-386 | the slug title has no `/`, `-` or `_` |
| GeneralExtractors.LinkVisit | scripts/general-scraper.js:368-404 | an anchor without `href` is skipped. It throws exactly when the link does not resolve. An emitted link record carries the resolved URL and has a date in its context or a text of at least 5 characters |
| GeneralExtractors.LinkEmit | scripts/general-scraper.js:375-402 | a link record never throws. It has the date found in the context (or empty), the title cut to 200, an empty price and the lowercased title\|date key |
| GeneralExtractors.EventLinksProperties | scripts/general-scraper.js:354-406 | every link record has the card shape and comes from some anchor of the page |
| GeneralExtractors.Candidates | scripts/general-scraper.js:420-437 | every candidate differs from the page URL, has no `#`, and contains `page`, `offset` or `p=` |
| GeneralExtractors.CandidatesSnoc | scripts/general-scraper.js:420-437 | one more anchor adds its resolved URL exactly when it is a pagination candidate |
| GeneralExtractors.FindPaginationLinks | scripts/general-scraper.js:409-440 | the anchor loop computes `PaginationLinks` |
| GeneralExtractors.PaginationProperties | scripts/general-scraper.js:409-440 | at most 10 links, no duplicates, and each is a candidate resolved from some anchor of the page |
| GeneralExtractors.CandidatesFrom | scripts/general-scraper.js:420-437 | every candidate was resolved from some `href` of the page |
| GeneralMain.DetailEvent | scripts/general-scraper.js:465-474 | a detail record keeps the page URL, title and date text |
| GeneralMain.NormalizeAll | scripts/general-scraper.js:523-535 | one normalised record per extracted record, in order |
| GeneralMain.NormalizeAllNormal | scripts/general-scraper.js:523-535 | every normalised record is in normal form |
| GeneralMain.PushNormal | scripts/general-scraper.js:523-535 | appending normalised records keeps the earlier results and keeps all of them normalised |
| GeneralMain.PushExtracted | scripts/general-scraper.js:522-524 | a throwing extractor pushes nothing and is reported; otherwise its records, normalised, are appended after the earlier results, which stay, and all results are normalised |
| GeneralMain.PushListings | scripts/general-scraper.js:521-534 | computes `ListingsPushed`: the cards, then the rows, then the items are appended, normalised, each as soon as its extractor returns; a throw stops the seed and keeps what was pushed. The seed goes on exactly when none of the three throws |
| GeneralMain.ListingsAgree | scripts/general-scraper.js:521-569 | when no extractor throws, the main page and a pagination page append the same records: the page's cards, rows and items, normalised. A pagination page appends something exactly when the main page would go on |
| GeneralMain.ScrapeSeed | scripts/general-scraper.js:512-578 | computes `SeedScrape`: an unread seed page adds nothing; the listing records up to the first throw; then, when the link extractor returns, the detail records and the pagination records. Earlier results stay, all are normalised, at most 50 new distinct detail URLs are added, and 1 to 11 listing pages are fetched |
| GeneralMain.ExtractListings | scripts/general-scraper.js:555-569 | the page's cards, rows and items in that order, or a throw exactly when one of the three extractors throws |
| GeneralMain.Targets | scripts/general-scraper.js:542 | at most 50 detail targets |
| GeneralMain.ScrapeDetails | scripts/general-scraper.js:542-552 | computes `DetailsFound`: each of the first 50 targets is read only when its address is not yet scraped, and its normalised record is appended when it looks like an event. The targets are added to the scraped set in order |
| GeneralMain.DetailsFoundShift | scripts/general-scraper.js:542-552 | the detail loop only appends to the results it starts from |
| GeneralMain.DetailsFoundFrom | scripts/general-scraper.js:542-552 | every appended record is pushed by some target not scraped before, every record such a target pushes is appended, and with at most one record per target there are no more records than targets |
| GeneralMain.DetailsFoundLikely | scripts/general-scraper.js:542-552 | the appended records are exactly the normalised records of the likely detail pages among the targets not scraped before, with no more records than targets |
| GeneralMain.ScrapeDetail | scripts/general-scraper.js:546-551 | appends the normalised detail record exactly when the detail page is read and looks like an event, and nothing otherwise |
| GeneralMain.DetailsBound | scripts/general-scraper.js:542-545 | the scraped set stays duplicate-free, grows by at most 50 and keeps its earlier entries |
| GeneralMain.ScrapePages | scripts/general-scraper.js:555-573 | computes `PagesFrom` over the pagination links: an unread page is skipped, a page whose extractors throw ends the seed, any other page's records are appended. At most 10 pages are fetched |
| GeneralMain.ScrapePage | scripts/general-scraper.js:556-570 | one pagination page: its outcome is unread, thrown or its normalised cards, rows and items, and only the last appends, exactly those records |
| GeneralMain.PagesFrom | scripts/general-scraper.js:555-573 | the loop fetches no more pages than it is given |
| GeneralMain.PagesFromFound | scripts/general-scraper.js:555-573 | the pagination loop only appends, and every appended record is a record of a page whose three extractors returned |
| GeneralMain.PagesFromComplete | scripts/general-scraper.js:555-573 | when no page throws, every page is fetched and every record of every read page is appended |
| GeneralMain.ScrapeAll | scripts/general-scraper.js:512-578 | computes `SeedsScrape`: each seed's pass starts from the results and scraped set the earlier seeds left. Results are normalised, detail URLs are distinct and at most 50 per seed, and there are 1 to 11 fetches per seed |
| GeneralMain.IndexOf | scripts/general-scraper.js:500-501 | `args.indexOf`: the first position of the flag, or -1 iff it is absent |
| GeneralMain.ArgAfter | scripts/general-scraper.js:502-503 | the value after a flag exists iff the flag occurs before the last argument |
| GeneralMain.Run | scripts/general-scraper.js:498-597 | crashes without a seeds path, an unreadable seeds file, or a missing `--out` value, and writes in every other case. A write goes to the output path and holds the final events of `SeedsScrape` over the seed lines. Detail URLs are bounded by 50 per seed, and fetches by 1 to 11 per seed |
| Temporal.YearStartMonotone | scripts/universal-extract.js:55 | a later year starts no earlier |
| Temporal.RescueNotPast | scripts/universal-extract.js:54-60 | a rescued date is never more than a day in the past |
| Temporal.RescueMovesOneYear | scripts/universal-extract.js:56-58 | a rescued date more than a day old is moved exactly one calendar year (365 or 366 days) later |
| Temporal.OneYearLater | scripts/universal-extract.js:57 | the same month and day one year later is 365 or 366 days on |
| Temporal.ParserWins | scripts/universal-extract.js:42-44 | a parse within two years of the current year is the timestamp |
| Temporal.RescuedWhenUnparsed | scripts/universal-extract.js:44-61 | when the parse is unusable and the scan finds a month and day, the timestamp is present and at most a day old |
| Temporal.UnrescuedKeepsParse | scripts/universal-extract.js:44-62 | when the scan finds no month and day, a far-off parse is kept and a failed parse gives none |
| Temporal.MonthNameOverrides | scripts/universal-extract.js:49-53 | a month-name match overrides the numeric month, and its non-zero day overrides the numeric day |
| Temporal.SeptemberRollsOver | scripts/universal-extract.js:42-60 | when the parser fails on "Sep 21" on 1 December 2024, the rescue gives 21 September 2025 |
| Temporal.SeptemberParsedStays | scripts/universal-extract.js:42-44 | when the parser reads "Sep 21" on 1 December 2024 as 21 September 2024, that past date is kept and nothing rolls over |
| Calendar.Normalize | scripts/universal-extract.js:55 | `new Date(y, m - 1, d)` with month and day overflow lands on a valid date no earlier in months |
| Calendar.NormalizeSameDay | scripts/universal-extract.js:55 | the normalised date is the same instant as the overflowing one |
| Calendar.YearLength | scripts/universal-extract.js:57 | a year has 366 days iff it is a leap year, otherwise 365 |
| Strings.Trim | scripts/universal-extract.js:16 | `String.prototype.trim`: no longer than the text, no blank at either end, only characters of the text, and empty iff the text is all blanks |
| Strings.TrimIsSlice | scripts/universal-extract.js:16 | the trim is one contiguous slice of the text, and everything before and after that slice is blank |
| Strings.Lower | scripts/universal-extract.js:21 | ASCII capitals become lower case, every other character is kept, and the length is kept |
| Strings.JoinSplit | scripts/expand-seeds.js:64 | joining the split parts with the separator gives back the text |
| UniversalText.StripPairsProperties | scripts/universal-extract.js:13-14 | removing `<...>` and `{...}` deletes characters only and leaves no complete pair |
| UniversalText.TagMatch | scripts/universal-extract.js:15 | the longest run of 5 or more tag characters that ends at a word boundary, or none when no such run exists |
| UniversalText.HashTagAt | scripts/universal-extract.js:15 | a matched hash tag is `#` and 5 or more tag characters ending at a word boundary |
| UniversalText.StripHashTagsDeletes | scripts/universal-extract.js:15 | removing hash tags deletes characters only |
| UniversalText.CollapseSpacesChars | scripts/universal-extract.js:12 | collapsing whitespace leaves single spaces and the text's other characters |
| UniversalText.SanitizeText | scripts/universal-extract.js:17 | at most 2000 characters |
| UniversalText.SanitizeTextProperties | scripts/universal-extract.js:10-18 | at most 2000 characters; empty for all-blank text; no leading blank; only spaces and the input's non-blank characters; no `<...>` or `{...}` pair left |
| UniversalText.ComputeId | scripts/universal-extract.js:20-23 | the id has 16 characters |
| UniversalText.IdDependsOnKey | scripts/universal-extract.js:21 | records with the same lowercased, trimmed title, date and location get the same id |
| UniversalText.IdIgnoresTitleCase | scripts/universal-extract.js:21 | lowercasing the title keeps the id |
| UniversalText.NormalizeEvent | scripts/universal-extract.js:25-37 | each field is the sanitised first truthy of its aliases. The link is trimmed only, the id is the digest of the normalised record, and no metadata is set |
| UniversalText.NormalizeIsNormal | scripts/universal-extract.js:25-37 | a normalised record is in normal form with a 16-character id |
| UniversalText.NormalizeUntitled | scripts/universal-extract.js:27 | a record whose title and name are both missing or empty gets the empty title |
| UniversalText.NormalizeLocObject | scripts/universal-extract.js:30-31 | a location object without name, address, venue or place becomes the sanitised text `[object Object]` |
| UniversalPage.AddsProperties | scripts/universal-extract.js:74-94 | adding to a `Set` keeps it duplicate-free, holds exactly the old members and the present new ones, and grows by at most the input |
| UniversalPage.AnchorLink | scripts/universal-extract.js:77-87 | empty, `#` and `mailto:` links are dropped. A kept link resolves on the page's own host to an event-like path |
| UniversalPage.AddPresent | scripts/universal-extract.js:77-92 | the insertion loop computes `Adds` |
| UniversalPage.CollectCandidateLinks | scripts/universal-extract.js:74-94 | an unparsable page URL throws; otherwise the anchors then the hints, as one insertion-ordered set |
| UniversalPage.CollectedLinksProperties | scripts/universal-extract.js:74-94 | the candidate list has no duplicates and holds exactly the kept anchors and resolved hints, no more than their number |
| UniversalPage.LdEventLink | scripts/universal-extract.js:113 | a JSON-LD event links to its `url`, else to the page |
| UniversalPage.FirstNull | scripts/universal-extract.js:102-104 | the first node that makes the loop throw (a null), with only real nodes before it |
| UniversalPage.NodeEventsSnoc | scripts/universal-extract.js:102-118 | one more node adds its event exactly when its type list includes `Event` |
| UniversalPage.ParseNodes | scripts/universal-extract.js:102-119 | the node loop keeps the events found before the first null node |
| UniversalPage.ParseJsonLd | scripts/universal-extract.js:96-123 | the script loop computes `JsonLdEvents`; a script that does not parse adds nothing |
| UniversalPage.NodeEventsFilter | scripts/universal-extract.js:102-118 | the node loop is filter-then-map over the `Event`-typed nodes |
| UniversalPage.SubtypeIsNotEvent | scripts/universal-extract.js:105-106 | a `MusicEvent` node is not taken, since the test is for the exact type `Event` |
| UniversalPage.JsonLdOrigin | scripts/universal-extract.js:96-123 | every JSON-LD record comes from an `Event`-typed node |
| UniversalPage.JsonLdNormal | scripts/universal-extract.js:117 | every JSON-LD record is normalised |
| UniversalPage.MicroEventLink | scripts/universal-extract.js:136 | a microdata event links to its `url`, else to the page |
| UniversalPage.MicroEventBlank | scripts/universal-extract.js:134-137 | microdata events have an empty start time and an empty price |
| UniversalPage.ParseMicrodata | scripts/universal-extract.js:125-142 | one record per microdata item, in order |
| UniversalPage.MicrodataNormal | scripts/universal-extract.js:139 | every microdata record is normalised |
| UniversalPage.IcsEventLink | scripts/universal-extract.js:169 | a feed event links to its `url`, else to the page |
| UniversalPage.IcsEventBlank | scripts/universal-extract.js:167-170 | feed events have an empty category and start time |
| UniversalPage.ParseIcsLinks | scripts/universal-extract.js:144-177 | the feed links are the resolved `.ics` links without duplicates, and the records are those of each readable feed's `VEVENT`s |
| UniversalPage.IcsOrigin | scripts/universal-extract.js:154-175 | every feed record comes from a `VEVENT` component |
| UniversalPage.IcsNormal | scripts/universal-extract.js:172 | every feed record is normalised |
| UniversalPage.DescriptionIrrelevant | scripts/universal-extract.js:179-197 | the admission test is title, link, place, parsable date and Chicago hint; the description never matters, since the Chicago hint is also required |
| UniversalPage.LikelyReadsOnly | scripts/universal-extract.js:179-197 | the admission test reads only title, date, location, description and link |
| UniversalPage.SubdomainIsChicago | scripts/universal-extract.js:193 | example of the host test: any subdomain of do312.com counts as a Chicago host |
| UniversalMain.Stamp | scripts/universal-extract.js:229-231 | sets `_ts` and `source_url`, keeps a present id, and keeps the record's content fields |
| UniversalMain.StampHasId | scripts/universal-extract.js:231 | a stamped record always has an id |
| UniversalMain.StampKeepsLikely | scripts/universal-extract.js:228-231 | stamping keeps the admission verdict and the title\|date key |
| UniversalMain.KeyReadsOnly | scripts/universal-extract.js:245 | the title\|date key reads only title and date |
| UniversalMain.AdmitProperties | scripts/universal-extract.js:227-234 | no more records than found; each is a likely event stamped with this page's URL, its `_ts` and an id |
| UniversalMain.AdmitRecords | scripts/universal-extract.js:227-234 | the admission loop appends exactly the stamped likely records, in order |
| UniversalMain.PushKept | scripts/universal-extract.js:227-234 | a filter-and-push loop appends the mapped kept elements in order |
| UniversalMain.ExtractPage | scripts/universal-extract.js:224-234 | a fetched page yields its JSON-LD, microdata and feed records, filtered and stamped |
| UniversalMain.LinksOf | scripts/universal-extract.js:235-239 | the page's candidate links when crawling, none otherwise |
| UniversalMain.VisitAddress | scripts/universal-extract.js:221-240 | a failed fetch gives a failed visit; otherwise the page's stamped likely records, plus its candidate links when crawling is on and the URL parses |
| UniversalMain.EnqueueProperties | scripts/universal-extract.js:236-238 | the queue keeps its entries and only gains unvisited links. Queue plus visited never exceed the budget, unless they already did |
| UniversalMain.EnqueueLinks | scripts/universal-extract.js:236-238 | the enqueue loop computes `Enqueue` |
| UniversalMain.CrawlProperties | scripts/universal-extract.js:215-241 | visited pages are distinct, non-empty and at most the budget; visiting only extends them. Results are those of the newly visited pages in order, and each such page was queued or linked from a visited page |
| UniversalMain.CrawlSeed | scripts/universal-extract.js:215-241 | the queue loop of one seed computes `CrawlFrom` |
| UniversalMain.NoCrawlVisitsSeedOnly | scripts/universal-extract.js:235 | with crawling off, only the seed is visited |
| UniversalMain.CrawlSeeds | scripts/universal-extract.js:214-242 | the seed loop computes `CrawlAll` |
| UniversalMain.CollectedFrom | scripts/universal-extract.js:227-234 | each collected record is a record of some visited page |
| UniversalMain.CrawlAllFrom | scripts/universal-extract.js:214-242 | each result is a record of some visited page |
| UniversalMain.VisitWritten | scripts/universal-extract.js:227-232 | a page's records are likely events stamped with that page's URL |
| UniversalMain.CrawlAllWritten | scripts/universal-extract.js:214-242 | every crawl result is a stamped likely event |
| UniversalMain.Ceil | scripts/universal-extract.js:217 | the least integer not below the value |
| UniversalMain.MaxPagesAsWritten | scripts/universal-extract.js:210 | the limit is at least 1 when it is a number, and NaN exactly when a given value is not a number |
| UniversalMain.BudgetOf | scripts/universal-extract.js:217 | `visited.size < maxPages` admits the limit rounded up |
| UniversalMain.NonNumericMaxPagesFetchesNothing | scripts/universal-extract.js:210-217 | with `--max-pages ten`, as written, no seed fetches a page |
| UniversalMain.MaxPages | scripts/universal-extract.js:210 | the page budget is at least 1, and 60 when the value is missing, empty or not a number |
| UniversalMain.Days | scripts/universal-extract.js:208 | the window is non-negative, and positive exactly when a positive number is given |
| UniversalMain.CrawlEnabled | scripts/universal-extract.js:209 | crawling is on unless `--crawl` is followed by `false` in any case |
| UniversalMain.FinalOutProperties | scripts/universal-extract.js:244-258 | the output has unique title\|date keys and keeps the results' order. With a window, every record lies in it; without, every key of the results is kept |
| UniversalMain.Run | scripts/universal-extract.js:199-261 | crashes exactly without seeds, with an unreadable seeds file or without an `--out` value. Otherwise it writes the filtered crawl of the seed lines |
| UniversalMain.RunWritesStamped | scripts/universal-extract.js:199-261 | every written record is a stamped likely event, keys are unique, and with a window all lie within it |
| RunConsolidate.Alias | scripts/run-consolidate.js:79-82 | only the link changes: the first truthy of `event_url`, `url`, `source_url`, else empty |
| RunConsolidate.Fallback | scripts/run-consolidate.js:83-89 | a record with no location and a trusted link gets "Chicago"; any other record is unchanged. Afterwards a trusted link always has a location |
| RunConsolidate.Aliased | scripts/run-consolidate.js:79-82 | the first map, element by element |
| RunConsolidate.Located | scripts/run-consolidate.js:83-89 | the second map, element by element |
| RunConsolidate.Admitted | scripts/run-consolidate.js:90-104 | exactly the admitted records, in order |
| RunConsolidate.Deduped | scripts/run-consolidate.js:108-113 | an ordered selection with unique title\|spaced-date keys that keeps every key |
| RunConsolidate.EventLeTotalPreorder | scripts/run-consolidate.js:115-120 | the comparator is total and transitive |
| RunConsolidate.Ordered | scripts/run-consolidate.js:115-120 | a permutation sorted by the comparator |
| RunConsolidate.ChainMemberStamped | scripts/run-consolidate.js:78-120 | every output record is a stamped admitted record |
| RunConsolidate.StampedMember | scripts/run-consolidate.js:90-106 | a stamped admitted record stamps some admitted input |
| RunConsolidate.LocatedMember | scripts/run-consolidate.js:79-89 | a located record comes from some input record |
| RunConsolidate.ChainMember | scripts/run-consolidate.js:78-120 | every output record stamps the aliased, located form of some input, which was admitted |
| RunConsolidate.StampedAdmitted | scripts/run-consolidate.js:90-106 | stamping an admitted record keeps each admission condition |
| RunConsolidate.ChainAdmits | scripts/run-consolidate.js:78-120 | every output has a title, an http link, a location, a plausible date and no banned fragment |
| RunConsolidate.ChainCovers | scripts/run-consolidate.js:90-113 | every admitted input is represented by its key in the output |
| RunConsolidate.ChainUnique | scripts/run-consolidate.js:108-120 | output keys are unique |
| RunConsolidate.ChainOrdered | scripts/run-consolidate.js:115-120 | dated records come first in timestamp order; undated ones follow by title |
| RunConsolidate.ChainOutputFixed | scripts/run-consolidate.js:78-120 | every output record is left unchanged by each stage |
| RunConsolidate.StagesOfFixed | scripts/run-consolidate.js:78-106 | stages that leave every record unchanged leave the sequence unchanged |
| RunConsolidate.AliasedFixed | scripts/run-consolidate.js:79-82 | aliasing records that are already aliased changes nothing |
| RunConsolidate.LocatedFixed | scripts/run-consolidate.js:83-89 | the fallback map is the identity on records it fixes |
| RunConsolidate.AdmittedAll | scripts/run-consolidate.js:90-104 | a filter that keeps every record is the identity |
| RunConsolidate.ChainOfFixed | scripts/run-consolidate.js:78-120 | a fixed, unique, sorted sequence passes through unchanged |
| RunConsolidate.ChainIdempotent | scripts/run-consolidate.js:78-120 | running the consolidation on its own output changes nothing |
| RunConsolidate.StampFnOnlyTs | scripts/run-consolidate.js:106 | the stamp changes only `_ts` and is the identity on stamped records |
| RunConsolidate.PipelineProperties | scripts/run-consolidate.js:78-120 | outputs are admitted and stamped with their own derived `_ts`, keys are unique, the sort order holds, and a second run changes nothing |
| RunConsolidate.PipelineCovers | scripts/run-consolidate.js:78-120 | every admitted input has its key in the output |
| RunConsolidate.BannedTitleRejected | scripts/run-consolidate.js:95-102 | a title containing a banned fragment is rejected |
| RunConsolidate.FoiaGuideRejected | scripts/run-consolidate.js:90-104 | example of BannedTitleRejected: "FOIA Request Guide" is dropped whatever its other fields |
| RunConsolidate.ThroughSeptemberPlausible | scripts/run-consolidate.js:31-38 | example of the month-name shape: "Through Sep 21" is a plausible date whatever the parser says |
| RunConsolidate.SubdomainTrusted | scripts/run-consolidate.js:66-76 | every subdomain of a trusted domain is trusted |
| QuickGenerate.QuickTs | scripts/quick-generate.js:75-82 | no date gives no `_ts`. Otherwise `_ts` is present exactly when the parser reads the date and time, and is that instant |
| QuickGenerate.QuickTsAgainstDerived | scripts/quick-generate.js:75-82 | agrees with the shared derivation when the parse is usable, and is absent where the parse fails |
| QuickGenerate.QuickStampOnlyTs | scripts/quick-generate.js:75-82 | the stamp changes only `_ts` and is the identity on stamped records |
| QuickGenerate.PipelineProperties | scripts/quick-generate.js:46-94 | outputs are admitted and stamped with their own `_ts`, keys are unique, the sort order holds, and a second run changes nothing |
| QuickGenerate.EmptyDateUndated | scripts/quick-generate.js:77-93 | a record without a date has no `_ts`, and only undated records follow it |
| MergeDatasets.Load | scripts/merge-datasets.js:3-8 | an array document is its records; an object gives its `events`, or none when it has no `events`; a missing or unparsable file, `null` and a scalar give none |
| MergeDatasets.MergedAppend | scripts/merge-datasets.js:25-26 | merging two path lists is concatenating their merges |
| MergeDatasets.MergedSplit | scripts/merge-datasets.js:25-26 | a merge splits at any position |
| MergeDatasets.MergedFirst | scripts/merge-datasets.js:25-26 | the merge of the first path is that file's records |
| MergeDatasets.Run | scripts/merge-datasets.js:17-30 | fewer than two arguments give usage. Otherwise the last argument is the output, holding the deduplicated merge of the others, and the merged count is reported |
| MergeDatasets.DedupeProperties | scripts/merge-datasets.js:10-15 | an ordered selection with unique title\|date\|location keys, no longer than the input, keeping every key; deduplicating again changes nothing |
| MergeDatasets.EarlierFilesWin | scripts/merge-datasets.js:10-28 | for a key found in an earlier file, the kept record comes from the earlier files |
| MergeDatasets.EmptyFileIgnored | scripts/merge-datasets.js:5-8 | a file that yields no records does not change the merge |
| BuildUniversal.MergeSeeds | scripts/build-universal.js:31-42 | the loop over the five dataset files computes the deduplicated merge |
| BuildUniversal.CommittedWins | scripts/build-universal.js:31-42 | for a key found in a committed dataset, the kept record comes from a committed dataset, not the fresh extraction |
| BuildUniversal.NewestVersionWins | scripts/build-universal.js:31-42 | for a key found in `events.v4.json`, the kept record comes from that file |
| ValidateDataset.Percent | scripts/validate-dataset.js:33 | the rounded percentage is at most 100 and within half a point of the exact share |
| ValidateDataset.RoundedShare | scripts/validate-dataset.js:33 | the rounding formula satisfies the half-point bounds |
| ValidateDataset.Tally | scripts/validate-dataset.js:21-35 | the loop counts the total, the valid records and each missing field. The exit code is 1 iff under 60 % are valid |
| ValidateDataset.Run | scripts/validate-dataset.js:4-36 | no file argument gives usage. With one, the run crashes exactly when the file is missing or unparsable or holds `null`. A report counts the loaded records, the valid ones and those missing a time, a location or a description; it gives the rounded valid percentage and exit status 1 exactly when that percentage is below 60 |
| ValidateDataset.ExitThreshold | scripts/validate-dataset.js:33-35 | the gate fails iff 200 × valid < 119 × total, or the file is empty |
| ValidateDataset.PercentBounds | scripts/validate-dataset.js:33 | all valid is 100 %, none valid is 0 % |
| ValidateDataset.ValidCount | scripts/validate-dataset.js:27-32 | the valid count is the number of records passing the validity test |
| QualityMetrics.StatsOf | scripts/quality-metrics.js:25-32 | per domain, valid and missing-description counts never exceed the total, which never exceeds the records |
| QualityMetrics.TallyStep | scripts/quality-metrics.js:25-32 | one more record updates its domain's counts and lists a new domain at the end |
| QualityMetrics.DomainsProperties | scripts/quality-metrics.js:24-33 | domains are listed once each: exactly those with records |
| QualityMetrics.RowOf | scripts/quality-metrics.js:33 | a row names its domain, with counts bounded by its total and a percentage of at most 100 |
| QualityMetrics.Tally | scripts/quality-metrics.js:24-32 | the loop lists the domains in order of first appearance, each with its counts |
| QualityMetrics.CountField | scripts/quality-metrics.js:27-31 | one record adds one to its domain's total, one to valid when it passes the validity test, and one to missing descriptions when it has none |
| QualityMetrics.Rows | scripts/quality-metrics.js:33 | one row per domain, in order |
| QualityMetrics.Run | scripts/quality-metrics.js:3-36 | a missing or unparsable file, or one holding `null`, crashes; otherwise the report holds the record count and the first 100 sorted rows |
| QualityMetrics.Take100 | scripts/quality-metrics.js:35 | at most the first 100 rows |
| QualityMetrics.TotalsSumToLength | scripts/quality-metrics.js:24-32 | the domain totals add up to the number of records |
| QualityMetrics.ByTotalDescOrder | scripts/quality-metrics.js:34 | the by-total order is total and transitive |
| QualityMetrics.ReportProperties | scripts/quality-metrics.js:24-35 | rows are sorted by falling total, one per domain with records, each with its own counts, and the totals add up to the records |
| ExpandSeeds.Series | scripts/expand-seeds.js:11-15 | one URL per page number from `from` to `to` |
| ExpandSeeds.PushPattern | scripts/expand-seeds.js:11-15 | the loop adds the series to the insertion-ordered set |
| ExpandSeeds.StripSlash | scripts/expand-seeds.js:25 | at most one trailing slash is removed, and always when present |
| ExpandSeeds.ApplyRule | scripts/expand-seeds.js:18-56 | one rule adds its pages when it fires |
| ExpandSeeds.ExpandUrl | scripts/expand-seeds.js:4-59 | the rule sequence computes `Expand` |
| ExpandSeeds.ApplyFromAddsPages | scripts/expand-seeds.js:18-56 | applying the rules adds all their pages to the set |
| ExpandSeeds.SeriesMembers | scripts/expand-seeds.js:11-15 | a series holds exactly the built URLs for its page numbers |
| ExpandSeeds.PagesMembers | scripts/expand-seeds.js:18-56 | the pages are exactly the URLs built by a firing rule |
| ExpandSeeds.PagesNone | scripts/expand-seeds.js:18-56 | no firing rule, no pages |
| ExpandSeeds.ApplyFromProperties | scripts/expand-seeds.js:5-58 | the seed comes first, no duplicates, exactly the seed and the pages; just the seed when no rule fires |
| ExpandSeeds.ExpandProperties | scripts/expand-seeds.js:4-59 | the seed comes first and there are no duplicates. An unparsable URL gives only the seed; otherwise exactly the seed and the pages of the firing rules |
| ExpandSeeds.RulePageListed | scripts/expand-seeds.js:11-15 | every page of a firing rule is listed |
| ExpandSeeds.PagesBound | scripts/expand-seeds.js:18-56 | the pages number at most the rules' spans |
| ExpandSeeds.ExpandBound | scripts/expand-seeds.js:4-59 | one seed expands to at most 231 URLs |
| ExpandSeeds.UchicagoRule | scripts/expand-seeds.js:45 | example for one of the host rules: the uchicago rule fires exactly for hosts ending in uchicago.edu, so its `events.` test is redundant |
| ExpandSeeds.DropCR | scripts/expand-seeds.js:64 | at most one trailing carriage return is dropped |
| ExpandSeeds.SplitLines | scripts/expand-seeds.js:64 | one line per newline-separated part, without newlines |
| ExpandSeeds.SeedLines | scripts/expand-seeds.js:64 | no more lines than the text has, none empty |
| ExpandSeeds.SeedLinesTrimmed | scripts/expand-seeds.js:64 | each seed is a trimmed, non-empty line of the file |
| ExpandSeeds.ExpandAll | scripts/expand-seeds.js:65-68 | the loop computes the insertion-ordered set of all expansions |
| ExpandSeeds.ExpandedMembers | scripts/expand-seeds.js:66-68 | exactly the expansions of the lines |
| ExpandSeeds.ExpandedShape | scripts/expand-seeds.js:66-68 | at most 231 URLs per line, starting with the first line |
| ExpandSeeds.LineListed | scripts/expand-seeds.js:66-68 | every seed line is listed |
| ExpandSeeds.SeedsMembers | scripts/expand-seeds.js:65-69 | the output holds exactly the expansions, including every line |
| ExpandSeeds.SeedsShape | scripts/expand-seeds.js:65-69 | no duplicates, the first line first, at most 231 per line |
| ExpandSeeds.Run | scripts/expand-seeds.js:61-71 | crashes iff the input cannot be read. Otherwise it writes the newline-joined set to the output path, with the line and URL counts |
| EnrichGeocode.Index | scripts/enrich-geocode.js:19 | one entry per venue, in order |
| EnrichGeocode.MatchIndex | scripts/enrich-geocode.js:24-26 | the first venue whose name the text contains, or -1 iff there is none |
| EnrichGeocode.MatchLocation | scripts/enrich-geocode.js:21-28 | no text, no match. A match is a venue whose name the lowercased text contains; no match means no venue's name is in it |
| EnrichGeocode.TryMatchLocation | scripts/enrich-geocode.js:21-28 | the venue loop computes `MatchLocation` |
| EnrichGeocode.Geocode | scripts/enrich-geocode.js:34-54 | a cached key answers from the cache unchanged; otherwise the search is asked with ", Chicago, IL" appended. A hit is remembered under the key and nothing else changes |
| EnrichGeocode.GeocodeRemembers | scripts/enrich-geocode.js:35-36 | after a hit, the same key is answered from the cache without searching |
| EnrichGeocode.Enrich | scripts/enrich-geocode.js:65-87 | one output event per input event |
| EnrichGeocode.EnrichOneProperties | scripts/enrich-geocode.js:65-87 | an event only gains coordinates, and one that has them is untouched. `updated` grows iff coordinates were gained, `lookedUp` by at most one within 80, and the cache only grows |
| EnrichGeocode.VenueWins | scripts/enrich-geocode.js:68-73 | a venue match with both coordinates is used without a lookup |
| EnrichGeocode.Gained | scripts/enrich-geocode.js:65-87 | no more gains than events |
| EnrichGeocode.EnrichProperties | scripts/enrich-geocode.js:65-87 | at most 80 lookups, `updated` counts the events that gained coordinates, located events are untouched, others only gain coordinates, and the cache only grows |
| EnrichGeocode.EnrichState | scripts/enrich-geocode.js:75-86 | lookups stay within 80 and the cache only grows |
| EnrichGeocode.EnrichCounts | scripts/enrich-geocode.js:65-87 | `updated` is the number of events that gained coordinates |
| EnrichGeocode.EnrichChanges | scripts/enrich-geocode.js:65-87 | events change only by gaining coordinates |
| EnrichGeocode.EnrichEvent | scripts/enrich-geocode.js:66-86 | one loop turn computes `EnrichOne` |
| EnrichGeocode.LookUpEvent | scripts/enrich-geocode.js:74-86 | the geocoding part of a turn computes `LookUpStep`: nothing once 80 lookups are spent or for a query under six characters, else one counted lookup that adds the coordinates on a hit |
| EnrichGeocode.EnrichSnoc | scripts/enrich-geocode.js:65-87 | one more event is one more loop turn |
| EnrichGeocode.EnrichEvents | scripts/enrich-geocode.js:65-87 | the in-place loop leaves the array and counters as `Enrich` computes them |
| EnrichGeocode.LoadEvents | scripts/enrich-geocode.js:4-11 | a missing or unparsable file, `null` or a false scalar stops the script; a true scalar gives no events; otherwise the array or its `events` |
| EnrichGeocode.Run | scripts/enrich-geocode.js:8-91 | exits iff the events file gives no usable JSON value; otherwise writes the enriched events, the cache and the counters |
| Dedupe.FindIndex | scripts/merge-datasets.js:12 | `findIndex`: the first position with the key, or -1 iff none |
| Dedupe.KeepFirstProperties | scripts/merge-datasets.js:10-15 | the `findIndex(...) === idx` filter keeps an ordered selection with unique keys. Every key survives, each kept record is the first with its key, and filtering again changes nothing |
| Dedupe.KeepFirstPrefixWins | scripts/merge-datasets.js:10-15 | on a concatenation, the first part's survivors come first and later records only add new keys |
| Sorting.SortBy | scripts/run-consolidate.js:115-120 | a permutation of the input |
| Sorting.SortSorted | scripts/run-consolidate.js:115-120 | sorted under a total, transitive order |
| OrderedSets.AddAllProperties | scripts/expand-seeds.js:65-69 | a `Set` keeps its earlier members in order, stays duplicate-free, holds exactly old and new members, and grows by at most the input |

## Left out

- The network: `fetch`, retries and backoff, time-outs, HTTP status
  codes and rate-limit sleeps are left out. A page fetch, a detail page,
  an iCalendar feed and a geocoder answer are functions passed in; a
  failure is `None`.
- HTML parsing: cheerio selectors are not modelled. Each extractor receives
  the elements and texts its selectors would return (`Container`, `Row`,
  `Item`, `LinkEl`, `LdNode`, `MicroItem`, `Component`).
- Natural-language parsing and patterns: chrono, `extractDateFromText`, the
  time, location and price regular expressions and the two patterns of the
  date rescue are functions passed in (`Env`, `Scanner`). Their results are
  bounded by the patterns' own ranges.
- `new URL`, md5 and `JSON.parse`: these are functions passed in or a
  `Document` value. Only string-valued JSON fields are modelled, and the
  `location` object shapes the scripts test for.
- Time zones: instants are local-time milliseconds with a leap-year
  calendar. `toISOString`, and the second clock reads inside one run, are
  not modelled.
- The metadata fields `source`, `scraped_at` and `extraction_method` are
  not modelled, because nothing reads them.
- Console output, process exit codes other than the validator's, directory
  creation and the `event-consolidator.js` child process are left out.
  The shell commands that build-universal.js runs between its merge steps
  are not part of this model.
- `scripts/run-scrape.js` is not part of this model.
- GeneralScraper.NormalizeEvent: the contract states the title and link
  alias chains in full. For date, time, location, category and price it
  states only that they are present. The body follows the source's alias
  chains for them too.
- UniversalMain.Run: runs on the corrected page budget `MaxPages` (see
  Findings). With a `--max-pages` value that is not a number, the script as
  written fetches nothing; `NonNumericMaxPagesFetchesNothing` shows that
  for the as-written budget.
- Strings.Lower: only ASCII capitals are folded. JavaScript's
  `toLowerCase` also folds other letters, such as `É`.
- String lengths are counted in characters (Unicode code points).
  JavaScript's `.length` counts UTF-16 code units, so a character outside
  the Basic Multilingual Plane counts once in the model and twice in the
  scripts' length tests.
- ValidateDataset.Percent: computed on exact rationals, so a share of
  exactly one half rounds up. JavaScript computes `valid / total * 100` in
  floating point, where such a share can fall just below the half: 23 of
  40 is 57.5 in the model but may round to 57 in the script.
- ValidateDataset.ExitThreshold: stated for the exact-rational percentage,
  so at such a boundary it can differ from the script's gate.
- EnrichGeocode.Run: a geocoder request that rejects (`fetch` or
  `res.json()` throwing) ends the script before either file is written. The
  model's geocoder always answers, with coordinates or nothing.
- UniversalMain.Run: a `--days` value so large that the window's end is an
  invalid date is not modelled. The source then rejects every record,
  since comparisons with an invalid date are false. The model compares
  against the unbounded end.
- UniversalMain.Run: `--max-pages Infinity` is not modelled; the budget is
  an integer.
- EnrichGeocode.Run: coordinates that are not finite numbers, and the
  `typeof ... === 'number'` checks on them, are modelled as present or
  absent coordinates.
- JSON field values other than strings (numbers, arrays, `null` as distinct
  from missing) are not modelled in the field tests of the validator, the
  metrics and the consolidation filters.

## Findings

| source | as written | input that shows it | evidently intended | confidence | as-written member | corrected member |
|---|---|---|---|---|---|---|
| scripts/universal-extract.js:210 | `Math.max(1, Number(v \|\| 60))` is NaN for a value that is not a number, and `visited.size < NaN` is false, so the crawl fetches nothing | `--seeds seeds.txt --max-pages ten` | fall back to the default of 60 pages, as for a missing value | not executed | UniversalMain.NonNumericMaxPagesFetchesNothing | UniversalMain.MaxPages |
