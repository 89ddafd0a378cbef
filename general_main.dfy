/** `main()` of scripts/general-scraper.js: for each seed, fetch the page,
    run the four extractors, fetch up to 50 detail pages (never the same
    address twice in a run) and up to 10 pagination pages, then filter,
    stamp and deduplicate everything collected.

    Fetching is a function of the address: `fetch` yields the parsed page or
    nothing (`fetchText` returning null), and `detail` what
    `scrapeEventDetail` reads from a detail page, or nothing. */
module GeneralMain {
  import opened Wrappers
  import opened Strings
  import opened Events
  import opened Lists
  import opened OrderedSets
  import opened RawRecords
  import opened GeneralScraper
  import opened GeneralExtractors
  import ExpandSeeds

  /** What the extractors see of a fetched page. */
  datatype Page = Page(
    containers: seq<Container>, tables: seq<Table>, items: seq<Item>,
    links: seq<LinkEl>, pageHrefs: seq<Option<string>>)

  /** The texts `scrapeEventDetail` reads from a detail page whose title is
      longer than 3 characters. */
  datatype Detail = Detail(title: string, dateInfo: string, location: string, description: string)

  datatype Web = Web(fetch: string -> Option<Page>, detail: string -> Option<Detail>)

  /** The record `scrapeEventDetail(url)` returns. */
  function DetailEvent(url: string, d: Detail): (r: Event)
    ensures r.eventUrl == Some(url) && r.title == Some(d.title) && r.dateInfo == Some(d.dateInfo)
  {
    Record(d.title, d.dateInfo, "", d.location, d.description, url, "", "")
  }

  function NormalizeFn(): Raw -> Event {
    (e: Raw) => NormalizeEvent(e)
  }

  /** `records.map(e => normalizeEvent(e))` */
  function NormalizeAll(records: seq<Raw>): (r: seq<Event>)
    ensures |r| == |records|
    ensures forall i :: 0 <= i < |r| ==> r[i] == NormalizeEvent(records[i])
  {
    var r := Map(records, NormalizeFn());
    assert forall i :: 0 <= i < |r| ==> r[i] == NormalizeFn()(records[i]);
    r
  }

  /** Every normalised record is in normal form. */
  lemma NormalizeAllNormal(records: seq<Raw>)
    ensures AllNormal(NormalizeAll(records))
  {
    var r := NormalizeAll(records);
    forall i | 0 <= i < |r| ensures IsNormal(r[i]) {
      NormalizeIdempotent(records[i]);
    }
  }

  /** At most 50 link records are followed per seed. */
  const DETAIL_LIMIT: nat := 50

  /** Every record collected is in normal form. */
  predicate AllNormal(results: seq<Event>) {
    forall i :: 0 <= i < |results| ==> IsNormal(results[i])
  }

  /** `results.push(...records.map(e => normalizeEvent(e)))` */
  lemma PushNormal(results: seq<Event>, records: seq<Raw>)
    requires AllNormal(results)
    ensures results <= results + NormalizeAll(records) && AllNormal(results + NormalizeAll(records))
  {
    var r := results + NormalizeAll(records);
    NormalizeAllNormal(records);
    assert forall i :: |results| <= i < |r| ==> r[i] == NormalizeAll(records)[i - |results|];
  }

  /** One `results.push(...extract($, url).map(e => normalizeEvent(e)))`:
      nothing is pushed, and `ok` is false, when the extractor throws. */
  method PushExtracted(visits: seq<Visit>, results0: seq<Event>) returns (results: seq<Event>, ok: bool)
    requires AllNormal(results0)
    ensures ok <==> Harvest(visits).Some?
    ensures results == if ok then results0 + NormalizeAll(Harvest(visits).value) else results0
    ensures results0 <= results && AllNormal(results)
  {
    var found := Collect(visits);
    if found.None? {
      return results0, false;
    }
    PushNormal(results0, found.value);
    results, ok := results0 + NormalizeAll(found.value), true;
  }

  /** The results after the three listing extractors on the main page, each
      one's records pushed as soon as it returns, and whether all three
      returned. */
  function ListingsPushed(results0: seq<Event>, env: Env, scan: Scanner, url: string, page: Page): (seq<Event>, bool) {
    var cards := Harvest(ContainerVisits(env, scan, url, page.containers));
    var rows := Harvest(RowVisits(env, scan, url, page.tables));
    var items := Harvest(ItemVisits(env, scan, url, page.items));
    if cards.None? then (results0, false)
    else if rows.None? then (results0 + NormalizeAll(cards.value), false)
    else if items.None? then (results0 + NormalizeAll(cards.value) + NormalizeAll(rows.value), false)
    else (results0 + NormalizeAll(cards.value) + NormalizeAll(rows.value) + NormalizeAll(items.value), true)
  }

  /** The three listing extractors on the main page, each one's records
      pushed as soon as it returns; `ok` is false when one of them throws. */
  method PushListings(env: Env, scan: Scanner, url: string, page: Page, results0: seq<Event>)
    returns (results: seq<Event>, ok: bool)
    requires AllNormal(results0)
    ensures (results, ok) == ListingsPushed(results0, env, scan, url, page)
    ensures results0 <= results && AllNormal(results)
    ensures ok <==> !Throws(ContainerVisits(env, scan, url, page.containers))
                    && !Throws(RowVisits(env, scan, url, page.tables))
                    && !Throws(ItemVisits(env, scan, url, page.items))
  {
    results, ok := PushExtracted(ContainerVisits(env, scan, url, page.containers), results0);
    if !ok {
      return;
    }
    results, ok := PushExtracted(RowVisits(env, scan, url, page.tables), results);
    if !ok {
      return;
    }
    results, ok := PushExtracted(ItemVisits(env, scan, url, page.items), results);
  }

  /** The records of a pagination page: its cards, rows and items in that
      order, or nothing when one of the three extractors throws. */
  function Listings(env: Env, scan: Scanner, url: string, page: Page): Option<seq<Raw>> {
    var cards := Harvest(ContainerVisits(env, scan, url, page.containers));
    var rows := Harvest(RowVisits(env, scan, url, page.tables));
    var items := Harvest(ItemVisits(env, scan, url, page.items));
    if cards.None? || rows.None? || items.None? then None
    else Some(cards.value + rows.value + items.value)
  }

  lemma NormalizeAllAppend(a: seq<Raw>, b: seq<Raw>)
    ensures NormalizeAll(a + b) == NormalizeAll(a) + NormalizeAll(b)
  {
    MapAppend(a, b, NormalizeFn());
  }

  /** The main page and a pagination page agree when no extractor throws:
      both push the cards, rows and items. When one throws, a pagination
      page pushes nothing, while the main page keeps what the extractors
      before it returned. */
  lemma ListingsAgree(results0: seq<Event>, env: Env, scan: Scanner, url: string, page: Page)
    ensures ListingsPushed(results0, env, scan, url, page).1 <==> Listings(env, scan, url, page).Some?
    ensures Listings(env, scan, url, page).Some? ==>
      ListingsPushed(results0, env, scan, url, page).0 == results0 + NormalizeAll(Listings(env, scan, url, page).value)
  {
    var found := Listings(env, scan, url, page);
    if found.Some? {
      var cards := NormalizeAll(Harvest(ContainerVisits(env, scan, url, page.containers)).value);
      var rows := NormalizeAll(Harvest(RowVisits(env, scan, url, page.tables)).value);
      var items := NormalizeAll(Harvest(ItemVisits(env, scan, url, page.items)).value);
      NormalizeAllAppend(Harvest(ContainerVisits(env, scan, url, page.containers)).value
                         + Harvest(RowVisits(env, scan, url, page.tables)).value,
                         Harvest(ItemVisits(env, scan, url, page.items)).value);
      NormalizeAllAppend(Harvest(ContainerVisits(env, scan, url, page.containers)).value,
                         Harvest(RowVisits(env, scan, url, page.tables)).value);
      AppendAssoc(results0, cards, rows);
      AppendAssoc(results0, cards + rows, items);
    }
  }

  /** What the run holds after one seed: its results, its `scrapedUrls` and
      the listing pages fetched. */
  datatype SeedPass = SeedPass(records: seq<Event>, scraped: seq<string>, fetches: nat)

  /** The `try` block for one seed, as a value: only the fetch when the page
      is not read; the listing extractors' records up to the first throw;
      then, when the link extractor returns, the detail records and the
      pagination records. */
  function SeedScrape(results0: seq<Event>, env: Env, scan: Scanner, web: Web, url: string, scraped0: seq<string>): SeedPass {
    var fetched := web.fetch(url);
    if fetched.None? then SeedPass(results0, scraped0, 1)
    else
      var page := fetched.value;
      var pushed := ListingsPushed(results0, env, scan, url, page);
      var links := Harvest(LinkVisits(env, scan, url, page.links));
      if !pushed.1 || links.None? then SeedPass(pushed.0, scraped0, 1)
      else
        var targets := Targets(links.value);
        var details := DetailsFound(pushed.0, DetailFn(env, web), scraped0, targets);
        var pages := PagesFrom(details, OutcomeFn(env, scan, web), PaginationLinks(env, url, page.pageHrefs));
        SeedPass(pages.records, AddAll(scraped0, targets), 1 + pages.fetches)
  }

  /** The `try` block for one seed. A thrown `new URL` ends it early; what was
      pushed before stays. `scraped` is the run's `scrapedUrls`, in insertion
      order; `fetches` counts the listing pages fetched. */
  method ScrapeSeed(env: Env, scan: Scanner, web: Web, url: string, results0: seq<Event>, scraped0: seq<string>)
    returns (results: seq<Event>, scraped: seq<string>, fetches: nat)
    requires AllNormal(results0) && Distinct(scraped0)
    ensures SeedPass(results, scraped, fetches) == SeedScrape(results0, env, scan, web, url, scraped0)
    ensures results0 <= results && AllNormal(results)
    ensures scraped0 <= scraped && Distinct(scraped) && |scraped| <= |scraped0| + DETAIL_LIMIT
    ensures 1 <= fetches <= 1 + 10
  {
    results, scraped, fetches := results0, scraped0, 1;
    var fetched := web.fetch(url);
    if fetched.None? {
      return;
    }
    var page := fetched.value;
    var ok: bool;
    results, ok := PushListings(env, scan, url, page, results);
    if !ok {
      return;
    }
    var fromLinks := Collect(LinkVisits(env, scan, url, page.links));
    if fromLinks.None? {
      return;
    }
    DetailsBound(scraped, fromLinks.value);
    ghost var pushed := results;
    results, scraped := ScrapeDetails(env, web, fromLinks.value, results, scraped);
    PrefixTrans(results0, pushed, results);
    ghost var detailed := results;
    var n: nat;
    results, n := ScrapePages(env, scan, web, url, page.pageHrefs, results);
    PrefixTrans(results0, detailed, results);
    fetches := fetches + n;
  }

  lemma PrefixTrans(a: seq<Event>, b: seq<Event>, c: seq<Event>)
    requires a <= b && b <= c
    ensures a <= c
  {
  }

  /** The three listing extractors on a pagination page, their records
      concatenated; nothing when one of them throws (the page's records are
      pushed only once all three have returned). */
  method ExtractListings(env: Env, scan: Scanner, url: string, page: Page) returns (r: Option<seq<Raw>>)
    ensures r == Listings(env, scan, url, page)
    ensures r.None? <==> Throws(ContainerVisits(env, scan, url, page.containers))
                         || Throws(RowVisits(env, scan, url, page.tables))
                         || Throws(ItemVisits(env, scan, url, page.items))
    ensures r.Some? ==>
      r.value == Harvest(ContainerVisits(env, scan, url, page.containers)).value
                 + Harvest(RowVisits(env, scan, url, page.tables)).value
                 + Harvest(ItemVisits(env, scan, url, page.items)).value
  {
    var fromPatterns := Collect(ContainerVisits(env, scan, url, page.containers));
    if fromPatterns.None? {
      return None;
    }
    var fromTables := Collect(RowVisits(env, scan, url, page.tables));
    if fromTables.None? {
      return None;
    }
    var fromItems := Collect(ItemVisits(env, scan, url, page.items));
    if fromItems.None? {
      return None;
    }
    r := Some(fromPatterns.value + fromTables.value + fromItems.value);
  }

  /** The address of a link record. */
  function TargetFn(): Raw -> string {
    (e: Raw) => OrEmpty(e.eventUrl)
  }

  /** The addresses of the first 50 link records, in order. */
  function Targets(links: seq<Raw>): (r: seq<string>)
    ensures |r| <= DETAIL_LIMIT
  {
    Map(links[..if |links| < DETAIL_LIMIT then |links| else DETAIL_LIMIT], TargetFn())
  }

  /** The detail page at `target` is read and looks like an event. */
  predicate LikelyDetail(env: Env, web: Web, target: string) {
    web.detail(target).Some? && IsLikelyEvent(env, DetailEvent(target, web.detail(target).value))
  }

  /** The normalised record of a detail page. */
  function DetailRecord(web: Web, target: string): Event
    requires web.detail(target).Some?
  {
    NormalizeEvent(AsRaw(DetailEvent(target, web.detail(target).value)))
  }

  /** What one detail page pushes. */
  function DetailRecords(env: Env, web: Web, target: string): seq<Event> {
    if LikelyDetail(env, web, target) then [DetailRecord(web, target)] else []
  }

  function DetailFn(env: Env, web: Web): string -> seq<Event> {
    (t: string) => DetailRecords(env, web, t)
  }

  /** The results after the detail loop over `targets`, where `pushed(t)` is
      what reading target `t` pushes: a target is read only when neither
      `scraped0` nor an earlier target holds its address. */
  function DetailsFound(results0: seq<Event>, pushed: string -> seq<Event>, scraped0: seq<string>, targets: seq<string>): seq<Event>
    decreases |targets|
  {
    if |targets| == 0 then results0
    else
      var n := |targets| - 1;
      DetailsFound(results0, pushed, scraped0, targets[..n])
        + (if targets[n] in AddAll(scraped0, targets[..n]) then [] else pushed(targets[n]))
  }

  /** The detail loop only appends to what was there. */
  lemma {:induction false} DetailsFoundShift(results0: seq<Event>, pushed: string -> seq<Event>, scraped0: seq<string>, targets: seq<string>)
    ensures DetailsFound(results0, pushed, scraped0, targets) == results0 + DetailsFound([], pushed, scraped0, targets)
    decreases |targets|
  {
    if |targets| > 0 {
      var n := |targets| - 1;
      DetailsFoundShift(results0, pushed, scraped0, targets[..n]);
      var here := if targets[n] in AddAll(scraped0, targets[..n]) then [] else pushed(targets[n]);
      AppendAssoc(results0, DetailsFound([], pushed, scraped0, targets[..n]), here);
    }
  }

  /** What the detail loop appends is what the targets not scraped before
      push, and all of it; with at most one record per target, there are no
      more records than targets. */
  lemma {:induction false} DetailsFoundFrom(pushed: string -> seq<Event>, scraped0: seq<string>, targets: seq<string>)
    ensures forall e :: e in DetailsFound([], pushed, scraped0, targets) ==>
      exists t :: t in targets && t !in scraped0 && e in pushed(t)
    ensures forall t, e :: t in targets && t !in scraped0 && e in pushed(t) ==>
      e in DetailsFound([], pushed, scraped0, targets)
    ensures (forall t :: t in targets ==> |pushed(t)| <= 1) ==>
      |DetailsFound([], pushed, scraped0, targets)| <= |targets|
    decreases |targets|
  {
    if |targets| > 0 {
      var n := |targets| - 1;
      var prev, t := targets[..n], targets[n];
      DetailsFoundFrom(pushed, scraped0, prev);
      AddAllProperties(scraped0, prev);
      assert targets == prev + [t];
      var before := DetailsFound([], pushed, scraped0, prev);
      var here := if t in AddAll(scraped0, prev) then [] else pushed(t);
      assert DetailsFound([], pushed, scraped0, targets) == before + here;
      forall e | e in before + here
        ensures exists u :: u in targets && u !in scraped0 && e in pushed(u)
      {
        if e in before {
          var u :| u in prev && u !in scraped0 && e in pushed(u);
          assert u in targets;
        } else {
          assert t in targets && e in pushed(t);
        }
      }
      forall u, e | u in targets && u !in scraped0 && e in pushed(u)
        ensures e in before + here
      {
        if u !in prev {
          assert u == t && u !in AddAll(scraped0, prev);
        }
      }
    }
  }

  /** The detail records are exactly the normalised records of the likely
      detail pages among the targets not scraped before, with no more records
      than targets. */
  lemma DetailsFoundLikely(env: Env, web: Web, scraped0: seq<string>, targets: seq<string>)
    ensures |DetailsFound([], DetailFn(env, web), scraped0, targets)| <= |targets|
    ensures forall e :: e in DetailsFound([], DetailFn(env, web), scraped0, targets) ==>
      exists t :: t in targets && t !in scraped0 && LikelyDetail(env, web, t) && e == DetailRecord(web, t)
    ensures forall t :: t in targets && t !in scraped0 && LikelyDetail(env, web, t) ==>
      DetailRecord(web, t) in DetailsFound([], DetailFn(env, web), scraped0, targets)
  {
    var pushed := DetailFn(env, web);
    assert forall t :: pushed(t) == DetailRecords(env, web, t);
    DetailsFoundFrom(pushed, scraped0, targets);
    var found := DetailsFound([], pushed, scraped0, targets);
    forall e | e in found
      ensures exists t :: t in targets && t !in scraped0 && LikelyDetail(env, web, t) && e == DetailRecord(web, t)
    {
      var t :| t in targets && t !in scraped0 && e in pushed(t);
    }
    forall t | t in targets && t !in scraped0 && LikelyDetail(env, web, t)
      ensures DetailRecord(web, t) in found
    {
      assert DetailRecord(web, t) in pushed(t);
    }
  }

  /** The detail loop: the first 50 link records, each address fetched only
      when `scrapedUrls` does not hold it yet, and its record kept when it
      looks like an event. `scrapedUrls` ends up with those addresses added. */
  method ScrapeDetails(env: Env, web: Web, links: seq<Raw>, results0: seq<Event>, scraped0: seq<string>)
    returns (results: seq<Event>, scraped: seq<string>)
    requires AllNormal(results0)
    ensures results == DetailsFound(results0, DetailFn(env, web), scraped0, Targets(links))
    ensures scraped == AddAll(scraped0, Targets(links))
    ensures results0 <= results && AllNormal(results)
  {
    results, scraped := results0, scraped0;
    var targets := Targets(links);
    var i := 0;
    while i < |targets|
      invariant 0 <= i <= |targets|
      invariant results == DetailsFound(results0, DetailFn(env, web), scraped0, targets[..i])
      invariant results0 <= results && AllNormal(results)
      invariant scraped == AddAll(scraped0, targets[..i])
    {
      var target := targets[i];
      AddAllSnoc(scraped0, targets[..i], target);
      assert targets[..i + 1] == targets[..i] + [target];
      assert targets[..i + 1][..i] == targets[..i];
      ghost var before := results;
      assert DetailFn(env, web)(target) == DetailRecords(env, web, target);
      if target !in scraped {
        scraped := scraped + [target];
        results := ScrapeDetail(env, web, target, results);
      }
      PrefixTrans(results0, before, results);
      i := i + 1;
    }
    assert targets[..i] == targets;
  }

  /** One detail page: its record, normalised, is pushed when it looks like an event. */
  method ScrapeDetail(env: Env, web: Web, target: string, results0: seq<Event>) returns (results: seq<Event>)
    requires AllNormal(results0)
    ensures results == results0 + DetailRecords(env, web, target)
    ensures results0 <= results && AllNormal(results)
    ensures |results| == |results0| + 1 <==> LikelyDetail(env, web, target)
  {
    results := results0;
    var d := web.detail(target);
    if d.Some? && IsLikelyEvent(env, DetailEvent(target, d.value)) {
      var record := NormalizeEvent(AsRaw(DetailEvent(target, d.value)));
      NormalizeIdempotent(AsRaw(DetailEvent(target, d.value)));
      PushOne(results, record);
      results := results + [record];
    }
  }

  lemma PushOne(results: seq<Event>, record: Event)
    requires AllNormal(results) && IsNormal(record)
    ensures AllNormal(results + [record])
  {
    var r := results + [record];
    assert forall i :: 0 <= i < |results| ==> r[i] == results[i];
  }

  /** Each run of the detail loop adds at most 50 addresses and keeps
      `scrapedUrls` free of repeats, so no address is fetched twice. */
  lemma DetailsBound(scraped0: seq<string>, links: seq<Raw>)
    requires Distinct(scraped0)
    ensures Distinct(AddAll(scraped0, Targets(links)))
    ensures scraped0 <= AddAll(scraped0, Targets(links))
    ensures |AddAll(scraped0, Targets(links))| <= |scraped0| + DETAIL_LIMIT
  {
    AddAllProperties(scraped0, Targets(links));
  }

  /** What the pagination loop finds at one address. */
  datatype PageOutcome =
    | Unread                       // `fetchText` gave nothing: `continue`
    | Thrown                       // an extractor threw: the seed ends
    | Found(events: seq<Event>)    // the page's records, normalised

  /** The outcome of one pagination page. */
  function PageOutcomeOf(env: Env, scan: Scanner, web: Web, url: string): PageOutcome {
    var next := web.fetch(url);
    if next.None? then Unread
    else
      var found := Listings(env, scan, url, next.value);
      if found.None? then Thrown else Found(NormalizeAll(found.value))
  }

  function OutcomeFn(env: Env, scan: Scanner, web: Web): string -> PageOutcome {
    (u: string) => PageOutcomeOf(env, scan, web, u)
  }

  /** The results after the pagination loop, and how many pages it fetched. */
  datatype PagesPass = PagesPass(records: seq<Event>, fetches: nat)

  /** The pagination loop over `pages`, as a value: a page that is not read
      is skipped, a page whose extractors throw ends the loop, and any other
      page's records are pushed. */
  function PagesFrom(results: seq<Event>, outcome: string -> PageOutcome, pages: seq<string>): (r: PagesPass)
    ensures r.fetches <= |pages|
    decreases |pages|
  {
    if |pages| == 0 then PagesPass(results, 0)
    else
      match outcome(pages[0])
      case Unread =>
        var rest := PagesFrom(results, outcome, pages[1..]);
        PagesPass(rest.records, rest.fetches + 1)
      case Thrown => PagesPass(results, 1)
      case Found(events) =>
        var rest := PagesFrom(results + events, outcome, pages[1..]);
        PagesPass(rest.records, rest.fetches + 1)
  }

  /** The pagination loop only appends, and every record it appends is a
      record of some page found. */
  lemma {:induction false} PagesFromFound(results: seq<Event>, outcome: string -> PageOutcome, pages: seq<string>)
    ensures results <= PagesFrom(results, outcome, pages).records
    ensures forall k :: |results| <= k < |PagesFrom(results, outcome, pages).records| ==>
      exists u :: u in pages && outcome(u).Found? && PagesFrom(results, outcome, pages).records[k] in outcome(u).events
    decreases |pages|
  {
    if |pages| > 0 && !outcome(pages[0]).Thrown? {
      var rest := pages[1..];
      var next := if outcome(pages[0]).Found? then results + outcome(pages[0]).events else results;
      PagesFromFound(next, outcome, rest);
      var p := PagesFrom(results, outcome, pages).records;
      assert p == PagesFrom(next, outcome, rest).records;
      forall k | |results| <= k < |p|
        ensures exists u :: u in pages && outcome(u).Found? && p[k] in outcome(u).events
      {
        if k < |next| {
          assert p[k] == next[k] == outcome(pages[0]).events[k - |results|];
          assert pages[0] in pages;
        } else {
          var u :| u in rest && outcome(u).Found? && p[k] in outcome(u).events;
          assert u in pages;
        }
      }
    }
  }

  /** When no page throws, every page is fetched and every found page's
      records are pushed. */
  lemma {:induction false} PagesFromComplete(results: seq<Event>, outcome: string -> PageOutcome, pages: seq<string>)
    requires forall u :: u in pages ==> !outcome(u).Thrown?
    ensures PagesFrom(results, outcome, pages).fetches == |pages|
    ensures forall u, e :: u in pages && outcome(u).Found? && e in outcome(u).events ==>
      e in PagesFrom(results, outcome, pages).records
    decreases |pages|
  {
    if |pages| > 0 {
      var rest := pages[1..];
      assert pages == [pages[0]] + rest;
      var next := if outcome(pages[0]).Found? then results + outcome(pages[0]).events else results;
      PagesFromComplete(next, outcome, rest);
      PagesFromFound(next, outcome, rest);
      var p := PagesFrom(results, outcome, pages).records;
      assert p == PagesFrom(next, outcome, rest).records;
      forall u, e | u in pages && outcome(u).Found? && e in outcome(u).events
        ensures e in p
      {
        if u == pages[0] {
          var k :| 0 <= k < |outcome(u).events| && outcome(u).events[k] == e;
          assert p[|results| + k] == next[|results| + k] == e;
        } else {
          assert u in rest;
        }
      }
    }
  }

  /** One pass of the pagination loop: fetch the page and, when it is read,
      run the three listing extractors and push their records. */
  method ScrapePage(env: Env, scan: Scanner, web: Web, url: string, results0: seq<Event>)
    returns (results: seq<Event>, outcome: PageOutcome)
    requires AllNormal(results0)
    ensures outcome == PageOutcomeOf(env, scan, web, url)
    ensures results == if outcome.Found? then results0 + outcome.events else results0
    ensures results0 <= results && AllNormal(results)
  {
    results := results0;
    var next := web.fetch(url);
    if next.None? {
      return results, Unread;
    }
    var found := ExtractListings(env, scan, url, next.value);
    if found.None? {
      return results, Thrown;
    }
    PushNormal(results, found.value);
    outcome := Found(NormalizeAll(found.value));
    results := results + outcome.events;
  }

  /** The pagination loop: each of the at most 10 pagination links fetched
      once, and the three listing extractors run on what comes back. */
  method ScrapePages(env: Env, scan: Scanner, web: Web, url: string, hrefs: seq<Option<string>>, results0: seq<Event>)
    returns (results: seq<Event>, fetches: nat)
    requires AllNormal(results0)
    ensures PagesPass(results, fetches) == PagesFrom(results0, OutcomeFn(env, scan, web), PaginationLinks(env, url, hrefs))
    ensures results0 <= results && AllNormal(results) && fetches <= 10
  {
    results := results0;
    var pages := FindPaginationLinks(env, url, hrefs);
    PaginationProperties(env, url, hrefs);
    ghost var outcomes := OutcomeFn(env, scan, web);
    fetches := 0;
    var j := 0;
    while j < |pages|
      invariant 0 <= j <= |pages|
      invariant results0 <= results && AllNormal(results)
      invariant fetches == j
      invariant PagesFrom(results, outcomes, pages[j..]).records == PagesFrom(results0, outcomes, pages).records
      invariant fetches + PagesFrom(results, outcomes, pages[j..]).fetches == PagesFrom(results0, outcomes, pages).fetches
    {
      assert pages[j..][0] == pages[j] && pages[j..][1..] == pages[j + 1..];
      ghost var before := results;
      fetches := fetches + 1;
      var outcome;
      results, outcome := ScrapePage(env, scan, web, pages[j], results);
      assert outcomes(pages[j]) == outcome;
      PrefixTrans(results0, before, results);
      if outcome.Thrown? {
        return;
      }
      j := j + 1;
    }
  }

  /** The seed loop, as a value: each seed's pass starts from the results
      and the `scrapedUrls` the earlier seeds left. */
  function SeedsScrape(env: Env, scan: Scanner, web: Web, seeds: seq<string>): SeedPass
    decreases |seeds|
  {
    if |seeds| == 0 then SeedPass([], [], 0)
    else
      var n := |seeds| - 1;
      var before := SeedsScrape(env, scan, web, seeds[..n]);
      var last := SeedScrape(before.records, env, scan, web, seeds[n], before.scraped);
      SeedPass(last.records, last.scraped, before.fetches + last.fetches)
  }

  /** The for-loop over the seeds. */
  method ScrapeAll(env: Env, scan: Scanner, web: Web, seeds: seq<string>)
    returns (results: seq<Event>, scraped: seq<string>, fetches: nat)
    ensures SeedPass(results, scraped, fetches) == SeedsScrape(env, scan, web, seeds)
    ensures AllNormal(results)
    ensures Distinct(scraped) && |scraped| <= DETAIL_LIMIT * |seeds|
    ensures |seeds| <= fetches <= 11 * |seeds|
  {
    results, scraped, fetches := [], [], 0;
    var k := 0;
    while k < |seeds|
      invariant 0 <= k <= |seeds|
      invariant SeedPass(results, scraped, fetches) == SeedsScrape(env, scan, web, seeds[..k])
      invariant AllNormal(results) && Distinct(scraped) && |scraped| <= DETAIL_LIMIT * k
      invariant k <= fetches <= 11 * k
    {
      assert seeds[..k + 1][..k] == seeds[..k];
      var n: nat;
      results, scraped, n := ScrapeSeed(env, scan, web, seeds[k], results, scraped);
      fetches := fetches + n;
      k := k + 1;
    }
    assert seeds[..k] == seeds;
  }

  /** The first index of `flag` in `args`, -1 when absent. */
  function IndexOf(args: seq<string>, flag: string): (r: int)
    ensures -1 <= r < |args|
    ensures r >= 0 ==> args[r] == flag && forall i :: 0 <= i < r ==> args[i] != flag
    ensures r == -1 <==> flag !in args
    decreases |args|
  {
    if |args| == 0 then -1
    else if args[0] == flag then 0
    else
      var r := IndexOf(args[1..], flag);
      assert forall i :: 1 <= i < |args| ==> args[i] == args[1..][i - 1];
      if r < 0 then -1 else r + 1
  }

  /** `args[args.indexOf(flag) + 1]`: nothing when the flag is absent or last. */
  function ArgAfter(args: seq<string>, flag: string): (r: Option<string>)
    ensures r.Some? <==> flag in args && IndexOf(args, flag) + 1 < |args|
  {
    var i := IndexOf(args, flag);
    if i >= 0 && i + 1 < |args| then Some(args[i + 1]) else None
  }

  /** Where the events go: `--out`'s value, `public/data/events.general.json`
      under the working directory when there is no `--out`, and nothing
      (the final write throws) when `--out` is the last argument. */
  function OutPath(cwd: string, args: seq<string>): (r: Option<string>)
    ensures "--out" !in args ==> r == Some(cwd + "/public/data/events.general.json")
    ensures "--out" in args ==> r == ArgAfter(args, "--out")
  {
    if "--out" in args then ArgAfter(args, "--out") else Some(cwd + "/public/data/events.general.json")
  }

  datatype Outcome =
    | Crash                                // the script throws
    | Wrote(path: string, events: seq<Event>)

  /** `main()`. It throws without a non-empty `--seeds` value or a readable
      seed file, and when the output path is missing; otherwise it writes
      the filtered records of everything collected. */
  method Run(env: Env, scan: Scanner, web: Web, cwd: string, args: seq<string>, readText: string -> Option<string>)
    returns (o: Outcome, results: seq<Event>, scraped: seq<string>, fetches: nat)
    ensures !Truthy(ArgAfter(args, "--seeds")) ==> o == Crash
    ensures Truthy(ArgAfter(args, "--seeds")) && readText(ArgAfter(args, "--seeds").value).None? ==> o == Crash
    ensures OutPath(cwd, args).None? ==> o == Crash
    ensures o.Wrote? ==>
      && Truthy(ArgAfter(args, "--seeds")) && readText(ArgAfter(args, "--seeds").value).Some?
      && var seeds := ExpandSeeds.SeedLines(readText(ArgAfter(args, "--seeds").value).value);
         && OutPath(cwd, args) == Some(o.path)
         && results == SeedsScrape(env, scan, web, seeds).records
         && o.events == FinalEvents(env, results) && AllNormal(results)
         && Distinct(scraped) && |scraped| <= DETAIL_LIMIT * |seeds|
         && |seeds| <= fetches <= 11 * |seeds|
    ensures (&& Truthy(ArgAfter(args, "--seeds"))
             && readText(ArgAfter(args, "--seeds").value).Some?
             && OutPath(cwd, args).Some?) ==> o.Wrote?
  {
    results, scraped, fetches := [], [], 0;
    var outPath := OutPath(cwd, args);
    var seedsPath := ArgAfter(args, "--seeds");
    if !Truthy(seedsPath) {
      return Crash, results, scraped, fetches;
    }
    var text := readText(seedsPath.value);
    if text.None? {
      return Crash, results, scraped, fetches;
    }
    var seeds := ExpandSeeds.SeedLines(text.value);
    results, scraped, fetches := ScrapeAll(env, scan, web, seeds);
    if outPath.None? {
      return Crash, results, scraped, fetches;
    }
    o := Wrote(outPath.value, FinalEvents(env, results));
  }
}
