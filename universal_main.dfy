/** `main()` of scripts/universal-extract.js: a breadth-first crawl from each
    seed, bounded by a page budget, that keeps the likely events of the
    three structured-data extractors; then one record per title|date and an
    optional window of days.

    Fetching is a function of the address: `fetch` yields what the
    selectors pick out of the page, or nothing when `fetchText` throws, and
    `feeds` the parsed calendar at an address, or nothing. */
module UniversalMain {
  import opened Wrappers
  import opened Strings
  import opened Calendar
  import opened Events
  import opened Lists
  import opened Dedupe
  import opened OrderedSets
  import opened RawRecords
  import opened Temporal
  import opened UniversalText
  import opened UniversalPage
  import GeneralMain
  import ExpandSeeds

  /** What the selectors read from a fetched page. */
  datatype Page = Page(
    scripts: seq<LdScript>, items: seq<MicroItem>, icsHrefs: seq<Option<string>>,
    anchors: seq<Option<string>>, hints: seq<Option<string>>)

  datatype Web = Web(fetch: string -> Option<Page>, feeds: string -> Option<seq<Component>>)

  // ---------------------------------------------------------------------
  // One page

  /** The meta-data a kept record receives: its `_ts` and the page it came
      from; the id is kept when present and computed otherwise. */
  function Stamp(md5: string -> Digest, url: string, ts: Option<int>, e: Event): (r: Event)
    ensures r.ts == ts && r.sourceUrl == Some(url)
    ensures Truthy(e.id) ==> r.id == e.id
    ensures r.title == e.title && r.dateInfo == e.dateInfo && r.location == e.location
    ensures r.eventUrl == e.eventUrl && r.description == e.description
  {
    var withMeta := e.(ts := ts, sourceUrl := Some(url));
    if Truthy(withMeta.id) then withMeta else withMeta.(id := Some(ComputeId(md5, withMeta)))
  }

  /** A stamped record always has an id: its own, or the computed one. */
  lemma StampHasId(md5: string -> Digest, url: string, ts: Option<int>, e: Event)
    ensures Truthy(Stamp(md5, url, ts, e).id)
  {
    var withMeta := e.(ts := ts, sourceUrl := Some(url));
    assert |ComputeId(md5, withMeta)| == 16;
    assert Stamp(md5, url, ts, e) == if Truthy(withMeta.id) then withMeta else withMeta.(id := Some(ComputeId(md5, withMeta)));
  }

  /** Each record is stamped with the timestamp derived from its own date. */
  function StampFn(env: Env, md5: string -> Digest, url: string): Event -> Event {
    (e: Event) => Stamp(md5, url, DeriveTimestamp(env, e.dateInfo, e.timeStart), e)
  }

  function LikelyFn(env: Env): Event -> bool {
    e => IsLikelyEvent(env, e)
  }

  /** The records a page contributes: its likely events, stamped, in order. */
  function Admit(env: Env, md5: string -> Digest, url: string, records: seq<Event>): seq<Event> {
    Map(Filter(records, LikelyFn(env)), StampFn(env, md5, url))
  }

  /** A record as the crawl writes it: a likely event, stamped with its
      timestamp, an id and the page it came from. */
  predicate Written(env: Env, x: Event) {
    && IsLikelyEvent(env, x) && x.ts == DeriveTimestamp(env, x.dateInfo, x.timeStart)
    && Truthy(x.id) && x.sourceUrl.Some?
  }

  /** Stamping changes none of the fields the admission test and the
      deduplication key read. */
  lemma StampKeepsLikely(env: Env, md5: string -> Digest, url: string, ts: Option<int>, e: Event)
    ensures IsLikelyEvent(env, Stamp(md5, url, ts, e)) <==> IsLikelyEvent(env, e)
    ensures TitleDateKey(Stamp(md5, url, ts, e)) == TitleDateKey(e)
  {
    var s := Stamp(md5, url, ts, e);
    assert s.title == e.title && s.dateInfo == e.dateInfo && s.location == e.location
      && s.description == e.description && s.eventUrl == e.eventUrl;
    LikelyReadsOnly(env, s, e);
    KeyReadsOnly(s, e);
  }

  lemma KeyReadsOnly(a: Event, b: Event)
    requires a.title == b.title && a.dateInfo == b.dateInfo
    ensures TitleDateKey(a) == TitleDateKey(b)
  {
  }

  /** Every record a page contributes is a written record from that page,
      and a page contributes at most one record per extracted one. */
  lemma AdmitProperties(env: Env, md5: string -> Digest, url: string, records: seq<Event>)
    ensures |Admit(env, md5, url, records)| <= |records|
    ensures forall x :: x in Admit(env, md5, url, records) ==> Written(env, x) && x.sourceUrl == Some(url)
  {
    var likely := Filter(records, LikelyFn(env));
    forall x | x in Admit(env, md5, url, records) ensures Written(env, x) && x.sourceUrl == Some(url) {
      var i :| 0 <= i < |likely| && Map(likely, StampFn(env, md5, url))[i] == x;
      assert LikelyFn(env)(likely[i]);
      var ts := DeriveTimestamp(env, likely[i].dateInfo, likely[i].timeStart);
      StampKeepsLikely(env, md5, url, ts, likely[i]);
      StampHasId(md5, url, ts, likely[i]);
    }
  }

  /** The for-loop over the extracted records: push each likely one, stamped. */
  method AdmitRecords(env: Env, md5: string -> Digest, url: string, records: seq<Event>, results0: seq<Event>)
    returns (results: seq<Event>)
    ensures results == results0 + Admit(env, md5, url, records)
  {
    results := PushKept(records, LikelyFn(env), StampFn(env, md5, url), results0);
  }

  /** The loop shape of `AdmitRecords`: push `f(x)` for each `x` that passes `keep`. */
  method PushKept<T, U>(xs: seq<T>, keep: T -> bool, f: T -> U, out0: seq<U>) returns (out: seq<U>)
    ensures out == out0 + Map(Filter(xs, keep), f)
  {
    out := out0;
    var i := 0;
    while i < |xs|
      invariant 0 <= i <= |xs|
      invariant out == out0 + Map(Filter(xs[..i], keep), f)
    {
      var x := xs[i];
      assert xs[..i + 1] == xs[..i] + [x];
      FilterSnoc(xs[..i], x, keep);
      if keep(x) {
        MapSnoc(Filter(xs[..i], keep), x, f);
        out := out + [f(x)];
      } else {
        assert Filter(xs[..i], keep) + [] == Filter(xs[..i], keep);
      }
      i := i + 1;
    }
    assert xs[..|xs|] == xs;
  }

  /** The three extractors' records, JSON-LD first, then microdata, then
      calendars. */
  function PageRecords(env: Env, md5: string -> Digest, web: Web, url: string, p: Page): seq<Event> {
    JsonLdEvents(NormFn(md5), p.scripts, url)
    + Map(p.items, MicroFn(NormFn(md5), url))
    + IcsEvents(NormFn(md5), web.feeds, IcsLinks(env, p.icsHrefs, url), url)
  }

  /** The links to follow from a page: none when crawling is off, and none
      when `collectCandidateLinks` throws on the page's own address. */
  function PageLinks(env: Env, crawl: bool, url: string, p: Page): seq<string> {
    if !crawl || env.parseUrl(url).None? then []
    else
      var base := env.parseUrl(url).value;
      CollectedLinks(AnchorFn(env, base), HintFn(env, base), p.anchors, p.hints)
  }

  /** What visiting one address yields. */
  datatype Visit = Failed | Visited(records: seq<Event>, links: seq<string>)

  /** The body of the `try` for one address. */
  function VisitPage(env: Env, md5: string -> Digest, web: Web, crawl: bool, url: string): Visit {
    var page := web.fetch(url);
    if page.None? then Failed
    else Visited(Admit(env, md5, url, PageRecords(env, md5, web, url, page.value)), PageLinks(env, crawl, url, page.value))
  }

  function VisitFn(env: Env, md5: string -> Digest, web: Web, crawl: bool): string -> Visit {
    u => VisitPage(env, md5, web, crawl, u)
  }

  /** The three extractors run on one fetched page. */
  method ExtractPage(env: Env, md5: string -> Digest, web: Web, url: string, p: Page) returns (records: seq<Event>)
    ensures records == PageRecords(env, md5, web, url, p)
  {
    var fromJsonLd := ParseJsonLd(NormFn(md5), p.scripts, url);
    var fromMicro := ParseMicrodata(NormFn(md5), p.items, url);
    var fromIcs, _ := ParseIcsLinks(NormFn(md5), env, web.feeds, p.icsHrefs, url);
    records := fromJsonLd + fromMicro + fromIcs;
  }

  /** The links gathered from one fetched page when crawling. */
  method LinksOf(env: Env, crawl: bool, url: string, p: Page) returns (links: seq<string>)
    ensures links == PageLinks(env, crawl, url, p)
  {
    links := [];
    if crawl {
      var collected := CollectCandidateLinks(env, url, p.anchors, p.hints);
      if collected.Some? {
        links := collected.value;
      }
    }
  }

  method VisitAddress(env: Env, md5: string -> Digest, web: Web, crawl: bool, url: string) returns (v: Visit)
    ensures v == VisitPage(env, md5, web, crawl, url)
  {
    var page := web.fetch(url);
    if page.None? {
      return Failed;
    }
    var extracted := ExtractPage(env, md5, web, url, page.value);
    var records := AdmitRecords(env, md5, url, extracted, []);
    var links := LinksOf(env, crawl, url, page.value);
    return Visited(records, links);
  }

  // ---------------------------------------------------------------------
  // The crawl of one seed

  /** The links a visited page adds to the queue: each one not yet visited,
      while the queue and the visited set together stay under the budget. */
  function Enqueue(queue: seq<string>, visited: seq<string>, links: seq<string>, budget: nat): seq<string>
    decreases |links|
  {
    if |links| == 0 then queue
    else
      var q := Enqueue(queue, visited, links[..|links| - 1], budget);
      var link := links[|links| - 1];
      if link !in visited && |q| + |visited| < budget then q + [link] else q
  }

  /** The queue keeps its order and only grows at the back, by links not
      yet visited, and never past the budget unless it already was. */
  lemma {:induction false} EnqueueProperties(queue: seq<string>, visited: seq<string>, links: seq<string>, budget: nat)
    ensures var r := Enqueue(queue, visited, links, budget);
      && |queue| <= |r| && r[..|queue|] == queue
      && (forall i :: |queue| <= i < |r| ==> r[i] in links && r[i] !in visited)
      && (forall x :: x in r ==> x in queue || x in links)
      && |r| + |visited| <= Max(|queue| + |visited|, budget)
    decreases |links|
  {
    if |links| > 0 {
      var n := |links| - 1;
      EnqueueProperties(queue, visited, links[..n], budget);
      var q := Enqueue(queue, visited, links[..n], budget);
      var r := Enqueue(queue, visited, links, budget);
      forall i | |queue| <= i < |r| ensures r[i] in links && r[i] !in visited {
        if i < |q| {
          assert r[i] == q[i] && q[i] in links[..n];
        }
      }
      forall x | x in r ensures x in queue || x in links {
        if x in q && x !in queue {
          var k :| 0 <= k < n && links[..n][k] == x;
          assert links[k] == x;
        }
      }
    }
  }

  function Max(a: int, b: int): int {
    if a < b then b else a
  }

  /** The while-loop of one seed, from a queue, a visited set and the
      results so far to the final results and visited set. */
  function CrawlFrom(visit: string -> Visit, budget: nat, queue: seq<string>, visited: seq<string>, results: seq<Event>)
    : (seq<Event>, seq<string>)
    decreases if |visited| < budget then budget - |visited| else 0, |queue|
  {
    if |queue| == 0 || |visited| >= budget then (results, visited)
    else
      var url := queue[0];
      if url == "" || url in visited then CrawlFrom(visit, budget, queue[1..], visited, results)
      else
        var v := visit(url);
        if v.Failed? then CrawlFrom(visit, budget, queue[1..], visited + [url], results)
        else CrawlFrom(visit, budget, Enqueue(queue[1..], visited + [url], v.links, budget), visited + [url], results + v.records)
  }

  /** The records of the pages at `urls`, page by page. */
  function Collected(visit: string -> Visit, urls: seq<string>): seq<Event>
    decreases |urls|
  {
    if |urls| == 0 then []
    else (if visit(urls[0]).Visited? then visit(urls[0]).records else []) + Collected(visit, urls[1..])
  }

  /** What the crawl does: it visits each address at most once, never more
      than `budget` of them and never the empty one; it appends exactly the
      records of the pages it visits, in visiting order; and every address
      it visits was queued at the start or is a link of a page it visited. */
  lemma {:induction false} CrawlProperties(visit: string -> Visit, budget: nat, queue: seq<string>,
                                           visited: seq<string>, results: seq<Event>)
    requires Distinct(visited) && "" !in visited && |visited| <= budget
    ensures var (res, vis) := CrawlFrom(visit, budget, queue, visited, results);
      && Distinct(vis) && "" !in vis && |vis| <= budget
      && |visited| <= |vis| && vis[..|visited|] == visited
      && res == results + Collected(visit, vis[|visited|..])
      && (forall u :: u in vis[|visited|..] ==>
            u in queue || exists w :: w in vis && visit(w).Visited? && u in visit(w).links)
    decreases if |visited| < budget then budget - |visited| else 0, |queue|
  {
    var (res, vis) := CrawlFrom(visit, budget, queue, visited, results);
    if |queue| == 0 || |visited| >= budget {
      assert vis[|visited|..] == [];
    } else {
      var url := queue[0];
      if url == "" || url in visited {
        CrawlProperties(visit, budget, queue[1..], visited, results);
        forall u | u in vis[|visited|..] ensures u in queue || exists w :: w in vis && visit(w).Visited? && u in visit(w).links {
          if u in queue[1..] {
            assert u in queue;
          }
        }
      } else {
        var v := visit(url);
        var visited' := visited + [url];
        var queue' := if v.Failed? then queue[1..] else Enqueue(queue[1..], visited', v.links, budget);
        var results' := if v.Failed? then results else results + v.records;
        assert (res, vis) == CrawlFrom(visit, budget, queue', visited', results');
        assert Distinct(visited') by {
          forall i, j | 0 <= i < j < |visited'| ensures visited'[i] != visited'[j] {
            if j == |visited| {
              assert visited'[i] in visited;
            }
          }
        }
        CrawlProperties(visit, budget, queue', visited', results');
        assert vis[..|visited'|][..|visited|] == vis[..|visited|];
        assert vis[|visited|..][0] == url && vis[|visited|..][1..] == vis[|visited'|..];
        assert res == results + Collected(visit, vis[|visited|..]);
        if v.Visited? {
          EnqueueProperties(queue[1..], visited', v.links, budget);
        }
        forall u | u in vis[|visited|..] ensures u in queue || exists w :: w in vis && visit(w).Visited? && u in visit(w).links {
          if u == url {
            assert u in queue;
          } else {
            assert u in vis[|visited'|..];
            if u in queue[1..] {
              assert u in queue;
            } else if v.Visited? && u in v.links {
              assert vis[|visited|] == url;
              assert url in vis;
            }
          }
        }
      }
    }
  }

  /** The crawl from one seed: `queue` starts as the seed alone and
      `visited` empty. */
  method CrawlSeed(env: Env, md5: string -> Digest, web: Web, crawl: bool, budget: nat, seed: string, results0: seq<Event>)
    returns (results: seq<Event>, visited: seq<string>)
    ensures (results, visited) == CrawlFrom(VisitFn(env, md5, web, crawl), budget, [seed], [], results0)
  {
    var queue := [seed];
    visited, results := [], results0;
    while |queue| > 0 && |visited| < budget
      invariant CrawlFrom(VisitFn(env, md5, web, crawl), budget, queue, visited, results) ==
                CrawlFrom(VisitFn(env, md5, web, crawl), budget, [seed], [], results0)
      decreases if |visited| < budget then budget - |visited| else 0, |queue|
    {
      var url := queue[0];
      queue := queue[1..];
      if url == "" || url in visited {
        continue;
      }
      visited := visited + [url];
      var v := VisitAddress(env, md5, web, crawl, url);
      assert v == VisitFn(env, md5, web, crawl)(url);
      if v.Visited? {
        results := results + v.records;
        queue := EnqueueLinks(queue, visited, v.links, budget);
      }
    }
  }

  /** The for-loop over a page's candidate links. */
  method EnqueueLinks(queue0: seq<string>, visited: seq<string>, links: seq<string>, budget: nat) returns (queue: seq<string>)
    ensures queue == Enqueue(queue0, visited, links, budget)
  {
    queue := queue0;
    var i := 0;
    while i < |links|
      invariant 0 <= i <= |links|
      invariant queue == Enqueue(queue0, visited, links[..i], budget)
    {
      assert links[..i + 1][..i] == links[..i];
      if links[i] !in visited && |queue| + |visited| < budget {
        queue := queue + [links[i]];
      }
      i := i + 1;
    }
    assert links[..|links|] == links;
  }

  /** Crawling with links switched off visits the seed at most. */
  lemma NoCrawlVisitsSeedOnly(env: Env, md5: string -> Digest, web: Web, budget: nat, seed: string, results: seq<Event>)
    ensures var (_, vis) := CrawlFrom(VisitFn(env, md5, web, false), budget, [seed], [], results);
      vis == [] || vis == [seed]
  {
    var visit := VisitFn(env, md5, web, false);
    CrawlProperties(visit, budget, [seed], [], results);
    var (_, vis) := CrawlFrom(visit, budget, [seed], [], results);
    forall w | w in vis ensures !(visit(w).Visited? && visit(w).links != []) {
    }
    forall i | 0 <= i < |vis| ensures vis[i] == seed {
      assert vis[i] in vis[0..];
    }
  }

  // ---------------------------------------------------------------------
  // All seeds

  /** The for-loop over the seeds: each seed's crawl starts afresh, with
      its own queue and visited set. */
  function CrawlAll(visit: string -> Visit, budget: nat, seeds: seq<string>): seq<Event>
    decreases |seeds|
  {
    if |seeds| == 0 then []
    else CrawlFrom(visit, budget, [seeds[|seeds| - 1]], [], CrawlAll(visit, budget, seeds[..|seeds| - 1])).0
  }

  method CrawlSeeds(env: Env, md5: string -> Digest, web: Web, crawl: bool, budget: nat, seeds: seq<string>)
    returns (results: seq<Event>)
    ensures results == CrawlAll(VisitFn(env, md5, web, crawl), budget, seeds)
  {
    results := [];
    var k := 0;
    while k < |seeds|
      invariant 0 <= k <= |seeds|
      invariant results == CrawlAll(VisitFn(env, md5, web, crawl), budget, seeds[..k])
    {
      assert seeds[..k + 1][..k] == seeds[..k];
      var visited;
      results, visited := CrawlSeed(env, md5, web, crawl, budget, seeds[k], results);
      k := k + 1;
    }
    assert seeds[..|seeds|] == seeds;
  }

  /** Every collected record is a record of a page at one of the addresses. */
  lemma {:induction false} CollectedFrom(visit: string -> Visit, urls: seq<string>)
    ensures forall x :: x in Collected(visit, urls) ==>
      exists u :: u in urls && visit(u).Visited? && x in visit(u).records
    decreases |urls|
  {
    if |urls| > 0 {
      CollectedFrom(visit, urls[1..]);
      forall x | x in Collected(visit, urls) ensures exists u :: u in urls && visit(u).Visited? && x in visit(u).records {
        if x !in Collected(visit, urls[1..]) {
          assert urls[0] in urls;
        } else {
          var u :| u in urls[1..] && visit(u).Visited? && x in visit(u).records;
          assert u in urls;
        }
      }
    }
  }

  /** Every record collected from all seeds is a record of some visited page. */
  lemma {:induction false} CrawlAllFrom(visit: string -> Visit, budget: nat, seeds: seq<string>)
    ensures forall x :: x in CrawlAll(visit, budget, seeds) ==> exists u :: visit(u).Visited? && x in visit(u).records
    decreases |seeds|
  {
    if |seeds| > 0 {
      var n := |seeds| - 1;
      var before := CrawlAll(visit, budget, seeds[..n]);
      CrawlAllFrom(visit, budget, seeds[..n]);
      CrawlProperties(visit, budget, [seeds[n]], [], before);
      var (res, vis) := CrawlFrom(visit, budget, [seeds[n]], [], before);
      CollectedFrom(visit, vis[0..]);
    }
  }

  /** The records of a visited page are written records of that page. */
  lemma VisitWritten(env: Env, md5: string -> Digest, web: Web, crawl: bool, u: string)
    ensures VisitFn(env, md5, web, crawl)(u).Visited? ==>
      forall x :: x in VisitFn(env, md5, web, crawl)(u).records ==> Written(env, x) && x.sourceUrl == Some(u)
  {
    var page := web.fetch(u);
    if page.Some? {
      AdmitProperties(env, md5, u, PageRecords(env, md5, web, u, page.value));
    }
  }

  /** Every record collected from all seeds is a written record. */
  lemma CrawlAllWritten(env: Env, md5: string -> Digest, web: Web, crawl: bool, budget: nat, seeds: seq<string>)
    ensures forall x :: x in CrawlAll(VisitFn(env, md5, web, crawl), budget, seeds) ==> Written(env, x)
  {
    var visit := VisitFn(env, md5, web, crawl);
    CrawlAllFrom(visit, budget, seeds);
    forall x | x in CrawlAll(visit, budget, seeds) ensures Written(env, x) {
      var u :| visit(u).Visited? && x in visit(u).records;
      VisitWritten(env, md5, web, crawl, u);
    }
  }

  // ---------------------------------------------------------------------
  // Options

  /** `Math.ceil`: the least integer not below `v`. */
  function Ceil(v: real): (r: int)
    ensures v <= r as real < v + 1.0
  {
    -((-v).Floor)
  }

  /** `--max-pages` as written, with None for NaN: the value is read with
      `Number(...)`, `number(s)` being None when that is NaN; a missing or
      empty value is 60, and anything below 1 is 1. */
  function MaxPagesAsWritten(number: string -> Option<real>, args: seq<string>): (r: Option<real>)
    ensures r.Some? ==> r.value >= 1.0
    ensures r.None? <==>
      "--max-pages" in args && Truthy(GeneralMain.ArgAfter(args, "--max-pages"))
      && number(GeneralMain.ArgAfter(args, "--max-pages").value).None?
  {
    var a := GeneralMain.ArgAfter(args, "--max-pages");
    if "--max-pages" !in args || !Truthy(a) then Some(60.0)
    else
      var n := number(a.value);
      if n.None? then None
      else if n.value < 1.0 then Some(1.0) else n
  }

  /** How many pages `visited.size < maxPages` lets one seed fetch: none
      under NaN, since every comparison with NaN is false. */
  function BudgetOf(limit: Option<real>): (r: nat)
    ensures limit.Some? && limit.value >= 1.0 ==> r >= 1 && (r as real) >= limit.value > (r - 1) as real
  {
    if limit.None? || limit.value <= 0.0 then 0 else Ceil(limit.value)
  }

  /** Under the as-written limit, a `--max-pages` value that is not a number
      stops every seed before its first fetch. */
  lemma NonNumericMaxPagesFetchesNothing(number: string -> Option<real>, args: seq<string>, visit: string -> Visit,
                                         seed: string, results: seq<Event>)
    requires args == ["--seeds", "seeds.txt", "--max-pages", "ten"] && number("ten") == None
    ensures BudgetOf(MaxPagesAsWritten(number, args)) == 0
    ensures CrawlFrom(visit, BudgetOf(MaxPagesAsWritten(number, args)), [seed], [], results) == (results, [])
  {
    assert GeneralMain.IndexOf(args, "--max-pages") == 2;
    assert GeneralMain.ArgAfter(args, "--max-pages") == Some("ten");
  }

  /** The page budget of one seed: the `--max-pages` value rounded up, at
      least 1, and 60 when the value is missing, empty or not a number. */
  function MaxPages(number: string -> Option<real>, args: seq<string>): (r: nat)
    ensures r >= 1
    ensures MaxPagesAsWritten(number, args).None? ==> r == 60
    ensures MaxPagesAsWritten(number, args).Some? ==> r == BudgetOf(MaxPagesAsWritten(number, args))
  {
    var limit := MaxPagesAsWritten(number, args);
    if limit.None? then 60 else BudgetOf(limit)
  }

  /** `--days`: the window in days, 0 (no window) unless a positive number
      is given; NaN, like 0, turns the window off. */
  function Days(number: string -> Option<real>, args: seq<string>): (r: real)
    ensures r >= 0.0
    ensures r > 0.0 <==>
      "--days" in args && Truthy(GeneralMain.ArgAfter(args, "--days"))
      && number(GeneralMain.ArgAfter(args, "--days").value).Some?
      && number(GeneralMain.ArgAfter(args, "--days").value).value > 0.0
    ensures r > 0.0 ==> r == number(GeneralMain.ArgAfter(args, "--days").value).value
  {
    var a := GeneralMain.ArgAfter(args, "--days");
    if "--days" !in args || !Truthy(a) then 0.0
    else
      var n := number(a.value);
      if n.None? || n.value <= 0.0 then 0.0 else n.value
  }

  /** `--crawl`: on unless its value is "false" in any case. */
  function CrawlEnabled(args: seq<string>): (r: bool)
    ensures "--crawl" !in args ==> r
    ensures !r <==> "--crawl" in args && Truthy(GeneralMain.ArgAfter(args, "--crawl"))
                    && Lower(GeneralMain.ArgAfter(args, "--crawl").value) == "false"
  {
    var a := GeneralMain.ArgAfter(args, "--crawl");
    if "--crawl" !in args then true
    else Lower(if Truthy(a) then a.value else "true") != "false"
  }

  /** Where the events go: `--out`'s value, `public/data/events.universal.json`
      under the working directory when there is no `--out`, and nothing
      (the final write throws) when `--out` is the last argument. */
  function OutPath(cwd: string, args: seq<string>): (r: Option<string>)
    ensures "--out" !in args ==> r == Some(cwd + "/public/data/events.universal.json")
    ensures "--out" in args ==> r == GeneralMain.ArgAfter(args, "--out")
  {
    if "--out" in args then GeneralMain.ArgAfter(args, "--out") else Some(cwd + "/public/data/events.universal.json")
  }

  // ---------------------------------------------------------------------
  // The final filters

  /** The date the window test reads: `_ts`, else the parse of the date
      text when there is one. */
  function WindowDate(env: Env, e: Event): Option<int> {
    if e.ts.Some? then e.ts
    else if Truthy(e.dateInfo) && env.parseDate(e.dateInfo.value).Some? then Some(env.parseDate(e.dateInfo.value).value.ms)
    else None
  }

  /** The window test: from a day before now to `days` days after. */
  predicate InWindow(env: Env, days: real, e: Event) {
    && WindowDate(env, e).Some?
    && WindowDate(env, e).value >= env.now.ms - DAY_MS
    && (WindowDate(env, e).value as real) <= (env.now.ms as real) + days * (DAY_MS as real)
  }

  function InWindowFn(env: Env, days: real): Event -> bool {
    e => InWindow(env, days, e)
  }

  /** The records written: the first of each title|date key, then, when
      the window is on, those inside it. */
  function FinalOut(env: Env, days: real, results: seq<Event>): seq<Event> {
    var out := KeepFirst(results, TitleDateKey);
    if days > 0.0 then Filter(out, InWindowFn(env, days)) else out
  }

  /** No two written records share a title|date key; they come in result
      order; with the window on each lies inside it, and with it off every
      key of the results is written. */
  lemma FinalOutProperties(env: Env, days: real, results: seq<Event>)
    ensures UniqueKeys(FinalOut(env, days, results), TitleDateKey)
    ensures IsSubsequence(FinalOut(env, days, results), results)
    ensures days > 0.0 ==> forall x :: x in FinalOut(env, days, results) ==> InWindow(env, days, x)
    ensures days <= 0.0 ==> KeysOf(FinalOut(env, days, results), TitleDateKey) == KeysOf(results, TitleDateKey)
  {
    var out := KeepFirst(results, TitleDateKey);
    KeepFirstProperties(results, TitleDateKey);
    if days > 0.0 {
      var kept := Filter(out, InWindowFn(env, days));
      FilterIsSubsequence(out, InWindowFn(env, days));
      SubsequenceTransitive(kept, out, results);
      SubsequenceUnique(kept, out, TitleDateKey);
      forall x | x in kept ensures InWindow(env, days, x) {
        FilterMembers(out, InWindowFn(env, days), x);
      }
    }
  }

  // ---------------------------------------------------------------------
  // main()

  /** `main()`. It throws without a non-empty `--seeds` value or a readable
      seed file, and when the output path is missing; otherwise it writes
      the final records of the crawl of every seed line. */
  method Run(env: Env, md5: string -> Digest, web: Web, number: string -> Option<real>,
             cwd: string, args: seq<string>, readText: string -> Option<string>)
    returns (o: GeneralMain.Outcome)
    ensures !Truthy(GeneralMain.ArgAfter(args, "--seeds")) ==> o == GeneralMain.Crash
    ensures Truthy(GeneralMain.ArgAfter(args, "--seeds")) && readText(GeneralMain.ArgAfter(args, "--seeds").value).None?
      ==> o == GeneralMain.Crash
    ensures OutPath(cwd, args).None? ==> o == GeneralMain.Crash
    ensures o.Wrote? ==>
      && Truthy(GeneralMain.ArgAfter(args, "--seeds")) && readText(GeneralMain.ArgAfter(args, "--seeds").value).Some?
      && var seeds := ExpandSeeds.SeedLines(readText(GeneralMain.ArgAfter(args, "--seeds").value).value);
         && OutPath(cwd, args) == Some(o.path)
         && o.events == FinalOut(env, Days(number, args),
                                 CrawlAll(VisitFn(env, md5, web, CrawlEnabled(args)), MaxPages(number, args), seeds))
    ensures (&& Truthy(GeneralMain.ArgAfter(args, "--seeds"))
             && readText(GeneralMain.ArgAfter(args, "--seeds").value).Some?
             && OutPath(cwd, args).Some?) ==> o.Wrote?
  {
    var seedsPath := GeneralMain.ArgAfter(args, "--seeds");
    var outPath := OutPath(cwd, args);
    var days := Days(number, args);
    var crawl := CrawlEnabled(args);
    var budget := MaxPages(number, args);
    if !Truthy(seedsPath) {
      return GeneralMain.Crash;
    }
    var text := readText(seedsPath.value);
    if text.None? {
      return GeneralMain.Crash;
    }
    var seeds := ExpandSeeds.SeedLines(text.value);
    var results := CrawlSeeds(env, md5, web, crawl, budget, seeds);
    if outPath.None? {
      return GeneralMain.Crash;
    }
    o := GeneralMain.Wrote(outPath.value, FinalOut(env, days, results));
  }

  /** Every record `main()` writes is a likely event stamped with its
      timestamp, an id and its page, no two share a title|date key, and
      with a window each lies inside it. */
  lemma RunWritesStamped(env: Env, md5: string -> Digest, web: Web, number: string -> Option<real>,
                         args: seq<string>, seeds: seq<string>)
    ensures var out := FinalOut(env, Days(number, args), CrawlAll(VisitFn(env, md5, web, CrawlEnabled(args)), MaxPages(number, args), seeds));
      && (forall x :: x in out ==> Written(env, x))
      && UniqueKeys(out, TitleDateKey)
      && (Days(number, args) > 0.0 ==> forall x :: x in out ==> InWindow(env, Days(number, args), x))
  {
    var results := CrawlAll(VisitFn(env, md5, web, CrawlEnabled(args)), MaxPages(number, args), seeds);
    CrawlAllWritten(env, md5, web, CrawlEnabled(args), MaxPages(number, args), seeds);
    FinalOutProperties(env, Days(number, args), results);
    forall x | x in FinalOut(env, Days(number, args), results) ensures Written(env, x) {
      SubsequenceMembers(FinalOut(env, Days(number, args), results), results, x);
    }
  }
}
