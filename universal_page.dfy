/** scripts/universal-extract.js, one fetched page: the links the crawler
    follows (`collectCandidateLinks`), the three structured-data extractors
    (`parseJsonLd`, `parseMicrodata`, `parseIcsLinks`), and the admission
    test `isLikelyEvent`. The page's markup is given as the values the
    script's selectors pick out of it. */
module UniversalPage {
  import opened Wrappers
  import opened Strings
  import opened Lists
  import opened OrderedSets
  import opened Events
  import opened RawRecords
  import opened UniversalText

  // ---------------------------------------------------------------------
  // Optional additions to a set

  /** Adding the present values of `xs` to the ordered set `out`, in order. */
  function Adds(out: seq<string>, xs: seq<Option<string>>): seq<string>
    decreases |xs|
  {
    if |xs| == 0 then out
    else
      var prev := Adds(out, xs[..|xs| - 1]);
      var x := xs[|xs| - 1];
      if x.Some? then Add(prev, x.value) else prev
  }

  lemma AddsSnoc(out: seq<string>, xs: seq<Option<string>>, x: Option<string>)
    ensures Adds(out, xs + [x]) == if x.Some? then Add(Adds(out, xs), x.value) else Adds(out, xs)
  {
    assert (xs + [x])[..|xs|] == xs;
  }

  /** The set gains exactly the present values, keeps no duplicate, and
      grows by at most one element per value. */
  lemma {:induction false} AddsProperties(out: seq<string>, xs: seq<Option<string>>)
    ensures Distinct(out) ==> Distinct(Adds(out, xs))
    ensures forall y :: y in Adds(out, xs) <==> y in out || exists i :: 0 <= i < |xs| && xs[i] == Some(y)
    ensures |Adds(out, xs)| <= |out| + |xs|
    decreases |xs|
  {
    if |xs| > 0 {
      var n := |xs| - 1;
      AddsProperties(out, xs[..n]);
      forall y ensures (exists i :: 0 <= i < |xs| && xs[i] == Some(y)) <==>
                       (exists i :: 0 <= i < n && xs[..n][i] == Some(y)) || xs[n] == Some(y)
      {
        if exists i :: 0 <= i < |xs| && xs[i] == Some(y) {
          var i :| 0 <= i < |xs| && xs[i] == Some(y);
          if i < n {
            assert xs[..n][i] == Some(y);
          }
        }
        if exists i :: 0 <= i < n && xs[..n][i] == Some(y) {
          var i :| 0 <= i < n && xs[..n][i] == Some(y);
          assert xs[i] == Some(y);
        }
      }
    }
  }

  // ---------------------------------------------------------------------
  // collectCandidateLinks

  /** `\b[eE]\b` at position `i`: a lone letter e. */
  predicate LoneEAt(p: string, i: nat)
    requires i < |p|
  {
    (p[i] == 'e' || p[i] == 'E') && AtBoundary(p, i) && AtBoundary(p, i + 1)
  }

  /** The path test `/(event|events|show|concert|performance|festival|
      opennight|exhibit|exhibition|game|match|\b[eE]\b|\/e\/)/` ("events"
      and "exhibition" are covered by "event" and "exhibit"). */
  predicate IsEventyPath(p: string) {
    || Contains(p, "event") || Contains(p, "show") || Contains(p, "concert")
    || Contains(p, "performance") || Contains(p, "festival") || Contains(p, "opennight")
    || Contains(p, "exhibit") || Contains(p, "game") || Contains(p, "match")
    || (exists i :: 0 <= i < |p| && LoneEAt(p, i))
    || Contains(p, "/e/")
  }

  /** What the first pass makes of one `a[href]`: the resolved link when the
      trimmed href is not empty, not a fragment, not `mailto:`, resolves
      against the page, stays on the page's host and has an event-like
      path. */
  function AnchorLink(env: Env, base: UrlParts, href: Option<string>): (r: Option<string>)
    ensures var h := Trim(OrEmpty(href));
      h == "" || StartsWith(h, "#") || StartsWith(h, "mailto:") ==> r.None?
    ensures r.Some? ==>
      var u := env.resolve(Trim(OrEmpty(href)), base.href);
      u.Some? && u.value.href == r.value && u.value.host == base.host && IsEventyPath(Lower(u.value.path))
  {
    var h := Trim(OrEmpty(href));
    if h == "" || StartsWith(h, "#") || StartsWith(h, "mailto:") then None
    else
      var u := env.resolve(h, base.href);
      if u.None? || u.value.host != base.host || !IsEventyPath(Lower(u.value.path)) then None
      else Some(u.value.href)
  }

  /** What the pagination-hint pass makes of one link: whatever it resolves
      to, on any host, with any path. */
  function HintLink(env: Env, base: UrlParts, href: Option<string>): (r: Option<string>)
    ensures r.Some? <==> env.resolve(Trim(OrEmpty(href)), base.href).Some?
    ensures r.Some? ==> r.value == env.resolve(Trim(OrEmpty(href)), base.href).value.href
  {
    var u := env.resolve(Trim(OrEmpty(href)), base.href);
    if u.Some? then Some(u.value.href) else None
  }

  function AnchorFn(env: Env, base: UrlParts): Option<string> -> Option<string> {
    h => AnchorLink(env, base, h)
  }

  function HintFn(env: Env, base: UrlParts): Option<string> -> Option<string> {
    h => HintLink(env, base, h)
  }

  /** `Array.from(out)` after the two passes: what `pass1` makes of the
      anchors, then what `pass2` makes of the hints, each kept at its first
      occurrence. */
  function CollectedLinks(pass1: Option<string> -> Option<string>, pass2: Option<string> -> Option<string>,
                          anchors: seq<Option<string>>, hints: seq<Option<string>>): seq<string> {
    Adds(Adds([], Map(anchors, pass1)), Map(hints, pass2))
  }

  /** Adding the present values of `xs` to `out` one at a time: the
      `out.add(...)` of each `.each` callback that does not return early. */
  method AddPresent(out0: seq<string>, xs: seq<Option<string>>) returns (out: seq<string>)
    ensures out == Adds(out0, xs)
  {
    out := out0;
    var i := 0;
    while i < |xs|
      invariant 0 <= i <= |xs|
      invariant out == Adds(out0, xs[..i])
    {
      AddsSnoc(out0, xs[..i], xs[i]);
      assert xs[..i + 1] == xs[..i] + [xs[i]];
      if xs[i].Some? {
        out := Add(out, xs[i].value);
      }
      i := i + 1;
    }
    assert xs[..|xs|] == xs;
  }

  /** `collectCandidateLinks($, baseUrl)` given the `href` of every `a[href]`
      and of every pagination hint; it throws (None) when the page's own
      address does not parse. */
  method CollectCandidateLinks(env: Env, baseUrl: string, anchors: seq<Option<string>>, hints: seq<Option<string>>)
    returns (r: Option<seq<string>>)
    ensures env.parseUrl(baseUrl).None? ==> r.None?
    ensures env.parseUrl(baseUrl).Some? ==>
      r == Some(CollectedLinks(AnchorFn(env, env.parseUrl(baseUrl).value), HintFn(env, env.parseUrl(baseUrl).value), anchors, hints))
  {
    var parsed := env.parseUrl(baseUrl);
    if parsed.None? {
      return None;
    }
    var base := parsed.value;
    var out := AddPresent([], Map(anchors, AnchorFn(env, base)));
    out := AddPresent(out, Map(hints, HintFn(env, base)));
    return Some(out);
  }

  /** `AddsProperties` for values computed element by element. */
  lemma AddsMapProperties<T>(out: seq<string>, xs: seq<T>, f: T -> Option<string>)
    ensures Distinct(out) ==> Distinct(Adds(out, Map(xs, f)))
    ensures forall y :: y in Adds(out, Map(xs, f)) <==> y in out || exists i :: 0 <= i < |xs| && f(xs[i]) == Some(y)
    ensures |Adds(out, Map(xs, f))| <= |out| + |xs|
  {
    var ys := Map(xs, f);
    AddsProperties(out, ys);
    forall y ensures (exists i :: 0 <= i < |ys| && ys[i] == Some(y)) <==> (exists i :: 0 <= i < |xs| && f(xs[i]) == Some(y))
    {
      if exists i :: 0 <= i < |xs| && f(xs[i]) == Some(y) {
        var i :| 0 <= i < |xs| && f(xs[i]) == Some(y);
        assert ys[i] == Some(y);
      }
    }
  }

  /** The candidates hold no duplicate; each is what a pass made of one of
      its links, and everything a pass made is among them; there are no
      more of them than links. */
  lemma CollectedLinksProperties(pass1: Option<string> -> Option<string>, pass2: Option<string> -> Option<string>,
                                 anchors: seq<Option<string>>, hints: seq<Option<string>>)
    ensures Distinct(CollectedLinks(pass1, pass2, anchors, hints))
    ensures forall y :: y in CollectedLinks(pass1, pass2, anchors, hints) <==>
      (exists i :: 0 <= i < |anchors| && pass1(anchors[i]) == Some(y))
      || (exists i :: 0 <= i < |hints| && pass2(hints[i]) == Some(y))
    ensures |CollectedLinks(pass1, pass2, anchors, hints)| <= |anchors| + |hints|
  {
    AddsMapProperties([], anchors, pass1);
    AddsMapProperties(Adds([], Map(anchors, pass1)), hints, pass2);
  }

  // ---------------------------------------------------------------------
  // parseJsonLd

  /** A JSON value read as text: a string, or an array of strings. */
  datatype JsonText = JStr(s: string) | JList(items: seq<string>)

  /** JavaScript truthiness: a non-empty string, or any array. */
  predicate JTruthy(x: Option<JsonText>) {
    x.Some? && (x.value.JList? || x.value.s != "")
  }

  function JOr(a: Option<JsonText>, b: Option<JsonText>): Option<JsonText> {
    if JTruthy(a) then a else b
  }

  /** `toArray(x)` */
  function ToArray(x: Option<JsonText>): seq<string> {
    if !JTruthy(x) then [] else if x.value.JList? then x.value.items else [x.value.s]
  }

  /** `node.location`: a text, or an object with `name` and `address.streetAddress`. */
  datatype LdPlace = LdText(text: string) | LdObject(name: Option<string>, streetAddress: Option<string>)

  /** One entry of `toArray(json['@graph'] || json)`; `LdNull` is a `null`
      entry, on which reading `node['@type']` throws. */
  datatype LdNode =
    | LdNull
    | LdNode(atType: Option<JsonText>, kind: Option<JsonText>,   // `@type` and `type`
             name: Option<string>, description: Option<string>,
             startDate: Option<string>, startTime: Option<string>,
             location: Option<LdPlace>, url: Option<string>,
             attendanceMode: Option<JsonText>, status: Option<JsonText>,
             offerPrice: Option<string>)

  /** One `script[type="application/ld+json"]`: text `JSON.parse` rejects,
      or the entries of its graph. */
  datatype LdScript = Unparsable | Parsed(nodes: seq<LdNode>)

  /** The type test: `@type` (or else `type`) is, or lists, exactly "Event". */
  predicate IsEventNode(n: LdNode) {
    n.LdNode? && "Event" in ToArray(JOr(n.atType, n.kind))
  }

  function IsEventNodeFn(): LdNode -> bool {
    n => IsEventNode(n)
  }

  function LdLocation(p: Option<LdPlace>): string {
    match p
    case None => ""
    case Some(LdText(t)) => t
    case Some(LdObject(name, street)) => OrEmpty(Or(name, street))
  }

  /** The record `parseJsonLd` builds from an event node, before normalising. */
  function LdRaw(n: LdNode, baseUrl: string): Raw
    requires n.LdNode?
  {
    Canonical(n.name, n.startDate, n.startTime, Some(LdLocation(n.location)), n.description,
              Or(n.url, Some(baseUrl)),
              Some(Join(ToArray(JOr(JOr(n.attendanceMode, n.status), Some(JList([])))), ", ")),
              Some(if Truthy(n.offerPrice) then n.offerPrice.value else ""))
  }

  /** `x || baseUrl` as the link of a normalised record. */
  lemma LinkOrPage(x: Option<string>, baseUrl: string)
    ensures OrEmpty(Or(Or(Or(x, Some(baseUrl)), None), None)) == if Truthy(x) then x.value else baseUrl
  {
  }

  /** The record of an event node. `norm` is the normaliser every extractor
      hands its raw records to (`normalizeEvent`; see `NormFn`). */
  function LdEvent(norm: Raw -> Event, n: LdNode, baseUrl: string): Event
    requires n.LdNode?
  {
    norm(LdRaw(n, baseUrl))
  }

  /** Normalised, an event node's record links to the node's `url`, or to
      the page when that is missing or empty. */
  lemma LdEventLink(md5: string -> Digest, n: LdNode, baseUrl: string)
    requires n.LdNode?
    ensures LdEvent(NormFn(md5), n, baseUrl).eventUrl == Some(Trim(if Truthy(n.url) then n.url.value else baseUrl))
  {
    LinkOrPage(n.url, baseUrl);
  }

  function LdEventFn(norm: Raw -> Event, baseUrl: string): LdNode -> Event {
    (n: LdNode) => if n.LdNode? then LdEvent(norm, n, baseUrl) else norm(Canonical(None, None, None, None, None, None, None, None))
  }

  /** The position of the first `null` entry, or the length. */
  function FirstNull(nodes: seq<LdNode>): (r: nat)
    ensures r <= |nodes|
    ensures r < |nodes| ==> nodes[r].LdNull?
    ensures forall i :: 0 <= i < r ==> nodes[i].LdNode?
    decreases |nodes|
  {
    if |nodes| == 0 then 0
    else if nodes[0].LdNull? then 0
    else 1 + FirstNull(nodes[1..])
  }

  /** The records of the event nodes of `nodes`, in order. */
  function NodeEvents(norm: Raw -> Event, nodes: seq<LdNode>, baseUrl: string): seq<Event>
    decreases |nodes|
  {
    if |nodes| == 0 then []
    else
      var n := nodes[|nodes| - 1];
      NodeEvents(norm, nodes[..|nodes| - 1], baseUrl) + (if IsEventNode(n) then [LdEvent(norm, n, baseUrl)] else [])
  }

  /** The records of one script: those of the event nodes before the first
      `null` entry, whose read throws and ends the script. */
  function ScriptEvents(norm: Raw -> Event, script: LdScript, baseUrl: string): seq<Event> {
    if script.Unparsable? then [] else NodeEvents(norm, script.nodes[..FirstNull(script.nodes)], baseUrl)
  }

  /** What `parseJsonLd` returns: the scripts' records, script by script. */
  function JsonLdEvents(norm: Raw -> Event, scripts: seq<LdScript>, baseUrl: string): seq<Event>
    decreases |scripts|
  {
    if |scripts| == 0 then []
    else JsonLdEvents(norm, scripts[..|scripts| - 1], baseUrl) + ScriptEvents(norm, scripts[|scripts| - 1], baseUrl)
  }

  lemma NodeEventsSnoc(norm: Raw -> Event, nodes: seq<LdNode>, i: nat, baseUrl: string)
    requires i < |nodes|
    ensures NodeEvents(norm, nodes[..i + 1], baseUrl) ==
      NodeEvents(norm, nodes[..i], baseUrl) + (if IsEventNode(nodes[i]) then [LdEvent(norm, nodes[i], baseUrl)] else [])
  {
    assert nodes[..i + 1][..i] == nodes[..i];
  }

  /** The inner loop of `parseJsonLd` over the graph of one parsed script:
      it stops at the first `null` entry, whose read throws. */
  method ParseNodes(norm: Raw -> Event, nodes: seq<LdNode>, baseUrl: string) returns (found: seq<Event>)
    ensures found == NodeEvents(norm, nodes[..FirstNull(nodes)], baseUrl)
  {
    found := [];
    var i := 0;
    while i < |nodes| && !nodes[i].LdNull?
      invariant 0 <= i <= FirstNull(nodes)
      invariant found == NodeEvents(norm, nodes[..i], baseUrl)
    {
      NodeEventsSnoc(norm, nodes, i, baseUrl);
      var node := nodes[i];
      var t := JOr(node.atType, node.kind);
      if JTruthy(t) {
        var types := ToArray(t);
        if "Event" in types {
          found := found + [LdEvent(norm, node, baseUrl)];
        }
      }
      i := i + 1;
    }
  }

  /** `parseJsonLd($, baseUrl)`: a script whose text does not parse is
      skipped. */
  method ParseJsonLd(norm: Raw -> Event, scripts: seq<LdScript>, baseUrl: string) returns (out: seq<Event>)
    ensures out == JsonLdEvents(norm, scripts, baseUrl)
  {
    out := [];
    var k := 0;
    while k < |scripts|
      invariant 0 <= k <= |scripts|
      invariant out == JsonLdEvents(norm, scripts[..k], baseUrl)
    {
      assert scripts[..k + 1][..k] == scripts[..k];
      if scripts[k].Parsed? {
        var found := ParseNodes(norm, scripts[k].nodes, baseUrl);
        out := out + found;
      }
      k := k + 1;
    }
    assert scripts[..|scripts|] == scripts;
  }

  /** The type filter: a script yields one record per node typed "Event"
      before its first `null` entry, in order, and nothing for any other
      node. */
  lemma {:induction false} NodeEventsFilter(norm: Raw -> Event, nodes: seq<LdNode>, baseUrl: string)
    ensures NodeEvents(norm, nodes, baseUrl) == Map(Filter(nodes, IsEventNodeFn()), LdEventFn(norm, baseUrl))
    decreases |nodes|
  {
    if |nodes| > 0 {
      var n := |nodes| - 1;
      NodeEventsFilter(norm, nodes[..n], baseUrl);
      FilterSnoc(nodes[..n], nodes[n], IsEventNodeFn());
      assert nodes[..n] + [nodes[n]] == nodes;
      var f := Filter(nodes[..n], IsEventNodeFn());
      if IsEventNode(nodes[n]) {
        MapSnoc(f, nodes[n], LdEventFn(norm, baseUrl));
      } else {
        assert f + [] == f;
      }
    }
  }

  /** A subtype such as "MusicEvent" alone does not pass the type filter. */
  lemma SubtypeIsNotEvent(n: LdNode)
    requires n.LdNode? && n.atType == Some(JStr("MusicEvent"))
    ensures !IsEventNode(n)
  {
    assert ToArray(JOr(n.atType, n.kind)) == ["MusicEvent"];
  }

  /** Every JSON-LD record is the record of some event node. */
  lemma {:induction false} JsonLdOrigin(norm: Raw -> Event, scripts: seq<LdScript>, baseUrl: string)
    ensures forall e :: e in JsonLdEvents(norm, scripts, baseUrl) ==>
      exists n :: IsEventNode(n) && e == LdEvent(norm, n, baseUrl)
    decreases |scripts|
  {
    if |scripts| > 0 {
      var k := |scripts| - 1;
      JsonLdOrigin(norm, scripts[..k], baseUrl);
      if scripts[k].Parsed? {
        var nodes := scripts[k].nodes[..FirstNull(scripts[k].nodes)];
        NodeEventsFilter(norm, nodes, baseUrl);
        var f := Filter(nodes, IsEventNodeFn());
        forall e | e in NodeEvents(norm, nodes, baseUrl)
          ensures exists n :: IsEventNode(n) && e == LdEvent(norm, n, baseUrl)
        {
          var i :| 0 <= i < |f| && Map(f, LdEventFn(norm, baseUrl))[i] == e;
          FilterMembers(nodes, IsEventNodeFn(), f[i]);
          assert IsEventNode(f[i]) && e == LdEvent(norm, f[i], baseUrl);
        }
      }
    }
  }

  /** Every JSON-LD record is in normal form. */
  lemma JsonLdNormal(md5: string -> Digest, scripts: seq<LdScript>, baseUrl: string)
    ensures forall e :: e in JsonLdEvents(NormFn(md5), scripts, baseUrl) ==> IsNormal(md5, e)
  {
    JsonLdOrigin(NormFn(md5), scripts, baseUrl);
    forall e | e in JsonLdEvents(NormFn(md5), scripts, baseUrl) ensures IsNormal(md5, e) {
      var n :| IsEventNode(n) && e == LdEvent(NormFn(md5), n, baseUrl);
      NormalizeIsNormal(md5, LdRaw(n, baseUrl));
    }
  }

  // ---------------------------------------------------------------------
  // parseMicrodata

  /** One `[itemtype*="Event"]` element: each field is what `get(sel)`
      returns for its selector (the `content` attribute, else the text, else ""). */
  datatype MicroItem = MicroItem(name: string, description: string, startDate: string,
                                 location: string, url: string, eventType: string)

  function MicroRaw(item: MicroItem, baseUrl: string): Raw {
    Canonical(Some(item.name), Some(item.startDate), Some(""), Some(item.location), Some(item.description),
              Or(Some(item.url), Some(baseUrl)), Some(item.eventType), None)
  }

  function MicroEvent(norm: Raw -> Event, item: MicroItem, baseUrl: string): Event {
    norm(MicroRaw(item, baseUrl))
  }

  /** Normalised, a microdata record links to the item's `url`, or to the
      page when that is empty. */
  lemma MicroEventLink(md5: string -> Digest, item: MicroItem, baseUrl: string)
    ensures MicroEvent(NormFn(md5), item, baseUrl).eventUrl == Some(Trim(if item.url != "" then item.url else baseUrl))
  {
    LinkOrPage(Some(item.url), baseUrl);
  }

  /** A microdata record has no start time and no price. */
  lemma MicroEventBlank(md5: string -> Digest, item: MicroItem, baseUrl: string)
    ensures MicroEvent(NormFn(md5), item, baseUrl).timeStart == Some("")
    ensures MicroEvent(NormFn(md5), item, baseUrl).price == Some("")
  {
    SanitizeEmpty();
  }

  function MicroFn(norm: Raw -> Event, baseUrl: string): MicroItem -> Event {
    item => MicroEvent(norm, item, baseUrl)
  }

  /** `parseMicrodata($, baseUrl)`: one record per item, in document order. */
  method ParseMicrodata(norm: Raw -> Event, items: seq<MicroItem>, baseUrl: string) returns (out: seq<Event>)
    ensures out == Map(items, MicroFn(norm, baseUrl))
  {
    out := [];
    var i := 0;
    while i < |items|
      invariant 0 <= i <= |items|
      invariant out == Map(items[..i], MicroFn(norm, baseUrl))
    {
      MapSnoc(items[..i], items[i], MicroFn(norm, baseUrl));
      assert items[..i + 1] == items[..i] + [items[i]];
      out := out + [MicroEvent(norm, items[i], baseUrl)];
      i := i + 1;
    }
    assert items[..|items|] == items;
  }

  /** Every microdata record is in normal form. */
  lemma MicrodataNormal(md5: string -> Digest, items: seq<MicroItem>, baseUrl: string)
    ensures forall e :: e in Map(items, MicroFn(NormFn(md5), baseUrl)) ==> IsNormal(md5, e)
  {
    forall e | e in Map(items, MicroFn(NormFn(md5), baseUrl)) ensures IsNormal(md5, e) {
      var i :| 0 <= i < |items| && Map(items, MicroFn(NormFn(md5), baseUrl))[i] == e;
      NormalizeIsNormal(md5, MicroRaw(items[i], baseUrl));
    }
  }

  // ---------------------------------------------------------------------
  // parseIcsLinks

  /** One component of a parsed calendar; `start` is `c.start?.toISOString?.()`. */
  datatype Component = Component(kind: string, summary: Option<string>, description: Option<string>,
                                 start: Option<string>, location: Option<string>, url: Option<string>)

  predicate IsVevent(c: Component) {
    c.kind == "VEVENT"
  }

  function IsVeventFn(): Component -> bool {
    c => IsVevent(c)
  }

  function IcsRaw(c: Component, baseUrl: string): Raw {
    Canonical(c.summary, Or(c.start, Some("")), Some(""), Or(c.location, Some("")), Or(c.description, Some("")),
              Or(c.url, Some(baseUrl)), Some(""), None)
  }

  function IcsEvent(norm: Raw -> Event, c: Component, baseUrl: string): Event {
    norm(IcsRaw(c, baseUrl))
  }

  /** Normalised, a calendar record links to the component's `url`, or to
      the page. */
  lemma IcsEventLink(md5: string -> Digest, c: Component, baseUrl: string)
    ensures IcsEvent(NormFn(md5), c, baseUrl).eventUrl == Some(Trim(if Truthy(c.url) then c.url.value else baseUrl))
  {
    LinkOrPage(c.url, baseUrl);
  }

  /** A calendar record has no category and no start time. */
  lemma IcsEventBlank(md5: string -> Digest, c: Component, baseUrl: string)
    ensures IcsEvent(NormFn(md5), c, baseUrl).category == Some("")
    ensures IcsEvent(NormFn(md5), c, baseUrl).timeStart == Some("")
  {
    SanitizeEmpty();
  }

  function IcsEventFn(norm: Raw -> Event, baseUrl: string): Component -> Event {
    c => IcsEvent(norm, c, baseUrl)
  }

  /** The records of one calendar: its VEVENT components, in order. */
  function FeedEvents(norm: Raw -> Event, comps: seq<Component>, baseUrl: string): seq<Event> {
    Map(Filter(comps, IsVeventFn()), IcsEventFn(norm, baseUrl))
  }

  function IcsLinkFn(env: Env, baseUrl: string): Option<string> -> Option<string> {
    h => var u := env.resolve(AsString(h), baseUrl); if u.Some? then Some(u.value.href) else None
  }

  /** The calendar links of the page: the resolved `href` of every link
      ending in `.ics`, each once, in document order. */
  function IcsLinks(env: Env, hrefs: seq<Option<string>>, baseUrl: string): seq<string> {
    Adds([], Map(hrefs, IcsLinkFn(env, baseUrl)))
  }

  /** The records of the calendars at `links`; `feeds(link)` is the parsed
      calendar, None when the download fails, is not OK, or does not parse. */
  function IcsEvents(norm: Raw -> Event, feeds: string -> Option<seq<Component>>, links: seq<string>, baseUrl: string): seq<Event>
    decreases |links|
  {
    if |links| == 0 then []
    else
      var feed := feeds(links[|links| - 1]);
      IcsEvents(norm, feeds, links[..|links| - 1], baseUrl) + (if feed.Some? then FeedEvents(norm, feed.value, baseUrl) else [])
  }

  /** `parseIcsLinks($, baseUrl)`: each calendar is downloaded once. */
  method ParseIcsLinks(norm: Raw -> Event, env: Env, feeds: string -> Option<seq<Component>>,
                       hrefs: seq<Option<string>>, baseUrl: string)
    returns (out: seq<Event>, links: seq<string>)
    ensures links == IcsLinks(env, hrefs, baseUrl) && Distinct(links)
    ensures out == IcsEvents(norm, feeds, links, baseUrl)
  {
    var resolved := Map(hrefs, IcsLinkFn(env, baseUrl));
    links := [];
    var i := 0;
    while i < |hrefs|
      invariant 0 <= i <= |hrefs|
      invariant links == Adds([], resolved[..i])
    {
      AddsSnoc([], resolved[..i], resolved[i]);
      assert resolved[..i + 1] == resolved[..i] + [resolved[i]];
      var u := env.resolve(AsString(hrefs[i]), baseUrl);
      if u.Some? {
        links := Add(links, u.value.href);
      }
      i := i + 1;
    }
    assert resolved[..|hrefs|] == resolved;
    AddsProperties([], resolved);
    out := [];
    var k := 0;
    while k < |links|
      invariant 0 <= k <= |links|
      invariant out == IcsEvents(norm, feeds, links[..k], baseUrl)
    {
      assert links[..k + 1][..k] == links[..k];
      var feed := feeds(links[k]);
      if feed.Some? {
        out := out + FeedEvents(norm, feed.value, baseUrl);
      }
      k := k + 1;
    }
    assert links[..|links|] == links;
  }

  /** Every calendar record is the record of a VEVENT component. */
  lemma {:induction false} IcsOrigin(norm: Raw -> Event, feeds: string -> Option<seq<Component>>, links: seq<string>, baseUrl: string)
    ensures forall e :: e in IcsEvents(norm, feeds, links, baseUrl) ==>
      exists c :: IsVevent(c) && e == IcsEvent(norm, c, baseUrl)
    decreases |links|
  {
    if |links| > 0 {
      var k := |links| - 1;
      IcsOrigin(norm, feeds, links[..k], baseUrl);
      var feed := feeds(links[k]);
      if feed.Some? {
        var f := Filter(feed.value, IsVeventFn());
        forall e | e in FeedEvents(norm, feed.value, baseUrl)
          ensures exists c :: IsVevent(c) && e == IcsEvent(norm, c, baseUrl)
        {
          var i :| 0 <= i < |f| && Map(f, IcsEventFn(norm, baseUrl))[i] == e;
          FilterMembers(feed.value, IsVeventFn(), f[i]);
          assert IsVevent(f[i]) && e == IcsEvent(norm, f[i], baseUrl);
        }
      }
    }
  }

  /** Every calendar record is in normal form. */
  lemma IcsNormal(md5: string -> Digest, feeds: string -> Option<seq<Component>>, links: seq<string>, baseUrl: string)
    ensures forall e :: e in IcsEvents(NormFn(md5), feeds, links, baseUrl) ==> IsNormal(md5, e)
  {
    IcsOrigin(NormFn(md5), feeds, links, baseUrl);
    forall e | e in IcsEvents(NormFn(md5), feeds, links, baseUrl) ensures IsNormal(md5, e) {
      var c :| IsVevent(c) && e == IcsEvent(NormFn(md5), c, baseUrl);
      NormalizeIsNormal(md5, IcsRaw(c, baseUrl));
    }
  }

  // ---------------------------------------------------------------------
  // isLikelyEvent

  /** The hosts `isLikelyEvent` treats as Chicago-focused, in the script's
      order (navypier.org is listed twice): guides, stages and music
      venues, then campuses, museums, markets and the city's own sites. */
  const CHICAGO_DOMAINS: seq<string> := GUIDE_DOMAINS + VENUE_DOMAINS + CIVIC_DOMAINS

  const GUIDE_DOMAINS: seq<string> := [
    "do312.com", "timeout.com", "choosechicago.com", "chicago.gov", "navypier.org", "chicagoreader.com",
    "chicagomag.com"]

  const VENUE_DOMAINS: seq<string> := [
    "cso.org", "lyricopera.org", "joffrey.org", "chicagoshakes.com", "auditoriumtheatre.org",
    "harristheaterchicago.org", "goodmantheatre.org", "steppenwolf.org", "lookingglasstheatre.org",
    "broadwayinchicago.com", "msg.com", "the-chicago-theatre", "unitedcenter.com", "soldierfield.net",
    "wintrustarena.com", "creditunion1arena.com", "metrochicago.com", "thaliahallchicago.com", "lh-st.com",
    "schubas.com", "subt.net", "bottomlounge.com", "reggieslive.com", "sleeping-village.com",
    "emptybottle.com", "hideoutchicago.com", "joesbar.com", "parkwestchicago.com", "houseofblues.com",
    "saltshedchicago.com", "rivieratheatre.com", "victheatre.com", "aragonballroom.org",
    "copernicuscenter.org", "secondcity.com", "laughfactory.com", "zanies.com"]

  const CIVIC_DOMAINS: seq<string> := [
    "uchicago.edu", "northwestern.edu", "depaul.edu", "uic.edu", "luc.edu", "colum.edu", "iit.edu",
    "artic.edu", "fieldmuseum.org", "lpzoo.org", "msichicago.org", "adlerplanetarium.org",
    "sheddaquarium.org", "chicagohistory.org", "mcachicago.org", "dusablemuseum.org",
    "nationalmuseumofmexicanart.org", "smartmuseum.uchicago.edu", "garfieldconservatory.org", "mocp.org",
    "musicboxtheatre.com", "musicboxfilm.com", "chicagoathletichotel.com", "chicagoartisanmarkets.com",
    "randolphstreetmarket.com", "chicagoparkdistrict.com", "chipublib.org", "navypier.org"]

  /** The host is a listed domain or a subdomain of one. */
  predicate IsChicagoHost(h: string) {
    exists i :: 0 <= i < |CHICAGO_DOMAINS| && (h == CHICAGO_DOMAINS[i] || EndsWith(h, "." + CHICAGO_DOMAINS[i]))
  }

  /** `w` as a whole word at position `i`, ignoring case. */
  predicate WordAt(s: string, i: nat, w: string)
    requires i <= |s|
  {
    i + |w| <= |s| && Lower(s[i..i + |w|]) == w && AtBoundary(s, i) && AtBoundary(s, i + |w|)
  }

  /** `/\b(chicago|il)\b/i` */
  predicate MentionsChicago(s: string) {
    exists i :: 0 <= i <= |s| && (WordAt(s, i, "chicago") || WordAt(s, i, "il"))
  }

  /** `chicagoHint`: the location names Chicago or IL, or the link's host is
      a listed one (a link that does not parse adds nothing). */
  predicate ChicagoHint(env: Env, e: Event) {
    || MentionsChicago(AsString(e.location))
    || (env.parseUrl(AsString(e.eventUrl)).Some? && IsChicagoHost(env.parseUrl(AsString(e.eventUrl)).value.host))
  }

  predicate TitleOk(e: Event) { Truthy(e.title) && |e.title.value| > 3 }
  predicate HasLink(e: Event) { Truthy(e.eventUrl) && IsHttpUrl(e.eventUrl.value) }
  predicate HasPlace(e: Event) { Truthy(e.location) && |e.location.value| > 3 }
  predicate HasDescription(e: Event) { Truthy(e.description) && |e.description.value| > 10 }

  /** The date parses (from the current time). */
  predicate PlausibleDate(env: Env, e: Event) {
    env.parseDate(OrEmpty(e.dateInfo)).Some?
  }

  /** `isLikelyEvent(e)` */
  predicate IsLikelyEvent(env: Env, e: Event) {
    && TitleOk(e) && HasLink(e) && HasPlace(e)
    && (HasDescription(e) || ChicagoHint(env, e))
    && PlausibleDate(env, e) && ChicagoHint(env, e)
  }

  /** The description test never decides: a record passes exactly when its
      title, link, place, date and Chicago hint do, whatever its description. */
  lemma DescriptionIrrelevant(env: Env, e: Event, d: Option<string>)
    ensures IsLikelyEvent(env, e) <==>
      TitleOk(e) && HasLink(e) && HasPlace(e) && PlausibleDate(env, e) && ChicagoHint(env, e)
    ensures IsLikelyEvent(env, e) <==> IsLikelyEvent(env, e.(description := d))
  {
  }

  /** The test reads only the title, date, place, description and link. */
  lemma LikelyReadsOnly(env: Env, a: Event, b: Event)
    requires a.title == b.title && a.dateInfo == b.dateInfo && a.location == b.location
    requires a.description == b.description && a.eventUrl == b.eventUrl
    ensures IsLikelyEvent(env, a) <==> IsLikelyEvent(env, b)
  {
  }

  /** A subdomain of a listed host counts as Chicago-focused. */
  lemma SubdomainIsChicago(h: string)
    requires EndsWith(h, ".do312.com")
    ensures IsChicagoHost(h)
  {
    assert CHICAGO_DOMAINS[0] == GUIDE_DOMAINS[0] == "do312.com";
  }
}
