/** The four extractors of scripts/general-scraper.js and its pagination
    finder. Each extractor visits elements in document order (an element
    matched by several selectors is visited once per selector), decides for
    each one whether it yields a record and under which key, and keeps the
    first record of each key. A `new URL(href, base)` that throws aborts the
    whole extractor. */
module GeneralExtractors {
  import opened Wrappers
  import opened Strings
  import opened Events
  import opened Lists
  import opened Dedupe
  import opened OrderedSets
  import opened RawRecords
  import opened GeneralScraper

  // ---------------------------------------------------------------------
  // The shared skeleton: a `seen` set of keys and an `events` array

  /** How the visit of one element ends: nothing, a thrown URL construction,
      or a record under its dedup key. */
  datatype Visit = Skip | Throw | Emit(key: string, event: Raw)

  function IsEmitFn(): Visit -> bool {
    (v: Visit) => v.Emit?
  }

  function VisitKey(v: Visit): string {
    if v.Emit? then v.key else ""
  }

  function VisitKeyFn(): Visit -> string {
    (v: Visit) => VisitKey(v)
  }

  function VisitEvent(v: Visit): Raw {
    if v.Emit? then v.event else Canonical(None, None, None, None, None, None, None, None)
  }

  function VisitEventFn(): Visit -> Raw {
    (v: Visit) => VisitEvent(v)
  }

  predicate Throws(visits: seq<Visit>) {
    exists i :: 0 <= i < |visits| && visits[i].Throw?
  }

  /** The emitting visits that survive the `seen` test. */
  function Kept(visits: seq<Visit>): seq<Visit> {
    DistinctBy(Filter(visits, IsEmitFn()), VisitKeyFn(), {})
  }

  /** What an extractor returns: nothing when a visit throws, otherwise the
      records of the first emitting visit of each key, in visiting order. */
  function Harvest(visits: seq<Visit>): Option<seq<Raw>> {
    if Throws(visits) then None else Some(Map(Kept(visits), VisitEventFn()))
  }

  /** The keys of the emitting visits. */
  function EmittedKeys(visits: seq<Visit>): set<string> {
    KeysOf(Filter(visits, IsEmitFn()), VisitKeyFn())
  }

  /** One more visit: it is kept exactly when it emits a key not seen yet. */
  lemma KeptSnoc(visits: seq<Visit>, v: Visit)
    ensures Kept(visits + [v]) ==
      Kept(visits) + (if v.Emit? && v.key !in EmittedKeys(visits) then [v] else [])
    ensures EmittedKeys(visits + [v]) == EmittedKeys(visits) + (if v.Emit? then {v.key} else {})
  {
    var emitted := Filter(visits, IsEmitFn());
    FilterSnoc(visits, v, IsEmitFn());
    assert IsEmitFn()(v) == v.Emit? && VisitKeyFn()(v) == VisitKey(v);
    if v.Emit? {
      assert Filter(visits + [v], IsEmitFn()) == emitted + [v];
      assert VisitKeyFn()(v) == v.key;
      DistinctSnoc(emitted, v, VisitKeyFn(), {});
      assert {} + KeysOf(emitted, VisitKeyFn()) == EmittedKeys(visits);
      KeysOfSnoc(emitted + [v], VisitKeyFn(), |emitted|);
      assert (emitted + [v])[..|emitted|] == emitted;
      assert (emitted + [v])[..|emitted| + 1] == emitted + [v];
    } else {
      assert Filter(visits + [v], IsEmitFn()) == emitted;
    }
  }

  /** The extractor loop: skip, push or abort, remembering keys in `seen`. */
  method Collect(visits: seq<Visit>) returns (r: Option<seq<Raw>>)
    ensures r == Harvest(visits)
  {
    var events: seq<Raw> := [];
    var seen: set<string> := {};
    ghost var kept: seq<Visit> := [];
    var i := 0;
    while i < |visits|
      invariant 0 <= i <= |visits|
      invariant forall j :: 0 <= j < i ==> !visits[j].Throw?
      invariant kept == Kept(visits[..i])
      invariant seen == EmittedKeys(visits[..i])
      invariant events == Map(kept, VisitEventFn())
    {
      var v := visits[i];
      if v.Throw? {
        return None;
      }
      KeptSnoc(visits[..i], v);
      assert visits[..i + 1] == visits[..i] + [v];
      if v.Emit? {
        if v.key !in seen {
          events := events + [v.event];
          kept := kept + [v];
        }
        seen := seen + {v.key};
      }
      i := i + 1;
    }
    assert visits[..i] == visits;
    r := Some(events);
  }

  /** An extractor fails exactly when a visit throws; otherwise every record
      it returns was emitted by a visit, no two kept visits share a key, and
      every emitted key is kept. */
  lemma HarvestProperties(visits: seq<Visit>)
    ensures Harvest(visits).None? <==> Throws(visits)
    ensures Harvest(visits).Some? ==>
      |Harvest(visits).value| <= |visits|
      && (forall x :: x in Harvest(visits).value ==> exists i :: 0 <= i < |visits| && visits[i].Emit? && visits[i].event == x)
    ensures UniqueKeys(Kept(visits), VisitKeyFn())
    ensures forall i :: 0 <= i < |visits| && visits[i].Emit? ==> visits[i].key in KeysOf(Kept(visits), VisitKeyFn())
  {
    var emitted := Filter(visits, IsEmitFn());
    DistinctKeysFresh(emitted, VisitKeyFn(), {});
    DistinctKeys(emitted, VisitKeyFn(), {});
    DistinctIsSubsequence(emitted, VisitKeyFn(), {});
    SubsequenceLength(Kept(visits), emitted);
    forall i | 0 <= i < |visits| && visits[i].Emit?
      ensures visits[i].key in KeysOf(Kept(visits), VisitKeyFn())
    {
      FilterMembers(visits, IsEmitFn(), visits[i]);
      var j :| 0 <= j < |emitted| && emitted[j] == visits[i];
      assert VisitKeyFn()(emitted[j]) == visits[i].key;
    }
    if !Throws(visits) {
      forall x | x in Harvest(visits).value
        ensures exists i :: 0 <= i < |visits| && visits[i].Emit? && visits[i].event == x
      {
        var k :| 0 <= k < |Kept(visits)| && VisitEvent(Kept(visits)[k]) == x;
        var v := Kept(visits)[k];
        SubsequenceMembers(Kept(visits), emitted, v);
        FilterMembers(visits, IsEmitFn(), v);
        var i :| 0 <= i < |visits| && visits[i] == v;
      }
    }
  }

  // ---------------------------------------------------------------------
  // Helpers shared by the extractors

  /** `a || b` on two texts. */
  function Either(a: string, b: string): (r: string)
    ensures a != "" ==> r == a
    ensures a == "" ==> r == b
  {
    if a != "" then a else b
  }

  /** `new URL(href, base).toString()`, nothing when the constructor throws. */
  function ResolveHref(env: Env, href: string, base: string): Option<string> {
    var u := env.resolve(href, base);
    if u.None? then None else Some(u.value.href)
  }

  /** `text.split('\n')[0].trim().substring(0, 150)` */
  function FirstLineTitle(text: string): (r: string)
    ensures |r| <= 150 && '\n' !in r
  {
    var line := Split(text, '\n')[0];
    assert forall c :: c in Trim(line) ==> c in line;
    Take(Trim(line), 150)
  }

  /** A record of the canonical fields, each a text. */
  function Card(title: string, dateInfo: string, timeStart: string, location: string,
                description: string, eventUrl: string, price: string): Raw
  {
    Canonical(Some(title), Some(dateInfo), Some(timeStart), Some(location),
              Some(description), Some(eventUrl), Some(""), Some(price))
  }

  /** The limits every extracted record respects: a title of 3..200
      characters, a time of at most 20, a location of at most 200, a
      description of at most 500 and a price of at most 50. */
  predicate CardShape(r: Raw) {
    && r.title.Some? && 3 <= |r.title.value| <= 200
    && r.dateInfo.Some? && r.timeStart.Some? && |r.timeStart.value| <= 20
    && r.location.Some? && r.location.value.PlaceText? && |r.location.value.text| <= 200
    && r.description.Some? && |r.description.value| <= 500
    && r.eventUrl.Some? && r.category == Some("")
    && r.price.Some? && |r.price.value| <= 50
  }

  /** The key the container, table and list extractors dedupe on. */
  function TitleDate(title: string, dateInfo: string): string {
    Trim(Lower(title)) + "|" + dateInfo
  }

  // ---------------------------------------------------------------------
  // extractFromHtmlPatterns

  /** An element matched by one of the container selectors, described by
      what the extractor reads from it: its text, the texts of the first
      heading, link, emphasis, location/venue/address, address, time and
      paragraph inside it ("" when there is none), and its attributes. */
  datatype Container = Container(
    text: string,
    heading: string, linkText: string, strongText: string,
    titleAttr: Option<string>, dataTitle: Option<string>,
    linkHref: Option<string>, href: Option<string>, dataUrl: Option<string>, dataEventUrl: Option<string>,
    placeText: string, addressText: string, timeText: string, paragraphText: string)

  /** The title: first heading, first link, first emphasis, the `title` and
      `data-title` attributes, else the first line cut to 150 characters. */
  function ContainerTitle(el: Container): string {
    Either(Trim(el.heading), Either(Trim(el.linkText), Either(Trim(el.strongText),
      OrEmpty(Or(Or(el.titleAttr, el.dataTitle), Some(FirstLineTitle(el.text)))))))
  }

  /** The link: the first link's href, then `href`, `data-url`, `data-event-url`. */
  function ContainerLink(el: Container): Option<string> {
    Or(Or(Or(el.linkHref, el.href), el.dataUrl), el.dataEventUrl)
  }

  /** Lines two to four of the text, joined by spaces. */
  function MiddleLines(text: string): string {
    var lines := Split(text, '\n');
    Join(lines[1..if |lines| < 4 then |lines| else 4], " ")
  }

  /** One visit of `extractFromHtmlPatterns`. */
  function ContainerVisit(env: Env, scan: Scanner, base: string, el: Container): (r: Visit)
    ensures |el.text| < 15 || |el.text| > 3000 || !Truthy(scan.dateFromText(el.text)) ==> r == Skip
    ensures r.Throw? <==>
      15 <= |el.text| <= 3000 && Truthy(scan.dateFromText(el.text))
      && 3 <= |ContainerTitle(el)| <= 200
      && Truthy(ContainerLink(el)) && ResolveHref(env, ContainerLink(el).value, base).None?
    ensures r.Emit? ==>
      && CardShape(r.event)
      && r.event.title == Some(ContainerTitle(el))
      && r.event.dateInfo == scan.dateFromText(el.text)
      && r.key == TitleDate(r.event.title.value, r.event.dateInfo.value)
      && r.event.eventUrl == (if Truthy(ContainerLink(el)) then ResolveHref(env, ContainerLink(el).value, base) else Some(base))
  {
    var text := el.text;
    var date := scan.dateFromText(text);
    if |text| < 15 || |text| > 3000 || !Truthy(date) then Skip
    else
      var title := ContainerTitle(el);
      if |title| < 3 || |title| > 200 then Skip
      else
        var link := ContainerLink(el);
        var url := if Truthy(link) then ResolveHref(env, link.value, base) else Some(base);
        if url.None? then Throw
        else Emit(TitleDate(title, date.value), ContainerCard(scan, el, title, date.value, url.value))
  }

  /** The record of a container whose title, date and link are known: the
      location, time, description and price fall back as the source reads
      them, each cut to its limit. */
  function ContainerCard(scan: Scanner, el: Container, title: string, date: string, url: string): (r: Raw)
    requires 3 <= |title| <= 200
    ensures CardShape(r)
    ensures r.title == Some(title) && r.dateInfo == Some(date) && r.eventUrl == Some(url)
  {
    var text := el.text;
    var location := Either(ExtractLocation(scan, text), Either(Trim(el.placeText), Trim(el.addressText)));
    var time := Either(ExtractTime(scan, text), Take(Trim(el.timeText), 20));
    var desc := Either(Trim(el.paragraphText), Take(Trim(MiddleLines(text)), 500));
    var price := OrEmpty(scan.priceMatch(text));
    Card(Take(title, 200), date, Take(time, 20), Take(location, 200), Take(desc, 500), url, Take(price, 50))
  }

  function ContainerVisits(env: Env, scan: Scanner, base: string, els: seq<Container>): seq<Visit> {
    Map(els, (el: Container) => ContainerVisit(env, scan, base, el))
  }

  /** Every record of `extractFromHtmlPatterns` respects the limits, comes
      from an element of 15..3000 characters whose text the date extractor
      reads, and no two share a lower-cased trimmed title and date. */
  lemma HtmlPatternsProperties(env: Env, scan: Scanner, base: string, els: seq<Container>)
    requires Harvest(ContainerVisits(env, scan, base, els)).Some?
    ensures forall x :: x in Harvest(ContainerVisits(env, scan, base, els)).value ==>
      CardShape(x) && exists i :: 0 <= i < |els| && 15 <= |els[i].text| <= 3000
                                  && x.dateInfo == scan.dateFromText(els[i].text)
    ensures UniqueKeys(Harvest(ContainerVisits(env, scan, base, els)).value, CardKeyFn())
  {
    var f := (el: Container) => ContainerVisit(env, scan, base, el);
    forall x | x in Harvest(ContainerVisits(env, scan, base, els)).value
      ensures CardShape(x) && exists i :: 0 <= i < |els| && 15 <= |els[i].text| <= 3000
                                        && x.dateInfo == scan.dateFromText(els[i].text)
    {
      var i := HarvestMapped(els, f, x);
      assert f(els[i]) == ContainerVisit(env, scan, base, els[i]);
    }
    HtmlPatternsKeyed(env, scan, base, els);
  }

  lemma HtmlPatternsKeyed(env: Env, scan: Scanner, base: string, els: seq<Container>)
    requires Harvest(ContainerVisits(env, scan, base, els)).Some?
    ensures UniqueKeys(Harvest(ContainerVisits(env, scan, base, els)).value, CardKeyFn())
  {
    var visits := ContainerVisits(env, scan, base, els);
    HarvestProperties(visits);
    forall i | 0 <= i < |visits| && visits[i].Emit?
      ensures visits[i].key == CardKeyFn()(visits[i].event)
    {
      assert visits[i] == ContainerVisit(env, scan, base, els[i]);
    }
    HarvestKeyed(visits, CardKeyFn());
  }

  /** When every visit's key is a function of its record, the records an
      extractor returns have distinct keys. */
  lemma HarvestKeyed(visits: seq<Visit>, key: Raw -> string)
    requires !Throws(visits)
    requires forall i :: 0 <= i < |visits| && visits[i].Emit? ==> visits[i].key == key(visits[i].event)
    ensures UniqueKeys(Harvest(visits).value, key)
  {
    var kept := Kept(visits);
    var out := Harvest(visits).value;
    HarvestProperties(visits);
    forall a, b | 0 <= a < b < |out| ensures key(out[a]) != key(out[b]) {
      KeptFrom(visits, kept[a]);
      KeptFrom(visits, kept[b]);
      var i :| 0 <= i < |visits| && visits[i] == kept[a];
      var j :| 0 <= j < |visits| && visits[j] == kept[b];
      assert VisitKeyFn()(kept[a]) != VisitKeyFn()(kept[b]);
    }
  }

  /** A record an extractor returns was emitted by the visit of some element. */
  lemma HarvestMapped<T>(els: seq<T>, f: T -> Visit, x: Raw) returns (i: nat)
    requires Harvest(Map(els, f)).Some? && x in Harvest(Map(els, f)).value
    ensures i < |els| && f(els[i]).Emit? && f(els[i]).event == x
  {
    HarvestProperties(Map(els, f));
    i :| 0 <= i < |els| && Map(els, f)[i].Emit? && Map(els, f)[i].event == x;
  }

  /** The key of a record: lower-cased trimmed title and date. */
  function CardKey(r: Raw): string {
    TitleDate(OrEmpty(r.title), OrEmpty(r.dateInfo))
  }

  function CardKeyFn(): Raw -> string {
    (r: Raw) => CardKey(r)
  }

  /** A kept visit is one of the visits, and an emitting one. */
  lemma KeptFrom(visits: seq<Visit>, v: Visit)
    requires v in Kept(visits)
    ensures v in visits && v.Emit?
  {
    var emitted := Filter(visits, IsEmitFn());
    DistinctIsSubsequence(emitted, VisitKeyFn(), {});
    SubsequenceMembers(Kept(visits), emitted, v);
    FilterMembers(visits, IsEmitFn(), v);
  }

  // ---------------------------------------------------------------------
  // extractFromTables

  /** The first link inside a cell: its text and its `href`. */
  datatype Anchor = Anchor(text: string, href: Option<string>)

  datatype Cell = Cell(text: string, link: Option<Anchor>)

  /** A `tr`: its whole text and its `td`/`th` cells. */
  datatype Row = Row(text: string, cells: seq<Cell>)

  datatype Table = Table(rows: seq<Row>)

  /** The variables of the cell loop; `threw` once `new URL` has thrown. */
  datatype CellScan = CellScan(title: string, location: string, eventUrl: string, threw: bool)

  /** A cell whose trimmed text is 4..199 characters long can supply the title. */
  predicate TitleCell(c: Cell) {
    3 < |Trim(c.text)| < 200
  }

  /** What a title cell supplies: its first link's trimmed text, else its own. */
  function CellTitle(c: Cell): string {
    if c.link.Some? then Trim(c.link.value.text) else Trim(c.text)
  }

  /** One turn of the cell loop. */
  function CellStep(env: Env, scan: Scanner, base: string, st: CellScan, c: Cell): (r: CellScan)
    ensures st.threw ==> r == st
    ensures !r.threw ==> r.eventUrl == st.eventUrl || (st.title == "" && TitleCell(c) && c.link.Some?)
    ensures !r.threw ==> !st.threw && r.location == Either(st.location, ExtractLocation(scan, Trim(c.text)))
    ensures r.threw ==> r.location == st.location
    ensures !r.threw ==> r.title == (if st.title == "" && TitleCell(c) then CellTitle(c) else st.title)
  {
    if st.threw then st
    else
      var cellText := Trim(c.text);
      var st1 :=
        if st.title == "" && TitleCell(c) then
          if c.link.Some? && Truthy(c.link.value.href) then
            var u := ResolveHref(env, c.link.value.href.value, base);
            if u.None? then st.(title := CellTitle(c), threw := true)
            else st.(title := CellTitle(c), eventUrl := u.value)
          else st.(title := CellTitle(c))
        else st;
      if st1.threw || st1.location != "" then st1
      else
        var loc := ExtractLocation(scan, cellText);
        if loc != "" then st1.(location := loc) else st1
  }

  /** The cell loop over `cells`, from an empty title and location. */
  function ScanCells(env: Env, scan: Scanner, base: string, cells: seq<Cell>): CellScan
    decreases |cells|
  {
    if |cells| == 0 then CellScan("", "", base, false)
    else CellStep(env, scan, base, ScanCells(env, scan, base, cells[..|cells| - 1]), cells[|cells| - 1])
  }

  lemma ScanCellsSnoc(env: Env, scan: Scanner, base: string, cells: seq<Cell>, i: nat)
    requires i < |cells|
    ensures ScanCells(env, scan, base, cells[..i + 1]) == CellStep(env, scan, base, ScanCells(env, scan, base, cells[..i]), cells[i])
  {
    assert cells[..i + 1][..i] == cells[..i];
  }

  /** `cells.each(...)` */
  method ScanRowCells(env: Env, scan: Scanner, base: string, cells: seq<Cell>) returns (st: CellScan)
    ensures st == ScanCells(env, scan, base, cells)
  {
    st := CellScan("", "", base, false);
    var i := 0;
    while i < |cells| && !st.threw
      invariant 0 <= i <= |cells|
      invariant st == ScanCells(env, scan, base, cells[..i])
    {
      ScanCellsSnoc(env, scan, base, cells, i);
      st := CellStep(env, scan, base, st, cells[i]);
      i := i + 1;
    }
    if i < |cells| {
      ThrownStays(env, scan, base, cells, i);
    } else {
      assert cells[..i] == cells;
    }
  }

  /** Once thrown, the scan stays as it is. */
  lemma {:induction false} ThrownStays(env: Env, scan: Scanner, base: string, cells: seq<Cell>, i: nat)
    requires i <= |cells|
    requires ScanCells(env, scan, base, cells[..i]).threw
    ensures ScanCells(env, scan, base, cells) == ScanCells(env, scan, base, cells[..i])
    decreases |cells| - i
  {
    if i < |cells| {
      ScanCellsSnoc(env, scan, base, cells, i);
      ThrownStays(env, scan, base, cells, i + 1);
    } else {
      assert cells[..i] == cells;
    }
  }

  /** The location a cell's trimmed text yields. */
  function CellLocation(scan: Scanner, c: Cell): string {
    ExtractLocation(scan, Trim(c.text))
  }

  function NoLocationFn(scan: Scanner): Cell -> bool {
    (c: Cell) => CellLocation(scan, c) == ""
  }

  /** The location is the first one any cell yields, "" when none does. */
  lemma {:induction false} ScanCellsLocation(env: Env, scan: Scanner, base: string, cells: seq<Cell>)
    ensures var st := ScanCells(env, scan, base, cells);
      && (st.location == "" || 3 < |st.location| < 200)
      && (!st.threw ==> (st.location == "" <==> All(cells, NoLocationFn(scan))))
    decreases |cells|
  {
    if |cells| > 0 {
      var n := |cells| - 1;
      var init := cells[..n];
      ScanCellsLocation(env, scan, base, init);
      ScanCellsSnoc(env, scan, base, cells, n);
      assert cells[..n + 1] == cells;
      var prev := ScanCells(env, scan, base, init);
      var st := ScanCells(env, scan, base, cells);
      assert st == CellStep(env, scan, base, prev, cells[n]);
      AllSnoc(cells, NoLocationFn(scan));
    }
  }

  /** Once the loop completes, a non-empty title is what some title cell
      supplies; an empty one means every title cell supplied "". */
  lemma {:induction false} ScanCellsTitle(env: Env, scan: Scanner, base: string, cells: seq<Cell>)
    ensures var st := ScanCells(env, scan, base, cells);
      && (!st.threw && st.title != "" ==> exists k :: 0 <= k < |cells| && TitleCell(cells[k]) && st.title == CellTitle(cells[k]))
      && (!st.threw && st.title == "" ==> All(cells, UntitledFn()))
    decreases |cells|
  {
    if |cells| > 0 {
      var n := |cells| - 1;
      var init := cells[..n];
      ScanCellsTitle(env, scan, base, init);
      ScanCellsSnoc(env, scan, base, cells, n);
      assert cells[..n + 1] == cells;
      var prev := ScanCells(env, scan, base, init);
      var st := ScanCells(env, scan, base, cells);
      assert st == CellStep(env, scan, base, prev, cells[n]);
      AllSnoc(cells, UntitledFn());
    }
  }

  /** The cell supplies no title. */
  function UntitledFn(): Cell -> bool {
    (c: Cell) => TitleCell(c) ==> CellTitle(c) == ""
  }

  /** One row of `extractFromTables`: at least two cells, a date in the
      row's text, and a title of at least 3 characters from the cell loop. */
  function RowVisit(env: Env, scan: Scanner, base: string, row: Row): (r: Visit)
    ensures |row.cells| < 2 || !Truthy(scan.dateFromText(row.text)) ==> r == Skip
    ensures r.Throw? <==> |row.cells| >= 2 && Truthy(scan.dateFromText(row.text))
                          && ScanCells(env, scan, base, row.cells).threw
    ensures r.Emit? ==>
      && CardShape(r.event) && r.event.price == Some("")
      && var st := ScanCells(env, scan, base, row.cells);
         |st.title| >= 3 && r.event.title == Some(Take(st.title, 200))
         && r.key == TitleDate(st.title, r.event.dateInfo.value)
         && r.event.dateInfo == scan.dateFromText(row.text)
         && r.event.description == Some(Take(row.text, 500))
         && r.event.eventUrl == Some(st.eventUrl)
  {
    var date := scan.dateFromText(row.text);
    if |row.cells| < 2 || !Truthy(date) then Skip
    else
      var st := ScanCells(env, scan, base, row.cells);
      if st.threw then Throw
      else if |st.title| < 3 then Skip
      else
        Emit(TitleDate(st.title, date.value),
             Card(Take(st.title, 200), date.value, Take(ExtractTime(scan, row.text), 20),
                  Take(st.location, 200), Take(row.text, 500), st.eventUrl, ""))
  }

  /** The rows of the tables with at least two rows, in document order. */
  function TableRows(tables: seq<Table>): seq<Row> {
    RowsOf(tables)
  }

  function RowsOf(tables: seq<Table>): seq<Row>
    decreases |tables|
  {
    if |tables| == 0 then []
    else
      var n := |tables| - 1;
      RowsOf(tables[..n]) + (if |tables[n].rows| >= 2 then tables[n].rows else [])
  }

  /** Only tables with at least two rows contribute, each with all its rows. */
  lemma {:induction false} TableRowsFrom(tables: seq<Table>)
    ensures forall row :: row in RowsOf(tables) <==> exists t :: t in tables && |t.rows| >= 2 && row in t.rows
    decreases |tables|
  {
    if |tables| > 0 {
      var n := |tables| - 1;
      TableRowsFrom(tables[..n]);
      assert tables == tables[..n] + [tables[n]];
      forall row ensures row in RowsOf(tables) <==> exists t :: t in tables && |t.rows| >= 2 && row in t.rows {
        if row in RowsOf(tables) && row !in RowsOf(tables[..n]) {
          assert tables[n] in tables;
        }
        if t :| t in tables && |t.rows| >= 2 && row in t.rows {
          if t != tables[n] {
            assert t in tables[..n];
          }
        }
      }
    }
  }

  function RowVisitFn(env: Env, scan: Scanner, base: string): Row -> Visit {
    (row: Row) => RowVisit(env, scan, base, row)
  }

  function RowVisits(env: Env, scan: Scanner, base: string, tables: seq<Table>): seq<Visit> {
    Map(TableRows(tables), RowVisitFn(env, scan, base))
  }

  /** Every record of `extractFromTables` respects the limits and carries
      the date read from a row with at least two cells (a row of a table with
      at least two rows, by `TableRows`). */
  lemma TablesProperties(env: Env, scan: Scanner, base: string, tables: seq<Table>)
    requires Harvest(RowVisits(env, scan, base, tables)).Some?
    ensures forall x :: x in Harvest(RowVisits(env, scan, base, tables)).value ==>
      CardShape(x) && exists i :: 0 <= i < |TableRows(tables)| && |TableRows(tables)[i].cells| >= 2
                                  && x.dateInfo == scan.dateFromText(TableRows(tables)[i].text)
  {
    var rows := TableRows(tables);
    var f := RowVisitFn(env, scan, base);
    assert RowVisits(env, scan, base, tables) == Map(rows, f);
    forall x | x in Harvest(RowVisits(env, scan, base, tables)).value
      ensures CardShape(x) && exists i :: 0 <= i < |TableRows(tables)| && |TableRows(tables)[i].cells| >= 2
                                        && x.dateInfo == scan.dateFromText(TableRows(tables)[i].text)
    {
      var i := HarvestMapped(rows, f, x);
      var v := RowVisit(env, scan, base, rows[i]);
      assert v.Emit? && v.event == x;
    }
  }

  // ---------------------------------------------------------------------
  // extractFromListItems

  /** A `li` or `[role="listitem"]`: its text, the text and `href` of its
      first link ("" and nothing when it has none) and of its first emphasis. */
  datatype Item = Item(text: string, linkText: string, linkHref: Option<string>, strongText: string)

  function ItemTitle(li: Item): string {
    Either(Trim(li.linkText), Either(Trim(li.strongText), FirstLineTitle(li.text)))
  }

  /** One visit of `extractFromListItems`. */
  function ItemVisit(env: Env, scan: Scanner, base: string, li: Item): (r: Visit)
    ensures |li.text| < 20 || |li.text| > 1000 || !Truthy(scan.dateFromText(li.text)) || |ItemTitle(li)| < 3 ==> r == Skip
    ensures r.Throw? <==> 20 <= |li.text| <= 1000 && Truthy(scan.dateFromText(li.text)) && |ItemTitle(li)| >= 3
                          && Truthy(li.linkHref) && ResolveHref(env, li.linkHref.value, base).None?
    ensures r.Emit? ==>
      && CardShape(r.event) && r.event.price == Some("")
      && r.event.title == Some(Take(ItemTitle(li), 200))
      && r.key == TitleDate(ItemTitle(li), r.event.dateInfo.value)
      && r.event.dateInfo == scan.dateFromText(li.text)
      && r.event.description == Some(Take(li.text, 500))
      && r.event.eventUrl == (if Truthy(li.linkHref) then ResolveHref(env, li.linkHref.value, base) else Some(base))
  {
    var date := scan.dateFromText(li.text);
    if |li.text| < 20 || |li.text| > 1000 || !Truthy(date) then Skip
    else
      var title := ItemTitle(li);
      if |title| < 3 then Skip
      else
        var url := if Truthy(li.linkHref) then ResolveHref(env, li.linkHref.value, base) else Some(base);
        if url.None? then Throw
        else
          Emit(TitleDate(title, date.value),
               Card(Take(title, 200), date.value, Take(ExtractTime(scan, li.text), 20),
                    Take(ExtractLocation(scan, li.text), 200), Take(li.text, 500), url.value, ""))
  }

  function ItemVisits(env: Env, scan: Scanner, base: string, items: seq<Item>): seq<Visit> {
    Map(items, (li: Item) => ItemVisit(env, scan, base, li))
  }

  /** Every record of `extractFromListItems` respects the limits and comes
      from an item of 20..1000 characters whose text the date extractor reads. */
  lemma ListItemsProperties(env: Env, scan: Scanner, base: string, items: seq<Item>)
    requires Harvest(ItemVisits(env, scan, base, items)).Some?
    ensures forall x :: x in Harvest(ItemVisits(env, scan, base, items)).value ==>
      CardShape(x) && exists i :: 0 <= i < |items| && 20 <= |items[i].text| <= 1000
                                  && x.dateInfo == scan.dateFromText(items[i].text)
                                  && x.description == Some(Take(items[i].text, 500))
  {
    var visits := ItemVisits(env, scan, base, items);
    HarvestProperties(visits);
    forall x | x in Harvest(visits).value
      ensures CardShape(x) && exists i :: 0 <= i < |items| && 20 <= |items[i].text| <= 1000
                                        && x.dateInfo == scan.dateFromText(items[i].text)
                                        && x.description == Some(Take(items[i].text, 500))
    {
      var i :| 0 <= i < |visits| && visits[i].Emit? && visits[i].event == x;
      assert visits[i] == ItemVisit(env, scan, base, items[i]);
    }
  }

  // ---------------------------------------------------------------------
  // extractFromEventLinks

  /** A link matched by one of the event-path selectors: its `href`, its
      text, and the texts of its parent and grandparent. */
  datatype LinkEl = LinkEl(href: Option<string>, text: string, parentText: string, grandparentText: string)

  /** `c` with `-` and `_` replaced by a space. */
  function Unslug(s: string): (r: string)
    ensures |r| == |s| && '-' !in r && '_' !in r
    ensures forall i :: 0 <= i < |s| ==> r[i] == (if s[i] == '-' || s[i] == '_' then ' ' else s[i])
  {
    seq(|s|, i requires 0 <= i < |s| => if s[i] == '-' || s[i] == '_' then ' ' else s[i])
  }

  /** `href.split('/').pop()` with `-` and `_` replaced by spaces. */
  function LastSegment(href: string): (r: string)
    ensures '/' !in r && '-' !in r && '_' !in r
  {
    var parts := Split(href, '/');
    Unslug(parts[|parts| - 1])
  }

  /** The title: the link's trimmed text, else its last path segment, else "Event". */
  function LinkTitle(el: LinkEl, href: string): string {
    Either(Trim(el.text), Either(LastSegment(href), "Event"))
  }

  /** The text around the link: the parent's, else the grandparent's. */
  function LinkContext(el: LinkEl): string {
    Either(el.parentText, el.grandparentText)
  }

  /** One visit of `extractFromEventLinks`. */
  function LinkVisit(env: Env, scan: Scanner, base: string, el: LinkEl): (r: Visit)
    ensures !Truthy(el.href) ==> r == Skip
    ensures r.Throw? <==> Truthy(el.href) && ResolveHref(env, el.href.value, base).None?
    ensures r.Emit? ==>
      && Truthy(el.href) && CardShape(r.event)
      && r.event.eventUrl == ResolveHref(env, el.href.value, base)
      && (Truthy(scan.dateFromText(LinkContext(el))) || |Trim(el.text)| >= 5)
  {
    if !Truthy(el.href) then Skip
    else
      var full := ResolveHref(env, el.href.value, base);
      if full.None? then Throw
      else LinkEmit(scan, el, el.href.value, full.value)
  }

  /** The rest of the visit once the `href` has resolved to `full`. */
  function LinkEmit(scan: Scanner, el: LinkEl, href: string, full: string): (r: Visit)
    ensures !r.Throw?
    ensures r.Emit? ==>
      && CardShape(r.event) && r.event.price == Some("")
      && r.event.eventUrl == Some(full)
      && (Truthy(scan.dateFromText(LinkContext(el))) || |Trim(el.text)| >= 5)
      && r.event.dateInfo == Some(OrEmpty(scan.dateFromText(LinkContext(el))))
      && r.event.title == Some(Take(LinkTitle(el, href), 200))
      && r.key == Lower(LinkTitle(el, href)) + "|" + r.event.dateInfo.value
  {
    var linkText := Trim(el.text);
    var context := LinkContext(el);
    var date := scan.dateFromText(context);
    if !Truthy(date) && |linkText| < 5 then Skip
    else
      var title := LinkTitle(el, href);
      if |title| < 3 then Skip
      else
        var dateInfo := if Truthy(date) then date.value else "";
        Emit(Lower(title) + "|" + dateInfo,
             Card(Take(title, 200), dateInfo, Take(ExtractTime(scan, context), 20),
                  Take(ExtractLocation(scan, context), 200), Take(context, 500), full, ""))
  }

  /** The link a record of `extractFromEventLinks` came from: it has an
      `href` that resolves to the record's URL, and a date in its context or
      a text of at least 5 characters. */
  predicate LinkSource(env: Env, scan: Scanner, base: string, el: LinkEl, x: Raw) {
    && Truthy(el.href)
    && x.eventUrl == ResolveHref(env, el.href.value, base)
    && (Truthy(scan.dateFromText(LinkContext(el))) || |Trim(el.text)| >= 5)
  }

  function LinkVisitFn(env: Env, scan: Scanner, base: string): LinkEl -> Visit {
    (el: LinkEl) => LinkVisit(env, scan, base, el)
  }

  function LinkVisits(env: Env, scan: Scanner, base: string, links: seq<LinkEl>): seq<Visit> {
    Map(links, LinkVisitFn(env, scan, base))
  }

  /** Every record of `extractFromEventLinks` respects the limits and points
      at the resolved `href` of a visited link that has a date in its context
      or a link text of at least 5 characters. */
  lemma EventLinksProperties(env: Env, scan: Scanner, base: string, links: seq<LinkEl>)
    requires Harvest(LinkVisits(env, scan, base, links)).Some?
    ensures forall x :: x in Harvest(LinkVisits(env, scan, base, links)).value ==>
      CardShape(x) && exists i :: 0 <= i < |links| && LinkSource(env, scan, base, links[i], x)
  {
    var f := LinkVisitFn(env, scan, base);
    forall x | x in Harvest(LinkVisits(env, scan, base, links)).value
      ensures CardShape(x) && exists i :: 0 <= i < |links| && LinkSource(env, scan, base, links[i], x)
    {
      var i := HarvestMapped(links, f, x);
      var v := LinkVisit(env, scan, base, links[i]);
      assert v.Emit? && v.event == x;
    }
  }

  // ---------------------------------------------------------------------
  // findPaginationLinks

  /** A resolved URL the finder accepts: not the page itself, no fragment,
      and mentioning "page", "offset" or "p=". */
  predicate PageCandidate(base: string, url: string) {
    && url != base && '#' !in url
    && (Contains(url, "page") || Contains(url, "offset") || Contains(url, "p="))
  }

  /** The accepted resolved hrefs of the matched anchors, in order; an
      `href` that is missing or fails to resolve is passed over. */
  function Candidates(env: Env, base: string, hrefs: seq<Option<string>>): (r: seq<string>)
    ensures forall u :: u in r ==> PageCandidate(base, u)
    decreases |hrefs|
  {
    if |hrefs| == 0 then []
    else
      var n := |hrefs| - 1;
      var h := hrefs[n];
      var u := if Truthy(h) then ResolveHref(env, h.value, base) else None;
      Candidates(env, base, hrefs[..n]) + (if u.Some? && PageCandidate(base, u.value) then [u.value] else [])
  }

  lemma CandidatesSnoc(env: Env, base: string, hrefs: seq<Option<string>>, i: nat)
    requires i < |hrefs|
    ensures Candidates(env, base, hrefs[..i + 1]) == Candidates(env, base, hrefs[..i]) +
      (if Truthy(hrefs[i]) && ResolveHref(env, hrefs[i].value, base).Some?
          && PageCandidate(base, ResolveHref(env, hrefs[i].value, base).value)
       then [ResolveHref(env, hrefs[i].value, base).value] else [])
  {
    assert hrefs[..i + 1][..i] == hrefs[..i];
  }

  /** `findPaginationLinks($, baseUrl)`: the first ten distinct candidates. */
  function PaginationLinks(env: Env, base: string, hrefs: seq<Option<string>>): seq<string> {
    var all := AddAll([], Candidates(env, base, hrefs));
    all[..if |all| < 10 then |all| else 10]
  }

  /** The loop of `findPaginationLinks`. */
  method FindPaginationLinks(env: Env, base: string, hrefs: seq<Option<string>>) returns (r: seq<string>)
    ensures r == PaginationLinks(env, base, hrefs)
  {
    var links: seq<string> := [];
    var i := 0;
    while i < |hrefs|
      invariant 0 <= i <= |hrefs|
      invariant links == AddAll([], Candidates(env, base, hrefs[..i]))
    {
      CandidatesSnoc(env, base, hrefs, i);
      var h := hrefs[i];
      var u := if Truthy(h) then ResolveHref(env, h.value, base) else None;
      if u.Some? && PageCandidate(base, u.value) {
        AddAllSnoc([], Candidates(env, base, hrefs[..i]), u.value);
        if u.value !in links {
          links := links + [u.value];
        }
      } else {
        assert Candidates(env, base, hrefs[..i + 1]) == Candidates(env, base, hrefs[..i]);
      }
      i := i + 1;
    }
    assert hrefs[..i] == hrefs;
    r := links[..if |links| < 10 then |links| else 10];
  }

  /** At most ten links, no two equal, none the page itself or with a
      fragment, each mentioning "page", "offset" or "p=", and each the
      resolution of one of the hrefs. */
  lemma PaginationProperties(env: Env, base: string, hrefs: seq<Option<string>>)
    ensures |PaginationLinks(env, base, hrefs)| <= 10
    ensures Distinct(PaginationLinks(env, base, hrefs))
    ensures forall u :: u in PaginationLinks(env, base, hrefs) ==>
      PageCandidate(base, u) && exists i :: 0 <= i < |hrefs| && Truthy(hrefs[i]) && ResolveHref(env, hrefs[i].value, base) == Some(u)
  {
    var cs := Candidates(env, base, hrefs);
    AddAllProperties([], cs);
    CandidatesFrom(env, base, hrefs);
  }

  lemma {:induction false} CandidatesFrom(env: Env, base: string, hrefs: seq<Option<string>>)
    ensures forall u :: u in Candidates(env, base, hrefs) ==>
      exists i :: 0 <= i < |hrefs| && Truthy(hrefs[i]) && ResolveHref(env, hrefs[i].value, base) == Some(u)
    decreases |hrefs|
  {
    if |hrefs| > 0 {
      var n := |hrefs| - 1;
      CandidatesFrom(env, base, hrefs[..n]);
      forall u | u in Candidates(env, base, hrefs)
        ensures exists i :: 0 <= i < |hrefs| && Truthy(hrefs[i]) && ResolveHref(env, hrefs[i].value, base) == Some(u)
      {
        if u in Candidates(env, base, hrefs[..n]) {
          var i :| 0 <= i < n && Truthy(hrefs[..n][i]) && ResolveHref(env, hrefs[..n][i].value, base) == Some(u);
          assert hrefs[..n][i] == hrefs[i];
        }
      }
    }
  }
}
