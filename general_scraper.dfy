/** scripts/general-scraper.js: pull event-like records out of arbitrary
    listing pages with heuristics (containers, tables, list items, event
    links), follow a few detail and pagination pages, and keep the first of
    each title|date among the records that look like events.

    The page itself is not modelled as a DOM: each extractor receives the
    elements its selectors visit, each described by the texts and attributes
    the extractor reads. The regular expressions the extractors try in turn
    are given as the first match (or capture group) of each pattern. */
module GeneralScraper {
  import opened Wrappers
  import opened Strings
  import opened Calendar
  import opened Events
  import opened Temporal
  import opened Lists
  import opened Dedupe
  import opened OrderedSets
  import opened RawRecords

  // ---------------------------------------------------------------------
  // normalizeEvent

  /** `normalizeEvent(e)`: the first set alias of each field; title and
      description trimmed; every field a text, empty when nothing is set. */
  function NormalizeEvent(e: Raw): (r: Event)
    ensures Truthy(e.title) ==> r.title == Some(Trim(e.title.value))
    ensures !Truthy(e.title) && Truthy(e.name) ==> r.title == Some(Trim(e.name.value))
    ensures !Truthy(e.title) && !Truthy(e.name) ==> r.title == Some("")
    ensures Truthy(e.eventUrl) ==> r.eventUrl == e.eventUrl
    ensures !Truthy(e.eventUrl) && Truthy(e.url) ==> r.eventUrl == e.url
    ensures !Truthy(e.eventUrl) && !Truthy(e.url) && Truthy(e.link) ==> r.eventUrl == e.link
    ensures !Truthy(e.eventUrl) && !Truthy(e.url) && !Truthy(e.link) ==> r.eventUrl == Some("")
    ensures r.dateInfo.Some? && r.timeStart.Some? && r.location.Some? && r.description.Some?
    ensures r.category.Some? && r.price.Some?
    ensures r.url.None? && r.sourceUrl.None? && r.ts.None? && r.id.None?
  {
    var title := Or(e.title, e.name);
    assert !Truthy(e.title) && !Truthy(e.name) ==> Trim(OrEmpty(title)) == "";
    Record(Trim(OrEmpty(title)),
           OrEmpty(Or(Or(Or(e.dateInfo, e.startDate), e.start), e.date)),
           OrEmpty(Or(e.timeStart, e.startTime)),
           LocationString(RawLocation(e)),
           Trim(OrEmpty(e.description)),
           OrEmpty(Or(Or(e.eventUrl, e.url), e.link)),
           OrEmpty(Or(e.category, e.kind)),
           OrEmpty(e.price))
  }

  /** A normalised record read back as a raw one. */
  function AsRaw(e: Event): Raw {
    Canonical(e.title, e.dateInfo, e.timeStart, e.location, e.description, e.eventUrl, e.category, e.price)
  }

  /** A record in normal form: every canonical field a text, title and
      description trimmed, nothing else set. */
  predicate IsNormal(n: Event) {
    && n.title.Some? && n.dateInfo.Some? && n.timeStart.Some? && n.location.Some?
    && n.description.Some? && n.eventUrl.Some? && n.category.Some? && n.price.Some?
    && n.url.None? && n.sourceUrl.None? && n.ts.None? && n.latitude.None? && n.longitude.None? && n.id.None?
    && Trim(n.title.value) == n.title.value && Trim(n.description.value) == n.description.value
  }

  lemma NormalFixed(n: Event)
    requires IsNormal(n)
    ensures NormalizeEvent(AsRaw(n)) == n
  {
    var a := AsRaw(n);
    assert RawLocation(a) == LocText(n.location.value);
    OrNone(n.title);
    OrNone(n.dateInfo);
    OrNone(n.timeStart);
    OrNone(n.description);
    OrNone(n.eventUrl);
    OrNone(n.category);
  }

  /** An alias that is never set adds nothing to `x || alias || ''`. */
  lemma OrNone(x: Option<string>)
    ensures Or(Or(x, None), None) == Or(x, None)
    ensures OrEmpty(Or(x, None)) == OrEmpty(x)
  {
  }

  /** `normalizeEvent` yields normal records, and normalising a normalised
      record changes nothing. */
  lemma NormalizeIdempotent(e: Raw)
    ensures IsNormal(NormalizeEvent(e))
    ensures NormalizeEvent(AsRaw(NormalizeEvent(e))) == NormalizeEvent(e)
  {
    TrimIdempotent(OrEmpty(Or(e.title, e.name)));
    TrimIdempotent(OrEmpty(e.description));
    NormalFixed(NormalizeEvent(e));
  }

  lemma TrimIdempotent(s: string)
    ensures Trim(Trim(s)) == Trim(s)
  {
    if Trim(s) != [] {
      TrimUnspaced(Trim(s));
    }
  }

  // ---------------------------------------------------------------------
  // deriveTimestamp

  /** 365 days in milliseconds. */
  const YEAR_MS: int := 365 * DAY_MS

  /** `deriveTimestamp(dateInfo, timeStart)` of this script: the shared
      derivation, then nothing for a date more than 365 days before now. */
  function DeriveTimestamp(env: Env, dateInfo: Option<string>, timeStart: Option<string>): (r: Option<int>)
    ensures r.Some? ==> r == Temporal.DeriveTimestamp(env, dateInfo, timeStart) && r.value >= env.now.ms - YEAR_MS
    ensures r.None? && Temporal.DeriveTimestamp(env, dateInfo, timeStart).Some? ==>
      Temporal.DeriveTimestamp(env, dateInfo, timeStart).value < env.now.ms - YEAR_MS
  {
    var d := Temporal.DeriveTimestamp(env, dateInfo, timeStart);
    if d.Some? && d.value < env.now.ms - YEAR_MS then None else d
  }

  /** The cutoff never drops a rescued month and day: the rescue lands at
      most a day in the past. */
  lemma RescueSurvivesCutoff(env: Env, dateInfo: Option<string>, timeStart: Option<string>)
    requires ClockValid(env.now)
    requires !ParseUsable(env, env.parseDate(ParseInput(dateInfo, timeStart)))
    requires RescuedMonthDay(env.scanDate(OrEmpty(dateInfo))).0 != 0
    requires RescuedMonthDay(env.scanDate(OrEmpty(dateInfo))).1 != 0
    ensures DeriveTimestamp(env, dateInfo, timeStart) == Temporal.DeriveTimestamp(env, dateInfo, timeStart)
    ensures DeriveTimestamp(env, dateInfo, timeStart).Some?
  {
    RescuedWhenUnparsed(env, dateInfo, timeStart);
  }

  // ---------------------------------------------------------------------
  // extractTimeFromText, extractLocationFromText

  /** What the patterns the extractors consult yield on a text. */
  datatype Scanner = Scanner(
    dateFromText: string -> Option<string>,            // extractDateFromText(text)
    timeMatches: string -> seq<Option<string>>,        // whole match of each time pattern, in order
    locationGroups: string -> seq<Option<string>>,     // first group of each location pattern, in order
    priceMatch: string -> Option<string>)              // the price pattern's match

  /** The first pattern that matches. */
  function FirstMatch(ms: seq<Option<string>>): (r: Option<string>)
    ensures r.Some? <==> exists i :: 0 <= i < |ms| && ms[i].Some?
    ensures r.Some? ==> exists i :: 0 <= i < |ms| && ms[i] == r && forall j :: 0 <= j < i ==> ms[j].None?
    decreases |ms|
  {
    if |ms| == 0 then None
    else if ms[0].Some? then ms[0]
    else
      var r := FirstMatch(ms[1..]);
      assert forall i :: 1 <= i < |ms| ==> ms[i] == ms[1..][i - 1];
      r
  }

  /** `m.replace(/^(at|@)\s*\/i, '')` */
  function StripAt(m: string): (r: string)
    ensures |r| <= |m|
    ensures |m| > 0 && m[0] == '@' ==> r == TrimStart(m[1..])
    ensures |m| >= 2 && LowerChar(m[0]) == 'a' && LowerChar(m[1]) == 't' ==> r == TrimStart(m[2..])
    ensures !(|m| > 0 && m[0] == '@') && !(|m| >= 2 && LowerChar(m[0]) == 'a' && LowerChar(m[1]) == 't') ==> r == m
  {
    if |m| >= 2 && LowerChar(m[0]) == 'a' && LowerChar(m[1]) == 't' then TrimStart(m[2..])
    else if |m| > 0 && m[0] == '@' then TrimStart(m[1..])
    else m
  }

  /** `extractTimeFromText(text)`: nothing for an empty text; else the first
      matching time pattern's match without a leading "at" or "@", trimmed
      and cut to 20 characters. */
  function ExtractTime(scan: Scanner, text: string): (r: string)
    ensures |r| <= 20
    ensures text == "" ==> r == ""
    ensures r == [] || !IsSpace(r[0])
    ensures text != "" && FirstMatch(scan.timeMatches(text)).Some? ==>
      r == Take(Trim(StripAt(FirstMatch(scan.timeMatches(text)).value)), 20)
    ensures FirstMatch(scan.timeMatches(text)).None? ==> r == ""
  {
    if text == "" then ""
    else
      var m := FirstMatch(scan.timeMatches(text));
      if m.None? then "" else Take(Trim(StripAt(m.value)), 20)
  }

  /** The first capture group that is set and trims to 4..199 characters. */
  function FirstLocation(groups: seq<Option<string>>): (r: string)
    ensures r == "" || (3 < |r| < 200 && !IsSpace(r[0]) && !IsSpace(r[|r| - 1]))
    decreases |groups|
  {
    if |groups| == 0 then ""
    else if Truthy(groups[0]) && 3 < |Trim(groups[0].value)| < 200 then Trim(groups[0].value)
    else FirstLocation(groups[1..])
  }

  /** A location found is one of the groups, trimmed; none is found exactly
      when no set group trims to an acceptable length. */
  lemma {:induction false} FirstLocationChoice(groups: seq<Option<string>>)
    ensures var r := FirstLocation(groups);
      && (r != "" ==> exists i :: 0 <= i < |groups| && Truthy(groups[i]) && r == Trim(groups[i].value))
      && (r == "" <==> forall i :: 0 <= i < |groups| && Truthy(groups[i]) ==> !(3 < |Trim(groups[i].value)| < 200))
    decreases |groups|
  {
    if |groups| > 0 {
      if Truthy(groups[0]) && 3 < |Trim(groups[0].value)| < 200 {
        assert FirstLocation(groups) == Trim(groups[0].value);
      } else {
        var rest := groups[1..];
        FirstLocationChoice(rest);
        var r := FirstLocation(rest);
        assert FirstLocation(groups) == r;
        if r != "" {
          var i :| 0 <= i < |rest| && Truthy(rest[i]) && r == Trim(rest[i].value);
          assert groups[i + 1] == rest[i];
        } else {
          forall i | 0 <= i < |groups| && Truthy(groups[i]) ensures !(3 < |Trim(groups[i].value)| < 200) {
            if i > 0 {
              assert groups[i] == rest[i - 1];
            }
          }
        }
      }
    }
  }

  /** `extractLocationFromText(text)`: nothing for an empty text, else the
      first trimmed capture of 4..199 characters. */
  function ExtractLocation(scan: Scanner, text: string): (r: string)
    ensures r == "" || (3 < |r| < 200 && !IsSpace(r[0]) && !IsSpace(r[|r| - 1]))
    ensures text == "" ==> r == ""
    ensures text != "" ==> r == FirstLocation(scan.locationGroups(text))
  {
    if text == "" then "" else FirstLocation(scan.locationGroups(text))
  }

  // ---------------------------------------------------------------------
  // isLikelyEvent and the final filter of main()

  /** `isLikelyEvent(e)`: a title of 4..199 characters, an http(s) event URL,
      and a date the parser reads as lying between a year (365 days) ago and
      two years (730 days) ahead. */
  predicate IsLikelyEvent(env: Env, e: Event) {
    && Truthy(e.title) && 3 < |e.title.value| < 200
    && Truthy(e.eventUrl) && IsHttpUrl(e.eventUrl.value)
    && var d := env.parseDate(OrEmpty(e.dateInfo));
       d.Some? && env.now.ms - YEAR_MS <= d.value.ms <= env.now.ms + 2 * YEAR_MS
  }

  function LikelyFn(env: Env): Event -> bool {
    (e: Event) => IsLikelyEvent(env, e)
  }

  /** The record with its `_ts`. */
  function Stamp(env: Env, e: Event): Event {
    e.(ts := DeriveTimestamp(env, e.dateInfo, e.timeStart))
  }

  function StampFn(env: Env): Event -> Event {
    (e: Event) => Stamp(env, e)
  }

  /** The final chain of `main()`: keep the likely events, stamp them, and
      keep the first record of each title|date key. */
  function FinalEvents(env: Env, results: seq<Event>): seq<Event> {
    KeepFirst(Map(Filter(results, LikelyFn(env)), StampFn(env)), TitleDateKey)
  }

  /** Every record written is a likely event with its `_ts` derived (so never
      more than a year old), no two share a title|date key, they come in
      result order, and every key of a likely result is represented. */
  lemma FinalEventsProperties(env: Env, results: seq<Event>)
    ensures forall x :: x in FinalEvents(env, results) ==>
      IsLikelyEvent(env, x) && x.ts == DeriveTimestamp(env, x.dateInfo, x.timeStart)
      && (x.ts.Some? ==> x.ts.value >= env.now.ms - YEAR_MS)
    ensures UniqueKeys(FinalEvents(env, results), TitleDateKey)
    ensures IsSubsequence(FinalEvents(env, results), Map(Filter(results, LikelyFn(env)), StampFn(env)))
    ensures KeysOf(FinalEvents(env, results), TitleDateKey) ==
      KeysOf(Map(Filter(results, LikelyFn(env)), StampFn(env)), TitleDateKey)
  {
    var likely := Filter(results, LikelyFn(env));
    var stamped := Map(likely, StampFn(env));
    KeepFirstProperties(stamped, TitleDateKey);
    forall x | x in FinalEvents(env, results)
      ensures IsLikelyEvent(env, x) && x.ts == DeriveTimestamp(env, x.dateInfo, x.timeStart)
    {
      SubsequenceMembers(FinalEvents(env, results), stamped, x);
      var i :| 0 <= i < |stamped| && stamped[i] == x;
      assert LikelyFn(env)(likely[i]);
    }
  }
}
