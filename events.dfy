/** The event record the scripts pass around as a JSON object, the opaque
    collaborators they consult (clock, natural-language date parser, the date
    patterns, URL parsing), and the deduplication keys built from a record. */
module Events {
  import opened Wrappers
  import opened Strings
  import opened Calendar

  /** An event record. Every field may be absent; `ts` is `_ts`, the derived
      timestamp, as a local-time millisecond value. */
  datatype Event = Event(
    title: Option<string>,
    dateInfo: Option<string>,
    timeStart: Option<string>,
    location: Option<string>,
    description: Option<string>,
    eventUrl: Option<string>,
    url: Option<string>,
    sourceUrl: Option<string>,
    category: Option<string>,
    price: Option<string>,
    ts: Option<int>,
    latitude: Option<real>,
    longitude: Option<real>,
    id: Option<string>)

  /** A record with the eight string fields the extractors fill in. */
  function Record(title: string, dateInfo: string, timeStart: string, location: string,
                  description: string, eventUrl: string, category: string, price: string): Event
  {
    Event(Some(title), Some(dateInfo), Some(timeStart), Some(location), Some(description),
          Some(eventUrl), None, None, Some(category), Some(price), None, None, None, None)
  }

  /** What `Number(...)` makes of a month captured by `[01]?\d`. */
  type NumericMonth = m: int | 0 <= m <= 19
  /** What `Number(...)` makes of a day captured by `[0-3]?\d`. */
  type DayDigits = d: int | 0 <= d <= 39
  /** A month abbreviation looked up in the month table. */
  type MonthIndex = m: int | 1 <= m <= 12 witness 1

  /** The two fallback patterns of the date rescue: the first `m/d` (or `m-d`)
      match and the first month-name-and-day match, when present. */
  datatype DateScan = DateScan(numeric: Option<(NumericMonth, DayDigits)>,
                               named: Option<(MonthIndex, DayDigits)>)

  /** What `new URL(u)` exposes: `origin`, `hostname`, `pathname`, and `toString()`. */
  datatype UrlParts = UrlParts(origin: string, host: string, path: string, href: string)

  /** The collaborators the scripts call and this model does not look inside. */
  datatype Env = Env(
    now: Moment,                                // new Date()
    parseDate: string -> Option<Moment>,        // chrono.parseDate(text, now), null or a throw as None
    scanDate: string -> DateScan,               // the two patterns of the date rescue
    dateShape: string -> bool,                  // the two numeric date-shape patterns (y-m-d, m/d) of the admission check
    parseUrl: string -> Option<UrlParts>,       // new URL(u), None when it throws
    resolve: (string, string) -> Option<UrlParts> // new URL(href, base), None when it throws
  )

  /** `new URL(u).hostname`, None when the constructor throws. */
  function HostOf(env: Env, u: string): Option<string> {
    if env.parseUrl(u).Some? then Some(env.parseUrl(u).value.host) else None
  }

  /** `/^https?:\/\//.test(s)` */
  predicate IsHttpUrl(s: string) {
    StartsWith(s, "http://") || StartsWith(s, "https://")
  }

  /** `String(e.title).toLowerCase().trim()` */
  function NormTitle(e: Event): string {
    Trim(Lower(AsString(e.title)))
  }

  /** `String(e.date_info || '').toLowerCase().trim()` */
  function NormDate(e: Event): string {
    Trim(Lower(OrEmpty(e.dateInfo)))
  }

  /** Key of the scrapers' final filters: title|date. */
  function TitleDateKey(e: Event): string {
    NormTitle(e) + "|" + NormDate(e)
  }

  /** Key of the consolidation filters: title|date with white space collapsed. */
  function TitleSpacedDateKey(e: Event): string {
    NormTitle(e) + "|" + Trim(CollapseSpaces(Lower(OrEmpty(e.dateInfo))))
  }

  /** Key of the dataset mergers: title|date|location. */
  function TitleDateLocationKey(e: Event): string {
    NormTitle(e) + "|" + NormDate(e) + "|" + Trim(Lower(OrEmpty(e.location)))
  }
}
