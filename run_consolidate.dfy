/** The consolidation chain of scripts/run-consolidate.js: copy the URL alias
    into `event_url`, give records from trusted Chicago hosts the location
    "Chicago" when they have none, admit plausible events, derive `_ts`,
    drop later duplicates, and sort soonest first with undated records last.
    scripts/quick-generate.js runs the same chain with another `_ts` rule, so
    the chain is stated once, over the stamping step. */
module RunConsolidate {
  import opened Wrappers
  import opened Strings
  import opened Events
  import opened Dedupe
  import opened Sorting
  import opened Lists
  import opened Temporal

  /** Title fragments that mark a page as an announcement, not an event. */
  const BANNED_FRAGMENTS: seq<string> := [
    "permit", "application", "foia", "request", "guide", "inspection", "framework", "faq", "templates", "homepage",
    "view all news", "press", "program agreement", "ordinance", "executed", "amendment", "contract", "agreement",
    "notice", "policy", "standards"]

  /** Hosts whose pages are events in Chicago even without a location. */
  const TRUSTED_DOMAINS: seq<string> := [
    "do312.com", "timeout.com", "www.timeout.com", "choosechicago.com", "www.choosechicago.com",
    "chicago.gov", "www.chicago.gov", "chicagomag.com", "www.chicagomag.com", "blockclubchicago.org",
    "www.blockclubchicago.org", "eventbrite.com", "www.eventbrite.com", "navypier.org", "www.navypier.org"]

  /** The alternatives of the month-name date shape (`sept` as well as `sep`). */
  const MONTH_NAMES: seq<string> := [
    "jan", "feb", "mar", "apr", "may", "jun", "jul", "aug", "sep", "sept", "oct", "nov", "dec"]

  // ---------------------------------------------------------------------
  // The stages, one record at a time
  // ---------------------------------------------------------------------

  /** `event_url: e.event_url || e.url || e.source_url || ''` */
  function Alias(e: Event): (r: Event)
    ensures r == e.(eventUrl := r.eventUrl)
    ensures Truthy(e.eventUrl) ==> r == e
    ensures !Truthy(e.eventUrl) && Truthy(e.url) ==> r.eventUrl == e.url
    ensures !Truthy(e.eventUrl) && !Truthy(e.url) && Truthy(e.sourceUrl) ==> r.eventUrl == e.sourceUrl
    ensures !Truthy(e.eventUrl) && !Truthy(e.url) && !Truthy(e.sourceUrl) ==> r.eventUrl == Some("")
  {
    e.(eventUrl := Or(e.eventUrl, Or(e.url, Or(e.sourceUrl, Some("")))))
  }

  /** `typeof e.location === 'string' && e.location.trim().length > 3` */
  predicate HasLocation(e: Event) {
    e.location.Some? && |Trim(e.location.value)| > 3
  }

  /** The host test of `isTrustedChicagoSource`: an allowlisted domain or a subdomain of one. */
  predicate TrustedHost(h: string) {
    exists k :: 0 <= k < |TRUSTED_DOMAINS| && (h == TRUSTED_DOMAINS[k] || EndsWith(h, "." + TRUSTED_DOMAINS[k]))
  }

  /** `isTrustedChicagoSource(url)`: false when the URL is absent or does not parse. */
  predicate IsTrusted(env: Env, url: Option<string>) {
    url.Some? && HostOf(env, url.value).Some? && TrustedHost(HostOf(env, url.value).value)
  }

  lemma ChicagoIsALocation()
    ensures |Trim("Chicago")| > 3
  {
    var c := "Chicago";
    assert !IsSpace(c[0]) && !IsSpace(c[|c| - 1]);
    TrimUnspaced(c);
  }

  /** A trusted record without a usable location gets "Chicago"; nothing else changes. */
  function Fallback(env: Env, e: Event): (r: Event)
    ensures !HasLocation(e) && IsTrusted(env, e.eventUrl) ==> r == e.(location := Some("Chicago"))
    ensures HasLocation(e) || !IsTrusted(env, e.eventUrl) ==> r == e
    ensures IsTrusted(env, r.eventUrl) ==> HasLocation(r)
  {
    ChicagoIsALocation();
    if !HasLocation(e) && IsTrusted(env, e.eventUrl) then e.(location := Some("Chicago")) else e
  }

  /** White space, then a digit. */
  predicate DigitAfterSpaces(s: string) {
    var t := TrimStart(s);
    t != [] && IsDigit(t[0])
  }

  /** `/(jan|…|dec)\.?\s*[0-3]?\d/` matches at position `i`. */
  predicate MonthDayAt(s: string, i: nat)
    requires i <= |s|
  {
    exists k :: 0 <= k < |MONTH_NAMES| && StartsWith(s[i..], MONTH_NAMES[k]) &&
      var rest := s[i + |MONTH_NAMES[k]|..];
      DigitAfterSpaces(rest) || (rest != [] && rest[0] == '.' && DigitAfterSpaces(rest[1..]))
  }

  /** The month-name date shape occurs somewhere in `s`. */
  predicate MonthDayShape(s: string) {
    exists i: nat :: i <= |s| && MonthDayAt(s, i)
  }

  /** `hasPlausibleDate(ev)`: one of the three date shapes in the lowercased
      date text, or else a successful parse of it. */
  predicate HasPlausibleDate(env: Env, e: Event) {
    var s := Lower(OrEmpty(e.dateInfo));
    MonthDayShape(s) || env.dateShape(s) || env.parseDate(OrEmpty(e.dateInfo)).Some?
  }

  /** `String(e.title || '').trim()` */
  function AdmissionTitle(e: Event): string {
    Trim(OrEmpty(e.title))
  }

  /** `typeof e.event_url === 'string' && e.event_url.startsWith('http')` */
  predicate HasUrl(e: Event) {
    e.eventUrl.Some? && StartsWith(e.eventUrl.value, "http")
  }

  predicate LooksLikeAnnouncement(e: Event) {
    (exists k :: 0 <= k < |BANNED_FRAGMENTS| && Contains(Lower(AdmissionTitle(e)), BANNED_FRAGMENTS[k]))
    || Contains(OrEmpty(e.description), "#cds-separator")
    || Contains(OrEmpty(e.description), "console.log(")
  }

  /** A date shape or parse, a start time of at least three characters, or a
      parse of title and date together. */
  predicate Plausible(env: Env, e: Event) {
    HasPlausibleDate(env, e)
    || (e.timeStart.Some? && |e.timeStart.value| >= 3)
    || env.parseDate(AdmissionTitle(e) + " " + OrEmpty(e.dateInfo)).Some?
  }

  /** The admission filter. */
  predicate Admit(env: Env, e: Event) {
    AdmissionTitle(e) != [] && HasUrl(e)
    && (HasLocation(e) || IsTrusted(env, e.eventUrl))
    && Plausible(env, e)
    && !LooksLikeAnnouncement(e)
  }

  /** `{ ...e, _ts: deriveTimestamp(e.date_info, e.time_start) }` */
  function Stamp(env: Env, e: Event): (r: Event)
    ensures r == e.(ts := r.ts)
    ensures r.ts == DeriveTimestamp(env, e.dateInfo, e.timeStart)
  {
    e.(ts := DeriveTimestamp(env, e.dateInfo, e.timeStart))
  }

  function StampFn(env: Env): Event -> Event {
    e => Stamp(env, e)
  }

  /** The sort comparator as "may come first": dated before undated, dated by
      `_ts`, undated by title. */
  predicate EventLe(a: Event, b: Event) {
    if a.ts.Some? && b.ts.Some? then a.ts.value <= b.ts.value
    else if a.ts.Some? then true
    else if b.ts.Some? then false
    else LexLe(AsString(a.title), AsString(b.title))
  }

  // ---------------------------------------------------------------------
  // The stages over the record list
  // ---------------------------------------------------------------------

  /** A stamping step sets `_ts` and nothing else, from fields it does not set. */
  ghost predicate StampsOnlyTs(stamp: Event -> Event) {
    forall e :: stamp(e) == e.(ts := stamp(e).ts) && stamp(stamp(e)) == stamp(e)
  }

  function Aliased(s: seq<Event>): (r: seq<Event>)
    ensures |r| == |s| && forall i :: 0 <= i < |s| ==> r[i] == Alias(s[i])
  {
    Map(s, Alias)
  }

  function Located(env: Env, s: seq<Event>): (r: seq<Event>)
    ensures |r| == |s| && forall i :: 0 <= i < |s| ==> r[i] == Fallback(env, s[i])
  {
    Map(s, e => Fallback(env, e))
  }

  /** The admitted records, in their order. */
  function Admitted(env: Env, s: seq<Event>): (r: seq<Event>)
    ensures forall x :: x in r <==> x in s && Admit(env, x)
    ensures IsSubsequence(r, s)
  {
    var p := e => Admit(env, e);
    forall x ensures x in Filter(s, p) <==> x in s && Admit(env, x) {
      FilterMembers(s, p, x);
    }
    FilterIsSubsequence(s, p);
    Filter(s, p)
  }

  /** The first record per title|collapsed-date key. */
  function Deduped(s: seq<Event>): (r: seq<Event>)
    ensures IsSubsequence(r, s)
    ensures UniqueKeys(r, TitleSpacedDateKey)
    ensures KeysOf(r, TitleSpacedDateKey) == KeysOf(s, TitleSpacedDateKey)
  {
    KeepFirstProperties(s, TitleSpacedDateKey);
    KeepFirst(s, TitleSpacedDateKey)
  }

  lemma EventLeTotalPreorder()
    ensures Total(EventLe) && Transitive(EventLe)
  {
    forall a, b ensures EventLe(a, b) || EventLe(b, a) {
      LexLeTotal(AsString(a.title), AsString(b.title));
    }
    forall a, b, c | EventLe(a, b) && EventLe(b, c) ensures EventLe(a, c) {
      if a.ts.None? && b.ts.None? && c.ts.None? {
        LexLeTransitive(AsString(a.title), AsString(b.title), AsString(c.title));
      }
    }
  }

  /** Soonest first, undated last; a permutation of the input. */
  function Ordered(s: seq<Event>): (r: seq<Event>)
    ensures multiset(r) == multiset(s)
    ensures SortedBy(r, EventLe)
  {
    EventLeTotalPreorder();
    SortSorted(s, EventLe);
    SortBy(s, EventLe)
  }

  /** The whole chain, with the stamping step as a parameter. */
  function Chain(env: Env, data: seq<Event>, stamp: Event -> Event): seq<Event> {
    Ordered(Deduped(Map(Admitted(env, Located(env, Aliased(data))), stamp)))
  }

  /** The chain of scripts/run-consolidate.js. */
  function Pipeline(env: Env, data: seq<Event>): seq<Event> {
    Chain(env, data, StampFn(env))
  }

  // ---------------------------------------------------------------------
  // What the chain promises
  // ---------------------------------------------------------------------

  lemma ChainMemberStamped(env: Env, data: seq<Event>, stamp: Event -> Event, x: Event)
    requires x in Chain(env, data, stamp)
    ensures x in Map(Admitted(env, Located(env, Aliased(data))), stamp)
  {
    var stamped := Map(Admitted(env, Located(env, Aliased(data))), stamp);
    var deduped := Deduped(stamped);
    assert x in multiset(deduped);
    SubsequenceMembers(deduped, stamped, x);
  }

  lemma StampedMember(env: Env, s: seq<Event>, stamp: Event -> Event, x: Event)
    requires x in Map(Admitted(env, s), stamp)
    ensures exists y :: y in s && Admit(env, y) && x == stamp(y)
  {
    var admitted := Admitted(env, s);
    var j :| 0 <= j < |admitted| && Map(admitted, stamp)[j] == x;
    assert admitted[j] in admitted;
  }

  lemma LocatedMember(env: Env, data: seq<Event>, y: Event) returns (i: int)
    requires y in Located(env, Aliased(data))
    ensures 0 <= i < |data| && y == Fallback(env, Alias(data[i]))
  {
    var located := Located(env, Aliased(data));
    i :| 0 <= i < |located| && located[i] == y;
  }

  /** An output record is an admitted input record after alias, fallback and
      stamping; `i` is its input position. */
  lemma ChainMember(env: Env, data: seq<Event>, stamp: Event -> Event, x: Event) returns (i: int)
    requires x in Chain(env, data, stamp)
    ensures 0 <= i < |data| && x == stamp(Fallback(env, Alias(data[i])))
    ensures Admit(env, Fallback(env, Alias(data[i])))
  {
    var located := Located(env, Aliased(data));
    ChainMemberStamped(env, data, stamp, x);
    StampedMember(env, located, stamp, x);
    var y :| y in located && Admit(env, y) && x == stamp(y);
    i := LocatedMember(env, data, y);
  }

  /** Stamping keeps what the admission test saw. */
  lemma StampedAdmitted(env: Env, y: Event, x: Event)
    requires Admit(env, y) && x == y.(ts := x.ts)
    requires IsTrusted(env, y.eventUrl) ==> HasLocation(y)
    ensures AdmissionTitle(x) != [] && HasUrl(x) && HasLocation(x)
      && Plausible(env, x) && !LooksLikeAnnouncement(x)
  {
  }

  /** Every output record is an input record after alias, fallback and
      stamping, and passes the admission test with a usable location. */
  lemma ChainAdmits(env: Env, data: seq<Event>, stamp: Event -> Event)
    requires StampsOnlyTs(stamp)
    ensures forall x :: x in Chain(env, data, stamp) ==>
      (exists i :: 0 <= i < |data| && x == stamp(Fallback(env, Alias(data[i]))))
      && AdmissionTitle(x) != [] && HasUrl(x) && HasLocation(x)
      && Plausible(env, x) && !LooksLikeAnnouncement(x)
  {
    forall x | x in Chain(env, data, stamp)
      ensures (exists i :: 0 <= i < |data| && x == stamp(Fallback(env, Alias(data[i]))))
      && AdmissionTitle(x) != [] && HasUrl(x) && HasLocation(x)
      && Plausible(env, x) && !LooksLikeAnnouncement(x)
    {
      var i := ChainMember(env, data, stamp, x);
      var y := Fallback(env, Alias(data[i]));
      assert x == y.(ts := x.ts);
      StampedAdmitted(env, y, x);
    }
  }

  /** Every key of an admitted record is represented in the output. */
  lemma ChainCovers(env: Env, data: seq<Event>, stamp: Event -> Event, i: int)
    requires StampsOnlyTs(stamp)
    requires 0 <= i < |data| && Admit(env, Fallback(env, Alias(data[i])))
    ensures exists x :: (x in Chain(env, data, stamp)
      && TitleSpacedDateKey(x) == TitleSpacedDateKey(Fallback(env, Alias(data[i]))))
  {
    var located := Located(env, Aliased(data));
    var admitted := Admitted(env, located);
    var stamped := Map(admitted, stamp);
    var deduped := Deduped(stamped);
    var y := Fallback(env, Alias(data[i]));
    assert located[i] == y;
    assert y in admitted;
    var j :| 0 <= j < |admitted| && admitted[j] == y;
    assert stamped[j] == stamp(y);
    assert stamp(y) == y.(ts := stamp(y).ts);
    var k := TitleSpacedDateKey(y);
    assert TitleSpacedDateKey(stamped[j]) == k;
    assert k in KeysOf(stamped, TitleSpacedDateKey);
    var m :| 0 <= m < |deduped| && TitleSpacedDateKey(deduped[m]) == k;
    assert deduped[m] in multiset(Chain(env, data, stamp));
  }

  /** No two output records share the title|collapsed-date key. */
  lemma ChainUnique(env: Env, data: seq<Event>, stamp: Event -> Event)
    ensures UniqueKeys(Chain(env, data, stamp), TitleSpacedDateKey)
  {
    var deduped := Deduped(Map(Admitted(env, Located(env, Aliased(data))), stamp));
    SortUnique(deduped, EventLe, TitleSpacedDateKey);
  }

  /** Dated records come first in ascending `_ts`, undated ones after, by title. */
  lemma ChainOrdered(env: Env, data: seq<Event>, stamp: Event -> Event)
    ensures var r := Chain(env, data, stamp);
      forall i, j :: 0 <= i < j < |r| ==>
        (r[j].ts.Some? ==> r[i].ts.Some? && r[i].ts.value <= r[j].ts.value)
        && (r[i].ts.None? ==> LexLe(AsString(r[i].title), AsString(r[j].title)))
  {
    var r := Chain(env, data, stamp);
    forall i, j | 0 <= i < j < |r|
      ensures (r[j].ts.Some? ==> r[i].ts.Some? && r[i].ts.value <= r[j].ts.value)
        && (r[i].ts.None? ==> LexLe(AsString(r[i].title), AsString(r[j].title)))
    {
      assert EventLe(r[i], r[j]);
    }
  }

  /** Every output record is left alone by each stage of the chain. */
  lemma ChainOutputFixed(env: Env, data: seq<Event>, stamp: Event -> Event)
    requires StampsOnlyTs(stamp)
    ensures var r := Chain(env, data, stamp);
      forall i :: 0 <= i < |r| ==>
        Alias(r[i]) == r[i] && Fallback(env, r[i]) == r[i] && Admit(env, r[i]) && stamp(r[i]) == r[i]
  {
    var r := Chain(env, data, stamp);
    ChainAdmits(env, data, stamp);
    forall i | 0 <= i < |r|
      ensures Alias(r[i]) == r[i] && Fallback(env, r[i]) == r[i] && Admit(env, r[i]) && stamp(r[i]) == r[i]
    {
      assert r[i] in r;
      var k :| 0 <= k < |data| && r[i] == stamp(Fallback(env, Alias(data[k])));
      assert r[i] == r[i].(ts := r[i].ts);
    }
  }

  /** Alias, fallback, admission and stamping leave fixed records alone. */
  lemma StagesOfFixed(env: Env, r: seq<Event>, stamp: Event -> Event)
    requires forall i :: 0 <= i < |r| ==>
      Alias(r[i]) == r[i] && Fallback(env, r[i]) == r[i] && Admit(env, r[i]) && stamp(r[i]) == r[i]
    ensures Map(Admitted(env, Located(env, Aliased(r))), stamp) == r
  {
    AliasedFixed(r);
    LocatedFixed(env, r);
    AdmittedAll(env, r);
    MapFixed(r, stamp);
  }

  lemma AliasedFixed(r: seq<Event>)
    requires forall i :: 0 <= i < |r| ==> Alias(r[i]) == r[i]
    ensures Aliased(r) == r
  {
  }

  lemma LocatedFixed(env: Env, r: seq<Event>)
    requires forall i :: 0 <= i < |r| ==> Fallback(env, r[i]) == r[i]
    ensures Located(env, r) == r
  {
  }

  lemma AdmittedAll(env: Env, r: seq<Event>)
    requires forall i :: 0 <= i < |r| ==> Admit(env, r[i])
    ensures Admitted(env, r) == r
  {
    var p := e => Admit(env, e);
    assert forall i :: 0 <= i < |r| ==> p(r[i]);
    FilterAllPass(r, p);
  }

  /** The chain leaves alone an ordered list of fixed records with unique keys. */
  lemma ChainOfFixed(env: Env, r: seq<Event>, stamp: Event -> Event)
    requires forall i :: 0 <= i < |r| ==>
      Alias(r[i]) == r[i] && Fallback(env, r[i]) == r[i] && Admit(env, r[i]) && stamp(r[i]) == r[i]
    requires UniqueKeys(r, TitleSpacedDateKey) && SortedBy(r, EventLe)
    ensures Chain(env, r, stamp) == r
  {
    StagesOfFixed(env, r, stamp);
    KeepFirstIsDistinct(r, TitleSpacedDateKey);
    DistinctOfUnique(r, TitleSpacedDateKey, {});
    assert Deduped(r) == r;
    SortOfSorted(r, EventLe);
    assert Ordered(r) == r;
  }

  /** Running the chain on its own output changes nothing. */
  lemma ChainIdempotent(env: Env, data: seq<Event>, stamp: Event -> Event)
    requires StampsOnlyTs(stamp)
    ensures Chain(env, Chain(env, data, stamp), stamp) == Chain(env, data, stamp)
  {
    ChainOutputFixed(env, data, stamp);
    ChainUnique(env, data, stamp);
    ChainOfFixed(env, Chain(env, data, stamp), stamp);
  }

  lemma StampFnOnlyTs(env: Env)
    ensures StampsOnlyTs(StampFn(env))
  {
  }

  /** Every kept record passes the admission test, has a usable location and
      the derived `_ts`; keys are unique; dated records come first in
      ascending `_ts`, then undated ones by title; a second run changes nothing. */
  lemma PipelineProperties(env: Env, data: seq<Event>)
    ensures forall x :: x in Pipeline(env, data) ==>
      AdmissionTitle(x) != [] && HasUrl(x) && HasLocation(x) && Plausible(env, x) && !LooksLikeAnnouncement(x)
      && x.ts == DeriveTimestamp(env, x.dateInfo, x.timeStart)
    ensures UniqueKeys(Pipeline(env, data), TitleSpacedDateKey)
    ensures var r := Pipeline(env, data);
      forall i, j :: 0 <= i < j < |r| ==>
        (r[j].ts.Some? ==> r[i].ts.Some? && r[i].ts.value <= r[j].ts.value)
        && (r[i].ts.None? ==> LexLe(AsString(r[i].title), AsString(r[j].title)))
    ensures Pipeline(env, Pipeline(env, data)) == Pipeline(env, data)
  {
    StampFnOnlyTs(env);
    ChainAdmits(env, data, StampFn(env));
    ChainUnique(env, data, StampFn(env));
    ChainOrdered(env, data, StampFn(env));
    ChainIdempotent(env, data, StampFn(env));
    forall x | x in Pipeline(env, data) ensures x.ts == DeriveTimestamp(env, x.dateInfo, x.timeStart) {
      var i := ChainMember(env, data, StampFn(env), x);
    }
  }

  /** Every admitted input record's key is in the output. */
  lemma PipelineCovers(env: Env, data: seq<Event>, i: int)
    requires 0 <= i < |data| && Admit(env, Fallback(env, Alias(data[i])))
    ensures exists x :: (x in Pipeline(env, data)
      && TitleSpacedDateKey(x) == TitleSpacedDateKey(Fallback(env, Alias(data[i]))))
  {
    StampFnOnlyTs(env);
    ChainCovers(env, data, StampFn(env), i);
  }

  /** A title with a banned fragment, in any letter case, is never admitted. */
  lemma BannedTitleRejected(env: Env, e: Event, k: int)
    requires 0 <= k < |BANNED_FRAGMENTS|
    requires Contains(Lower(AdmissionTitle(e)), BANNED_FRAGMENTS[k])
    ensures !Admit(env, e)
  {
  }

  /** The lowercased, trimmed title "FOIA Request Guide" contains "foia". */
  lemma FoiaTitle(t: string)
    requires t == "FOIA Request Guide"
    ensures Contains(Lower(Trim(t)), "foia")
  {
    assert t[0] == 'F' && t[|t| - 1] == 'e';
    TrimUnspaced(t);
    assert t[..4] == "FOIA";
    LowerFoia(t);
  }

  lemma LowerFoia(t: string)
    requires |t| >= 4 && t[..4] == "FOIA"
    ensures StartsWith(Lower(t), "foia")
  {
    var low := Lower(t);
    assert t[0] == 'F' && t[1] == 'O' && t[2] == 'I' && t[3] == 'A';
    assert low[0] == 'f' && low[1] == 'o' && low[2] == 'i' && low[3] == 'a';
    assert low[..4] == "foia";
  }

  lemma FoiaIsBanned(s: string)
    requires Contains(s, "foia")
    ensures Contains(s, BANNED_FRAGMENTS[2])
  {
    assert BANNED_FRAGMENTS[2] == "foia";
  }

  /** "FOIA Request Guide" is rejected whatever else the record holds. */
  lemma FoiaGuideRejected(env: Env, e: Event)
    requires e.title == Some("FOIA Request Guide")
    ensures !Admit(env, e)
  {
    FoiaTitle(e.title.value);
    FoiaIsBanned(Lower(AdmissionTitle(e)));
    BannedTitleRejected(env, e, 2);
  }

  /** A month name followed by white space and a digit is the month-name shape. */
  lemma MonthDayWitness(s: string, i: nat, k: int)
    requires i <= |s| && 0 <= k < |MONTH_NAMES|
    requires StartsWith(s[i..], MONTH_NAMES[k]) && DigitAfterSpaces(s[i + |MONTH_NAMES[k]|..])
    ensures MonthDayShape(s)
  {
    assert MonthDayAt(s, i);
  }

  lemma SepIsAMonth(s: string, i: nat)
    requires i + 3 <= |s| && s[i..][..3] == "sep" && DigitAfterSpaces(s[i + 3..])
    ensures MonthDayShape(s)
  {
    assert MONTH_NAMES[8] == "sep";
    MonthDayWitness(s, i, 8);
  }

  /** Text with "sep 2" at position 8 has the month-name shape. */
  lemma SeptemberShape(s: string)
    requires |s| >= 13 && s[8] == 's' && s[9] == 'e' && s[10] == 'p' && s[11] == ' ' && s[12] == '2'
    ensures MonthDayShape(s)
  {
    assert s[8..][..3] == "sep";
    var rest := s[11..];
    assert rest[0] == ' ' && rest[1] == '2';
    assert TrimStart(rest) == TrimStart(rest[1..]) == rest[1..];
    SepIsAMonth(s, 8);
  }

  /** "Through Sep 21" has the month-name date shape, whatever the parser says. */
  lemma ThroughSeptemberPlausible(env: Env, e: Event)
    requires e.dateInfo == Some("Through Sep 21")
    ensures HasPlausibleDate(env, e)
  {
    var d := e.dateInfo.value;
    var s := Lower(d);
    assert s[8] == 's' && s[9] == 'e' && s[10] == 'p' && s[11] == ' ' && s[12] == '2';
    SeptemberShape(s);
  }

  /** A subdomain of an allowlisted domain is trusted. */
  lemma SubdomainTrusted(sub: string, k: int)
    requires 0 <= k < |TRUSTED_DOMAINS|
    ensures TrustedHost(sub + "." + TRUSTED_DOMAINS[k])
  {
    var d := TRUSTED_DOMAINS[k];
    SuffixEndsWith(sub, "." + d);
    assert sub + "." + d == sub + ("." + d);
  }

  lemma SuffixEndsWith(s: string, p: string)
    ensures EndsWith(s + p, p)
  {
    assert (s + p)[|s|..] == p;
  }
}
