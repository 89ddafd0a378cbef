/** scripts/quick-generate.js: the consolidation chain of
    scripts/run-consolidate.js (same alias, fallback, admission test,
    deduplication key and sort), except that `_ts` is the parser's reading of
    the date and time alone, with no rescue and no year rollover. */
module QuickGenerate {
  import opened Wrappers
  import opened Strings
  import opened Events
  import opened Dedupe
  import opened Temporal
  import opened RunConsolidate

  /** `_ts`: absent unless `date_info` is non-empty and the parser reads
      `date_info` plus the start time. */
  function QuickTs(env: Env, e: Event): (r: Option<int>)
    ensures !Truthy(e.dateInfo) ==> r == None
    ensures Truthy(e.dateInfo) ==>
      (r.Some? <==> env.parseDate(ParseInput(e.dateInfo, e.timeStart)).Some?)
    ensures r.Some? ==> r.value == env.parseDate(ParseInput(e.dateInfo, e.timeStart)).value.ms
  {
    if Truthy(e.dateInfo) then
      var parsed := env.parseDate(ParseInput(e.dateInfo, e.timeStart));
      if parsed.Some? then Some(parsed.value.ms) else None
    else None
  }

  function QuickStamp(env: Env, e: Event): Event {
    e.(ts := QuickTs(env, e))
  }

  function QuickStampFn(env: Env): Event -> Event {
    e => QuickStamp(env, e)
  }

  /** The chain of scripts/quick-generate.js. */
  function Pipeline(env: Env, data: seq<Event>): seq<Event> {
    Chain(env, data, QuickStampFn(env))
  }

  /** Where the parser's year is within two of now's, both scripts agree on
      `_ts`; otherwise this one keeps the parse (or nothing) where the other
      rescues a month and day. */
  lemma QuickTsAgainstDerived(env: Env, e: Event)
    requires Truthy(e.dateInfo)
    ensures ParseUsable(env, env.parseDate(ParseInput(e.dateInfo, e.timeStart))) ==>
      QuickTs(env, e) == DeriveTimestamp(env, e.dateInfo, e.timeStart)
    ensures env.parseDate(ParseInput(e.dateInfo, e.timeStart)).None? ==> QuickTs(env, e) == None
  {
    if ParseUsable(env, env.parseDate(ParseInput(e.dateInfo, e.timeStart))) {
      ParserWins(env, e.dateInfo, e.timeStart);
    }
  }

  lemma QuickStampOnlyTs(env: Env)
    ensures StampsOnlyTs(QuickStampFn(env))
  {
  }

  /** Every kept record passes the admission test, has a usable location and
      the `_ts` of this script; keys are unique; dated records come first in
      ascending `_ts`, then undated ones by title; a second run changes nothing. */
  lemma PipelineProperties(env: Env, data: seq<Event>)
    ensures forall x :: x in Pipeline(env, data) ==>
      AdmissionTitle(x) != [] && HasUrl(x) && HasLocation(x) && Plausible(env, x) && !LooksLikeAnnouncement(x)
      && x.ts == QuickTs(env, x)
    ensures UniqueKeys(Pipeline(env, data), TitleSpacedDateKey)
    ensures var r := Pipeline(env, data);
      forall i, j :: 0 <= i < j < |r| ==>
        (r[j].ts.Some? ==> r[i].ts.Some? && r[i].ts.value <= r[j].ts.value)
        && (r[i].ts.None? ==> LexLe(AsString(r[i].title), AsString(r[j].title)))
    ensures Pipeline(env, Pipeline(env, data)) == Pipeline(env, data)
  {
    QuickStampOnlyTs(env);
    ChainAdmits(env, data, QuickStampFn(env));
    ChainUnique(env, data, QuickStampFn(env));
    ChainOrdered(env, data, QuickStampFn(env));
    ChainIdempotent(env, data, QuickStampFn(env));
    forall x | x in Pipeline(env, data) ensures x.ts == QuickTs(env, x) {
      var i := ChainMember(env, data, QuickStampFn(env), x);
    }
  }

  /** A kept record whose date text is empty is undated, and so is every record after it. */
  lemma EmptyDateUndated(env: Env, data: seq<Event>, x: Event)
    requires x in Pipeline(env, data)
    requires !Truthy(x.dateInfo)
    ensures x.ts == None
    ensures var r := Pipeline(env, data);
      forall j, k :: 0 <= j < k < |r| && r[j] == x ==> r[k].ts == None
  {
    PipelineProperties(env, data);
  }
}
