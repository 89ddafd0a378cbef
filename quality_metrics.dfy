/** scripts/quality-metrics.js: group the records of a dataset by the host of
    their event URL, count per host the records, the complete ones and those
    without a description, and report the hosts by decreasing record count. */
module QualityMetrics {
  import opened Wrappers
  import opened Strings
  import opened Events
  import opened Dedupe
  import opened Lists
  import opened Sorting
  import opened OrderedSets
  import MergeDatasets
  import ValidateDataset

  /** `isValid(e)`: as in the validator, except that a record counts as
      dated when it has `_ts` or any date text, parsed or not. */
  predicate IsValid(e: Event) {
    && e.title.Some? && |e.title.value| > 3
    && e.eventUrl.Some? && IsHttpUrl(e.eventUrl.value)
    && e.location.Some? && |e.location.value| > 3
    && e.description.Some? && |e.description.value| > 10
    && (e.ts.Some? || Truthy(e.dateInfo))
  }

  /** `domainOf(e.event_url || '')`: the host name, or "invalid" when the
      URL does not parse. */
  function DomainOf(env: Env, e: Event): (d: string)
    ensures HostOf(env, OrEmpty(e.eventUrl)).Some? ==> d == HostOf(env, OrEmpty(e.eventUrl)).value
    ensures HostOf(env, OrEmpty(e.eventUrl)).None? ==> d == "invalid"
  {
    var h := HostOf(env, OrEmpty(e.eventUrl));
    if h.Some? then h.value else "invalid"
  }

  /** The counters kept per host. */
  datatype Stats = Stats(total: nat, valid: nat, missingDesc: nat)

  const NO_STATS := Stats(0, 0, 0)

  /** Reference definition of a host's counters: the records of `events`
      whose host is `d`, those of them that are complete, and those of them
      without a description. */
  function StatsOf(env: Env, events: seq<Event>, d: string): (r: Stats)
    ensures r.valid <= r.total && r.missingDesc <= r.total
    ensures r.total <= |events|
    decreases |events|
  {
    if |events| == 0 then NO_STATS
    else
      var p := StatsOf(env, events[..|events| - 1], d);
      var e := events[|events| - 1];
      if DomainOf(env, e) != d then p else Bump(p, e)
  }

  /** The counters of a host after one more of its records. */
  function Bump(p: Stats, e: Event): Stats {
    Stats(p.total + 1, p.valid + (if IsValid(e) then 1 else 0),
          p.missingDesc + (if !Truthy(e.description) then 1 else 0))
  }

  /** The loop invariant of the tally: the hosts seen so far in order, and
      for each the counters of its records so far. */
  ghost predicate TallyInv(env: Env, prefix: seq<Event>, domains: seq<string>, stats: map<string, Stats>) {
    && domains == Domains(env, prefix)
    && (forall d :: d in stats <==> d in domains)
    && (forall d :: d in stats ==> stats[d] == StatsOf(env, prefix, d))
    && (forall d :: d !in stats ==> StatsOf(env, prefix, d) == NO_STATS)
  }

  /** One more record keeps the invariant: its host is listed if new, and
      only its host's counters move. */
  lemma TallyStep(env: Env, events: seq<Event>, i: nat, domains: seq<string>, stats: map<string, Stats>)
    requires i < |events|
    requires TallyInv(env, events[..i], domains, stats)
    ensures var d := DomainOf(env, events[i]);
      var s := Bump(if d in stats then stats[d] else NO_STATS, events[i]);
      TallyInv(env, events[..i + 1], if d in stats then domains else domains + [d], stats[d := s])
  {
    assert events[..i + 1][..i] == events[..i];
  }

  /** The hosts in the order the records first name them: the iteration
      order of the `Map`. */
  function Domains(env: Env, events: seq<Event>): seq<string>
    decreases |events|
  {
    if |events| == 0 then []
    else
      var p := Domains(env, events[..|events| - 1]);
      var d := DomainOf(env, events[|events| - 1]);
      if d in p then p else p + [d]
  }

  /** The hosts listed are exactly the hosts of the records, each once. */
  lemma {:induction false} DomainsProperties(env: Env, events: seq<Event>)
    ensures Distinct(Domains(env, events))
    ensures forall d :: d in Domains(env, events) <==> StatsOf(env, events, d).total > 0
    decreases |events|
  {
    if |events| > 0 {
      DomainsProperties(env, events[..|events| - 1]);
    }
  }

  /** One row of the report. */
  datatype Row = Row(domain: string, total: nat, valid: nat, missingDesc: nat, pctValid: nat)

  function RowOf(env: Env, events: seq<Event>, d: string): (r: Row)
    ensures r.domain == d && r.valid <= r.total && r.missingDesc <= r.total && r.pctValid <= 100
  {
    var s := StatsOf(env, events, d);
    Row(d, s.total, s.valid, s.missingDesc, ValidateDataset.Percent(s.valid, s.total))
  }

  function RowFn(env: Env, events: seq<Event>): string -> Row {
    d => RowOf(env, events, d)
  }

  /** `(a, b) => b.total - a.total`: larger counts first. */
  function ByTotalDesc(): (Row, Row) -> bool {
    (a: Row, b: Row) => a.total >= b.total
  }

  function RowDomain(r: Row): string {
    r.domain
  }

  /** The rows in `Map` order, then sorted by decreasing count (stable). */
  function AllRows(env: Env, events: seq<Event>): seq<Row> {
    SortBy(Map(Domains(env, events), RowFn(env, events)), ByTotalDesc())
  }

  /** What the run prints. */
  datatype Outcome =
    | Crash                // the file cannot be read or parsed: the script throws
    | Report(file: string, total: nat, sources: seq<Row>)

  const DEFAULT_FILE := "public/data/events.json"

  /** The loop of `main()`: the host of each record, in `Map` insertion order,
      and its counters. */
  method Tally(env: Env, events: seq<Event>) returns (domains: seq<string>, stats: map<string, Stats>)
    ensures domains == Domains(env, events)
    ensures forall d :: d in stats <==> d in domains
    ensures forall d :: d in stats ==> stats[d] == StatsOf(env, events, d)
  {
    domains, stats := [], map[];
    var i := 0;
    while i < |events|
      invariant 0 <= i <= |events|
      invariant TallyInv(env, events[..i], domains, stats)
    {
      var e := events[i];
      TallyStep(env, events, i, domains, stats);
      var d := DomainOf(env, e);
      var s := CountField(if d in stats then stats[d] else NO_STATS, e);
      if d !in stats {
        domains := domains + [d];
      }
      stats := stats[d := s];
      i := i + 1;
    }
    assert events[..i] == events;
  }

  /** The counter updates of one record. */
  method CountField(p: Stats, e: Event) returns (s: Stats)
    ensures s == Bump(p, e)
  {
    s := p.(total := p.total + 1);
    if IsValid(e) {
      s := s.(valid := s.valid + 1);
    }
    if !Truthy(e.description) {
      s := s.(missingDesc := s.missingDesc + 1);
    }
  }

  /** `main()`: the first argument, or the site's dataset by default. */
  method Run(env: Env, arg: Option<string>, fs: string -> MergeDatasets.Document) returns (o: Outcome)
    ensures var file := if Truthy(arg) then arg.value else DEFAULT_FILE;
      if MergeDatasets.LoadThrows(fs(file)) then o == Crash
      else o == Report(file, |MergeDatasets.Load(fs(file))|, Take100(AllRows(env, MergeDatasets.Load(fs(file)))))
  {
    var file := if Truthy(arg) then arg.value else DEFAULT_FILE;
    var doc := fs(file);
    if MergeDatasets.LoadThrows(doc) {
      return Crash;
    }
    var events := MergeDatasets.Load(doc);
    var domains, stats := Tally(env, events);
    var rows := Rows(env, events, domains, stats);
    o := Report(file, |events|, Take100(SortBy(rows, ByTotalDesc())));
  }

  /** `[...byDomain.entries()].map(...)`: one row per host, in `Map` order. */
  method Rows(env: Env, events: seq<Event>, domains: seq<string>, stats: map<string, Stats>) returns (rows: seq<Row>)
    requires forall d :: d in domains ==> d in stats && stats[d] == StatsOf(env, events, d)
    ensures rows == Map(domains, RowFn(env, events))
  {
    rows := [];
    var i := 0;
    while i < |domains|
      invariant 0 <= i <= |domains|
      invariant rows == Map(domains[..i], RowFn(env, events))
    {
      var d := domains[i];
      rows := rows + [Row(d, stats[d].total, stats[d].valid, stats[d].missingDesc,
                          ValidateDataset.Percent(stats[d].valid, stats[d].total))];
      i := i + 1;
    }
    assert domains[..i] == domains;
  }

  /** `rows.slice(0, 100)` */
  function Take100(rows: seq<Row>): (r: seq<Row>)
    ensures |r| <= 100 && |r| <= |rows| && r == rows[..|r|]
    ensures |rows| <= 100 ==> r == rows
  {
    if |rows| <= 100 then rows else rows[..100]
  }

  /** Sum of the record counts of the hosts `ds`. */
  function SumTotals(env: Env, events: seq<Event>, ds: seq<string>): nat
    decreases |ds|
  {
    if |ds| == 0 then 0 else StatsOf(env, events, ds[0]).total + SumTotals(env, events, ds[1..])
  }

  /** Adding a record adds one to the sum over any list of distinct hosts
      that names its host, and nothing otherwise. */
  lemma {:induction false} SumTotalsSnoc(env: Env, events: seq<Event>, ds: seq<string>)
    requires |events| > 0
    requires Distinct(ds)
    ensures SumTotals(env, events, ds) == SumTotals(env, events[..|events| - 1], ds)
      + (if DomainOf(env, events[|events| - 1]) in ds then 1 else 0)
    decreases |ds|
  {
    if |ds| > 0 {
      SumTotalsSnoc(env, events, ds[1..]);
    }
  }

  lemma {:induction false} SumTotalsAppend(env: Env, events: seq<Event>, ds: seq<string>, d: string)
    ensures SumTotals(env, events, ds + [d]) == SumTotals(env, events, ds) + StatsOf(env, events, d).total
    decreases |ds|
  {
    if |ds| == 0 {
      assert ds + [d] == [d];
    } else {
      assert (ds + [d])[0] == ds[0] && (ds + [d])[1..] == ds[1..] + [d];
      SumTotalsAppend(env, events, ds[1..], d);
    }
  }

  /** The per-host counts add up to the number of records: every record is
      counted under exactly one host. */
  lemma {:induction false} TotalsSumToLength(env: Env, events: seq<Event>)
    ensures SumTotals(env, events, Domains(env, events)) == |events|
    decreases |events|
  {
    if |events| > 0 {
      var n := |events| - 1;
      var prev := events[..n];
      var d := DomainOf(env, events[n]);
      var ds := Domains(env, prev);
      TotalsSumToLength(env, prev);
      DomainsProperties(env, prev);
      DomainsProperties(env, events);
      if d in ds {
        SumTotalsSnoc(env, events, ds);
      } else {
        SumTotalsSnoc(env, events, ds);
        SumTotalsAppend(env, events, ds, d);
        assert StatsOf(env, prev, d).total == 0;
      }
    }
  }

  lemma ByTotalDescOrder()
    ensures Total(ByTotalDesc()) && Transitive(ByTotalDesc())
  {
  }

  /** The report lists each host once, by decreasing record count, with
      counters that are those of its records; at most 100 hosts are shown,
      and over all hosts the counts add up to the number of records. */
  lemma ReportProperties(env: Env, events: seq<Event>)
    ensures var rows := AllRows(env, events);
      && SortedBy(rows, ByTotalDesc())
      && UniqueKeys(rows, RowDomain)
      && (forall r :: r in rows ==> r == RowOf(env, events, r.domain) && r.total > 0)
      && (forall d :: StatsOf(env, events, d).total > 0 ==> exists r :: r in rows && r.domain == d)
      && |rows| == |Domains(env, events)|
    ensures SumTotals(env, events, Domains(env, events)) == |events|
  {
    var ds := Domains(env, events);
    var unsorted := Map(ds, RowFn(env, events));
    ByTotalDescOrder();
    SortSorted(unsorted, ByTotalDesc());
    DomainsProperties(env, events);
    assert UniqueKeys(unsorted, RowDomain);
    SortUnique(unsorted, ByTotalDesc(), RowDomain);
    var rows := AllRows(env, events);
    assert multiset(rows) == multiset(unsorted);
    forall r | r in rows ensures r == RowOf(env, events, r.domain) && r.total > 0 {
      assert r in multiset(unsorted);
      var i :| 0 <= i < |unsorted| && unsorted[i] == r;
      assert ds[i] in ds;
    }
    forall d | StatsOf(env, events, d).total > 0 ensures exists r :: r in rows && r.domain == d {
      var i :| 0 <= i < |ds| && ds[i] == d;
      assert unsorted[i] in multiset(rows);
    }
    assert |rows| == |multiset(rows)| == |multiset(unsorted)| == |unsorted|;
    TotalsSumToLength(env, events);
  }
}
