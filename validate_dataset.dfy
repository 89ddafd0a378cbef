/** scripts/validate-dataset.js: count the complete records of a dataset and
    fail (exit status 1) when fewer than 60% of them are complete. */
module ValidateDataset {
  import opened Wrappers
  import opened Strings
  import opened Events
  import opened Lists
  import MergeDatasets

  /** `isValid(e)`: a title and a location longer than 3 characters, an
      http(s) event URL, a description longer than 10 characters, and date
      text the parser can read. */
  predicate IsValid(env: Env, e: Event) {
    && e.title.Some? && |e.title.value| > 3
    && e.eventUrl.Some? && IsHttpUrl(e.eventUrl.value)
    && e.location.Some? && |e.location.value| > 3
    && e.description.Some? && |e.description.value| > 10
    && env.parseDate(OrEmpty(e.dateInfo)).Some?
  }

  function ValidFn(env: Env): Event -> bool {
    e => IsValid(env, e)
  }

  function NoTimeFn(): Event -> bool {
    (e: Event) => !Truthy(e.timeStart)
  }

  function NoPlaceFn(): Event -> bool {
    (e: Event) => !Truthy(e.location)
  }

  function NoDescFn(): Event -> bool {
    (e: Event) => !Truthy(e.description)
  }

  /** `Math.round((valid / total) * 100)`, or 0 for an empty dataset, on exact
      rationals: halves round up. */
  function Percent(valid: nat, total: nat): (pct: nat)
    requires valid <= total
    ensures pct <= 100
    ensures total > 0 ==> 2 * total * pct <= 200 * valid + total < 2 * total * (pct + 1)
  {
    if total == 0 then 0
    else
      RoundedShare(valid, total);
      (200 * valid + total) / (2 * total)
  }

  lemma RoundedShare(valid: nat, total: nat)
    requires valid <= total && total > 0
    ensures var q := (200 * valid + total) / (2 * total);
      q <= 100 && 2 * total * q <= 200 * valid + total < 2 * total * (q + 1)
  {
    var n, d := 200 * valid + total, 2 * total;
    var q := n / d;
    assert n == d * q + n % d && 0 <= n % d < d;
    assert d * (q + 1) == d * q + d;
    if q > 100 {
      MulLe(d, 101, q);
    }
  }

  /** What the run prints and its exit status. */
  datatype Report = Report(total: nat, valid: nat, pctValid: nat,
                           missingTime: nat, missingPlace: nat, missingDesc: nat, exitCode: int)

  datatype Outcome =
    | Usage             // no file argument: exit status 1
    | Crash             // the file cannot be read or parsed: the script throws
    | Done(report: Report)

  /** The loop of `main()` over the records. */
  method Tally(env: Env, events: seq<Event>) returns (r: Report)
    ensures r.total == |events|
    ensures r.valid == Count(events, ValidFn(env))
    ensures r.missingTime == Count(events, NoTimeFn())
    ensures r.missingPlace == Count(events, NoPlaceFn())
    ensures r.missingDesc == Count(events, NoDescFn())
    ensures r.pctValid == Percent(r.valid, r.total)
    ensures r.exitCode == (if r.pctValid < 60 then 1 else 0)
  {
    var valid, missingTime, missingPlace, missingDesc := 0, 0, 0, 0;
    var i := 0;
    while i < |events|
      invariant 0 <= i <= |events|
      invariant valid == Count(events[..i], ValidFn(env))
      invariant missingTime == Count(events[..i], NoTimeFn())
      invariant missingPlace == Count(events[..i], NoPlaceFn())
      invariant missingDesc == Count(events[..i], NoDescFn())
    {
      var e := events[i];
      CountSnoc(events, i, ValidFn(env));
      CountSnoc(events, i, NoTimeFn());
      CountSnoc(events, i, NoPlaceFn());
      CountSnoc(events, i, NoDescFn());
      if !Truthy(e.timeStart) {
        missingTime := missingTime + 1;
      }
      if !Truthy(e.location) {
        missingPlace := missingPlace + 1;
      }
      if !Truthy(e.description) {
        missingDesc := missingDesc + 1;
      }
      if IsValid(env, e) {
        valid := valid + 1;
      }
      i := i + 1;
    }
    assert events[..i] == events;
    var pct := Percent(valid, |events|);
    r := Report(|events|, valid, pct, missingTime, missingPlace, missingDesc, if pct < 60 then 1 else 0);
  }

  /** `main()`: the file is the first argument. */
  method Run(env: Env, arg: Option<string>, fs: string -> MergeDatasets.Document) returns (o: Outcome)
    ensures !Truthy(arg) <==> o == Usage
    ensures Truthy(arg) ==> (o == Crash <==> MergeDatasets.LoadThrows(fs(arg.value)))
    ensures o.Done? ==>
      && var events := MergeDatasets.Load(fs(arg.value));
         && o.report.total == |events|
         && o.report.valid == Count(events, ValidFn(env))
         && o.report.missingTime == Count(events, NoTimeFn())
         && o.report.missingPlace == Count(events, NoPlaceFn())
         && o.report.missingDesc == Count(events, NoDescFn())
         && o.report.pctValid == Percent(o.report.valid, o.report.total)
         && o.report.exitCode == (if o.report.pctValid < 60 then 1 else 0)
  {
    if !Truthy(arg) {
      return Usage;
    }
    var doc := fs(arg.value);
    if MergeDatasets.LoadThrows(doc) {
      return Crash;
    }
    var report := Tally(env, MergeDatasets.Load(doc));
    o := Done(report);
  }

  /** The run fails exactly when fewer than 119 in 200 records are valid,
      that is, when the rounded percentage is below 60; an empty dataset fails. */
  lemma ExitThreshold(valid: nat, total: nat)
    requires valid <= total
    ensures Percent(valid, total) < 60 <==> 200 * valid < 119 * total || total == 0
  {
    if total > 0 {
      var pct := Percent(valid, total);
      if pct >= 60 {
        MulLe(2 * total, 60, pct);
      } else {
        MulLe(2 * total, pct + 1, 60);
      }
    }
  }

  /** Every record valid gives 100, none valid gives 0. */
  lemma PercentBounds(total: nat)
    requires total > 0
    ensures Percent(total, total) == 100
    ensures Percent(0, total) == 0
  {
    var t := total;
    var full := Percent(t, t);
    if full < 100 {
      MulLe(2 * t, full + 1, 100);
    }
    var none := Percent(0, t);
    if none > 0 {
      MulLe(2 * t, 1, none);
    }
  }

  lemma MulLe(c: nat, a: nat, b: nat)
    requires a <= b
    ensures c * a <= c * b
  {
    assert c * b == c * a + c * (b - a);
  }

  /** The valid records are those the filter keeps. */
  lemma ValidCount(env: Env, events: seq<Event>)
    ensures Count(events, ValidFn(env)) == |Filter(events, ValidFn(env))|
    ensures forall e :: e in Filter(events, ValidFn(env)) <==> e in events && IsValid(env, e)
  {
    CountIsFilterLength(events, ValidFn(env));
    forall e ensures e in Filter(events, ValidFn(env)) <==> e in events && IsValid(env, e) {
      FilterMembers(events, ValidFn(env), e);
    }
  }
}
