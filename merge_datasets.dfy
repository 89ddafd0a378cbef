/** scripts/merge-datasets.js: concatenate the events of several JSON files,
    in argument order, and keep the first record of each title|date|location
    key. The `load` and `dedupe` helpers defined here are also the ones of
    scripts/build-universal.js, which carries identical copies. */
module MergeDatasets {
  import opened Wrappers
  import opened Events
  import opened Dedupe

  /** What reading a path and `JSON.parse` yield. `Missing` and `Unparsable`
      both throw inside `load`; so does `NullDoc`, the JSON value `null`,
      whose `.events` cannot be read. `Scalar` is a number, string or
      boolean, with whether JavaScript counts it as true. */
  datatype Document =
    | Missing
    | Unparsable
    | ArrayDoc(items: seq<Event>)
    | ObjectDoc(events: Option<seq<Event>>)
    | NullDoc
    | Scalar(truthy: bool)

  /** The `load` without a `try` (as in the validator and the metrics)
      throws: the file is missing or unparsable, or the document is `null`. */
  predicate LoadThrows(doc: Document) {
    doc.Missing? || doc.Unparsable? || doc.NullDoc?
  }

  /** `load(path)`: an array as it is, an object's or a scalar's `events`
      (or nothing), and nothing whenever reading, parsing or reading
      `null.events` throws. */
  function Load(doc: Document): (r: seq<Event>)
    ensures doc.ArrayDoc? ==> r == doc.items
    ensures doc.ObjectDoc? && doc.events.Some? ==> r == doc.events.value
    ensures doc.ObjectDoc? && doc.events.None? ==> r == []
    ensures !doc.ArrayDoc? && !doc.ObjectDoc? ==> r == []
  {
    match doc
    case ArrayDoc(items) => items
    case ObjectDoc(events) => if events.Some? then events.value else []
    case _ => []
  }

  /** The records of the files `paths`, in order. */
  function Merged(fs: string -> Document, paths: seq<string>): seq<Event>
    decreases |paths|
  {
    if |paths| == 0 then [] else Load(fs(paths[0])) + Merged(fs, paths[1..])
  }

  /** `dedupe(arr)`: the first record of each title|date|location key. */
  function DedupeRecords(records: seq<Event>): seq<Event> {
    KeepFirst(records, TitleDateLocationKey)
  }

  /** Merging the files of `a + b` is merging `a`, then `b`. */
  lemma {:induction false} MergedAppend(fs: string -> Document, a: seq<string>, b: seq<string>)
    ensures Merged(fs, a + b) == Merged(fs, a) + Merged(fs, b)
    decreases |a|
  {
    if |a| == 0 {
      assert a + b == b;
    } else {
      assert (a + b)[0] == a[0] && (a + b)[1..] == a[1..] + b;
      MergedAppend(fs, a[1..], b);
    }
  }

  lemma MergedSplit(fs: string -> Document, paths: seq<string>, k: nat)
    requires k <= |paths|
    ensures Merged(fs, paths) == Merged(fs, paths[..k]) + Merged(fs, paths[k..])
  {
    assert paths == paths[..k] + paths[k..];
    MergedAppend(fs, paths[..k], paths[k..]);
  }

  lemma MergedFirst(fs: string -> Document, paths: seq<string>)
    requires |paths| >= 1
    ensures Merged(fs, paths[..1]) == Load(fs(paths[0]))
  {
    assert paths[..1][1..] == [];
  }

  /** The outcome of a run: the usage error (exit status 1), or the file
      written with the deduplicated records, and the count of merged records
      the summary line reports. */
  datatype Outcome = Usage | Wrote(path: string, records: seq<Event>, mergedCount: nat)

  /** `main()`: the last argument names the output, the others the inputs. */
  method Run(args: seq<string>, fs: string -> Document) returns (o: Outcome)
    ensures |args| < 2 <==> o == Usage
    ensures |args| >= 2 ==> (o.Wrote? && o.path == args[|args| - 1]
      && o.mergedCount == |Merged(fs, args[..|args| - 1])|
      && o.records == DedupeRecords(Merged(fs, args[..|args| - 1])))
  {
    if |args| < 2 {
      return Usage;
    }
    var out := args[|args| - 1];
    var inputs := args[..|args| - 1];
    var merged: seq<Event> := [];
    var i := 0;
    while i < |inputs|
      invariant 0 <= i <= |inputs|
      invariant merged == Merged(fs, inputs[..i])
    {
      MergedAppend(fs, inputs[..i], [inputs[i]]);
      assert inputs[..i + 1] == inputs[..i] + [inputs[i]];
      merged := merged + Load(fs(inputs[i]));
      i := i + 1;
    }
    assert inputs[..i] == inputs;
    o := Wrote(out, DedupeRecords(merged), |merged|);
  }

  /** The output keys are unique, every input key is represented, nothing is
      invented or reordered, and the count never grows. */
  lemma DedupeProperties(records: seq<Event>)
    ensures UniqueKeys(DedupeRecords(records), TitleDateLocationKey)
    ensures KeysOf(DedupeRecords(records), TitleDateLocationKey) == KeysOf(records, TitleDateLocationKey)
    ensures IsSubsequence(DedupeRecords(records), records)
    ensures |DedupeRecords(records)| <= |records|
    ensures DedupeRecords(DedupeRecords(records)) == DedupeRecords(records)
  {
    KeepFirstProperties(records, TitleDateLocationKey);
    SubsequenceLength(DedupeRecords(records), records);
  }

  /** Earlier files win: a kept record whose key occurs in the first `k`
      files comes from those files, so a later file only adds new keys. */
  lemma EarlierFilesWin(fs: string -> Document, paths: seq<string>, k: nat, x: Event)
    requires k <= |paths|
    requires x in DedupeRecords(Merged(fs, paths))
    requires TitleDateLocationKey(x) in KeysOf(Merged(fs, paths[..k]), TitleDateLocationKey)
    ensures x in Merged(fs, paths[..k])
  {
    MergedSplit(fs, paths, k);
    PrefixKeyWinner(Merged(fs, paths[..k]), Merged(fs, paths[k..]), TitleDateLocationKey, x);
  }

  /** A file that is missing, unparsable or holds no events contributes
      nothing: the run goes on as if it were not named. */
  lemma EmptyFileIgnored(fs: string -> Document, paths: seq<string>, k: nat)
    requires k < |paths|
    requires Load(fs(paths[k])) == []
    ensures Merged(fs, paths) == Merged(fs, paths[..k] + paths[k + 1..])
  {
    MergedSplit(fs, paths, k);
    assert Merged(fs, paths[k..]) == Merged(fs, paths[k + 1..]) by {
      assert paths[k..][1..] == paths[k + 1..];
    }
    MergedAppend(fs, paths[..k], paths[k + 1..]);
  }
}
