/** The merge step of scripts/build-universal.js: the committed datasets and
    the fresh extraction, newest committed version first, each read only when
    the file exists, deduplicated with the title|date|location key of
    scripts/merge-datasets.js. */
module BuildUniversal {
  import opened Events
  import opened Dedupe
  import opened MergeDatasets

  /** The dataset files in the order they are merged. */
  const SEED_FILES: seq<string> := [
    "public/data/events.v4.json",
    "public/data/events.v3.json",
    "public/data/events.v2.json",
    "public/data/events.v1.json",
    "public/data/events.universal.json"
  ]

  /** The loop over the seed files: an existing file contributes what `load`
      reads from it, a missing one is skipped. */
  method MergeSeeds(fs: string -> Document) returns (deduped: seq<Event>)
    ensures deduped == DedupeRecords(Merged(fs, SEED_FILES))
  {
    var merged: seq<Event> := [];
    var i := 0;
    while i < |SEED_FILES|
      invariant 0 <= i <= |SEED_FILES|
      invariant merged == Merged(fs, SEED_FILES[..i])
    {
      var f := SEED_FILES[i];
      MergedAppend(fs, SEED_FILES[..i], [f]);
      assert SEED_FILES[..i + 1] == SEED_FILES[..i] + [f];
      if fs(f) != Missing {
        merged := merged + Load(fs(f));
      } else {
        assert Merged(fs, [f]) == [];
      }
      i := i + 1;
    }
    assert SEED_FILES[..i] == SEED_FILES;
    deduped := DedupeRecords(merged);
  }

  /** The fresh extraction never replaces a committed record: a kept record
      whose key is in any committed version comes from a committed version. */
  lemma CommittedWins(fs: string -> Document, x: Event)
    requires x in DedupeRecords(Merged(fs, SEED_FILES))
    requires TitleDateLocationKey(x) in KeysOf(Merged(fs, SEED_FILES[..4]), TitleDateLocationKey)
    ensures x in Merged(fs, SEED_FILES[..4])
  {
    EarlierFilesWin(fs, SEED_FILES, 4, x);
  }

  /** Among the committed versions the newest wins: a kept record whose key
      occurs in events.v4.json is a record of that file. */
  lemma NewestVersionWins(fs: string -> Document, x: Event)
    requires x in DedupeRecords(Merged(fs, SEED_FILES))
    requires TitleDateLocationKey(x) in KeysOf(Load(fs(SEED_FILES[0])), TitleDateLocationKey)
    ensures x in Load(fs(SEED_FILES[0]))
  {
    MergedFirst(fs, SEED_FILES);
    EarlierFilesWin(fs, SEED_FILES, 1, x);
  }
}
