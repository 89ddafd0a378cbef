/** scripts/universal-extract.js, the text side: `sanitizeText`, the record
    id `computeId` and `normalizeEvent`, which every extractor of that
    script passes its records through. */
module UniversalText {
  import opened Wrappers
  import opened Strings
  import opened Lists
  import opened Dedupe
  import opened Events
  import opened RawRecords

  /** The longest text `sanitizeText` returns. */
  const MAX_TEXT: nat := 2000

  /** No `open` character has a `close` character anywhere after it. */
  predicate NoPair(s: string, open: char, close: char) {
    forall i, j :: 0 <= i < j < |s| && s[i] == open ==> s[j] != close
  }

  /** The position of the first `c` in `s`. */
  function FirstIndex(s: string, c: char): (r: nat)
    requires c in s
    ensures r < |s| && s[r] == c
    ensures forall i :: 0 <= i < r ==> s[i] != c
    decreases |s|
  {
    if s[0] == c then 0
    else
      assert c in s[1..];
      1 + FirstIndex(s[1..], c)
  }

  /** `s.replace(/<open>[^<close>]*<close>/g, '')`: from an `open` that has a
      `close` after it, everything up to and including the first such `close`
      goes; an `open` with no `close` after it stays. */
  function StripPairs(s: string, open: char, close: char): string
    decreases |s|
  {
    if |s| == 0 then ""
    else if s[0] == open && close in s[1..] then
      StripPairs(s[FirstIndex(s[1..], close) + 2..], open, close)
    else [s[0]] + StripPairs(s[1..], open, close)
  }

  /** Prepending a character keeps `NoPair` unless it opens a pair. */
  lemma NoPairCons(c: char, s: string, open: char, close: char)
    requires NoPair(s, open, close)
    requires c == open ==> close !in s
    ensures NoPair([c] + s, open, close)
  {
    var t := [c] + s;
    forall i, j | 0 <= i < j < |t| && t[i] == open
      ensures t[j] != close
    {
      assert t[j] == s[j - 1];
      if i > 0 {
        assert t[i] == s[i - 1];
      }
    }
  }

  /** The removal only deletes characters, and what is left holds no
      `open ... close` pair. */
  lemma {:induction false} StripPairsProperties(s: string, open: char, close: char)
    ensures IsSubsequence(StripPairs(s, open, close), s)
    ensures NoPair(StripPairs(s, open, close), open, close)
    decreases |s|
  {
    if |s| > 0 {
      if s[0] == open && close in s[1..] {
        var k := FirstIndex(s[1..], close) + 2;
        StripPairsProperties(s[k..], open, close);
        SubsequenceDrop(StripPairs(s[k..], open, close), s, k);
      } else {
        var rest := StripPairs(s[1..], open, close);
        StripPairsProperties(s[1..], open, close);
        forall x | x in rest ensures x in s[1..] {
          SubsequenceMembers(rest, s[1..], x);
        }
        NoPairCons(s[0], rest, open, close);
        assert ([s[0]] + rest)[1..] == rest;
      }
    }
  }

  /** A subsequence of a text without pairs has none either. */
  lemma {:induction false} NoPairSubsequence(a: string, b: string, open: char, close: char)
    requires IsSubsequence(a, b) && NoPair(b, open, close)
    ensures NoPair(a, open, close)
    decreases |b|
  {
    if |a| > 0 {
      assert NoPair(b[1..], open, close) by {
        forall i, j | 0 <= i < j < |b[1..]| && b[1..][i] == open
          ensures b[1..][j] != close
        {
          assert b[1..][i] == b[i + 1] && b[1..][j] == b[j + 1];
        }
      }
      if a[0] == b[0] && IsSubsequence(a[1..], b[1..]) {
        NoPairSubsequence(a[1..], b[1..], open, close);
        if a[0] == open {
          forall x | x in a[1..] ensures x in b[1..] {
            SubsequenceMembers(a[1..], b[1..], x);
          }
          forall j | 0 <= j < |b[1..]| ensures b[1..][j] != close {
            assert b[1..][j] == b[j + 1];
          }
        }
        NoPairCons(a[0], a[1..], open, close);
        assert [a[0]] + a[1..] == a;
      } else {
        NoPairSubsequence(a, b[1..], open, close);
      }
    }
  }

  /** `\w`: ASCII letters, digits and `_`. */
  predicate IsWordChar(c: char) {
    ('a' <= c <= 'z') || ('A' <= c <= 'Z') || IsDigit(c) || c == '_'
  }

  /** `[a-z0-9_-]` under the `i` flag. */
  predicate IsTagChar(c: char) {
    IsWordChar(c) || c == '-'
  }

  /** `\b` before position `p`: a word character on exactly one side. */
  predicate AtBoundary(s: string, p: nat)
    requires p <= |s|
  {
    (p > 0 && IsWordChar(s[p - 1])) != (p < |s| && IsWordChar(s[p]))
  }

  /** The number of tag characters `s` starts with. */
  function TagRun(s: string): (n: nat)
    ensures n <= |s|
    ensures forall i :: 0 <= i < n ==> IsTagChar(s[i])
    ensures n < |s| ==> !IsTagChar(s[n])
    decreases |s|
  {
    if |s| > 0 && IsTagChar(s[0]) then 1 + TagRun(s[1..]) else 0
  }

  /** The greedy quantifier `{5,}` backing off from `k`: the longest tag
      length `m`, 5 <= m <= k, after which a word boundary follows the `#`
      that starts `s`. */
  function TagMatch(s: string, k: nat): (r: Option<nat>)
    requires 1 + k <= |s|
    ensures r.Some? ==> 5 <= r.value <= k && AtBoundary(s, 1 + r.value)
    ensures r.Some? ==> forall p :: 1 + r.value < p <= 1 + k ==> !AtBoundary(s, p)
    ensures r.None? ==> forall p :: 6 <= p <= 1 + k ==> !AtBoundary(s, p)
    decreases k
  {
    if k < 5 then None
    else if AtBoundary(s, 1 + k) then Some(k)
    else TagMatch(s, k - 1)
  }

  /** The length of the `#[a-z0-9_-]{5,}\b` match at the start of `s`, if any. */
  function HashTagAt(s: string): (r: Option<nat>)
    ensures r.Some? ==> |s| > 0 && s[0] == '#' && 6 <= r.value <= |s|
    ensures r.Some? ==> forall i :: 1 <= i < r.value ==> IsTagChar(s[i])
    ensures r.Some? ==> AtBoundary(s, r.value)
  {
    if |s| > 0 && s[0] == '#' then
      var m := TagMatch(s, TagRun(s[1..]));
      if m.Some? then Some(1 + m.value) else None
    else None
  }

  /** `s.replace(/#[a-z0-9_-]{5,}\b/gi, '')`, scanning left to right. */
  function StripHashTags(s: string): string
    decreases |s|
  {
    if |s| == 0 then ""
    else
      var m := HashTagAt(s);
      if m.Some? then StripHashTags(s[m.value..])
      else [s[0]] + StripHashTags(s[1..])
  }

  lemma {:induction false} StripHashTagsDeletes(s: string)
    ensures IsSubsequence(StripHashTags(s), s)
    decreases |s|
  {
    if |s| > 0 {
      var m := HashTagAt(s);
      if m.Some? {
        StripHashTagsDeletes(s[m.value..]);
        SubsequenceDrop(StripHashTags(s[m.value..]), s, m.value);
      } else {
        StripHashTagsDeletes(s[1..]);
        assert ([s[0]] + StripHashTags(s[1..]))[1..] == StripHashTags(s[1..]);
      }
    }
  }

  /** Every white-space character the collapse leaves is a blank, and every
      other character comes from the input. */
  lemma {:induction false} CollapseSpacesChars(s: string)
    ensures forall c :: c in CollapseSpaces(s) ==> c == ' ' || (c in s && !IsSpace(c))
    decreases |s|
  {
    if |s| > 0 {
      if IsSpace(s[0]) {
        var t := TrimStart(s[1..]);
        CollapseSpacesChars(t);
        forall c | c in t ensures c in s {
          var i :| 0 <= i < |t| && t[i] == c;
          assert s[1..][|s[1..]| - |t| + i] == c;
        }
      } else {
        CollapseSpacesChars(s[1..]);
      }
    }
  }

  /** The removals of `sanitizeText`, after the white-space collapse and
      before the trim. */
  function Stripped(v: string): string {
    StripHashTags(StripPairs(StripPairs(CollapseSpaces(v), '<', '>'), '{', '}'))
  }

  /** `sanitizeText(value)`, given `String(value || '')`. */
  function SanitizeText(v: string): (r: string)
    ensures |r| <= MAX_TEXT
  {
    Take(Trim(Stripped(v)), MAX_TEXT)
  }

  /** `sanitizeText(x)` of an optional text: nothing becomes "". */
  function SanitizeOpt(x: Option<string>): string {
    SanitizeText(OrEmpty(x))
  }

  /** The removals leave blanks and non-white-space characters of the value. */
  lemma StrippedChars(v: string)
    ensures forall c :: c in Stripped(v) ==> c == ' ' || (c in v && !IsSpace(c))
  {
    var c0 := CollapseSpaces(v);
    var c1 := StripPairs(c0, '<', '>');
    var c2 := StripPairs(c1, '{', '}');
    CollapseSpacesChars(v);
    StripPairsProperties(c0, '<', '>');
    StripPairsProperties(c1, '{', '}');
    StripHashTagsDeletes(c2);
    forall c | c in Stripped(v) ensures c in c0 {
      SubsequenceMembers(Stripped(v), c2, c);
      SubsequenceMembers(c2, c1, c);
      SubsequenceMembers(c1, c0, c);
    }
  }

  /** After the removals no tag and no brace block is left. */
  lemma StrippedNoPairs(v: string)
    ensures NoPair(Stripped(v), '<', '>') && NoPair(Stripped(v), '{', '}')
  {
    var c1 := StripPairs(CollapseSpaces(v), '<', '>');
    var c2 := StripPairs(c1, '{', '}');
    StripPairsProperties(CollapseSpaces(v), '<', '>');
    StripPairsProperties(c1, '{', '}');
    StripHashTagsDeletes(c2);
    NoPairSubsequence(c2, c1, '<', '>');
    NoPairSubsequence(Stripped(v), c2, '<', '>');
    NoPairSubsequence(Stripped(v), c2, '{', '}');
  }

  /** Trimming only deletes characters. */
  lemma TrimDeletes(s: string)
    ensures IsSubsequence(Trim(s), s)
  {
    var lo, hi := TrimIsSlice(s);
    SubsequenceSlice(s, lo, hi);
  }

  /** A prefix of a text without pairs has none either. */
  lemma NoPairPrefix(s: string, n: nat, open: char, close: char)
    requires n <= |s| && NoPair(s, open, close)
    ensures NoPair(s[..n], open, close)
  {
  }

  /** What the sanitized text is: at most 2000 characters, empty for a
      missing or blank value, starting with no white space, holding no
      white space other than blanks, no `<...>` tag and no `{...}` block,
      and otherwise made of characters of the value. */
  lemma SanitizeTextProperties(v: string)
    ensures |SanitizeText(v)| <= MAX_TEXT
    ensures (forall i :: 0 <= i < |v| ==> IsSpace(v[i])) ==> SanitizeText(v) == ""
    ensures SanitizeText(v) == [] || !IsSpace(SanitizeText(v)[0])
    ensures forall c :: c in SanitizeText(v) ==> c == ' ' || (c in v && !IsSpace(c))
    ensures NoPair(SanitizeText(v), '<', '>') && NoPair(SanitizeText(v), '{', '}')
  {
    var c3 := Stripped(v);
    var c4 := Trim(c3);
    var r := SanitizeText(v);
    StrippedChars(v);
    StrippedNoPairs(v);
    TrimDeletes(c3);
    NoPairSubsequence(c4, c3, '<', '>');
    NoPairSubsequence(c4, c3, '{', '}');
    NoPairPrefix(c4, |r|, '<', '>');
    NoPairPrefix(c4, |r|, '{', '}');
    forall c | c in r ensures c in c3 {
      assert c in c4;
    }
    if r != [] {
      assert r[0] == c4[0];
    }
  }

  /** The empty value sanitizes to the empty text. */
  lemma SanitizeEmpty()
    ensures SanitizeText("") == ""
  {
    SanitizeTextProperties("");
  }

  /** A hex MD5 digest: 32 characters. */
  type Digest = s: string | |s| == 32 witness "00000000000000000000000000000000"

  /** What `computeId` hashes: title, date and location, each lower-cased
      and trimmed, joined with `|`. */
  function IdKey(e: Event): string {
    Trim(Lower(OrEmpty(e.title))) + "|" + Trim(Lower(OrEmpty(e.dateInfo))) + "|" + Trim(Lower(OrEmpty(e.location)))
  }

  /** `computeId(e)`: the first 16 hex digits of the MD5 digest of the key;
      `md5` stands for `createHash('md5')...digest('hex')`. */
  function ComputeId(md5: string -> Digest, e: Event): (r: string)
    ensures |r| == 16
  {
    md5(IdKey(e))[..16]
  }

  /** The id depends on nothing but the key: records that agree on title,
      date and location up to case and surrounding white space share it,
      whatever their other fields. */
  lemma IdDependsOnKey(md5: string -> Digest, a: Event, b: Event)
    requires Trim(Lower(OrEmpty(a.title))) == Trim(Lower(OrEmpty(b.title)))
    requires Trim(Lower(OrEmpty(a.dateInfo))) == Trim(Lower(OrEmpty(b.dateInfo)))
    requires Trim(Lower(OrEmpty(a.location))) == Trim(Lower(OrEmpty(b.location)))
    ensures ComputeId(md5, a) == ComputeId(md5, b)
  {
  }

  /** Lower-casing the title does not change the id. */
  lemma IdIgnoresTitleCase(md5: string -> Digest, e: Event, t: string)
    requires e.title == Some(t)
    ensures ComputeId(md5, e.(title := Some(Lower(t)))) == ComputeId(md5, e)
  {
    assert Lower(Lower(t)) == Lower(t);
  }

  /** `normalizeEvent(e)`: each text field sanitized, the link trimmed, and
      the id computed from the result. */
  function NormalizeEvent(md5: string -> Digest, e: Raw): (r: Event)
    ensures r.title == Some(SanitizeOpt(Or(e.title, e.name)))
    ensures r.dateInfo == Some(SanitizeOpt(Or(Or(Or(e.dateInfo, e.startDate), e.start), e.date)))
    ensures r.timeStart == Some(SanitizeOpt(Or(e.timeStart, e.startTime)))
    ensures r.location == Some(SanitizeText(LocationString(RawLocation(e))))
    ensures r.description == Some(SanitizeOpt(e.description))
    ensures r.eventUrl == Some(Trim(OrEmpty(Or(Or(e.eventUrl, e.url), e.link))))
    ensures r.category == Some(SanitizeOpt(Or(e.category, e.kind)))
    ensures r.price == Some(SanitizeOpt(e.price))
    ensures r.url.None? && r.sourceUrl.None? && r.ts.None? && r.latitude.None? && r.longitude.None?
    ensures r.id == Some(ComputeId(md5, r))
  {
    var base := Record(SanitizeOpt(Or(e.title, e.name)),
                       SanitizeOpt(Or(Or(Or(e.dateInfo, e.startDate), e.start), e.date)),
                       SanitizeOpt(Or(e.timeStart, e.startTime)),
                       SanitizeText(LocationString(RawLocation(e))),
                       SanitizeOpt(e.description),
                       Trim(OrEmpty(Or(Or(e.eventUrl, e.url), e.link))),
                       SanitizeOpt(Or(e.category, e.kind)),
                       SanitizeOpt(e.price));
    base.(id := Some(ComputeId(md5, base)))
  }

  /** A record as `normalizeEvent` leaves it: every text field present and
      at most 2000 characters, and an id that is the record's own. */
  predicate IsNormal(md5: string -> Digest, e: Event) {
    && e.title.Some? && e.dateInfo.Some? && e.timeStart.Some? && e.location.Some?
    && e.description.Some? && e.eventUrl.Some? && e.category.Some? && e.price.Some?
    && |e.title.value| <= MAX_TEXT && |e.dateInfo.value| <= MAX_TEXT && |e.timeStart.value| <= MAX_TEXT
    && |e.location.value| <= MAX_TEXT && |e.description.value| <= MAX_TEXT
    && |e.category.value| <= MAX_TEXT && |e.price.value| <= MAX_TEXT
    && e.id == Some(ComputeId(md5, e))
  }

  lemma NormalizeIsNormal(md5: string -> Digest, e: Raw)
    ensures IsNormal(md5, NormalizeEvent(md5, e))
    ensures |NormalizeEvent(md5, e).id.value| == 16
  {
  }

  /** `normalizeEvent` as a value the extractors are given. */
  function NormFn(md5: string -> Digest): Raw -> Event {
    e => NormalizeEvent(md5, e)
  }

  /** Neither a missing nor an empty title or name survives `||`, and the
      empty text is sanitized to itself. */
  lemma UntitledSanitized(title: Option<string>, name: Option<string>)
    requires !Truthy(title) && !Truthy(name)
    ensures SanitizeOpt(Or(title, name)) == ""
  {
    SanitizeEmpty();
  }

  /** A record whose title and name are both missing or empty gets the empty
      title. */
  lemma NormalizeUntitled(md5: string -> Digest, e: Raw)
    requires !Truthy(e.title) && !Truthy(e.name)
    ensures NormalizeEvent(md5, e).title == Some("")
  {
    UntitledSanitized(e.title, e.name);
  }

  /** A location object with neither name nor address, and no venue or
      place, is sanitized as the text "[object Object]". */
  lemma NormalizeLocObject(md5: string -> Digest, e: Raw)
    requires RawLocation(e) == LocObject
    ensures NormalizeEvent(md5, e).location == Some(SanitizeText("[object Object]"))
  {
  }
}
