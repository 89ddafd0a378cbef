/** scripts/expand-seeds.js: add pagination variants of known event listings
    to a list of seed URLs. */
module ExpandSeeds {
  import opened Wrappers
  import opened Strings
  import opened Events
  import opened OrderedSets
  import opened Lists

  /** A page-URL template: `builder(i)` is `prefix + i + suffix`. */
  datatype Pattern = Pattern(prefix: string, suffix: string)

  function Build(p: Pattern, i: nat): string {
    p.prefix + NatToString(i) + p.suffix
  }

  /** `builder(from)`, ..., `builder(to)`, in increasing order. */
  function Series(p: Pattern, lo: nat, hi: int): (r: seq<string>)
    ensures |r| == (if hi < lo then 0 else hi - lo + 1)
    ensures forall k :: 0 <= k < |r| ==> r[k] == Build(p, lo + k)
    decreases if hi < lo then 0 else hi - lo + 1
  {
    if hi < lo then [] else Series(p, lo, hi - 1) + [Build(p, hi)]
  }

  /** `pushPattern(builder, from, to)`: the builders never throw, so every
      page from `from` to `to` is added, in increasing order. */
  method PushPattern(out: seq<string>, p: Pattern, lo: nat, hi: nat) returns (r: seq<string>)
    ensures r == AddAll(out, Series(p, lo, hi))
  {
    r := out;
    var i := lo;
    while i <= hi
      invariant lo <= i && (i <= hi + 1 || i == lo)
      invariant r == AddAll(out, Series(p, lo, i - 1))
      decreases hi + 1 - i
    {
      var x := Build(p, i);
      assert Series(p, lo, i) == Series(p, lo, i - 1) + [x];
      AddAllSnoc(out, Series(p, lo, i - 1), x);
      r := Add(r, x);
      i := i + 1;
    }
  }

  /** `path.replace(/\/?$/, '')`: one trailing slash removed, if there is one. */
  function StripSlash(path: string): (r: string)
    ensures path == r || path == r + "/"
    ensures |path| > 0 && path[|path| - 1] == '/' ==> path == r + "/"
  {
    if |path| > 0 && path[|path| - 1] == '/' then path[..|path| - 1] else path
  }

  /** One domain rule: whether it fires, and the pages it adds. */
  datatype Rule = Rule(fires: bool, pattern: Pattern, from: nat, to: nat)

  /** `${origin}${path}?page=${i}` and the like. */
  function Query(url: UrlParts, key: string): Pattern {
    Pattern(url.origin + url.path + key, "")
  }

  /** `${origin}${base}/page/${i}/` with the trailing slash of the path dropped. */
  function PagePath(url: UrlParts): Pattern {
    Pattern(url.origin + StripSlash(url.path) + "/page/", "/")
  }

  /** The number of domain rules. */
  const RULE_COUNT := 12

  /** The `k`-th domain rule, in the order the script tries them. */
  function RuleAt(url: UrlParts, k: nat): Rule
    requires k < RULE_COUNT
  {
    var h, p := url.host, url.path;
    if k == 0 then Rule(EndsWith(h, "do312.com") && Contains(p, "/events"), Query(url, "?page="), 2, 20)
    else if k == 1 then Rule(EndsWith(h, "timeout.com") && Contains(p, "/events"), Query(url, "?page="), 2, 20)
    else if k == 2 then Rule(EndsWith(h, "choosechicago.com") && Contains(p, "/events"), PagePath(url), 2, 30)
    else if k == 3 then Rule(EndsWith(h, "chicagomag.com") && Contains(p, "things-to-do"), Query(url, "?_page="), 2, 20)
    else if k == 4 then Rule(EndsWith(h, "chicagoparkdistrict.com") && Contains(p, "/events"), Query(url, "?page="), 2, 30)
    else if k == 5 then Rule(EndsWith(h, "chipublib.org") && Contains(p, "/events"), Query(url, "?page="), 2, 20)
    else if k == 6 then Rule(EndsWith(h, "lpzoo.org") && Contains(p, "/events"), PagePath(url), 2, 10)
    else if k == 7 then Rule(EndsWith(h, "navypier.org") && Contains(p, "/events"), PagePath(url), 2, 12)
    else if k == 8 then Rule(EndsWith(h, "events.uchicago.edu") || EndsWith(h, "uchicago.edu"), Query(url, "?page="), 2, 20)
    else if k == 9 then Rule(EndsWith(h, "planitpurple.northwestern.edu"), Query(url, "?page="), 2, 20)
    else if k == 10 then Rule(EndsWith(h, "events.depaul.edu"), Query(url, "?page="), 2, 20)
    else Rule(EndsWith(h, "uic.edu") && Contains(p, "/events"), Query(url, "?page="), 2, 20)
  }

  /** `if (cond) pushPattern(builder, from, to)` on the set built so far. */
  function Apply(out: seq<string>, r: Rule): seq<string> {
    if r.fires then AddAll(out, Series(r.pattern, r.from, r.to)) else out
  }

  /** The domain rules for one address, in the order the script tries them. */
  function Rules(url: UrlParts): (r: seq<Rule>)
    ensures |r| == RULE_COUNT
    ensures forall k :: 0 <= k < RULE_COUNT ==> r[k] == RuleAt(url, k)
  {
    seq(RULE_COUNT, k requires 0 <= k < RULE_COUNT => RuleAt(url, k))
  }

  /** Applying the rules from the `k`-th on to the set built so far. */
  function ApplyFrom(out: seq<string>, rules: seq<Rule>, k: nat): seq<string>
    requires k <= |rules|
    decreases |rules| - k
  {
    if k == |rules| then out else ApplyFrom(Apply(out, rules[k]), rules, k + 1)
  }

  /** Reference definition of `expandUrl(u)`. */
  function Expand(parseUrl: string -> Option<UrlParts>, u: string): seq<string> {
    if parseUrl(u).None? then [u] else ApplyFrom([u], Rules(parseUrl(u).value), 0)
  }

  /** `if (cond) pushPattern(builder, from, to)` */
  method ApplyRule(out: seq<string>, rule: Rule) returns (r: seq<string>)
    ensures r == Apply(out, rule)
  {
    r := out;
    if rule.fires {
      r := PushPattern(out, rule.pattern, rule.from, rule.to);
    }
  }

  /** `expandUrl(u)`: the URL itself, then the pages of every rule that fires. */
  method ExpandUrl(parseUrl: string -> Option<UrlParts>, u: string) returns (out: seq<string>)
    ensures out == Expand(parseUrl, u)
  {
    out := [u];
    if parseUrl(u).None? {
      return;
    }
    var url := parseUrl(u).value;
    ghost var rules := Rules(url);
    ghost var goal := ApplyFrom(out, rules, 0);
    out := ApplyRule(out, RuleAt(url, 0));
    assert ApplyFrom(out, rules, 1) == goal;
    out := ApplyRule(out, RuleAt(url, 1));
    assert ApplyFrom(out, rules, 2) == goal;
    out := ApplyRule(out, RuleAt(url, 2));
    assert ApplyFrom(out, rules, 3) == goal;
    out := ApplyRule(out, RuleAt(url, 3));
    assert ApplyFrom(out, rules, 4) == goal;
    out := ApplyRule(out, RuleAt(url, 4));
    assert ApplyFrom(out, rules, 5) == goal;
    out := ApplyRule(out, RuleAt(url, 5));
    assert ApplyFrom(out, rules, 6) == goal;
    out := ApplyRule(out, RuleAt(url, 6));
    assert ApplyFrom(out, rules, 7) == goal;
    out := ApplyRule(out, RuleAt(url, 7));
    assert ApplyFrom(out, rules, 8) == goal;
    out := ApplyRule(out, RuleAt(url, 8));
    assert ApplyFrom(out, rules, 9) == goal;
    out := ApplyRule(out, RuleAt(url, 9));
    assert ApplyFrom(out, rules, 10) == goal;
    out := ApplyRule(out, RuleAt(url, 10));
    assert ApplyFrom(out, rules, 11) == goal;
    out := ApplyRule(out, RuleAt(url, 11));
    assert ApplyFrom(out, rules, 12) == goal;
  }

  /** The pages of the rules from the `k`-th on that fire, in rule order. */
  function Pages(rules: seq<Rule>, k: nat): seq<string>
    requires k <= |rules|
    decreases |rules| - k
  {
    if k == |rules| then []
    else
      var r := rules[k];
      (if r.fires then Series(r.pattern, r.from, r.to) else []) + Pages(rules, k + 1)
  }

  /** Applying the rules one by one is adding all their pages to the set. */
  lemma {:induction false} ApplyFromAddsPages(out: seq<string>, rules: seq<Rule>, k: nat)
    requires k <= |rules|
    ensures ApplyFrom(out, rules, k) == AddAll(out, Pages(rules, k))
    decreases |rules| - k
  {
    if k < |rules| {
      var r := rules[k];
      var s := if r.fires then Series(r.pattern, r.from, r.to) else [];
      ApplyFromAddsPages(Apply(out, r), rules, k + 1);
      AddAllAppend(out, s, Pages(rules, k + 1));
    }
  }

  /** `x` is one of the pages rule `r` adds. */
  ghost predicate BuiltBy(r: Rule, x: string) {
    r.fires && exists i :: r.from <= i <= r.to && x == Build(r.pattern, i)
  }

  lemma SeriesMembers(p: Pattern, lo: nat, hi: nat, x: string)
    ensures x in Series(p, lo, hi) <==> exists i :: lo <= i <= hi && x == Build(p, i)
  {
    var s := Series(p, lo, hi);
    if x in s {
      var j :| 0 <= j < |s| && s[j] == x;
      assert lo <= lo + j <= hi && x == Build(p, lo + j);
    }
    forall i | lo <= i <= hi && x == Build(p, i) ensures x in s {
      assert s[i - lo] == x;
    }
  }

  /** A string is a page from the `k0`-th rule on exactly when some rule
      from there fires and builds it from a number in its range. */
  lemma {:induction false} PagesMembers(rules: seq<Rule>, k0: nat, x: string)
    requires k0 <= |rules|
    ensures x in Pages(rules, k0) <==> exists k :: k0 <= k < |rules| && BuiltBy(rules[k], x)
    decreases |rules| - k0
  {
    if k0 < |rules| {
      PagesMembers(rules, k0 + 1, x);
      var r := rules[k0];
      var s := if r.fires then Series(r.pattern, r.from, r.to) else [];
      assert Pages(rules, k0) == s + Pages(rules, k0 + 1);
      SeriesMembers(r.pattern, r.from, r.to, x);
      assert x in s <==> BuiltBy(r, x);
      if x in Pages(rules, k0) && x in s {
        assert BuiltBy(rules[k0], x);
      }
      if exists k :: k0 <= k < |rules| && BuiltBy(rules[k], x) {
        var k :| k0 <= k < |rules| && BuiltBy(rules[k], x);
        if k == k0 {
          assert x in s;
        } else {
          assert x in Pages(rules, k0 + 1);
        }
      }
    }
  }

  lemma {:induction false} PagesNone(rules: seq<Rule>, k: nat)
    requires k <= |rules|
    requires forall j :: k <= j < |rules| ==> !rules[j].fires
    ensures Pages(rules, k) == []
    decreases |rules| - k
  {
    if k < |rules| {
      PagesNone(rules, k + 1);
    }
  }

  /** Applying any rules to `[u]` keeps `u` first, adds no string twice and
      adds exactly the pages of the rules that fire. */
  lemma ApplyFromProperties(u: string, rules: seq<Rule>)
    ensures |ApplyFrom([u], rules, 0)| >= 1 && ApplyFrom([u], rules, 0)[0] == u
    ensures Distinct(ApplyFrom([u], rules, 0))
    ensures forall x :: x in ApplyFrom([u], rules, 0) <==> x == u || x in Pages(rules, 0)
    ensures (forall k :: 0 <= k < |rules| ==> !rules[k].fires) ==> ApplyFrom([u], rules, 0) == [u]
  {
    var ps := Pages(rules, 0);
    ApplyFromAddsPages([u], rules, 0);
    AddAllProperties([u], ps);
    var r := AddAll([u], ps);
    assert r[0] == r[..1][0] == u;
    assert Distinct([u]);
    forall x ensures x in r <==> x == u || x in ps {
      assert x in [u] <==> x == u;
    }
    if forall k :: 0 <= k < |rules| ==> !rules[k].fires {
      PagesNone(rules, 0);
    }
  }

  /** `expandUrl(u)` starts with `u`, holds no string twice, and holds
      besides `u` exactly the pages of the rules that fire; an address the
      URL parser rejects, or one no rule matches, comes back alone. */
  lemma ExpandProperties(parseUrl: string -> Option<UrlParts>, u: string)
    ensures |Expand(parseUrl, u)| >= 1 && Expand(parseUrl, u)[0] == u
    ensures Distinct(Expand(parseUrl, u))
    ensures parseUrl(u).None? ==> Expand(parseUrl, u) == [u]
    ensures parseUrl(u).Some? ==> forall x :: x in Expand(parseUrl, u) <==>
      x == u || x in Pages(Rules(parseUrl(u).value), 0)
    ensures parseUrl(u).Some? && (forall k :: 0 <= k < RULE_COUNT ==> !RuleAt(parseUrl(u).value, k).fires) ==>
      Expand(parseUrl, u) == [u]
  {
    if parseUrl(u).Some? {
      var rules := Rules(parseUrl(u).value);
      assert Expand(parseUrl, u) == ApplyFrom([u], rules, 0);
      ApplyFromProperties(u, rules);
    } else {
      assert Expand(parseUrl, u) == [u];
      assert Distinct([u]);
    }
  }

  /** Every page of a rule that fires is in `expandUrl(u)`. */
  lemma RulePageListed(parseUrl: string -> Option<UrlParts>, u: string, k: nat, i: nat)
    requires parseUrl(u).Some? && k < RULE_COUNT
    requires RuleAt(parseUrl(u).value, k).fires
    requires RuleAt(parseUrl(u).value, k).from <= i <= RuleAt(parseUrl(u).value, k).to
    ensures Build(RuleAt(parseUrl(u).value, k).pattern, i) in Expand(parseUrl, u)
  {
    var rules := Rules(parseUrl(u).value);
    PagesMembers(rules, 0, Build(rules[k].pattern, i));
    assert BuiltBy(rules[k], Build(rules[k].pattern, i));
    ExpandProperties(parseUrl, u);
  }

  /** The number of pages the rules from the `k`-th on can add. */
  function Span(rules: seq<Rule>, k: nat): nat
    requires k <= |rules|
    decreases |rules| - k
  {
    if k == |rules| then 0
    else (if rules[k].to < rules[k].from then 0 else rules[k].to - rules[k].from + 1) + Span(rules, k + 1)
  }

  lemma {:induction false} PagesBound(rules: seq<Rule>, k: nat)
    requires k <= |rules|
    ensures |Pages(rules, k)| <= Span(rules, k)
    decreases |rules| - k
  {
    if k < |rules| {
      PagesBound(rules, k + 1);
    }
  }

  /** The last page number of the `k`-th rule: 30 for rules 2 and 4, 10
      and 12 for rules 6 and 7, 20 for the others. */
  function LastPage(k: nat): nat {
    if k == 2 || k == 4 then 30 else if k == 6 then 10 else if k == 7 then 12 else 20
  }

  /** Every rule counts from 2 to its last page. */
  lemma RuleRanges(url: UrlParts, k: nat)
    requires k < RULE_COUNT
    ensures RuleAt(url, k).from == 2
    ensures RuleAt(url, k).to == LastPage(k)
  {
  }

  /** Rules with those ranges add at most 230 pages. */
  lemma RangesSpan(rules: seq<Rule>)
    requires |rules| == RULE_COUNT
    requires forall k :: 0 <= k < RULE_COUNT ==> rules[k].from == 2 && rules[k].to == LastPage(k)
    ensures Span(rules, 0) == 230
  {
    assert Span(rules, 12) == 0;
    assert Span(rules, 11) == 19;
    assert Span(rules, 10) == 38;
    assert Span(rules, 9) == 57;
    assert Span(rules, 8) == 76;
    assert Span(rules, 7) == 87;
    assert Span(rules, 6) == 96;
    assert Span(rules, 5) == 115;
    assert Span(rules, 4) == 144;
    assert Span(rules, 3) == 163;
    assert Span(rules, 2) == 192;
    assert Span(rules, 1) == 211;
  }

  /** One address expands to at most 231 strings: itself and the 230 pages
      of the twelve rules. */
  lemma ExpandBound(parseUrl: string -> Option<UrlParts>, u: string)
    ensures |Expand(parseUrl, u)| <= 231
  {
    if parseUrl(u).Some? {
      var rules := Rules(parseUrl(u).value);
      ApplyFromAddsPages([u], rules, 0);
      AddAllProperties([u], Pages(rules, 0));
      PagesBound(rules, 0);
      forall k | 0 <= k < RULE_COUNT
        ensures rules[k].from == 2
        ensures rules[k].to == LastPage(k)
      {
        RuleRanges(parseUrl(u).value, k);
      }
      RangesSpan(rules);
    }
  }

  lemma EndsWithSuffix(s: string, a: string, b: string)
    requires EndsWith(s, a + b)
    ensures EndsWith(s, b)
  {
    assert s[|s| - |b|..] == s[|s| - |a + b|..][|a|..];
  }

  /** The University of Chicago rule fires exactly for hosts ending in
      `uchicago.edu`: its first alternative implies the second. */
  lemma UchicagoRule(url: UrlParts)
    ensures RuleAt(url, 8).fires <==> EndsWith(url.host, "uchicago.edu")
  {
    if EndsWith(url.host, "events.uchicago.edu") {
      assert "events.uchicago.edu" == "events." + "uchicago.edu";
      EndsWithSuffix(url.host, "events.", "uchicago.edu");
    }
  }

  /** `s.replace(/\r?$/, '')` on a piece followed by a line break. */
  function DropCR(s: string): (r: string)
    ensures s == r || s == r + "\r"
  {
    if |s| > 0 && s[|s| - 1] == '\r' then s[..|s| - 1] else s
  }

  /** `text.split(/\r?\n/)`: the pieces between line feeds, each but the last
      without the carriage return before its line feed. */
  function SplitLines(text: string): (r: seq<string>)
    ensures |r| == |Split(text, '\n')| >= 1
    ensures forall i :: 0 <= i < |r| ==> '\n' !in r[i]
  {
    var ps := Split(text, '\n');
    seq(|ps|, i requires 0 <= i < |ps| => if i < |ps| - 1 then DropCR(ps[i]) else ps[i])
  }

  function NonEmptyFn(): string -> bool {
    (s: string) => s != ""
  }

  /** `.split(/\r?\n/).map(s => s.trim()).filter(Boolean)` */
  function SeedLines(text: string): (r: seq<string>)
    ensures |r| <= |SplitLines(text)|
    ensures forall i :: 0 <= i < |r| ==> r[i] != ""
  {
    Filter(Map(SplitLines(text), Trim), NonEmptyFn())
  }

  /** Every seed line is the trim of a line of the file: no white space at
      either end and no line feed inside. */
  lemma SeedLinesTrimmed(text: string, x: string)
    requires x in SeedLines(text)
    ensures x != [] && !IsSpace(x[0]) && !IsSpace(x[|x| - 1])
    ensures '\n' !in x
    ensures exists i :: 0 <= i < |SplitLines(text)| && x == Trim(SplitLines(text)[i])
  {
    var ls := SplitLines(text);
    FilterMembers(Map(ls, Trim), NonEmptyFn(), x);
    var i :| 0 <= i < |ls| && Map(ls, Trim)[i] == x;
    assert '\n' !in ls[i];
  }

  function ExpandFn(parseUrl: string -> Option<UrlParts>): string -> seq<string> {
    u => Expand(parseUrl, u)
  }

  /** All the strings the seed lines expand to, line by line. */
  function Expanded(parseUrl: string -> Option<UrlParts>, lines: seq<string>): seq<string> {
    Concat(lines, ExpandFn(parseUrl))
  }

  /** The loops of `main()`: every expansion of every line added to one set. */
  method ExpandAll(parseUrl: string -> Option<UrlParts>, lines: seq<string>) returns (out: seq<string>)
    ensures out == AddAll([], Expanded(parseUrl, lines))
  {
    out := [];
    var i := 0;
    while i < |lines|
      invariant 0 <= i <= |lines|
      invariant out == AddAll([], Expanded(parseUrl, lines[..i]))
    {
      var vs := ExpandUrl(parseUrl, lines[i]);
      ghost var before := out;
      var j := 0;
      while j < |vs|
        invariant 0 <= j <= |vs|
        invariant out == AddAll(before, vs[..j])
      {
        AddAllSnoc(before, vs[..j], vs[j]);
        assert vs[..j + 1] == vs[..j] + [vs[j]];
        out := Add(out, vs[j]);
        j := j + 1;
      }
      assert vs[..j] == vs;
      assert lines[..i + 1][..i] == lines[..i];
      AddAllAppend([], Expanded(parseUrl, lines[..i]), vs);
      i := i + 1;
    }
    assert lines[..i] == lines;
  }

  lemma ExpandedMembers(parseUrl: string -> Option<UrlParts>, lines: seq<string>, x: string)
    ensures x in Expanded(parseUrl, lines) <==> exists j :: 0 <= j < |lines| && x in Expand(parseUrl, lines[j])
  {
    ConcatMembers(lines, ExpandFn(parseUrl), x);
  }

  lemma {:induction false} ExpandedShape(parseUrl: string -> Option<UrlParts>, lines: seq<string>)
    ensures |Expanded(parseUrl, lines)| <= 231 * |lines|
    ensures |lines| > 0 ==> |Expanded(parseUrl, lines)| > 0 && Expanded(parseUrl, lines)[0] == lines[0]
    decreases |lines|
  {
    if |lines| > 0 {
      var n := |lines| - 1;
      ExpandedShape(parseUrl, lines[..n]);
      ExpandBound(parseUrl, lines[n]);
      ExpandProperties(parseUrl, lines[n]);
    }
  }

  lemma LineListed(parseUrl: string -> Option<UrlParts>, lines: seq<string>, j: nat)
    requires j < |lines|
    ensures lines[j] in Expanded(parseUrl, lines)
  {
    ExpandProperties(parseUrl, lines[j]);
    ExpandedMembers(parseUrl, lines, lines[j]);
  }

  /** The first element added to an empty set is its first element. */
  lemma AddAllFirst<T>(xs: seq<T>)
    requires |xs| > 0
    ensures |AddAll([], xs)| > 0 && AddAll([], xs)[0] == xs[0]
  {
    AddAllAppend([], [xs[0]], xs[1..]);
    assert [xs[0]] + xs[1..] == xs;
    assert AddAll([], [xs[0]]) == Add(AddAll([], []), xs[0]);
    AddAllProperties([xs[0]], xs[1..]);
  }

  /** The generated seed list holds exactly the expansions of the seed
      lines, so every seed line is kept. */
  lemma SeedsMembers(parseUrl: string -> Option<UrlParts>, lines: seq<string>, x: string)
    ensures x in AddAll([], Expanded(parseUrl, lines)) <==>
      exists j :: 0 <= j < |lines| && x in Expand(parseUrl, lines[j])
    ensures forall j :: 0 <= j < |lines| ==> lines[j] in AddAll([], Expanded(parseUrl, lines))
  {
    var xs := Expanded(parseUrl, lines);
    AddAllProperties([], xs);
    ExpandedMembers(parseUrl, lines, x);
    forall j | 0 <= j < |lines| ensures lines[j] in xs {
      LineListed(parseUrl, lines, j);
    }
  }

  /** The generated seed list holds no address twice, starts with the first
      seed line, and is at most 231 times as long as the seed list. */
  lemma SeedsShape(parseUrl: string -> Option<UrlParts>, lines: seq<string>)
    ensures Distinct(AddAll([], Expanded(parseUrl, lines)))
    ensures |lines| > 0 ==> |AddAll([], Expanded(parseUrl, lines))| > 0 && AddAll([], Expanded(parseUrl, lines))[0] == lines[0]
    ensures |AddAll([], Expanded(parseUrl, lines))| <= 231 * |lines|
  {
    var xs := Expanded(parseUrl, lines);
    AddAllProperties([], xs);
    ExpandedShape(parseUrl, lines);
    if |lines| > 0 {
      AddAllFirst(xs);
    }
  }

  /** What a run of the script does. */
  datatype Outcome =
    | Crash    // the seed file cannot be read: the script throws
    | Wrote(path: string, content: string, seeds: nat, generated: nat)

  /** `process.argv[2]`, else `sources/seeds.txt` under the working directory. */
  function InPath(cwd: string, arg: Option<string>): string {
    if Truthy(arg) then arg.value else cwd + "/sources/seeds.txt"
  }

  /** `process.argv[3]`, else `sources/seeds.generated.txt` under the working directory. */
  function OutPath(cwd: string, arg: Option<string>): string {
    if Truthy(arg) then arg.value else cwd + "/sources/seeds.generated.txt"
  }

  /** `main()`: the seed file is read as text, expanded, and written back one
      address per line with a final line feed. */
  method Run(parseUrl: string -> Option<UrlParts>, cwd: string, inArg: Option<string>, outArg: Option<string>,
             readText: string -> Option<string>) returns (o: Outcome)
    ensures readText(InPath(cwd, inArg)).None? <==> o == Crash
    ensures o.Wrote? ==>
      var lines := SeedLines(readText(InPath(cwd, inArg)).value);
      var out := AddAll([], Expanded(parseUrl, lines));
      o == Wrote(OutPath(cwd, outArg), Join(out, "\n") + "\n", |lines|, |out|)
  {
    var text := readText(InPath(cwd, inArg));
    if text.None? {
      return Crash;
    }
    var lines := SeedLines(text.value);
    var out := ExpandAll(parseUrl, lines);
    o := Wrote(OutPath(cwd, outArg), Join(out, "\n") + "\n", |lines|, |out|);
  }
}
