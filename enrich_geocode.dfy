/** scripts/enrich-geocode.js: give coordinates to the events that have none,
    first from a table of known venues, then from a geocoding service whose
    answers are cached and whose use is capped at 80 lookups per run. */
module EnrichGeocode {
  import opened Wrappers
  import opened Strings
  import opened Events
  import MergeDatasets

  /** An entry of the venue table: its name and its two coordinates, either
      of which may be missing. */
  datatype Venue = Venue(name: string, lat: Option<real>, lon: Option<real>)

  /** A point the geocoder found. */
  datatype Coord = Coord(lat: real, lon: real)

  /** At most this many geocoder lookups per run. */
  const MAX_LOOKUPS: nat := 80
  /** Location texts shorter than this are not sent to the geocoder. */
  const MIN_QUERY: nat := 6

  /** `typeof ev.latitude === 'number' && typeof ev.longitude === 'number'` */
  predicate HasLatLon(e: Event) {
    e.latitude.Some? && e.longitude.Some?
  }

  /** One entry of `index`: the venue with its name in lower case. */
  function IndexEntry(v: Venue): (r: Venue)
    ensures r.name == Lower(v.name) && r.lat == v.lat && r.lon == v.lon
  {
    v.(name := Lower(v.name))
  }

  /** `venueMap.map(...)`: the venues in table order, names in lower case. */
  function Index(venues: seq<Venue>): (r: seq<Venue>)
    ensures |r| == |venues|
    ensures forall i :: 0 <= i < |r| ==> r[i] == IndexEntry(venues[i])
    decreases |venues|
  {
    if |venues| == 0 then [] else [IndexEntry(venues[0])] + Index(venues[1..])
  }

  /** The position of the first venue whose name occurs in `t`, or -1. */
  function MatchIndex(index: seq<Venue>, t: string): (r: int)
    ensures -1 <= r < |index|
    ensures r == -1 <==> forall j :: 0 <= j < |index| ==> !Contains(t, index[j].name)
    ensures 0 <= r ==> Contains(t, index[r].name) && forall j :: 0 <= j < r ==> !Contains(t, index[j].name)
    decreases |index|
  {
    if |index| == 0 then -1
    else if Contains(t, index[0].name) then 0
    else
      var r := MatchIndex(index[1..], t);
      if r < 0 then -1 else r + 1
  }

  /** What `tryMatchLocation(text)` returns: nothing for an absent or empty
      text, else the first venue whose name occurs in the lower-cased text. */
  function MatchLocation(index: seq<Venue>, text: Option<string>): (r: Option<Venue>)
    ensures !Truthy(text) ==> r == None
    ensures r.Some? ==> r.value in index && Contains(Lower(text.value), r.value.name)
    ensures Truthy(text) && r.None? ==> forall v :: v in index ==> !Contains(Lower(text.value), v.name)
  {
    if !Truthy(text) then None
    else
      var k := MatchIndex(index, Lower(text.value));
      if k < 0 then None else Some(index[k])
  }

  /** `tryMatchLocation(text)` */
  method TryMatchLocation(index: seq<Venue>, text: Option<string>) returns (m: Option<Venue>)
    ensures m == MatchLocation(index, text)
  {
    if !Truthy(text) {
      return None;
    }
    var t := Lower(text.value);
    var i := 0;
    while i < |index|
      invariant 0 <= i <= |index|
      invariant forall j :: 0 <= j < i ==> !Contains(t, index[j].name)
    {
      if Contains(t, index[i].name) {
        return Some(index[i]);
      }
      i := i + 1;
    }
    return None;
  }

  /** The cache key of a query: `query.toLowerCase().trim()`. */
  function CacheKey(q: string): string {
    Trim(Lower(q))
  }

  /** What one call of `geocodeNominatim` returns, and the cache after it. */
  datatype Lookup = Lookup(coord: Option<Coord>, cache: map<string, Coord>)

  /** `geocodeNominatim(query)`: a cached answer for the key when there is
      one; otherwise the service is asked about `query, Chicago, IL`, and a
      hit is stored under the key. `search` stands for the HTTP request:
      None when the response is not OK or holds no hit with both coordinates. */
  function Geocode(search: string -> Option<Coord>, cache: map<string, Coord>, q: string): (r: Lookup)
    ensures CacheKey(q) in cache ==> r == Lookup(Some(cache[CacheKey(q)]), cache)
    ensures CacheKey(q) !in cache ==> r.coord == search(q + ", Chicago, IL")
    ensures r.coord.Some? ==> CacheKey(q) in r.cache && r.cache[CacheKey(q)] == r.coord.value
    ensures r.coord.None? ==> r.cache == cache
    ensures forall k :: k in cache ==> k in r.cache && r.cache[k] == cache[k]
    ensures forall k :: k in r.cache ==> k in cache || k == CacheKey(q)
  {
    var key := CacheKey(q);
    if key in cache then Lookup(Some(cache[key]), cache)
    else
      match search(q + ", Chicago, IL")
      case None => Lookup(None, cache)
      case Some(c) => Lookup(Some(c), cache[key := c])
  }

  /** A query is answered at most once by the service: asking again with the
      same key, against whatever search, gives the same answer and leaves
      the cache as it is. */
  lemma GeocodeRemembers(search: string -> Option<Coord>, search2: string -> Option<Coord>,
                         cache: map<string, Coord>, q: string, q2: string)
    requires Geocode(search, cache, q).coord.Some?
    requires CacheKey(q2) == CacheKey(q)
    ensures Geocode(search2, Geocode(search, cache, q).cache, q2) == Geocode(search, cache, q)
  {
  }

  /** The counters and the cache the loop carries. */
  datatype State = State(cache: map<string, Coord>, updated: nat, lookedUp: nat)

  datatype Step = Step(event: Event, state: State)

  /** `cache2` holds every entry of `cache1`, unchanged. */
  predicate Extends(cache1: map<string, Coord>, cache2: map<string, Coord>) {
    forall k :: k in cache1 ==> k in cache2 && cache2[k] == cache1[k]
  }

  /** The event with the given coordinates. */
  function Located(e: Event, lat: real, lon: real): Event {
    e.(latitude := Some(lat), longitude := Some(lon))
  }

  /** One turn of the loop over the events. An event with coordinates is left
      alone; then a venue match with both coordinates wins; then, while the
      budget lasts, a location text of at least six characters is geocoded
      and counts as a lookup whether or not it is found. The query is the
      location text in both arms of the address test, so the test does not
      change it. */
  function EnrichOne(index: seq<Venue>, search: string -> Option<Coord>, e: Event, st: State): Step {
    if HasLatLon(e) then Step(e, st)
    else
      var m := MatchLocation(index, e.location);
      if m.Some? && m.value.lat.Some? && m.value.lon.Some? then
        Step(Located(e, m.value.lat.value, m.value.lon.value), st.(updated := st.updated + 1))
      else LookUpStep(search, e, st)
  }

  /** The rest of the turn, for an event the venue table did not place:
      while the budget lasts, a location text of at least six characters is
      geocoded and counts as a lookup whether or not it is found. */
  function LookUpStep(search: string -> Option<Coord>, e: Event, st: State): Step {
    if st.lookedUp >= MAX_LOOKUPS then Step(e, st)
    else
      var q := OrEmpty(e.location);
      if |q| < MIN_QUERY then Step(e, st)
      else
        var geo := Geocode(search, st.cache, q);
        var st' := State(geo.cache, st.updated + (if geo.coord.Some? then 1 else 0), st.lookedUp + 1);
        if geo.coord.Some? then Step(Located(e, geo.coord.value.lat, geo.coord.value.lon), st')
        else Step(e, st')
  }

  datatype Pass = Pass(events: seq<Event>, state: State)

  /** The loop over `events` from the state `st0`. */
  function Enrich(index: seq<Venue>, search: string -> Option<Coord>, events: seq<Event>, st0: State): (r: Pass)
    ensures |r.events| == |events|
    decreases |events|
  {
    if |events| == 0 then Pass([], st0)
    else
      var p := Enrich(index, search, events[..|events| - 1], st0);
      var s := EnrichOne(index, search, events[|events| - 1], p.state);
      Pass(p.events + [s.event], s.state)
  }

  /** One event: it keeps everything but its coordinates, keeps those too when
      it had both, gains both exactly when `updated` grows, costs at most one
      lookup and only below the cap, and the cache only grows. */
  lemma EnrichOneProperties(index: seq<Venue>, search: string -> Option<Coord>, e: Event, st: State)
    ensures var s := EnrichOne(index, search, e, st);
      && (s.event == e || exists lat, lon :: s.event == Located(e, lat, lon))
      && (HasLatLon(e) ==> s == Step(e, st))
      && (s.state.updated == st.updated + 1 <==> !HasLatLon(e) && HasLatLon(s.event))
      && (s.state.updated == st.updated || s.state.updated == st.updated + 1)
      && (s.state.lookedUp == st.lookedUp || (st.lookedUp < MAX_LOOKUPS && s.state.lookedUp == st.lookedUp + 1))
      && Extends(st.cache, s.state.cache)
  {
  }

  /** A location naming a venue that has both coordinates gets the
      coordinates of the first such name in the table, without a lookup. */
  lemma VenueWins(index: seq<Venue>, search: string -> Option<Coord>, e: Event, st: State)
    requires !HasLatLon(e) && Truthy(e.location)
    requires var k := MatchIndex(index, Lower(e.location.value));
      0 <= k && index[k].lat.Some? && index[k].lon.Some?
    ensures var v := index[MatchIndex(index, Lower(e.location.value))];
      EnrichOne(index, search, e, st) == Step(Located(e, v.lat.value, v.lon.value), st.(updated := st.updated + 1))
  {
  }

  /** The number of positions where `before` had no coordinates and `after` has. */
  function Gained(before: seq<Event>, after: seq<Event>): (n: nat)
    requires |before| == |after|
    ensures n <= |before|
    decreases |before|
  {
    if |before| == 0 then 0
    else
      var k := |before| - 1;
      Gained(before[..k], after[..k]) + (if !HasLatLon(before[k]) && HasLatLon(after[k]) then 1 else 0)
  }

  /** The whole loop: lookups never exceed the cap, `updated` counts exactly
      the events that gained coordinates, events that had coordinates are
      untouched, the others change at most their coordinates, and the cache
      keeps every entry it was loaded with. */
  lemma EnrichProperties(index: seq<Venue>, search: string -> Option<Coord>, events: seq<Event>, st0: State)
    requires st0.lookedUp <= MAX_LOOKUPS
    ensures var r := Enrich(index, search, events, st0);
      && r.state.lookedUp <= MAX_LOOKUPS
      && r.state.updated == st0.updated + Gained(events, r.events)
      && (forall i :: 0 <= i < |events| && HasLatLon(events[i]) ==> r.events[i] == events[i])
      && (forall i :: 0 <= i < |events| ==>
            r.events[i] == events[i] || exists lat, lon :: r.events[i] == Located(events[i], lat, lon))
      && Extends(st0.cache, r.state.cache)
  {
    EnrichState(index, search, events, st0);
    EnrichCounts(index, search, events, st0);
    EnrichChanges(index, search, events, st0);
  }

  /** Lookups stay under the cap and the cache only grows. */
  lemma {:induction false} EnrichState(index: seq<Venue>, search: string -> Option<Coord>, events: seq<Event>, st0: State)
    requires st0.lookedUp <= MAX_LOOKUPS
    ensures var r := Enrich(index, search, events, st0);
      r.state.lookedUp <= MAX_LOOKUPS && Extends(st0.cache, r.state.cache)
    decreases |events|
  {
    if |events| > 0 {
      var k := |events| - 1;
      var p := Enrich(index, search, events[..k], st0);
      EnrichState(index, search, events[..k], st0);
      EnrichOneProperties(index, search, events[k], p.state);
    }
  }

  /** `updated` grows by the number of events that gained coordinates. */
  lemma {:induction false} EnrichCounts(index: seq<Venue>, search: string -> Option<Coord>, events: seq<Event>, st0: State)
    ensures var r := Enrich(index, search, events, st0);
      r.state.updated == st0.updated + Gained(events, r.events)
    decreases |events|
  {
    if |events| > 0 {
      var k := |events| - 1;
      var init := events[..k];
      var p := Enrich(index, search, init, st0);
      EnrichCounts(index, search, init, st0);
      var s := EnrichOne(index, search, events[k], p.state);
      EnrichOneProperties(index, search, events[k], p.state);
      var r := Enrich(index, search, events, st0);
      assert r == Pass(p.events + [s.event], s.state);
      assert r.events[..k] == p.events;
    }
  }

  /** Events with coordinates are untouched; the others change at most
      their coordinates. */
  ghost predicate OnlyCoordsChanged(before: seq<Event>, after: seq<Event>)
    requires |before| == |after|
  {
    && (forall i :: 0 <= i < |before| && HasLatLon(before[i]) ==> after[i] == before[i])
    && (forall i :: 0 <= i < |before| ==>
          after[i] == before[i] || exists lat, lon :: after[i] == Located(before[i], lat, lon))
  }

  lemma ChangesSnoc(before: seq<Event>, after: seq<Event>, e: Event, a: Event)
    requires |before| == |after| && OnlyCoordsChanged(before, after)
    requires HasLatLon(e) ==> a == e
    requires a == e || exists lat, lon :: a == Located(e, lat, lon)
    ensures OnlyCoordsChanged(before + [e], after + [a])
  {
    var b2, a2 := before + [e], after + [a];
    forall i | 0 <= i < |b2|
      ensures HasLatLon(b2[i]) ==> a2[i] == b2[i]
      ensures a2[i] == b2[i] || exists lat, lon :: a2[i] == Located(b2[i], lat, lon)
    {
      if i < |before| {
        assert a2[i] == after[i] && b2[i] == before[i];
      }
    }
  }

  lemma {:induction false} EnrichChanges(index: seq<Venue>, search: string -> Option<Coord>, events: seq<Event>, st0: State)
    ensures OnlyCoordsChanged(events, Enrich(index, search, events, st0).events)
    decreases |events|
  {
    if |events| > 0 {
      var k := |events| - 1;
      var init := events[..k];
      var p := Enrich(index, search, init, st0);
      EnrichChanges(index, search, init, st0);
      var s := EnrichOne(index, search, events[k], p.state);
      EnrichOneProperties(index, search, events[k], p.state);
      assert Enrich(index, search, events, st0).events == p.events + [s.event];
      ChangesSnoc(init, p.events, events[k], s.event);
      assert init + [events[k]] == events;
    }
  }

  /** The body of the loop for one event. */
  method EnrichEvent(index: seq<Venue>, search: string -> Option<Coord>, ev: Event, st: State) returns (s: Step)
    ensures s == EnrichOne(index, search, ev, st)
  {
    s := Step(ev, st);
    if HasLatLon(ev) {
      return;
    }
    var m := TryMatchLocation(index, ev.location);
    if m.Some? && m.value.lat.Some? && m.value.lon.Some? {
      return Step(Located(ev, m.value.lat.value, m.value.lon.value), st.(updated := st.updated + 1));
    }
    s := LookUpEvent(search, ev, st);
  }

  /** The geocoding part of a loop turn. */
  method LookUpEvent(search: string -> Option<Coord>, ev: Event, st: State) returns (s: Step)
    ensures s == LookUpStep(search, ev, st)
  {
    s := Step(ev, st);
    if st.lookedUp >= MAX_LOOKUPS {
      return;
    }
    var q := OrEmpty(ev.location);
    if |q| < MIN_QUERY {
      return;
    }
    var geo := Geocode(search, st.cache, q);
    var st' := State(geo.cache, st.updated + (if geo.coord.Some? then 1 else 0), st.lookedUp + 1);
    if geo.coord.Some? {
      s := Step(Located(ev, geo.coord.value.lat, geo.coord.value.lon), st');
    } else {
      s := Step(ev, st');
    }
  }

  lemma EnrichSnoc(index: seq<Venue>, search: string -> Option<Coord>, es: seq<Event>, i: nat, st0: State)
    requires i < |es|
    ensures var p := Enrich(index, search, es[..i], st0);
      var s := EnrichOne(index, search, es[i], p.state);
      Enrich(index, search, es[..i + 1], st0) == Pass(p.events + [s.event], s.state)
  {
    assert es[..i + 1][..i] == es[..i];
  }

  /** The loop over the events, updating them in place. */
  method EnrichEvents(index: seq<Venue>, search: string -> Option<Coord>, events: array<Event>,
                      cache0: map<string, Coord>) returns (cache: map<string, Coord>, updated: nat, lookedUp: nat)
    modifies events
    ensures var r := Enrich(index, search, old(events[..]), State(cache0, 0, 0));
      events[..] == r.events && State(cache, updated, lookedUp) == r.state
  {
    ghost var start := events[..];
    var st := State(cache0, 0, 0);
    var i := 0;
    while i < events.Length
      invariant 0 <= i <= events.Length
      invariant events[i..] == start[i..]
      invariant var p := Enrich(index, search, start[..i], State(cache0, 0, 0));
        events[..i] == p.events && st == p.state
    {
      EnrichSnoc(index, search, start, i, State(cache0, 0, 0));
      assert events[i] == start[i];
      var s := EnrichEvent(index, search, events[i], st);
      events[i] := s.event;
      st := s.state;
      assert events[i + 1..] == start[i + 1..];
      assert events[..i + 1] == events[..i] + [s.event];
      i := i + 1;
    }
    assert start[..i] == start;
    assert events[..i] == events[..];
    cache, updated, lookedUp := st.cache, st.updated, st.lookedUp;
  }

  /** What a run leaves behind. */
  datatype Outcome =
    | Exit                // the events file is missing or unreadable, or its JSON value is false
    | Wrote(events: seq<Event>, cache: map<string, Coord>, updated: nat, lookedUp: nat)

  /** The events a loaded file yields: `loadJson` gives `null` when reading
      or parsing fails, and a false value stops the script. Otherwise an
      array is taken as it is, and anything else gives its `events` or
      nothing. */
  function LoadEvents(doc: MergeDatasets.Document): (r: Option<seq<Event>>)
    ensures r.None? <==> doc.Missing? || doc.Unparsable? || doc.NullDoc? || doc == MergeDatasets.Scalar(false)
    ensures r.Some? ==> r.value == MergeDatasets.Load(doc)
    ensures doc.Scalar? && doc.truthy ==> r == Some([])
  {
    match doc
    case ArrayDoc(items) => Some(items)
    case ObjectDoc(events) => Some(if events.Some? then events.value else [])
    case Scalar(truthy) => if truthy then Some([]) else None
    case _ => None
  }

  /** The script: load, enrich in place, and write the events and the cache back. */
  method Run(doc: MergeDatasets.Document, venues: seq<Venue>, cache0: map<string, Coord>,
             search: string -> Option<Coord>) returns (o: Outcome)
    ensures LoadEvents(doc).None? <==> o == Exit
    ensures o.Wrote? ==>
      var r := Enrich(Index(venues), search, LoadEvents(doc).value, State(cache0, 0, 0));
      o == Wrote(r.events, r.state.cache, r.state.updated, r.state.lookedUp)
  {
    var loaded := LoadEvents(doc);
    if loaded.None? {
      return Exit;
    }
    var events := new Event[|loaded.value|](i requires 0 <= i < |loaded.value| => loaded.value[i]);
    assert events[..] == loaded.value;
    var cache, updated, lookedUp := EnrichEvents(Index(venues), search, events, cache0);
    o := Wrote(events[..], cache, updated, lookedUp);
  }
}
